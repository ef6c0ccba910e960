/** Two short sessions in which a client loses the server's numbering: a message
    replaced by another between two polls, and a flagged message that someone
    else renames before it is expunged. The list on disk is any text that
    reads as the assignment given. */
module ImapExamples {
  import opened Text
  import opened Seqs
  import opened MaildirFlags
  import opened Maildir
  import opened MailboxRuns
  import opened ImapView
  import Appending
  import UidList

  const STAT := Stat(1, 12)
  const A := Path(Cur, "a")
  const B := Path(Cur, "b")

  lemma Names_()
    ensures BaseName("a") == "a" && BaseName("b") == "b" && Visible(A) && Visible(B)
  {
    Appending.ShortNames();
  }

  // ---- one message replaced by another between two polls ----

  /** The list text is any that reads as this. */
  const LISTED_A := UidList.Listing(map["a" := 1], 7, 2)

  lemma WrittenA()
    ensures UidList.Parse(UidList.Render(7, 2, [UidList.Entry(1, "a")])) == Some(LISTED_A)
  {
    var es := [UidList.Entry(1, "a")];
    assert es[0].base == "a";
    UidList.RoundTrip(map["a" := 1], 7, 2, es);
  }

  const BOX_A := Box([Message(1, 1, A, [], false, STAT)], 7, 2)

  function Alone(text: string): Session { Session(World(Disk(map[A := STAT], Some(text)), map[1 := "a"]), BOX_A, [1]) }
  function Emptied(text: string): Session { Session(World(Disk(map[], Some(text)), map[1 := "a"]), BOX_A, [1]) }
  function Replaced(text: string): Session { Session(World(Disk(map[B := STAT], Some(text)), map[1 := "a"]), BOX_A, [1]) }

  lemma OneName(files: map<Path, Stat>, p: Path, base: string)
    requires files == map[p := STAT] && Visible(p) && BaseName(p.name) == base
    requires UidList.Clean(base)
    ensures GoodNames(files) && forall b :: PresentIn(files, b) <==> b == base
  {
    assert p in files;
  }

  lemma BoxA()
    ensures Uids(BOX_A.messages) == [1] && BOX_A.messages[0].Base() == "a" && AllVisible(BOX_A.messages)
    ensures forall b :: HasBase(BOX_A.messages, b) <==> b == "a"
  {
    Names_();
  }

  lemma AloneInStep(text: string)
    requires UidList.Parse(text) == Some(LISTED_A)
    ensures InStep(Alone(text))
  {
    Names_();
    BoxA();
    OneName(map[A := STAT], A, "a");
    ShownA(map[A := STAT]);
    Assembled(Alone(text), text, LISTED_A);
  }

  lemma ShownA(files: map<Path, Stat>)
    requires forall b :: PresentIn(files, b) <==> b == "a"
    ensures ListInv(LISTED_A, map[1 := "a"]) && Ascending(Uids(BOX_A.messages))
    ensures Numbered(BOX_A.messages) && Names(BOX_A.messages, map[1 := "a"]) && AllVisible(BOX_A.messages)
    ensures Listed(BOX_A.messages, files, LISTED_A.uids)
    ensures AllPresent(BOX_A.messages, files) && OthersAbove(BOX_A.messages, files, LISTED_A.uids)
  {
    BoxA();
  }

  lemma Assembled(s: Session, text: string, l: UidList.Listing)
    requires s.w.disk.list == Some(text) && UidList.Parse(text) == Some(l)
    requires GoodNames(s.w.disk.files) && ListInv(l, s.w.issued)
    requires Numbered(s.box.messages) && Ascending(Uids(s.box.messages)) && Names(s.box.messages, s.w.issued) && AllVisible(s.box.messages)
    requires Listed(s.box.messages, s.w.disk.files, l.uids)
    requires AllPresent(s.box.messages, s.w.disk.files) && OthersAbove(s.box.messages, s.w.disk.files, l.uids)
    requires s.view == Uids(s.box.messages)
    ensures InStep(s)
  {
  }

  lemma ReplacedEvents(text: string)
    ensures Happens(Alone(text), Removed({A}), Emptied(text)) && !Harmless(Alone(text), Removed({A}))
    ensures Happens(Emptied(text), Arrive(B, STAT), Replaced(text))
  {
    Names_();
    BoxA();
    assert map[A := STAT] - {A} == map[];
    assert map[][B := STAT] == map[B := STAT];
    assert !PresentIn(map[], "b") && !PresentIn(map[], "a");
  }

  lemma ReplacedTracks(text: string)
    requires UidList.Parse(text) == Some(LISTED_A)
    ensures Tracks(BOX_A, Replaced(text).w) && !Announceable(BOX_A.messages, Replaced(text).w)
  {
    AloneInStep(text);
    ReplacedEvents(text);
    EventExactly(Alone(text), Removed({A}), Emptied(text));
    ArriveTracks(BOX_A, Emptied(text).w, B, STAT, Replaced(text).w);
  }

  lemma ReplacedRefresh(text: string, mint: nat) returns (found: seq<Found>, box: Box, w: World)
    requires mint < UINT32 && UidList.Parse(text) == Some(LISTED_A)
    ensures Next(Replaced(text).w, Refresh(mint, found, box), w) && |box.messages| == 1
  {
    Names_();
    found := [Found(B, STAT)];
    assert found[0].path == B;
    assert FoundPath(found, B);
    assert Bases(found) == ["b"] && ["b"][1..] == [];
    assert Unknown(map["a" := 1], ["b"]) == ["b"];
    box, w := Appending.RefreshExists(Replaced(text).w, mint, found);
  }

  /** Someone else removes the only message and another arrives: the next poll
      counts one message as before and says nothing. */
  lemma ReplacementUnseen(text: string, mint: nat) returns (poll: Event, s: Session)
    requires mint < UINT32 && UidList.Parse(text) == Some(LISTED_A)
    ensures InStep(Alone(text)) && Happens(Alone(text), Removed({A}), Emptied(text))
    ensures Happens(Emptied(text), Arrive(B, STAT), Replaced(text))
    ensures poll.Poll? && Happens(Replaced(text), poll, s)
    ensures Report(Replaced(text), poll) == [] && s.view == [1] && Uids(s.box.messages) != [1]
  {
    AloneInStep(text);
    ReplacedEvents(text);
    ReplacedTracks(text);
    BoxA();
    var found, box, w := ReplacedRefresh(text, mint);
    poll := Poll(mint, found, box);
    s := Session(w, box, [1]);
    ViewExactly(Replaced(text), poll, s);
  }

  // ---- a flagged message renamed behind the session's back ----

  const FLAGGED := Path(Cur, FileName("a", "T"))
  const SEEN_TOO := Path(Cur, FileName("a", "ST"))

  const LISTED_AB := UidList.Listing(map["a" := 1, "b" := 2], 7, 3)

  const BOX_AB := Box([Message(1, 1, FLAGGED, "T", false, STAT), Message(2, 2, B, [], false, STAT)], 7, 3)
  const ISSUED_AB: map<nat, string> := map[1 := "a", 2 := "b"]

  function Marked(text: string): Session {
    Session(World(Disk(map[FLAGGED := STAT, B := STAT], Some(text)), ISSUED_AB), BOX_AB, [1, 2])
  }

  function RenamedFile(text: string): Session {
    Session(World(Disk(map[SEEN_TOO := STAT, B := STAT], Some(text)), ISSUED_AB), BOX_AB, [1, 2])
  }

  /** The view and the snapshot after EXPUNGE; the folder is as before. */
  function ExpungedBox(text: string): Session {
    Session(RenamedFile(text).w, BOX_AB.(messages := AfterExpunge(BOX_AB.messages)), Uids(AfterExpunge(BOX_AB.messages)))
  }

  lemma WrittenAB()
    ensures UidList.Parse(UidList.Render(7, 3, [UidList.Entry(1, "a"), UidList.Entry(2, "b")])) == Some(LISTED_AB)
  {
    var es := [UidList.Entry(1, "a"), UidList.Entry(2, "b")];
    assert es[0].base == "a" && es[1].base == "b";
    UidList.RoundTrip(map["a" := 1, "b" := 2], 7, 3, es);
  }

  lemma FlagNames()
    ensures BaseName(FLAGGED.name) == "a" && BaseName(SEEN_TOO.name) == "a"
    ensures Visible(FLAGGED) && Visible(SEEN_TOO) && FLAGGED != SEEN_TOO && B != FLAGGED && B != SEEN_TOO
    ensures FlagPath(FLAGGED, "ST") == SEEN_TOO
  {
    Names_();
    RenameKeepsBase("a", "T");
    RenameKeepsBase("a", "ST");
    assert FLAGGED.name[|FLAGGED.name| - 2] == ',' && SEEN_TOO.name[|SEEN_TOO.name| - 2] == 'S';
    assert |FLAGGED.name| == 5 && |SEEN_TOO.name| == 6;
  }

  lemma TwoNames(files: map<Path, Stat>, p: Path)
    requires files == map[p := STAT, B := STAT] && p != B && Visible(p) && BaseName(p.name) == "a"
    ensures GoodNames(files)
    ensures forall b :: PresentIn(files, b) <==> b == "a" || b == "b"
  {
    Names_();
    assert p in files && B in files;
  }

  lemma BoxAB()
    ensures Uids(BOX_AB.messages) == [1, 2] && BOX_AB.messages[0].Base() == "a" && BOX_AB.messages[1].Base() == "b"
    ensures forall b :: HasBase(BOX_AB.messages, b) <==> b == "a" || b == "b"
  {
    Names_();
    FlagNames();
  }

  lemma MarkedInStep(text: string)
    requires UidList.Parse(text) == Some(LISTED_AB)
    ensures InStep(Marked(text))
  {
    FlagNames();
    BoxAB();
    TwoNames(map[FLAGGED := STAT, B := STAT], FLAGGED);
    ShownAB(map[FLAGGED := STAT, B := STAT]);
    Assembled(Marked(text), text, LISTED_AB);
  }

  lemma ShownAB(files: map<Path, Stat>)
    requires forall b :: PresentIn(files, b) <==> b == "a" || b == "b"
    ensures ListInv(LISTED_AB, ISSUED_AB) && Ascending(Uids(BOX_AB.messages))
    ensures Numbered(BOX_AB.messages) && Names(BOX_AB.messages, ISSUED_AB) && AllVisible(BOX_AB.messages)
    ensures Listed(BOX_AB.messages, files, LISTED_AB.uids)
    ensures AllPresent(BOX_AB.messages, files) && OthersAbove(BOX_AB.messages, files, LISTED_AB.uids)
  {
    FlagNames();
    Names_();
    BoxAB();
  }

  lemma MarkedIsRenamed(text: string)
    requires UidList.Parse(text) == Some(LISTED_AB)
    ensures Happens(Marked(text), Renamed(FLAGGED, "ST"), RenamedFile(text)) && InStep(RenamedFile(text))
  {
    FlagNames();
    MarkedInStep(text);
    RenameFlagged();
    EventExactly(Marked(text), Renamed(FLAGGED, "ST"), RenamedFile(text));
  }

  lemma RenameFlagged()
    ensures Rename(map[FLAGGED := STAT, B := STAT], FLAGGED, FlagPath(FLAGGED, "ST")) == Some(map[SEEN_TOO := STAT, B := STAT])
  {
    FlagNames();
    assert (map[FLAGGED := STAT, B := STAT] - {FLAGGED})[SEEN_TOO := STAT] == map[SEEN_TOO := STAT, B := STAT];
  }

  lemma RenamedIsExpunged(text: string)
    ensures Happens(RenamedFile(text), ExpungeAll, ExpungedBox(text))
  {
    BoxAB();
    MarkedGone();
    ReplayAB();
  }

  lemma ReplayAB()
    ensures Apply([1, 2], ExpungeReport(Expunged(BOX_AB.messages)), Uids(AfterExpunge(BOX_AB.messages)))
         == Uids(AfterExpunge(BOX_AB.messages))
  {
    BoxAB();
    ExpungeReplays(BOX_AB.messages, Uids(AfterExpunge(BOX_AB.messages)));
  }

  lemma ExpungeIsHarmful(text: string)
    ensures !Harmless(RenamedFile(text), ExpungeAll)
    ensures Report(RenamedFile(text), ExpungeAll) == [Expunge(1)]
  {
    FlagNames();
    MarkedGone();
    var ms := BOX_AB.messages;
    assert ms[0].Deleted() && !ms[1].Deleted();
  }

  lemma RenamedRefresh(text: string, mint: nat) returns (found: seq<Found>, box: Box, w: World)
    requires mint < UINT32 && UidList.Parse(text) == Some(LISTED_AB)
    ensures Next(RenamedFile(text).w, Refresh(mint, found, box), w)
  {
    found := [Found(SEEN_TOO, STAT), Found(B, STAT)];
    ScanOf(found, map[SEEN_TOO := STAT, B := STAT]);
    box, w := Appending.RefreshExists(RenamedFile(text).w, mint, found);
  }

  /** The session flags a message deleted, another marks it seen, the session
      expunges: EXPUNGE is sent, the file stays under its new name, and the
      next poll brings the UID back below one the client still holds. */
  lemma RenamedReturns(text: string, mint: nat) returns (poll: Event, s: Session)
    requires mint < UINT32 && UidList.Parse(text) == Some(LISTED_AB)
    ensures InStep(Marked(text)) && Happens(Marked(text), Renamed(FLAGGED, "ST"), RenamedFile(text))
    ensures Happens(RenamedFile(text), ExpungeAll, ExpungedBox(text)) && Report(RenamedFile(text), ExpungeAll) == [Expunge(1)]
    ensures poll.Poll? && Happens(ExpungedBox(text), poll, s) && !Follows(s)
  {
    MarkedInStep(text);
    MarkedIsRenamed(text);
    RenamedIsExpunged(text);
    ExpungeIsHarmful(text);
    var found, box, w := RenamedRefresh(text, mint);
    poll, s := Polls(ExpungedBox(text), mint, found, box, w);
    HarmShows(RenamedFile(text), ExpungeAll, ExpungedBox(text), poll, s);
  }

  lemma Polls(before: Session, mint: nat, found: seq<Found>, box: Box, w: World) returns (poll: Event, s: Session)
    requires Next(before.w, Refresh(mint, found, box), w)
    ensures poll.Poll? && Happens(before, poll, s)
  {
    poll := Poll(mint, found, box);
    s := Session(w, box, Apply(before.view, PollReport(|before.box.messages|, box.messages), Uids(box.messages)));
  }

  lemma MarkedGone()
    ensures Gone(BOX_AB.messages) == {FLAGGED} && Expunged(BOX_AB.messages) == [1]
    ensures map[SEEN_TOO := STAT, B := STAT] - {FLAGGED} == map[SEEN_TOO := STAT, B := STAT]
  {
    FlagNames();
    var ms := BOX_AB.messages;
    assert ms[0] in ms && ms[0].Deleted() && !ms[1].Deleted();
    assert ms[..1] == [ms[0]] && ms[..1][..0] == [];
    assert Expunged(ms[..1]) == [1];
  }

  lemma ScanOf(found: seq<Found>, files: map<Path, Stat>)
    requires found == [Found(SEEN_TOO, STAT), Found(B, STAT)] && files == map[SEEN_TOO := STAT, B := STAT]
    ensures IsScan(found, files) && Unknown(map["a" := 1, "b" := 2], Bases(found)) == []
  {
    Names_();
    FlagNames();
    assert found[0].path == SEEN_TOO && found[1].path == B;
    assert Bases(found) == ["a", "b"] && ["a", "b"][1..] == ["b"] && ["b"][1..] == [];
  }
}
