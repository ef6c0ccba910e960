/** The selected mailbox as an IMAP client sees it through responses. */
module ImapView {
  import opened Text
  import opened Seqs
  import opened MaildirFlags
  import opened Maildir
  import opened MailboxRuns
  import UidList
  import Runs

  /** The server reports changes only through these (sections 7.3.1 and 7.4.1
      of RFC 3501); a client that applies them keeps the server's numbering. */
  datatype Response = Exists(n: nat) | Recent(n: nat) | Expunge(k: nat)

  // ---- the client ----

  /** EXISTS n makes the client fetch the UIDs of the numbers it has not seen;
      it never shortens the view. EXPUNGE k drops number k and shifts the
      higher ones down. */
  function ApplyOne(view: seq<int>, r: Response, server: seq<int>): seq<int> {
    match r
    case Exists(n) => if |view| <= n <= |server| then view + server[|view|..n] else view
    case Expunge(k) => if 1 <= k <= |view| then view[..k - 1] + view[k..] else view
    case Recent(_) => view
  }

  function Apply(view: seq<int>, rs: seq<Response>, server: seq<int>): seq<int>
    decreases |rs|
  {
    if rs == [] then view else Apply(ApplyOne(view, rs[0], server), rs[1..], server)
  }

  /** A conforming server never reports fewer messages than the client counts
      and never expunges a number out of range. */
  predicate Legal(view: seq<int>, rs: seq<Response>, server: seq<int>)
    decreases |rs|
  {
    rs == [] ||
    (&& (match rs[0]
         case Exists(n) => |view| <= n <= |server|
         case Expunge(k) => 1 <= k <= |view|
         case Recent(_) => true)
     && Legal(ApplyOne(view, rs[0], server), rs[1..], server))
  }

  // ---- what the server sends ----

  function CountRecent(ms: seq<Message>): nat {
    if ms == [] then 0 else CountRecent(ms[..|ms| - 1]) + (if ms[|ms| - 1].recent then 1 else 0)
  }

  function PollReport(before: nat, ms: seq<Message>): seq<Response> {
    if |ms| != before then [Exists(|ms|), Recent(CountRecent(ms))] else []
  }

  function ExpungeReport(seqs: seq<nat>): (rs: seq<Response>)
    ensures |rs| == |seqs|
    ensures forall i :: 0 <= i < |seqs| ==> rs[i] == Expunge(seqs[i])
  {
    seq(|seqs|, i requires 0 <= i < |seqs| => Expunge(seqs[i]))
  }

  function AfterExpunge(ms: seq<Message>): seq<Message> {
    if Expunged(ms) == [] then ms else Renumber(Kept(ms))
  }

  // ---- replaying EXPUNGE ----

  lemma {:induction false} KeptUids(ms: seq<Message>)
    ensures Expunged(ms) == [] ==> Kept(ms) == ms
    ensures |Kept(ms)| <= |ms|
    decreases |ms|
  {
    if ms != [] { KeptUids(ms[..|ms| - 1]); }
  }

  lemma DropLast(front: seq<int>, x: int, tail: seq<int>, server: seq<int>)
    ensures ApplyOne(front + [x] + tail, Expunge(|front| + 1), server) == front + tail
  {
    var view := front + [x] + tail;
    assert view[..|front|] == front && view[|front| + 1..] == tail;
  }

  lemma LastUid(ms: seq<Message>)
    requires ms != []
    ensures Uids(ms) == Uids(ms[..|ms| - 1]) + [ms[|ms| - 1].uid]
    ensures Uids(Kept(ms)) == Uids(Kept(ms[..|ms| - 1])) + (if ms[|ms| - 1].Deleted() then [] else [ms[|ms| - 1].uid])
  {
  }

  lemma ReportTail(k: nat, ks: seq<nat>)
    ensures ExpungeReport([k] + ks)[0] == Expunge(k) && ExpungeReport([k] + ks)[1..] == ExpungeReport(ks)
  {
  }

  lemma ApplyFirst(view: seq<int>, r: Response, rs: seq<Response>, server: seq<int>)
    ensures Apply(view, [r] + rs, server) == Apply(ApplyOne(view, r, server), rs, server)
    ensures Legal(ApplyOne(view, r, server), rs, server) && Legal(view, [r], server) ==> Legal(view, [r] + rs, server)
  {
    assert ([r] + rs)[0] == r && ([r] + rs)[1..] == rs && [r][1..] == [];
  }

  lemma ReplayDeleted(front: seq<Message>, last: Message, tail: seq<int>, server: seq<int>)
    requires last.seqNo == |front| + 1
    ensures Apply(Uids(front) + [last.uid] + tail, ExpungeReport([last.seqNo] + Expunged(front)), server)
         == Apply(Uids(front) + tail, ExpungeReport(Expunged(front)), server)
  {
    var rest := ExpungeReport(Expunged(front));
    assert ExpungeReport([last.seqNo] + Expunged(front)) == [Expunge(last.seqNo)] + rest;
    ApplyFirst(Uids(front) + [last.uid] + tail, Expunge(last.seqNo), rest, server);
    DropLast(Uids(front), last.uid, tail, server);
  }

  /** Highest number first, each EXPUNGE still means the message the server
      removed; what follows the numbers named is carried along untouched. */
  lemma {:induction false} ReplayWithTail(ms: seq<Message>, tail: seq<int>, server: seq<int>)
    requires Numbered(ms)
    ensures Apply(Uids(ms) + tail, ExpungeReport(Expunged(ms)), server) == Uids(Kept(ms)) + tail
    decreases |ms|
  {
    if ms != [] {
      var last, front := ms[|ms| - 1], ms[..|ms| - 1];
      LastUid(ms);
      if last.Deleted() {
        ReplayDeleted(front, last, tail, server);
        ReplayWithTail(front, tail, server);
      } else {
        assert Expunged(ms) == Expunged(front);
        ReplayWithTail(front, [last.uid] + tail, server);
        Shift(Uids(front), last.uid, tail);
        Shift(Uids(Kept(front)), last.uid, tail);
      }
    }
  }

  lemma Shift(a: seq<int>, x: int, tail: seq<int>)
    ensures a + [x] + tail == a + ([x] + tail)
  {
  }

  lemma {:induction false} DescendingLegal(view: seq<int>, ks: seq<nat>, server: seq<int>)
    requires forall i :: 0 <= i < |ks| ==> 1 <= ks[i] <= |view|
    requires forall i, j :: 0 <= i < j < |ks| ==> ks[i] > ks[j]
    ensures Legal(view, ExpungeReport(ks), server)
    decreases |ks|
  {
    if ks != [] {
      assert ks == [ks[0]] + ks[1..];
      ReportTail(ks[0], ks[1..]);
      var view' := ApplyOne(view, Expunge(ks[0]), server);
      assert forall i :: 0 <= i < |ks[1..]| ==> 1 <= ks[1..][i] <= |view'|;
      DescendingLegal(view', ks[1..], server);
    }
  }

  lemma ExpungeReplays(ms: seq<Message>, server: seq<int>)
    requires Numbered(ms)
    ensures Apply(Uids(ms), ExpungeReport(Expunged(ms)), server) == Uids(AfterExpunge(ms))
    ensures Legal(Uids(ms), ExpungeReport(Expunged(ms)), server)
    ensures Numbered(AfterExpunge(ms))
  {
    assert Uids(ms) + [] == Uids(ms);
    ReplayWithTail(ms, [], server);
    ExpungedDescends(ms);
    DescendingLegal(Uids(ms), Expunged(ms), server);
    KeptUids(ms);
    AfterExpungeUids(ms);
  }

  lemma AfterExpungeUids(ms: seq<Message>)
    ensures Uids(AfterExpunge(ms)) == Uids(Kept(ms)) == Uids(Kept(ms)) + []
  {
    KeptUids(ms);
    assert Uids(Renumber(Kept(ms))) == Uids(Kept(ms));
  }

  lemma ApplyReport(view: seq<int>, n: nat, recent: nat, server: seq<int>)
    requires |view| <= n <= |server|
    ensures Apply(view, [Exists(n)], server) == Apply(view, [Exists(n), Recent(recent)], server) == view + server[|view|..n]
    ensures Legal(view, [Exists(n)], server) && Legal(view, [Exists(n), Recent(recent)], server)
  {
    var view' := view + server[|view|..n];
    assert [Exists(n)] + [] == [Exists(n)];
    ApplyFirst(view, Exists(n), [], server);
    assert [Exists(n)] + [Recent(recent)] == [Exists(n), Recent(recent)];
    ApplyFirst(view, Exists(n), [Recent(recent)], server);
    assert [Recent(recent)] + [] == [Recent(recent)];
    ApplyFirst(view', Recent(recent), [], server);
  }

  lemma IgnoredReport(view: seq<int>, n: nat, recent: nat, server: seq<int>)
    requires !(|view| <= n <= |server|)
    ensures Apply(view, [Exists(n)], server) == Apply(view, [Exists(n), Recent(recent)], server) == view
  {
    assert [Exists(n)] + [] == [Exists(n)];
    ApplyFirst(view, Exists(n), [], server);
    assert [Exists(n)] + [Recent(recent)] == [Exists(n), Recent(recent)];
    ApplyFirst(view, Exists(n), [Recent(recent)], server);
    assert [Recent(recent)] + [] == [Recent(recent)];
    ApplyFirst(view, Recent(recent), [], server);
  }

  // ---- the snapshot and the folder ----

  /** The messages of the snapshot that are still there are listed under the
      UIDs it shows. */
  ghost predicate Listed(ms: seq<Message>, files: map<Path, Stat>, uids: map<string, nat>) {
    forall i :: 0 <= i < |ms| && PresentIn(files, ms[i].Base()) ==>
      ms[i].Base() in uids && uids[ms[i].Base()] == ms[i].uid
  }

  /** The snapshot is a correct, possibly outdated numbering of the folder. */
  ghost predicate Tracks(box: Box, w: World) {
    && Inv(w)
    && Numbered(box.messages)
    && Ascending(Uids(box.messages))
    && Names(box.messages, w.issued)
    && AllVisible(box.messages)
    && Listed(box.messages, w.disk.files, ListOf(w).uids)
  }

  predicate AllVisible(ms: seq<Message>) {
    forall i :: 0 <= i < |ms| ==> Visible(ms[i].path)
  }

  /** No message of the snapshot has left the folder. */
  ghost predicate AllPresent(ms: seq<Message>, files: map<Path, Stat>) {
    forall i :: 0 <= i < |ms| ==> PresentIn(files, ms[i].Base())
  }

  predicate Above(u: nat, ms: seq<Message>) {
    forall i :: 0 <= i < |ms| ==> ms[i].uid < u
  }

  /** Numbered files the snapshot does not show lie above all it shows. */
  ghost predicate OthersAbove(ms: seq<Message>, files: map<Path, Stat>, uids: map<string, nat>) {
    forall b :: PresentIn(files, b) && !HasBase(ms, b) && b in uids ==> Above(uids[b], ms)
  }

  /** What has changed since the snapshot can be told by a larger count. */
  ghost predicate Announceable(ms: seq<Message>, w: World) {
    AllPresent(ms, w.disk.files) && OthersAbove(ms, w.disk.files, ListOf(w).uids)
  }

  lemma OpenedTracks(w: World, mint: nat, found: seq<Found>, box: Box, w': World)
    requires Inv(w) && Next(w, Refresh(mint, found, box), w')
    ensures Tracks(box, w') && Announceable(box.messages, w')
  {
    RefreshList(w, mint, found, box, w');
    RefreshBox(w, mint, found, box, w');
    SnapshotAscends(w, mint, found, box, w');
    OpenedIsListed(w, mint, found, box, w');
    SnapshotPaths(w.disk, mint, found, w'.disk, box);
    FullyShown(box.messages, w'.disk.files, ListOf(w').uids);
  }

  lemma OpenedIsListed(w: World, mint: nat, found: seq<Found>, box: Box, w': World)
    requires Inv(w) && Next(w, Refresh(mint, found, box), w')
    ensures Listed(box.messages, w'.disk.files, ListOf(w').uids)
  {
    RefreshList(w, mint, found, box, w');
    RefreshShowsList(w, mint, found, box, w');
  }

  lemma FullyShown(ms: seq<Message>, files: map<Path, Stat>, uids: map<string, nat>)
    requires ShowsFiles(ms, files)
    ensures AllPresent(ms, files) && OthersAbove(ms, files, uids) && AllVisible(ms) && Numbered(ms)
  {
    ShowsAllBases(ms, files);
    forall i | 0 <= i < |ms| ensures PresentIn(files, ms[i].Base()) {
      assert ms[i].path in files && Visible(ms[i].path);
    }
  }

  lemma ShowsAllBases(ms: seq<Message>, files: map<Path, Stat>)
    requires ShowsFiles(ms, files)
    ensures forall b :: PresentIn(files, b) <==> HasBase(ms, b)
  {
    forall b ensures PresentIn(files, b) <==> HasBase(ms, b) {
      if PresentIn(files, b) {
        var p :| p in files && Visible(p) && BaseName(p.name) == b;
        assert Shows(ms, p);
        var i :| 0 <= i < |ms| && ms[i].path == p;
        assert ms[i].Base() == b;
      }
      if HasBase(ms, b) {
        var i :| 0 <= i < |ms| && ms[i].Base() == b;
        assert ms[i].path in files;
      }
    }
  }

  lemma RefreshedBases(w: World, mint: nat, found: seq<Found>, box: Box, w': World)
    requires Next(w, Refresh(mint, found, box), w')
    ensures forall b :: PresentIn(w.disk.files, b) <==> HasBase(box.messages, b)
  {
    SnapshotPaths(w.disk, mint, found, w'.disk, box);
    ShowsAllBases(box.messages, w.disk.files);
  }

  /** What a refresh over these files and this list gives. */
  ghost predicate Reloads(ms: seq<Message>, files: map<Path, Stat>, l: UidList.Listing) {
    && Ascending(Uids(ms)) && OldOrFresh(ms, l)
    && forall b :: PresentIn(files, b) <==> HasBase(ms, b)
  }

  /** Two snapshots numbered from one issue. */
  ghost predicate OneIssue(ms: seq<Message>, ms': seq<Message>, issued: map<nat, string>) {
    Names(ms, issued) && Names(ms', issued)
  }

  lemma ReloadedUid(ms: seq<Message>, files: map<Path, Stat>, l: UidList.Listing, ms': seq<Message>, j: nat)
    requires Listed(ms, files, l.uids) && OthersAbove(ms, files, l.uids) && Above(l.next, ms)
    requires Reloads(ms', files, l) && j < |ms'|
    ensures ms'[j].uid in Uids(ms) || Above(ms'[j].uid, ms)
  {
    var b := ms'[j].Base();
    assert HasBase(ms', b);
    if HasBase(ms, b) {
      var i :| 0 <= i < |ms| && ms[i].Base() == b;
      assert Uids(ms)[i] == ms'[j].uid;
    }
  }

  lemma PresentReloads(ms: seq<Message>, files: map<Path, Stat>, l: UidList.Listing, ms': seq<Message>, i: nat)
    requires Listed(ms, files, l.uids) && Reloads(ms', files, l) && i < |ms|
    requires PresentIn(files, ms[i].Base())
    ensures ms[i].uid in Uids(ms')
  {
    assert HasBase(ms', ms[i].Base());
    var j :| 0 <= j < |ms'| && ms'[j].Base() == ms[i].Base();
    assert Uids(ms')[j] == ms[i].uid;
  }

  lemma AnnouncedIsPrefix(ms: seq<Message>, files: map<Path, Stat>, l: UidList.Listing, ms': seq<Message>)
    requires Listed(ms, files, l.uids) && Ascending(Uids(ms)) && Above(l.next, ms) && Reloads(ms', files, l)
    requires AllPresent(ms, files) && OthersAbove(ms, files, l.uids)
    ensures Uids(ms) <= Uids(ms')
  {
    var bound := if ms == [] then 0 else ms[|ms| - 1].uid + 1;
    OldReload(ms, files, l, ms', bound);
    NewReload(ms, files, l, ms', bound);
    AscendingExtends(Uids(ms), Uids(ms'), bound);
  }

  lemma OldReload(ms: seq<Message>, files: map<Path, Stat>, l: UidList.Listing, ms': seq<Message>, bound: int)
    requires Listed(ms, files, l.uids) && Ascending(Uids(ms)) && Reloads(ms', files, l) && AllPresent(ms, files)
    requires ms != [] ==> bound == ms[|ms| - 1].uid + 1
    ensures forall x :: x in Uids(ms) ==> x < bound && x in Uids(ms')
  {
    var old_, new_ := Uids(ms), Uids(ms');
    forall x | x in old_ ensures x < bound && x in new_ {
      var i: nat :| i < |old_| && old_[i] == x;
      assert i < |ms| - 1 ==> old_[i] < old_[|ms| - 1];
      PresentReloads(ms, files, l, ms', i);
    }
  }

  lemma NewReload(ms: seq<Message>, files: map<Path, Stat>, l: UidList.Listing, ms': seq<Message>, bound: int)
    requires Listed(ms, files, l.uids) && OthersAbove(ms, files, l.uids) && Above(l.next, ms) && Reloads(ms', files, l)
    requires bound == if ms == [] then 0 else ms[|ms| - 1].uid + 1
    ensures forall x :: x in Uids(ms') ==> x in Uids(ms) || x >= bound
  {
    var new_ := Uids(ms');
    forall x | x in new_ ensures x in Uids(ms) || x >= bound {
      var j :| 0 <= j < |new_| && new_[j] == x;
      ReloadedUid(ms, files, l, ms', j);
    }
  }

  /** A UID in both snapshots is of one message. */
  lemma SharedUid(ms: seq<Message>, ms': seq<Message>, issued: map<nat, string>, i: nat, j: nat)
    requires OneIssue(ms, ms', issued) && i < |ms| && j < |ms'| && ms[i].uid == ms'[j].uid
    ensures ms[i].Base() == ms'[j].Base()
  {
  }

  lemma PrefixIsAnnounced(ms: seq<Message>, files: map<Path, Stat>, l: UidList.Listing, ms': seq<Message>, issued: map<nat, string>)
    requires Reloads(ms', files, l) && OneIssue(ms, ms', issued)
    requires Uids(ms) <= Uids(ms')
    ensures AllPresent(ms, files) && OthersAbove(ms, files, l.uids)
  {
    var old_, new_ := Uids(ms), Uids(ms');
    forall i | 0 <= i < |ms| ensures PresentIn(files, ms[i].Base()) && ms'[i].Base() == ms[i].Base() {
      assert old_[i] == new_[i];
      SharedUid(ms, ms', issued, i, i);
      assert HasBase(ms', ms[i].Base());
    }
    forall b | PresentIn(files, b) && !HasBase(ms, b) && b in l.uids ensures Above(l.uids[b], ms) {
      assert HasBase(ms', b);
      var j :| 0 <= j < |ms'| && ms'[j].Base() == b;
      assert j >= |ms|;
      assert forall i :: 0 <= i < |ms| ==> old_[i] == new_[i];
      assert forall i :: 0 <= i < |ms| ==> new_[i] < new_[j];
    }
  }

  lemma BelowList(box: Box, w: World)
    requires Tracks(box, w)
    ensures Above(ListOf(w).next, box.messages)
  {
  }

  lemma ReadIsListed(w: World, mint: nat)
    requires Inv(w)
    ensures UidList.Read(w.disk.list, mint).uids == ListOf(w).uids && UidList.Read(w.disk.list, mint).next == ListOf(w).next
  {
  }

  lemma ReloadsBy(w: World, mint: nat, found: seq<Found>, box: Box, w': World)
    requires Inv(w) && Next(w, Refresh(mint, found, box), w')
    ensures Reloads(box.messages, w.disk.files, UidList.Read(w.disk.list, mint))
    ensures Names(box.messages, w'.issued) && Extends(w.issued, w'.issued)
  {
    RefreshedBases(w, mint, found, box, w');
    RefreshBox(w, mint, found, box, w');
    SnapshotAscends(w, mint, found, box, w');
  }

  /** A refresh only adds behind the numbering of the snapshot exactly when no
      message of it has left and no older message has come back. */
  lemma PrefixExactly(box: Box, w: World, mint: nat, found: seq<Found>, box': Box, w': World)
    requires Tracks(box, w) && Next(w, Refresh(mint, found, box'), w')
    ensures Uids(box.messages) <= Uids(box'.messages) <==> Announceable(box.messages, w)
  {
    var ms, ms', l := box.messages, box'.messages, UidList.Read(w.disk.list, mint);
    ReloadsBy(w, mint, found, box', w');
    ReadIsListed(w, mint);
    BelowList(box, w);
    assert OneIssue(ms, ms', w'.issued);
    if Announceable(ms, w) { AnnouncedIsPrefix(ms, w.disk.files, l, ms'); }
    if Uids(ms) <= Uids(ms') { PrefixIsAnnounced(ms, w.disk.files, l, ms', w'.issued); }
  }

  lemma RestOf(a: seq<int>, b: seq<int>)
    ensures a <= b ==> a + b[|a|..] == b
    ensures b[..|b|] == b
  {
  }

  lemma ExistsExtends(view: seq<int>, ms: seq<Message>)
    ensures view <= Uids(ms) ==> Apply(view, [Exists(|ms|)], Uids(ms)) == Uids(ms)
    ensures view <= Uids(ms) ==> Apply(view, PollReport(|view|, ms), Uids(ms)) == Uids(ms)
    ensures view <= Uids(ms) ==> Legal(view, [Exists(|ms|)], Uids(ms)) && Legal(view, PollReport(|view|, ms), Uids(ms))
    ensures view <= Apply(view, [Exists(|ms|)], Uids(ms))
    ensures view <= Apply(view, PollReport(|view|, ms), Uids(ms))
  {
    if |view| <= |ms| {
      ApplyReport(view, |ms|, CountRecent(ms), Uids(ms));
      RestOf(view, Uids(ms));
    } else {
      IgnoredReport(view, |ms|, CountRecent(ms), Uids(ms));
    }
  }

  /** A poll leaves the client with the server's numbering exactly when what
      happened is announceable: the server has no response for a message that
      someone else removed or that came back between others, and when as many
      came as left it says nothing at all. */
  lemma PollExactly(box: Box, w: World, mint: nat, found: seq<Found>, box': Box, w': World)
    requires Tracks(box, w) && Next(w, Refresh(mint, found, box'), w')
    ensures Apply(Uids(box.messages), PollReport(|box.messages|, box'.messages), Uids(box'.messages)) == Uids(box'.messages)
       <==> Announceable(box.messages, w)
    ensures Apply(Uids(box.messages), [Exists(|box'.messages|)], Uids(box'.messages)) == Uids(box'.messages)
       <==> Announceable(box.messages, w)
  {
    PrefixExactly(box, w, mint, found, box', w');
    ExistsExtends(Uids(box.messages), box'.messages);
  }

  // ---- sessions ----

  /** The folder, the session's snapshot of it, and the client's view. */
  datatype Session = Session(w: World, box: Box, view: seq<int>)

  /** Others may deliver, rename, remove and refresh at any time; the rest are
      the session's own commands. */
  datatype Event =
    | Arrive(path: Path, stat: Stat)
    | Renamed(path: Path, flags: Flags)
    | Removed(paths: set<Path>)
    | Elsewhere(mint: nat, found: seq<Found>, other: Box)
    | Poll(mint: nat, found: seq<Found>, box: Box)
    | Announce(mint: nat, found: seq<Found>, box: Box)
    | Store(i: nat, flags: Flags)
    | ExpungeAll
    | Select(mint: nat, found: seq<Found>, box: Box)

  /** The responses an event makes the server send. */
  function Report(s: Session, e: Event): seq<Response> {
    match e
    case Poll(_, _, box) => PollReport(|s.box.messages|, box.messages)
    case Announce(_, _, box) => [Exists(|box.messages|)]
    case ExpungeAll => ExpungeReport(Expunged(s.box.messages))
    case Select(_, _, box) => [Exists(|box.messages|), Recent(CountRecent(box.messages))]
    case _ => []
  }

  /** SELECT starts the client's view afresh. */
  function ViewBefore(s: Session, e: Event): seq<int> {
    if e.Select? then [] else s.view
  }

  ghost predicate NeverIssued(issued: map<nat, string>, base: string) {
    forall u :: u in issued ==> issued[u] != base
  }

  /** SetFlags through a snapshot that may be stale: with the file gone under
      the name it knows, the command fails and nothing changes. */
  ghost predicate Stores(s: Session, i: nat, f: Flags, s': Session) {
    && i < |s.box.messages|
    && var m := s.box.messages[i];
       match Rename(s.w.disk.files, m.path, FlagPath(m.path, f))
       case None => s'.w == s.w && s'.box == s.box
       case Some(files) =>
         && s'.w == s.w.(disk := s.w.disk.(files := files))
         && s'.box == s.box.(messages := s.box.messages[i := Flagged(m, f)])
  }

  ghost predicate Happens(s: Session, e: Event, s': Session) {
    && s'.view == Apply(ViewBefore(s, e), Report(s, e), Uids(s'.box.messages))
    && match e
       case Arrive(p, stat) =>
         NeverIssued(s.w.issued, BaseName(p.name)) && Next(s.w, Deliver(p, stat), s'.w) && s'.box == s.box
       case Renamed(p, f) => Next(s.w, SetFlags(p, f), s'.w) && s'.box == s.box
       case Removed(paths) => Next(s.w, Remove(paths), s'.w) && s'.box == s.box
       case Elsewhere(mint, found, other) => Next(s.w, Refresh(mint, found, other), s'.w) && s'.box == s.box
       case Poll(mint, found, box) => Next(s.w, Refresh(mint, found, box), s'.w) && s'.box == box
       case Announce(mint, found, box) => Next(s.w, Refresh(mint, found, box), s'.w) && s'.box == box
       case Select(mint, found, box) => Next(s.w, Refresh(mint, found, box), s'.w) && s'.box == box
       case Store(i, f) => Stores(s, i, f, s')
       case ExpungeAll =>
         && Next(s.w, Remove(Gone(s.box.messages)), s'.w)
         && s'.box == s.box.(messages := AfterExpunge(s.box.messages))
  }

  /** What a refresh by someone else does to the list. */
  lemma ListAfterRefresh(w: World, mint: nat, found: seq<Found>, other: Box, w': World)
    requires Inv(w) && Next(w, Refresh(mint, found, other), w')
    ensures ListOf(w').next >= ListOf(w).next
    ensures forall b :: b in ListOf(w').uids ==>
      (b in ListOf(w).uids && ListOf(w').uids[b] == ListOf(w).uids[b]) || ListOf(w').uids[b] >= ListOf(w).next
    ensures forall b :: b in ListOf(w).uids && PresentIn(w.disk.files, b) ==>
      b in ListOf(w').uids && ListOf(w').uids[b] == ListOf(w).uids[b]
  {
    OpenedNext(w, mint, found, other, w', 0);
    RefreshBox(w, mint, found, other, w');
    if w.disk.list.Some? { ListedStep(w, Refresh(mint, found, other), w'); }
    ListOrigins(w, mint, found, other, w');
  }

  lemma ListOrigins(w: World, mint: nat, found: seq<Found>, other: Box, w': World)
    requires Inv(w) && Next(w, Refresh(mint, found, other), w')
    ensures forall b :: b in ListOf(w').uids ==>
      (b in ListOf(w).uids && ListOf(w').uids[b] == ListOf(w).uids[b]) || ListOf(w').uids[b] >= ListOf(w).next
  {
    var l := UidList.Read(w.disk.list, mint);
    assert l.uids == ListOf(w).uids && l.next == ListOf(w).next;
    RefreshList(w, mint, found, other, w');
    AssignNumbers(l.uids, l.next, Bases(found));
    var r := Assign(l.uids, l.next, Bases(found));
    NumbersOrigins(l, Bases(found), r.0, r.1);
  }

  lemma NumbersOrigins(l: UidList.Listing, bases: seq<string>, uids: map<string, nat>, next: nat)
    requires Numbers(l.uids, l.next, bases, uids, next)
    ensures forall b :: b in uids ==> (b in l.uids && uids[b] == l.uids[b]) || uids[b] >= l.next
  {
    forall b | b in uids && b !in l.uids ensures uids[b] >= l.next {
      var new_ := Unknown(l.uids, bases);
      var i :| 0 <= i < |new_| && new_[i] == b;
    }
  }

  // ---- every event keeps the snapshot a correct numbering ----

  lemma ArriveTracks(box: Box, w: World, p: Path, stat: Stat, w': World)
    requires Tracks(box, w) && NeverIssued(w.issued, BaseName(p.name)) && Next(w, Deliver(p, stat), w')
    ensures Tracks(box, w')
    ensures Announceable(box.messages, w) <==> Announceable(box.messages, w')
  {
    StepKeeps(w, Deliver(p, stat), w');
    ArrivalPresence(w, p, stat, w');
  }

  /** Only the delivered name becomes present, and it is not listed. */
  lemma ArrivalPresence(w: World, p: Path, stat: Stat, w': World)
    requires Inv(w) && NeverIssued(w.issued, BaseName(p.name)) && Next(w, Deliver(p, stat), w')
    ensures forall b :: PresentIn(w'.disk.files, b) <==> PresentIn(w.disk.files, b) || b == BaseName(p.name)
    ensures BaseName(p.name) !in ListOf(w).uids && ListOf(w') == ListOf(w)
  {
    var files, files' := w.disk.files, w'.disk.files;
    forall b ensures PresentIn(files', b) <==> PresentIn(files, b) || b == BaseName(p.name) {
      if PresentIn(files', b) {
        var q :| q in files' && Visible(q) && BaseName(q.name) == b;
        assert q == p || q in files;
      }
      if PresentIn(files, b) {
        var q :| q in files && Visible(q) && BaseName(q.name) == b;
        assert q in files';
      }
      if b == BaseName(p.name) { assert p in files'; }
    }
  }

  lemma SamePresence(box: Box, w: World, box': Box, w': World)
    requires Tracks(box, w) && Inv(w') && SameNumbering(box.messages, box'.messages)
    requires w'.issued == w.issued && w'.disk.list == w.disk.list
    requires forall b :: PresentIn(w.disk.files, b) <==> PresentIn(w'.disk.files, b)
    ensures Uids(box'.messages) == Uids(box.messages) && Tracks(box', w')
    ensures Announceable(box.messages, w) <==> Announceable(box'.messages, w')
  {
    SameUids(box.messages, box'.messages);
    SameListed(box.messages, box'.messages, w.disk.files, w'.disk.files, ListOf(w).uids, w.issued);
    SameAbove(box.messages, box'.messages, w.disk.files, w'.disk.files, ListOf(w).uids);
  }

  lemma SameUids(ms: seq<Message>, ms': seq<Message>)
    requires SameNumbering(ms, ms')
    ensures Uids(ms') == Uids(ms) && (Numbered(ms) ==> Numbered(ms')) && (AllVisible(ms) ==> AllVisible(ms'))
  {
  }

  lemma SameListed(ms: seq<Message>, ms': seq<Message>, files: map<Path, Stat>, files': map<Path, Stat>,
                   uids: map<string, nat>, issued: map<nat, string>)
    requires SameNumbering(ms, ms') && Names(ms, issued) && Listed(ms, files, uids)
    requires forall b :: PresentIn(files, b) <==> PresentIn(files', b)
    ensures Names(ms', issued) && Listed(ms', files', uids)
  {
  }

  lemma SameAbove(ms: seq<Message>, ms': seq<Message>, files: map<Path, Stat>, files': map<Path, Stat>, uids: map<string, nat>)
    requires SameNumbering(ms, ms')
    requires forall b :: PresentIn(files, b) <==> PresentIn(files', b)
    ensures AllPresent(ms, files) <==> AllPresent(ms', files')
    ensures OthersAbove(ms, files, uids) <==> OthersAbove(ms', files', uids)
  {
    SameBases(ms, ms');
    SameBases(ms', ms);
    assert forall u :: Above(u, ms) <==> Above(u, ms');
  }

  /** Two snapshots that number the same messages. */
  ghost predicate SameNumbering(ms: seq<Message>, ms': seq<Message>) {
    && |ms| == |ms'|
    && forall k :: 0 <= k < |ms| ==>
         && ms'[k].Base() == ms[k].Base() && ms'[k].uid == ms[k].uid && ms'[k].seqNo == ms[k].seqNo
         && Visible(ms'[k].path) == Visible(ms[k].path)
  }

  lemma SameBases(ms: seq<Message>, ms': seq<Message>)
    requires |ms| == |ms'| && forall k :: 0 <= k < |ms| ==> ms'[k].Base() == ms[k].Base()
    ensures forall b :: HasBase(ms, b) ==> HasBase(ms', b)
  {
    forall b | HasBase(ms, b) ensures HasBase(ms', b) {
      var k :| 0 <= k < |ms| && ms[k].Base() == b;
      assert ms'[k].Base() == b;
    }
  }

  lemma RenamedTracks(box: Box, w: World, p: Path, f: Flags, w': World)
    requires Tracks(box, w) && Next(w, SetFlags(p, f), w')
    ensures Tracks(box, w')
    ensures Announceable(box.messages, w) <==> Announceable(box.messages, w')
  {
    StepKeeps(w, SetFlags(p, f), w');
    RenameKeepsNames(w.disk.files, p, f, w'.disk.files);
    SamePresence(box, w, box, w');
  }

  lemma StoreTracks(s: Session, i: nat, f: Flags, s': Session)
    requires Tracks(s.box, s.w) && Stores(s, i, f, s')
    ensures Tracks(s'.box, s'.w) && Uids(s'.box.messages) == Uids(s.box.messages)
    ensures Announceable(s.box.messages, s.w) <==> Announceable(s'.box.messages, s'.w)
  {
    var ms := s.box.messages;
    var p := ms[i].path;
    FlagPathKeeps(p, f);
    if p in s.w.disk.files {
      StepKeeps(s.w, SetFlags(p, f), s'.w);
      RenameKeepsNames(s.w.disk.files, p, f, s'.w.disk.files);
    }
    SamePresence(s.box, s.w, s'.box, s'.w);
  }

  lemma RemovedPresence(w: World, paths: set<Path>, w': World)
    requires Next(w, Remove(paths), w')
    ensures forall b :: PresentIn(w'.disk.files, b) ==> PresentIn(w.disk.files, b)
  {
    forall b | PresentIn(w'.disk.files, b) ensures PresentIn(w.disk.files, b) {
      var q :| q in w'.disk.files && Visible(q) && BaseName(q.name) == b;
      assert q in w.disk.files;
    }
  }

  lemma RemovedTracks(box: Box, w: World, paths: set<Path>, w': World)
    requires Tracks(box, w) && Next(w, Remove(paths), w')
    ensures Tracks(box, w')
    ensures Announceable(box.messages, w) ==> (Announceable(box.messages, w') <==> AllPresent(box.messages, w'.disk.files))
  {
    StepKeeps(w, Remove(paths), w');
    RemovedPresence(w, paths, w');
  }

  lemma ElsewhereTracks(box: Box, w: World, mint: nat, found: seq<Found>, other: Box, w': World)
    requires Tracks(box, w) && Next(w, Refresh(mint, found, other), w')
    ensures Tracks(box, w')
    ensures Announceable(box.messages, w) <==> Announceable(box.messages, w')
  {
    StepKeeps(w, Refresh(mint, found, other), w');
    ListAfterRefresh(w, mint, found, other, w');
    BelowList(box, w);
    assert w'.disk.files == w.disk.files;
  }

  lemma {:induction false} KeptMembers(ms: seq<Message>)
    ensures forall m :: m in Kept(ms) <==> m in ms && !m.Deleted()
    decreases |ms|
  {
    if ms != [] {
      KeptMembers(ms[..|ms| - 1]);
      assert ms == ms[..|ms| - 1] + [ms[|ms| - 1]];
    }
  }

  lemma {:induction false} KeptAscends(ms: seq<Message>)
    requires Ascending(Uids(ms))
    ensures Ascending(Uids(Kept(ms)))
    ensures forall x :: x in Uids(Kept(ms)) ==> x in Uids(ms)
    decreases |ms|
  {
    if ms != [] {
      var n := |ms| - 1;
      assert Uids(ms)[..n] == Uids(ms[..n]);
      KeptAscends(ms[..n]);
      LastUid(ms);
      forall x | x in Uids(Kept(ms[..n])) ensures x < ms[n].uid {
        var i :| 0 <= i < n && Uids(ms[..n])[i] == x;
        assert Uids(ms)[i] < Uids(ms)[n];
      }
      var k := Uids(Kept(ms[..n]));
      assert forall i :: 0 <= i < |k| ==> k[i] in k;
    }
  }

  ghost predicate KeptFrom(ms: seq<Message>, m: Message) {
    exists k :: 0 <= k < |ms| && !ms[k].Deleted() && ms[k].path == m.path && ms[k].uid == m.uid
  }

  /** After an expunge a message is one kept before, renumbered. */
  lemma AfterExpungeMembers(ms: seq<Message>)
    ensures forall i :: 0 <= i < |AfterExpunge(ms)| ==> KeptFrom(ms, AfterExpunge(ms)[i])
  {
    KeptMembers(ms);
    KeptUids(ms);
    var r, kept := AfterExpunge(ms), Kept(ms);
    forall i | 0 <= i < |r| ensures KeptFrom(ms, r[i]) {
      assert kept[i] in kept;
      var k :| 0 <= k < |ms| && ms[k] == kept[i];
      assert r[i].path == ms[k].path && r[i].uid == ms[k].uid;
    }
  }

  lemma KeptIsShown(ms: seq<Message>, k: nat)
    requires k < |ms| && !ms[k].Deleted()
    ensures HasBase(AfterExpunge(ms), ms[k].Base())
  {
    KeptMembers(ms);
    KeptUids(ms);
    var r, kept := AfterExpunge(ms), Kept(ms);
    assert ms[k] in kept;
    var i :| 0 <= i < |kept| && kept[i] == ms[k];
    assert r[i].path == ms[k].path;
    assert r[i].Base() == ms[k].Base();
  }

  // ---- expunging through a snapshot that may be stale ----

  lemma ExpungeTracks(box: Box, w: World, w': World)
    requires Tracks(box, w) && Next(w, Remove(Gone(box.messages)), w')
    ensures Tracks(box.(messages := AfterExpunge(box.messages)), w')
  {
    var ms := box.messages;
    var r := AfterExpunge(ms);
    StepKeeps(w, Remove(Gone(ms)), w');
    RemovedPresence(w, Gone(ms), w');
    AfterExpungeAscends(ms);
    AfterExpungeMembers(ms);
    KeptProperties(ms, r, w.disk.files, w'.disk.files, ListOf(w).uids, w.issued);
  }

  lemma AfterExpungeAscends(ms: seq<Message>)
    requires Numbered(ms) && Ascending(Uids(ms))
    ensures Numbered(AfterExpunge(ms)) && Ascending(Uids(AfterExpunge(ms)))
  {
    ExpungeReplays(ms, []);
    KeptAscends(ms);
    AfterExpungeUids(ms);
  }

  lemma KeptProperties(ms: seq<Message>, r: seq<Message>, files: map<Path, Stat>, files': map<Path, Stat>,
                       uids: map<string, nat>, issued: map<nat, string>)
    requires Names(ms, issued) && AllVisible(ms) && Listed(ms, files, uids)
    requires forall i :: 0 <= i < |r| ==> KeptFrom(ms, r[i])
    requires forall b :: PresentIn(files', b) ==> PresentIn(files, b)
    ensures Names(r, issued) && AllVisible(r) && Listed(r, files', uids)
  {
    forall i | 0 <= i < |r|
      ensures r[i].uid in issued && issued[r[i].uid] == r[i].Base() && Visible(r[i].path)
      ensures PresentIn(files', r[i].Base()) ==> r[i].Base() in uids && uids[r[i].Base()] == r[i].uid
    {
      assert KeptFrom(ms, r[i]);
      var k :| 0 <= k < |ms| && !ms[k].Deleted() && ms[k].path == r[i].path && ms[k].uid == r[i].uid;
      assert ms[k].Base() == r[i].Base();
    }
  }

  /** Messages that are there have names of their own. */
  lemma SameMessage(box: Box, w: World, i: nat, j: nat)
    requires Tracks(box, w) && i < |box.messages| && j < |box.messages|
    requires box.messages[i].Base() == box.messages[j].Base() && PresentIn(w.disk.files, box.messages[i].Base())
    ensures i == j
  {
    assert Uids(box.messages)[i] == Uids(box.messages)[j];
  }

  /** A file that an expunge removes is that of a flagged message, under the
      name the snapshot knows. */
  lemma GoneIsFlagged(ms: seq<Message>, p: Path) returns (j: nat)
    requires p in Gone(ms)
    ensures j < |ms| && ms[j].Deleted() && ms[j].path == p
  {
    var m :| m in ms && m.Deleted() && m.path == p;
    j :| 0 <= j < |ms| && ms[j] == m;
  }

  /** A message that is not flagged keeps its file. */
  lemma KeptStays(box: Box, w: World, w': World, k: nat)
    requires Tracks(box, w) && Next(w, Remove(Gone(box.messages)), w')
    requires k < |box.messages| && !box.messages[k].Deleted() && PresentIn(w.disk.files, box.messages[k].Base())
    ensures PresentIn(w'.disk.files, box.messages[k].Base())
  {
    var p :| p in w.disk.files && Visible(p) && BaseName(p.name) == box.messages[k].Base();
    assert p !in Gone(box.messages) by {
      if p in Gone(box.messages) {
        var j := GoneIsFlagged(box.messages, p);
        SameMessage(box, w, k, j);
      }
    }
    assert p in w'.disk.files;
  }

  /** A flagged message survives exactly when its file has another name by now. */
  lemma FlaggedSurvives(box: Box, w: World, w': World, i: nat)
    requires Tracks(box, w) && Next(w, Remove(Gone(box.messages)), w')
    requires i < |box.messages| && box.messages[i].Deleted() && PresentIn(w.disk.files, box.messages[i].Base())
    ensures PresentIn(w'.disk.files, box.messages[i].Base()) <==> box.messages[i].path !in w.disk.files
  {
    var m := box.messages[i];
    assert m.path in Gone(box.messages);
    if m.path !in w.disk.files {
      var p :| p in w.disk.files && Visible(p) && BaseName(p.name) == m.Base();
      assert p !in Gone(box.messages) by {
        if p in Gone(box.messages) {
          var j := GoneIsFlagged(box.messages, p);
          SameMessage(box, w, i, j);
        }
      }
      assert p in w'.disk.files;
    } else {
      assert forall p :: p in w.disk.files && Visible(p) && BaseName(p.name) == m.Base() ==> p == m.path;
    }
  }

  lemma KeptDiffers(box: Box, w: World, i: nat, k: nat)
    requires Tracks(box, w) && i < |box.messages| && k < |box.messages|
    requires box.messages[i].Deleted() && !box.messages[k].Deleted() && PresentIn(w.disk.files, box.messages[i].Base())
    ensures box.messages[k].Base() != box.messages[i].Base()
  {
    if box.messages[k].Base() == box.messages[i].Base() { SameMessage(box, w, i, k); }
  }

  lemma FlaggedIsHidden(box: Box, w: World, i: nat)
    requires Tracks(box, w) && i < |box.messages| && box.messages[i].Deleted()
    requires PresentIn(w.disk.files, box.messages[i].Base())
    ensures !HasBase(AfterExpunge(box.messages), box.messages[i].Base())
  {
    var ms := box.messages;
    var r := AfterExpunge(ms);
    AfterExpungeMembers(ms);
    forall j | 0 <= j < |r| ensures r[j].Base() != ms[i].Base() {
      assert KeptFrom(ms, r[j]);
      var k: nat :| k < |ms| && !ms[k].Deleted() && ms[k].path == r[j].path && ms[k].uid == r[j].uid;
      KeptDiffers(box, w, i, k);
    }
  }

  /** Every flagged message whose file has been renamed behind the snapshot's
      back has a UID above every message that is kept. */
  ghost predicate RenamedAbove(ms: seq<Message>, files: map<Path, Stat>) {
    forall i, k :: 0 <= i < |ms| && 0 <= k < |ms| && ms[i].Deleted() && ms[i].path !in files && !ms[k].Deleted() ==>
      ms[k].uid < ms[i].uid
  }

  lemma AboveKept(ms: seq<Message>, u: nat)
    ensures Above(u, AfterExpunge(ms)) <==> forall k :: 0 <= k < |ms| && !ms[k].Deleted() ==> ms[k].uid < u
  {
    var r := AfterExpunge(ms);
    AfterExpungeMembers(ms);
    KeptMembers(ms);
    KeptUids(ms);
    forall k | 0 <= k < |ms| && !ms[k].Deleted() ensures exists i :: 0 <= i < |r| && r[i].uid == ms[k].uid {
      assert ms[k] in Kept(ms);
      var i :| 0 <= i < |Kept(ms)| && Kept(ms)[i] == ms[k];
      assert r[i].uid == ms[k].uid;
    }
    forall i | 0 <= i < |r| ensures exists k :: 0 <= k < |ms| && !ms[k].Deleted() && ms[k].uid == r[i].uid {
      assert KeptFrom(ms, r[i]);
    }
  }

  lemma ExpungedPresent(box: Box, w: World, w': World)
    requires Tracks(box, w) && Next(w, Remove(Gone(box.messages)), w') && AllPresent(box.messages, w.disk.files)
    ensures AllPresent(AfterExpunge(box.messages), w'.disk.files)
  {
    var ms := box.messages;
    var r := AfterExpunge(ms);
    AfterExpungeMembers(ms);
    forall i | 0 <= i < |r| ensures PresentIn(w'.disk.files, r[i].Base()) {
      assert KeptFrom(ms, r[i]);
      var k :| 0 <= k < |ms| && !ms[k].Deleted() && ms[k].path == r[i].path && ms[k].uid == r[i].uid;
      KeptStays(box, w, w', k);
    }
  }

  /** What comes back after an expunge: a numbered file that is not shown was
      hidden before, or is a renamed one. */
  lemma HiddenAfter(box: Box, w: World, w': World, b: string)
    requires Tracks(box, w) && Next(w, Remove(Gone(box.messages)), w') && Announceable(box.messages, w)
    requires RenamedAbove(box.messages, w.disk.files)
    requires PresentIn(w'.disk.files, b) && !HasBase(AfterExpunge(box.messages), b) && b in ListOf(w).uids
    ensures Above(ListOf(w).uids[b], AfterExpunge(box.messages))
  {
    var ms := box.messages;
    AboveKept(ms, ListOf(w).uids[b]);
    RemovedPresence(w, Gone(ms), w');
    if HasBase(ms, b) {
      var i :| 0 <= i < |ms| && ms[i].Base() == b;
      if !ms[i].Deleted() { KeptIsShown(ms, i); }
      FlaggedSurvives(box, w, w', i);
    }
  }

  lemma RenamedComesBack(box: Box, w: World, w': World, i: nat)
    requires Tracks(box, w) && Next(w, Remove(Gone(box.messages)), w') && AllPresent(box.messages, w.disk.files)
    requires i < |box.messages| && box.messages[i].Deleted() && box.messages[i].path !in w.disk.files
    requires OthersAbove(AfterExpunge(box.messages), w'.disk.files, ListOf(w').uids)
    ensures Above(box.messages[i].uid, AfterExpunge(box.messages))
  {
    FlaggedSurvives(box, w, w', i);
    FlaggedIsHidden(box, w, i);
  }

  /** After an expunge the change is still announceable exactly when every
      flagged message that was renamed meanwhile lies above every kept one. A
      renamed file is not found under its old name, which the server takes for
      removed, and the next refresh brings the message back. */
  lemma ExpungeExactly(box: Box, w: World, w': World)
    requires Tracks(box, w) && Announceable(box.messages, w) && Next(w, Remove(Gone(box.messages)), w')
    ensures Announceable(AfterExpunge(box.messages), w') <==> RenamedAbove(box.messages, w.disk.files)
  {
    var ms := box.messages;
    var r := AfterExpunge(ms);
    ExpungedPresent(box, w, w');
    if RenamedAbove(ms, w.disk.files) {
      forall b | PresentIn(w'.disk.files, b) && !HasBase(r, b) && b in ListOf(w').uids ensures Above(ListOf(w').uids[b], r) {
        HiddenAfter(box, w, w', b);
      }
    }
    if Announceable(r, w') {
      forall i, k | 0 <= i < |ms| && 0 <= k < |ms| && ms[i].Deleted() && ms[i].path !in w.disk.files && !ms[k].Deleted()
        ensures ms[k].uid < ms[i].uid
      {
        RenamedComesBack(box, w, w', i);
        AboveKept(ms, ms[i].uid);
      }
    }
  }

  // ---- whole runs ----

  /** What a caller can see before the event: it removes no message the
      snapshot shows, and it is no expunge that leaves a renamed message
      behind below a kept one. */
  ghost predicate Harmless(s: Session, e: Event) {
    match e
    case Removed(paths) => AllPresent(s.box.messages, s.w.disk.files - paths)
    case ExpungeAll => RenamedAbove(s.box.messages, s.w.disk.files)
    case _ => true
  }

  /** Every event keeps the snapshot a correct numbering of the folder, and a
      change announceable exactly when the event is harmless. */
  lemma EventExactly(s: Session, e: Event, s': Session)
    requires Tracks(s.box, s.w) && Happens(s, e, s')
    ensures Tracks(s'.box, s'.w)
    ensures Announceable(s.box.messages, s.w) ==> (Announceable(s'.box.messages, s'.w) <==> Harmless(s, e))
  {
    match e
    case Arrive(p, stat) => ArriveTracks(s.box, s.w, p, stat, s'.w);
    case Renamed(p, f) => RenamedTracks(s.box, s.w, p, f, s'.w);
    case Removed(paths) => RemovedTracks(s.box, s.w, paths, s'.w);
    case Elsewhere(mint, found, other) => ElsewhereTracks(s.box, s.w, mint, found, other, s'.w);
    case Poll(mint, found, box) => OpenedTracks(s.w, mint, found, box, s'.w);
    case Announce(mint, found, box) => OpenedTracks(s.w, mint, found, box, s'.w);
    case Select(mint, found, box) => OpenedTracks(s.w, mint, found, box, s'.w);
    case Store(i, f) => StoreTracks(s, i, f, s');
    case ExpungeAll =>
      ExpungeTracks(s.box, s.w, s'.w);
      if Announceable(s.box.messages, s.w) { ExpungeExactly(s.box, s.w, s'.w); }
  }

  predicate Reloading(e: Event) { e.Poll? || e.Announce? }

  /** The client's numbering is the session's. */
  predicate Follows(s: Session) { s.view == Uids(s.box.messages) }

  /** From a client that follows, every event but a poll or an announcement
      leaves it following; those do exactly when the change is announceable.
      Every response is then one a client may rely on. */
  lemma ViewExactly(s: Session, e: Event, s': Session)
    requires Tracks(s.box, s.w) && Follows(s) && Happens(s, e, s')
    ensures Follows(s') <==> (Reloading(e) ==> Announceable(s.box.messages, s.w))
    ensures Follows(s') ==> Legal(ViewBefore(s, e), Report(s, e), Uids(s'.box.messages))
  {
    match e
    case Poll(mint, found, box) =>
      PollExactly(s.box, s.w, mint, found, box, s'.w);
      PrefixExactly(s.box, s.w, mint, found, box, s'.w);
      ExistsExtends(s.view, box.messages);
    case Announce(mint, found, box) =>
      PollExactly(s.box, s.w, mint, found, box, s'.w);
      PrefixExactly(s.box, s.w, mint, found, box, s'.w);
      ExistsExtends(s.view, box.messages);
    case Select(mint, found, box) => SelectShowsAll(box.messages);
    case Store(i, f) => StoreTracks(s, i, f, s');
    case ExpungeAll => ExpungeReplays(s.box.messages, Uids(s'.box.messages));
    case _ =>
  }

  lemma SelectShowsAll(ms: seq<Message>)
    ensures Apply([], [Exists(|ms|), Recent(CountRecent(ms))], Uids(ms)) == Uids(ms)
    ensures Legal([], [Exists(|ms|), Recent(CountRecent(ms))], Uids(ms))
  {
    ApplyReport([], |ms|, CountRecent(ms), Uids(ms));
    assert [] + Uids(ms)[0..|ms|] == Uids(ms);
  }

  /** A selected session: some folder state the invariant allows, freshly
      opened. */
  ghost predicate Opened(s: Session) {
    exists w, mint, found :: Inv(w) && Next(w, Refresh(mint, found, s.box), s.w) && Follows(s)
  }

  ghost predicate TracksIn(s: Session) { Tracks(s.box, s.w) }

  ghost predicate InStep(s: Session) { Tracks(s.box, s.w) && Follows(s) && Announceable(s.box.messages, s.w) }

  lemma OpenedInStep(s: Session)
    requires Opened(s)
    ensures InStep(s)
  {
    var w, mint, found :| Inv(w) && Next(w, Refresh(mint, found, s.box), s.w) && Follows(s);
    OpenedTracks(w, mint, found, s.box, s.w);
  }

  lemma AlwaysTracks(ss: seq<Session>, es: seq<Event>, i: nat)
    requires Runs.IsRun(ss, es, Happens) && Opened(ss[0]) && i < |ss|
    ensures Tracks(ss[i].box, ss[i].w)
  {
    OpenedInStep(ss[0]);
    forall s, e, s' | TracksIn(s) && Happens(s, e, s') ensures TracksIn(s') { EventExactly(s, e, s'); }
    Runs.Invariant(ss, es, Happens, TracksIn, i);
  }

  /** The change that event k met could be announced, if that was its task. */
  ghost predicate ClearAt(ss: seq<Session>, es: seq<Event>, k: nat)
    requires k < |es| && k < |ss|
  {
    Reloading(es[k]) ==> Announceable(ss[k].box.messages, ss[k].w)
  }

  ghost predicate FollowsUpTo(ss: seq<Session>, n: nat)
    requires n < |ss|
  {
    forall j :: 0 <= j <= n ==> Follows(ss[j])
  }

  ghost predicate AnnouncedBefore(ss: seq<Session>, es: seq<Event>, n: nat)
    requires n <= |es| <= |ss|
  {
    forall j :: 0 <= j < n ==> ClearAt(ss, es, j)
  }

  ghost predicate PassesAt(ss: seq<Session>, es: seq<Event>, k: nat)
    requires k < |es| && k + 1 < |ss|
  {
    Follows(ss[k]) ==> (Follows(ss[k + 1]) <==> ClearAt(ss, es, k))
  }

  lemma FollowsStep(ss: seq<Session>, es: seq<Event>, k: nat)
    requires Runs.IsRun(ss, es, Happens) && Opened(ss[0]) && k < |es|
    ensures PassesAt(ss, es, k)
  {
    AlwaysTracks(ss, es, k);
    var e := es[k];
    if Follows(ss[k]) { ViewExactly(ss[k], e, ss[k + 1]); }
  }

  ghost predicate AllPass(ss: seq<Session>, es: seq<Event>) {
    |ss| == |es| + 1 && forall k: nat {:trigger PassesAt(ss, es, k)} :: k < |es| ==> PassesAt(ss, es, k)
  }

  lemma RunPasses(ss: seq<Session>, es: seq<Event>)
    requires Runs.IsRun(ss, es, Happens) && Opened(ss[0])
    ensures AllPass(ss, es)
  {
    forall k: nat {:trigger PassesAt(ss, es, k)} | k < |es| ensures PassesAt(ss, es, k) { FollowsStep(ss, es, k); }
  }

  lemma {:induction false} FollowsWhileClear(ss: seq<Session>, es: seq<Event>, n: nat)
    requires AllPass(ss, es) && Follows(ss[0]) && n < |ss|
    ensures FollowsUpTo(ss, n) <==> AnnouncedBefore(ss, es, n)
  {
    if n > 0 {
      FollowsWhileClear(ss, es, n - 1);
      assert PassesAt(ss, es, n - 1);
    }
  }

  /** In every run of a selected session, whatever others deliver, rename,
      remove or refresh: the client has held the server's list of UIDs all
      along exactly when every poll and announcement so far met an
      announceable change. */
  lemma FollowsExactly(ss: seq<Session>, es: seq<Event>, n: nat)
    requires Runs.IsRun(ss, es, Happens) && Opened(ss[0]) && n < |ss|
    ensures FollowsUpTo(ss, n) <==> AnnouncedBefore(ss, es, n)
  {
    RunPasses(ss, es);
    OpenedInStep(ss[0]);
    FollowsWhileClear(ss, es, n);
  }

  ghost predicate HarmlessStep(s: Session, e: Event, s': Session) { Happens(s, e, s') && Harmless(s, e) }

  /** In every run of harmless events the client that applies the responses
      holds exactly the server's list of UIDs after each, and may rely on each
      response. */
  lemma ClientFollowsServer(ss: seq<Session>, es: seq<Event>, i: nat)
    requires Runs.IsRun(ss, es, HarmlessStep) && Opened(ss[0]) && i < |ss|
    ensures Follows(ss[i])
    ensures i < |es| ==> Legal(ViewBefore(ss[i], es[i]), Report(ss[i], es[i]), Uids(ss[i + 1].box.messages))
  {
    OpenedInStep(ss[0]);
    forall s, e, s' | InStep(s) && HarmlessStep(s, e, s') ensures InStep(s') {
      EventExactly(s, e, s');
      ViewExactly(s, e, s');
    }
    Runs.Invariant(ss, es, HarmlessStep, InStep, i);
    if i < |es| {
      var e := es[i];
      ViewExactly(ss[i], e, ss[i + 1]);
    }
  }

  /** And harmless is all that is needed: after any other event the next poll
      leaves the client with another list than the server. */
  lemma HarmShows(s: Session, e: Event, s1: Session, poll: Event, s2: Session)
    requires InStep(s) && Happens(s, e, s1) && !Harmless(s, e)
    requires Reloading(poll) && Happens(s1, poll, s2)
    ensures Follows(s1) && !Follows(s2)
  {
    EventExactly(s, e, s1);
    ViewExactly(s, e, s1);
    ViewExactly(s1, poll, s2);
  }

  // ---- the session's commands ----

  /** The snapshot and the files after flagging some messages deleted; ok is
      false when one of them had lost its file, and the rest is untouched. */
  datatype Marking = Marking(ms: seq<Message>, files: map<Path, Stat>, ok: bool)

  function MarkDeleted(ms: seq<Message>, files: map<Path, Stat>, chosen: seq<nat>): (r: Marking)
    requires forall k :: 0 <= k < |chosen| ==> chosen[k] < |ms|
    ensures |r.ms| == |ms|
    decreases |chosen|
  {
    if chosen == [] then Marking(ms, files, true)
    else
      var m := ms[chosen[0]];
      var f := Add(m.flags, DELETED);
      match Rename(files, m.path, FlagPath(m.path, f))
      case None => Marking(ms, files, false)
      case Some(files') => MarkDeleted(ms[chosen[0] := Flagged(m, f)], files', chosen[1..])
  }

  lemma {:induction false} MarkKeepsNumbers(ms: seq<Message>, files: map<Path, Stat>, chosen: seq<nat>)
    requires forall k :: 0 <= k < |chosen| ==> chosen[k] < |ms|
    ensures SameUidsAndNumbers(MarkDeleted(ms, files, chosen).ms, ms)
    decreases |chosen|
  {
    if chosen != [] {
      var m := ms[chosen[0]];
      var f := Add(m.flags, DELETED);
      match Rename(files, m.path, FlagPath(m.path, f))
      case None =>
      case Some(files') => MarkKeepsNumbers(ms[chosen[0] := Flagged(m, f)], files', chosen[1..]);
    }
  }

  ghost predicate SameUidsAndNumbers(a: seq<Message>, b: seq<Message>) {
    |a| == |b| && forall i :: 0 <= i < |a| ==> a[i].seqNo == b[i].seqNo && a[i].uid == b[i].uid
  }

  class ImapSession {
    var mbox: Mailbox?
    var readOnly: bool
    var out: seq<Response>

    constructor ()
      ensures mbox == null && out == []
    {
      mbox, readOnly, out := null, false, [];
    }

    ghost function Footprint(): set<object>
      reads this
    {
      {this} + (if mbox == null then {} else {mbox, mbox.dir})
    }

    /** SELECT and EXAMINE */
    method CmdSelect(folder: Folder, mint: nat, examine: bool) returns (ghost found: seq<Found>)
      modifies this, folder
      ensures mbox != null && fresh(mbox) && mbox.dir == folder && readOnly == examine
      ensures Refreshes(old(folder.Content()), mint, found, folder.Content(), mbox.Snapshot())
      ensures out == old(out) + [Exists(|mbox.messages|), Recent(CountRecent(mbox.messages))]
    {
      var mb;
      mb, found := Mailbox.Open(folder, mint);
      mbox, readOnly := mb, examine;
      var recent := RecentOf(mb.messages);
      out := out + [Exists(|mb.messages|), Recent(recent)];
    }

    /** NOOP and IDLE: refresh, and report only a changed count. */
    method PollAndReport(mint: nat) returns (changed: bool, ghost found: seq<Found>)
      modifies Footprint()
      ensures mbox == old(mbox) && readOnly == old(readOnly)
      ensures mbox == null ==> out == old(out) && !changed
      ensures mbox != null ==>
        out == old(out) + PollReport(|old(mbox.messages)|, mbox.messages) && changed == (|mbox.messages| != |old(mbox.messages)|)
      ensures mbox != null ==>
        Refreshes(old(mbox.dir.Content()), mint, found, mbox.dir.Content(), mbox.Snapshot())
    {
      if mbox == null { return false, []; }
      var before := |mbox.messages|;
      found := mbox.Refresh(mint);
      changed := |mbox.messages| != before;
      if changed {
        var recent := RecentOf(mbox.messages);
        out := out + [Exists(|mbox.messages|), Recent(recent)];
      }
    }

    /** EXPUNGE; false answers NO without touching anything. */
    method CmdExpunge() returns (ok: bool)
      requires mbox != null && Numbered(mbox.messages)
      modifies Footprint()
      ensures mbox == old(mbox) && readOnly == old(readOnly) && ok == !readOnly
      ensures mbox.dir.list == old(mbox.dir.list) && mbox.uidValidity == old(mbox.uidValidity) && mbox.uidNext == old(mbox.uidNext)
      ensures !ok ==> out == old(out) && mbox.messages == old(mbox.messages) && mbox.dir.files == old(mbox.dir.files)
      ensures ok ==> out == old(out) + ExpungeReport(Expunged(old(mbox.messages)))
      ensures ok ==> mbox.messages == AfterExpunge(old(mbox.messages))
      ensures ok ==> mbox.dir.files == old(mbox.dir.files) - Gone(old(mbox.messages))
    {
      if readOnly { return false; }
      var seqs := mbox.Expunge();
      out := out + ExpungeReport(seqs);
      ok := true;
    }

    /** CLOSE expunges without responses and leaves the selected state. */
    method CmdClose()
      requires mbox != null && Numbered(mbox.messages)
      modifies Footprint()
      ensures mbox == null && out == old(out)
      ensures old(mbox).dir.files == old(mbox.dir.files) - (if old(readOnly) then {} else Gone(old(mbox.messages)))
      ensures old(mbox).dir.list == old(mbox.dir.list)
    {
      if !readOnly { var _ := mbox.Expunge(); }
      mbox := null;
    }

    /** The end of APPEND into the selected folder: the session's own snapshot
        is refreshed and the count always announced. */
    method AnnounceAppend(mint: nat) returns (ghost found: seq<Found>)
      requires mbox != null
      modifies Footprint()
      ensures mbox == old(mbox) && readOnly == old(readOnly)
      ensures out == old(out) + [Exists(|mbox.messages|)]
      ensures Refreshes(old(mbox.dir.Content()), mint, found, mbox.dir.Content(), mbox.Snapshot())
    {
      found := mbox.Refresh(mint);
      out := out + [Exists(|mbox.messages|)];
    }

    /** The source side of MOVE, after the copies: flag the chosen messages
        deleted, then expunge. Messages flagged earlier go with them. */
    method FinishMove(chosen: seq<nat>) returns (ok: bool)
      requires mbox != null && Numbered(mbox.messages)
      requires forall k :: 0 <= k < |chosen| ==> chosen[k] < |mbox.messages|
      modifies Footprint()
      ensures mbox == old(mbox) && readOnly == old(readOnly)
      ensures mbox.dir.list == old(mbox.dir.list) && mbox.uidValidity == old(mbox.uidValidity) && mbox.uidNext == old(mbox.uidNext)
      ensures var marking := MarkDeleted(old(mbox.messages), old(mbox.dir.files), chosen);
        && ok == marking.ok
        && (ok ==>
            && out == old(out) + ExpungeReport(Expunged(marking.ms))
            && mbox.messages == AfterExpunge(marking.ms)
            && mbox.dir.files == marking.files - Gone(marking.ms))
        && (!ok ==> out == old(out) && mbox.messages == marking.ms && mbox.dir.files == marking.files)
    {
      MarkKeepsNumbers(mbox.messages, mbox.dir.files, chosen);
      ok := FlagChosen(chosen);
      if !ok { return; }
      var seqs := mbox.Expunge();
      out := out + ExpungeReport(seqs);
    }

    method FlagChosen(chosen: seq<nat>) returns (ok: bool)
      requires mbox != null
      requires forall k :: 0 <= k < |chosen| ==> chosen[k] < |mbox.messages|
      modifies mbox`messages, mbox.dir`files
      ensures MarkDeleted(old(mbox.messages), old(mbox.dir.files), chosen) == Marking(mbox.messages, mbox.dir.files, ok)
    {
      assert chosen[0..] == chosen;
      for k := 0 to |chosen|
        invariant |mbox.messages| == |old(mbox.messages)|
        invariant MarkDeleted(mbox.messages, mbox.dir.files, chosen[k..]) == MarkDeleted(old(mbox.messages), old(mbox.dir.files), chosen)
      {
        assert chosen[k..][0] == chosen[k] && chosen[k..][1..] == chosen[k + 1..];
        var m := mbox.messages[chosen[k]];
        var done := mbox.SetFlags(chosen[k], Add(m.flags, DELETED));
        if !done { return false; }
      }
      assert chosen[|chosen|..] == [];
      ok := true;
    }
  }

  method RecentOf(ms: seq<Message>) returns (n: nat)
    ensures n == CountRecent(ms)
  {
    n := 0;
    for i := 0 to |ms|
      invariant n == CountRecent(ms[..i])
    {
      assert ms[..i + 1][..i] == ms[..i];
      if ms[i].recent { n := n + 1; }
    }
    assert ms[..|ms|] == ms;
  }
}
