/** Message flags: what a refresh shows, and how long a STORE lasts. */
module FlagRuns {
  import opened Text
  import opened MaildirFlags
  import opened Maildir
  import opened MailboxRuns
  import opened ImapView
  import UidList
  import Runs

  // ---- what a file name says ----

  predicate FirstSep(name: string, i: nat) {
    SepAt(name, i) && forall j: nat :: j < i ==> !SepAt(name, j)
  }

  /** c stands somewhere behind the first ":2," of the name. */
  ghost predicate LetterBehind(name: string, c: char) {
    exists i: nat, k: nat :: FirstSep(name, i) && i + 3 <= k < |name| && name[k] == c
  }

  lemma LettersFound(name: string, c: char)
    ensures c in FlagsIn(name) <==> LetterBehind(name, c)
  {
    var i := SepIndex(name);
    if i < |name| {
      assert FirstSep(name, i);
      var tail := name[i + 3..];
      assert forall k :: 0 <= k < |tail| ==> tail[k] == name[i + 3 + k];
      if c in tail {
        var k: nat :| k < |tail| && tail[k] == c;
        assert name[i + 3 + k] == c;
      }
      if LetterBehind(name, c) {
        var j: nat, k: nat :| FirstSep(name, j) && j + 3 <= k < |name| && name[k] == c;
        assert j == i;
        assert tail[k - j - 3] == c;
      }
    }
  }

  /** The flags of a name are the known letters behind its separator, each
      once, in their fixed order. */
  lemma FlagsMean(name: string)
    ensures forall c :: c in ParseFlags(name) <==> c in KNOWN && LetterBehind(name, c)
    ensures Canonical(ParseFlags(name))
  {
    forall c ensures c in ParseFlags(name) <==> c in KNOWN && LetterBehind(name, c) {
      PickMembers(KNOWN, FlagsIn(name));
      LettersFound(name, c);
    }
    PickIsCanonical(FlagsIn(name));
  }

  lemma {:induction false} PickAgrees(order: string, s: set<char>, t: set<char>)
    requires forall c :: c in order ==> (c in s <==> c in t)
    ensures Pick(order, s) == Pick(order, t)
  {
    if order != "" {
      assert order[0] in order;
      PickAgrees(order[1..], s, t);
    }
  }

  lemma PickIsCanonical(s: set<char>)
    ensures Canonical(Ordered(s))
  {
    PickMembers(KNOWN, s);
    PickAgrees(KNOWN, s, Letters(Ordered(s)));
  }

  // ---- what a refresh shows ----

  lemma ShownFrom(d: Disk, mint: nat, found: seq<Found>, d': Disk, box: Box, a: nat)
    requires Refreshes(d, mint, found, d', box) && a < |box.messages|
    ensures box.messages[a].flags == ParseFlags(box.messages[a].path.name)
    ensures box.messages[a].recent == (box.messages[a].path.sub == New)
    ensures box.messages[a].path in d.files && box.messages[a].stat == d.files[box.messages[a].path]
  {
    var l := UidList.Read(d.list, mint);
    var uids := Assign(l.uids, l.next, Bases(found)).0;
    assert ListedIn(box.messages[a], found, uids);
    var k :| 0 <= k < |found| && IsMessageOf(box.messages[a], found[k], uids);
  }

  /** Every message a refresh shows carries exactly the flags of its file's
      name, is recent exactly while the file lies in new/, and has the file's
      size and time. */
  lemma ShownFlags(d: Disk, mint: nat, found: seq<Found>, d': Disk, box: Box, a: nat)
    requires Refreshes(d, mint, found, d', box) && a < |box.messages|
    ensures var m := box.messages[a];
      && (forall c :: c in m.flags <==> c in KNOWN && LetterBehind(m.path.name, c))
      && Canonical(m.flags)
      && (m.recent <==> m.path.sub == New)
      && m.path in d.files && m.stat == d.files[m.path]
  {
    ShownFrom(d, mint, found, d', box, a);
    FlagsMean(box.messages[a].path.name);
  }

  /** What an expunge right after the refresh removes: the files with a T
      behind the separator. */
  lemma DeletedByName(d: Disk, mint: nat, found: seq<Found>, d': Disk, box: Box, p: Path)
    requires Refreshes(d, mint, found, d', box)
    ensures p in Gone(box.messages) <==> p in d.files && Visible(p) && LetterBehind(p.name, 'T')
  {
    SnapshotPaths(d, mint, found, d', box);
    assert 'T' in KNOWN by { assert KNOWN[5] == 'T'; }
    if p in Gone(box.messages) {
      var a := GoneIsFlagged(box.messages, p);
      ShownFlags(d, mint, found, d', box, a);
    }
    if p in d.files && Visible(p) && LetterBehind(p.name, 'T') {
      assert Shows(box.messages, p);
      var a: nat :| a < |box.messages| && box.messages[a].path == p;
      ShownFlags(d, mint, found, d', box, a);
      assert box.messages[a] in box.messages;
    }
  }

  // ---- how long a rename lasts ----

  /** Any visible file of that name is this one. */
  ghost predicate OnlyAs(files: map<Path, Stat>, base: string, q: Path) {
    forall p :: p in files && Visible(p) && BaseName(p.name) == base ==> p == q
  }

  lemma RenamedOnly(w: World, p: Path, f: Flags, w': World)
    requires Inv(w) && Next(w, SetFlags(p, f), w') && Visible(p)
    ensures OnlyAs(w'.disk.files, BaseName(p.name), FlagPath(p, f))
  {
    FlagPathKeeps(p, f);
  }

  /** The step neither renames nor delivers a file of that name. */
  predicate LeavesName(s: Step, base: string) {
    match s
    case Deliver(p, _) => BaseName(p.name) != base
    case SetFlags(p, _) => BaseName(p.name) != base
    case _ => true
  }

  lemma OnlyStays(w: World, s: Step, w': World, base: string, q: Path)
    requires OnlyAs(w.disk.files, base, q) && Next(w, s, w') && LeavesName(s, base)
    ensures OnlyAs(w'.disk.files, base, q)
  {
    if s.SetFlags? { FlagPathKeeps(s.from, s.flags); }
  }

  ghost function OnlyIn(base: string, q: Path): World -> bool { (w: World) => OnlyAs(w.disk.files, base, q) }

  function Leaves(base: string): Step -> bool { (s: Step) => LeavesName(s, base) }

  lemma OnlyThroughout(ws: seq<World>, steps: seq<Step>, i: nat, j: nat, base: string, q: Path)
    requires Runs.IsRun(ws, steps, Next) && i <= j < |ws| && OnlyIn(base, q)(ws[i])
    requires forall k :: i <= k < j ==> Leaves(base)(steps[k])
    ensures OnlyIn(base, q)(ws[j])
  {
    forall w, s, w' | OnlyIn(base, q)(w) && Next(w, s, w') && Leaves(base)(s) ensures OnlyIn(base, q)(w') {
      OnlyStays(w, s, w', base, q);
    }
    Runs.Carried(ws, steps, Next, OnlyIn(base, q), Leaves(base), i, j);
  }

  lemma SetFlagsLeaves(ws: seq<World>, steps: seq<Step>, i: nat, p: Path, f: Flags)
    requires Run(ws, steps) && i < |steps| && steps[i] == SetFlags(p, f) && Visible(p)
    ensures OnlyIn(BaseName(p.name), FlagPath(p, f))(ws[i + 1])
  {
    RunInv(ws, steps, i);
    RenamedOnly(ws[i], p, f, ws[i + 1]);
  }

  /** In any run, flags written into a message's name are the flags every later
      refresh shows for it, and it is no longer recent, until someone renames
      the file again. */
  lemma FlagsStick(ws: seq<World>, steps: seq<Step>, i: nat, j: nat, p: Path, f: Flags, a: nat)
    requires Run(ws, steps) && i < j < |steps| && steps[i] == SetFlags(p, f) && Visible(p) && Canonical(f)
    requires forall k :: i < k < j ==> Leaves(BaseName(p.name))(steps[k])
    requires steps[j].Refresh? && a < |steps[j].box.messages| && steps[j].box.messages[a].Base() == BaseName(p.name)
    ensures steps[j].box.messages[a].flags == f && !steps[j].box.messages[a].recent
  {
    OnlyAfter(ws, steps, i, j, p, f);
    RefreshAt(ws, steps, j);
    ShownAs(ws[j], steps[j].mint, steps[j].found, steps[j].box, ws[j + 1], a, p, f);
  }

  lemma OnlyAfter(ws: seq<World>, steps: seq<Step>, i: nat, j: nat, p: Path, f: Flags)
    requires Run(ws, steps) && i < j < |ws| && steps[i] == SetFlags(p, f) && Visible(p)
    requires forall k :: i < k < j ==> Leaves(BaseName(p.name))(steps[k])
    ensures OnlyAs(ws[j].disk.files, BaseName(p.name), FlagPath(p, f))
  {
    SetFlagsLeaves(ws, steps, i, p, f);
    OnlyThroughout(ws, steps, i + 1, j, BaseName(p.name), FlagPath(p, f));
  }

  lemma RefreshAt(ws: seq<World>, steps: seq<Step>, j: nat)
    requires Run(ws, steps) && j < |steps| && steps[j].Refresh?
    ensures Next(ws[j], Refresh(steps[j].mint, steps[j].found, steps[j].box), ws[j + 1])
  {
    RunInv(ws, steps, j);
  }

  lemma ShownAs(w: World, mint: nat, found: seq<Found>, box: Box, w': World, a: nat, p: Path, f: Flags)
    requires Next(w, Refresh(mint, found, box), w') && a < |box.messages| && box.messages[a].Base() == BaseName(p.name)
    requires OnlyAs(w.disk.files, BaseName(p.name), FlagPath(p, f)) && Canonical(f)
    ensures box.messages[a].path == FlagPath(p, f) && box.messages[a].flags == f && !box.messages[a].recent
  {
    ShownFrom(w.disk, mint, found, w'.disk, box, a);
    SnapshotPaths(w.disk, mint, found, w'.disk, box);
    FlagsRoundTrip(p.name, f);
  }

  // ---- STORE, then any refresh ----

  /** After a STORE that found the message's file, the message with that UID is
      shown by any refresh, with exactly those flags and not recent. Where the
      file had already been renamed, and only the name it would get was
      unchanged, it is shown under another name. */
  lemma StoreShows(s: Session, i: nat, f: Flags, s1: Session, mint: nat, found: seq<Found>, box: Box, w2: World)
    requires Tracks(s.box, s.w) && Stores(s, i, f, s1) && Canonical(f) && Next(s1.w, Refresh(mint, found, box), w2)
    requires Rename(s.w.disk.files, s.box.messages[i].path, FlagPath(s.box.messages[i].path, f)).Some?
    ensures var m := s.box.messages[i];
      && (forall a :: 0 <= a < |box.messages| && box.messages[a].uid == m.uid ==>
            (box.messages[a].path == FlagPath(m.path, f) <==> m.path in s.w.disk.files))
      && (m.path in s.w.disk.files ==>
            exists a :: 0 <= a < |box.messages| && box.messages[a].uid == m.uid && box.messages[a].flags == f && !box.messages[a].recent)
  {
    var m := s.box.messages[i];
    StoreTracks(s, i, f, s1);
    ReloadsBy(s1.w, mint, found, box, w2);
    forall a | 0 <= a < |box.messages| && box.messages[a].uid == m.uid
      ensures box.messages[a].path == FlagPath(m.path, f) <==> m.path in s.w.disk.files
    {
      StoredPath(s, i, f, s1, mint, found, box, w2, a);
    }
    if m.path in s.w.disk.files {
      var a := StoredShown(s, i, f, s1, mint, found, box, w2);
      StoredPath(s, i, f, s1, mint, found, box, w2, a);
      StoredFlags(s1.w, mint, found, box, w2, a, m.path, f);
    }
  }

  lemma StoredFlags(w: World, mint: nat, found: seq<Found>, box: Box, w': World, a: nat, p: Path, f: Flags)
    requires Next(w, Refresh(mint, found, box), w') && a < |box.messages| && Canonical(f)
    requires box.messages[a].path == FlagPath(p, f)
    ensures box.messages[a].flags == f && !box.messages[a].recent
  {
    ShownFrom(w.disk, mint, found, w'.disk, box, a);
    FlagsRoundTrip(p.name, f);
  }

  lemma StoredPath(s: Session, i: nat, f: Flags, s1: Session, mint: nat, found: seq<Found>, box: Box, w2: World, a: nat)
    requires Tracks(s.box, s.w) && Stores(s, i, f, s1) && Next(s1.w, Refresh(mint, found, box), w2)
    requires Rename(s.w.disk.files, s.box.messages[i].path, FlagPath(s.box.messages[i].path, f)).Some?
    requires Tracks(s1.box, s1.w) && Names(box.messages, w2.issued) && Extends(s1.w.issued, w2.issued)
    requires a < |box.messages| && box.messages[a].uid == s.box.messages[i].uid
    ensures box.messages[a].path == FlagPath(s.box.messages[i].path, f) <==> s.box.messages[i].path in s.w.disk.files
  {
    var m := s.box.messages[i];
    assert box.messages[a].Base() == m.Base();
    SnapshotPaths(s1.w.disk, mint, found, w2.disk, box);
    if m.path in s.w.disk.files {
      RenamedOnly(s.w, m.path, f, s1.w);
    }
  }

  lemma StoredShown(s: Session, i: nat, f: Flags, s1: Session, mint: nat, found: seq<Found>, box: Box, w2: World) returns (a: nat)
    requires Tracks(s.box, s.w) && Stores(s, i, f, s1) && Next(s1.w, Refresh(mint, found, box), w2)
    requires s.box.messages[i].path in s.w.disk.files && Tracks(s1.box, s1.w)
    requires Reloads(box.messages, s1.w.disk.files, UidList.Read(s1.w.disk.list, mint))
    ensures a < |box.messages| && box.messages[a].uid == s.box.messages[i].uid
  {
    var m := s.box.messages[i];
    var to := FlagPath(m.path, f);
    FlagPathKeeps(m.path, f);
    assert to in s1.w.disk.files && Visible(to);
    assert PresentIn(s1.w.disk.files, m.Base());
    ReadIsListed(s1.w, mint);
    assert s1.box.messages[i].Base() == m.Base() && s1.box.messages[i].uid == m.uid;
    PresentReloads(s1.box.messages, s1.w.disk.files, UidList.Read(s1.w.disk.list, mint), box.messages, i);
    a :| 0 <= a < |Uids(box.messages)| && Uids(box.messages)[a] == m.uid;
  }

  // ---- the snapshot never disagrees with its names ----

  /** Every message has the flags of its name and is recent while in new/. */
  ghost predicate Coherent(ms: seq<Message>) {
    forall i :: 0 <= i < |ms| ==> ms[i].flags == ParseFlags(ms[i].path.name) && ms[i].recent == (ms[i].path.sub == New)
  }

  lemma FlaggedCoherent(m: Message, f: Flags)
    requires Canonical(f)
    ensures Flagged(m, f).flags == ParseFlags(Flagged(m, f).path.name) && Flagged(m, f).recent == (Flagged(m, f).path.sub == New)
  {
    FlagsRoundTrip(m.path.name, f);
  }

  lemma {:induction false} KeptIsCoherent(ms: seq<Message>)
    requires Coherent(ms)
    ensures Coherent(Kept(ms))
    decreases |ms|
  {
    if ms != [] { KeptIsCoherent(ms[..|ms| - 1]); }
  }

  lemma ExpungedIsCoherent(ms: seq<Message>)
    requires Coherent(ms)
    ensures Coherent(AfterExpunge(ms))
  {
    KeptIsCoherent(ms);
  }

  lemma RefreshedIsCoherent(w: World, mint: nat, found: seq<Found>, box: Box, w': World)
    requires Next(w, Refresh(mint, found, box), w')
    ensures Coherent(box.messages)
  {
    forall a | 0 <= a < |box.messages|
      ensures box.messages[a].flags == ParseFlags(box.messages[a].path.name)
      ensures box.messages[a].recent == (box.messages[a].path.sub == New)
    {
      ShownFrom(w.disk, mint, found, w'.disk, box, a);
    }
  }

  /** The flags a session stores are canonical, as Add and Remove make them. */
  ghost predicate CanonicalStep(s: Session, e: Event, s': Session) { Happens(s, e, s') && (e.Store? ==> Canonical(e.flags)) }

  ghost predicate CoherentIn(s: Session) { Coherent(s.box.messages) }

  lemma EventIsCoherent(s: Session, e: Event, s': Session)
    requires CoherentIn(s) && CanonicalStep(s, e, s')
    ensures CoherentIn(s')
  {
    match e
    case Poll(mint, found, box) => RefreshedIsCoherent(s.w, mint, found, box, s'.w);
    case Announce(mint, found, box) => RefreshedIsCoherent(s.w, mint, found, box, s'.w);
    case Select(mint, found, box) => RefreshedIsCoherent(s.w, mint, found, box, s'.w);
    case Store(i, f) => FlaggedCoherent(s.box.messages[i], f);
    case ExpungeAll => ExpungedIsCoherent(s.box.messages);
    case _ =>
  }

  /** In every session the flags and the recent mark of every message of the
      snapshot are those its file name says, whatever was stored or expunged. */
  lemma AlwaysCoherent(ss: seq<Session>, es: seq<Event>, i: nat)
    requires Runs.IsRun(ss, es, CanonicalStep) && Opened(ss[0]) && i < |ss|
    ensures Coherent(ss[i].box.messages)
  {
    var w, mint, found :| Inv(w) && Next(w, Refresh(mint, found, ss[0].box), ss[0].w) && Follows(ss[0]);
    RefreshedIsCoherent(w, mint, found, ss[0].box, ss[0].w);
    forall s, e, s' | CoherentIn(s) && CanonicalStep(s, e, s') ensures CoherentIn(s') { EventIsCoherent(s, e, s'); }
    Runs.Invariant(ss, es, CanonicalStep, CoherentIn, i);
  }

  // ---- RECENT ----

  ghost function RecentPaths(ms: seq<Message>): set<Path> { set i | 0 <= i < |ms| && ms[i].recent :: ms[i].path }

  lemma {:induction false} CountIsSize(ms: seq<Message>)
    requires forall i, j :: 0 <= i < j < |ms| ==> ms[i].path != ms[j].path
    ensures CountRecent(ms) == |RecentPaths(ms)|
    decreases |ms|
  {
    if ms != [] {
      var front, last := ms[..|ms| - 1], ms[|ms| - 1];
      CountIsSize(front);
      assert RecentPaths(ms) == RecentPaths(front) + (if last.recent then {last.path} else {});
      assert last.path !in RecentPaths(front);
    }
  }

  /** The RECENT number of a refresh is the number of visible files in new/. */
  lemma RecentIsNew(w: World, mint: nat, found: seq<Found>, box: Box, w': World)
    requires Next(w, Refresh(mint, found, box), w')
    ensures CountRecent(box.messages) == |set p | p in w.disk.files && Visible(p) && p.sub == New|
  {
    SnapshotPaths(w.disk, mint, found, w'.disk, box);
    RefreshedIsCoherent(w, mint, found, box, w');
    CountIsSize(box.messages);
    NewPaths(box.messages, w.disk.files);
  }

  lemma NewPaths(ms: seq<Message>, files: map<Path, Stat>)
    requires ShowsFiles(ms, files) && Coherent(ms)
    ensures RecentPaths(ms) == set p | p in files && Visible(p) && p.sub == New
  {
    forall p | p in files && Visible(p) && p.sub == New ensures p in RecentPaths(ms) {
      assert Shows(ms, p);
      var i :| 0 <= i < |ms| && ms[i].path == p;
      assert ms[i].recent;
    }
  }

  // ---- the flags of an appended message ----

  lemma {:induction false} PickNone(order: string)
    ensures Pick(order, {}) == []
  {
    if order != "" { PickNone(order[1..]); }
  }

  lemma PlainName(base: string)
    requires SepIndex(base) == |base|
    ensures BaseName(base) == base && ParseFlags(base) == []
  {
    PickNone(KNOWN);
  }

  lemma AppendedName(base: string, f: Flags)
    requires SepIndex(base) == |base| && Canonical(f)
    ensures BaseName(AppendPath(base, f).name) == base && ParseFlags(AppendPath(base, f).name) == f
    ensures AppendPath(base, f).sub == New <==> f == []
  {
    PlainName(base);
    if f != [] {
      FlagsRoundTrip(base, f);
      RenameKeepsBase(base, f);
    }
  }

  /** A message appended with flags f is shown by the refresh with exactly
      those, and recent exactly when there are none. */
  lemma AppendedFlags(w: World, base: string, f: Flags, mint: nat, found: seq<Found>, box: Box, w': World, a: nat)
    requires SepIndex(base) == |base| && Canonical(f) && Next(w, Refresh(mint, found, box), w')
    requires a < |box.messages| && box.messages[a].path == AppendPath(base, f)
    ensures box.messages[a].flags == f && (box.messages[a].recent <==> f == []) && box.messages[a].Base() == base
  {
    AppendedName(base, f);
    ShownFrom(w.disk, mint, found, w'.disk, box, a);
  }
}
