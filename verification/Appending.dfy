/** Which message APPEND reports, by the times of the files that wait. */
module Appending {
  import opened Text
  import opened Seqs
  import opened MaildirFlags
  import opened Maildir
  import opened MailboxRuns
  import opened InsertionSort
  import UidList

  // ---- a refresh is always possible, and any tie may fall either way ----

  lemma {:induction false} EnumerationExists(files: map<Path, Stat>, keys: set<Path>) returns (found: seq<Found>)
    requires keys <= files.Keys
    ensures Enumerates(found, files, keys)
    decreases |keys|
  {
    if keys == {} {
      found := [];
    } else {
      var p :| p in keys;
      var rest := EnumerationExists(files, keys - {p});
      EnumeratesAdd(rest, files, keys - {p}, p);
      found := if Visible(p) then rest + [Found(p, files[p])] else rest;
      assert keys - {p} + {p} == keys;
    }
  }

  /** By time, and last among files of equal time. */
  function LateKey(last: Path): Found -> int {
    (f: Found) => 2 * f.stat.mtime + (if f.path == last then 1 else 0)
  }

  ghost predicate LastOfTies(found: seq<Found>, last: Path) {
    forall i, j :: 0 <= i < j < |found| && found[i].path == last ==> found[i].stat.mtime < found[j].stat.mtime
  }

  lemma LateOrder(found: seq<Found>, last: Path)
    requires Seqs.Ordered(found, LateKey(last))
    requires forall i, j :: 0 <= i < j < |found| ==> found[i].path != found[j].path
    ensures forall i, j :: 0 <= i < j < |found| ==> found[i].stat.mtime <= found[j].stat.mtime
    ensures LastOfTies(found, last)
  {
    forall i, j | 0 <= i < j < |found|
      ensures found[i].stat.mtime <= found[j].stat.mtime
      ensures found[i].path == last ==> found[i].stat.mtime < found[j].stat.mtime
    {
      assert LateKey(last)(found[i]) <= LateKey(last)(found[j]);
    }
  }

  /** Any file may come last among those of its age. */
  lemma ScanExists(files: map<Path, Stat>, last: Path) returns (found: seq<Found>)
    ensures IsScan(found, files) && LastOfTies(found, last)
  {
    var listed := EnumerationExists(files, files.Keys);
    found := Sorted(listed, ByKey(LateKey(last)));
    SortedPermutes(listed, ByKey(LateKey(last)));
    SortedOrders(listed, LateKey(last));
    SameMembers(found, listed);
    PathsDistinct(listed, found);
    LateOrder(found, last);
    ScanFromEnumeration(listed, found, files);
  }

  lemma PathsDistinct(listed: seq<Found>, found: seq<Found>)
    requires multiset(found) == multiset(listed)
    requires forall i, j :: 0 <= i < j < |listed| ==> listed[i].path != listed[j].path
    ensures forall i, j :: 0 <= i < j < |found| ==> found[i].path != found[j].path
  {
    assert Distinct(listed);
    PermutationDistinct(listed, found);
    SameMembers(found, listed);
    forall i, j | 0 <= i < j < |found| ensures found[i].path != found[j].path {
      assert found[i] in listed && found[j] in listed;
    }
  }

  lemma {:induction false} EncodingExists(uids: map<string, nat>) returns (es: seq<UidList.Entry>)
    ensures UidList.Encodes(es, uids)
    decreases |uids.Keys|
  {
    if uids == map[] {
      es := [];
    } else {
      var b :| b in uids;
      var rest := uids - {b};
      assert rest.Keys == uids.Keys - {b};
      var front := EncodingExists(rest);
      es := front + [UidList.Entry(uids[b], b)];
      EncodesMore(front, uids, b);
    }
  }

  lemma EncodesMore(front: seq<UidList.Entry>, uids: map<string, nat>, b: string)
    requires b in uids && UidList.Encodes(front, uids - {b})
    ensures UidList.Encodes(front + [UidList.Entry(uids[b], b)], uids)
  {
    var es := front + [UidList.Entry(uids[b], b)];
    assert forall i :: 0 <= i < |front| ==> es[i] == front[i] && front[i].base != b;
    forall c | c in uids ensures UidList.Has(es, c) {
      if c == b {
        assert es[|front|].base == b;
      } else {
        assert UidList.Has(front, c);
        var i :| 0 <= i < |front| && front[i].base == c;
        assert es[i].base == c;
      }
    }
  }

  lemma SnapshotExists(found: seq<Found>, uids: map<string, nat>) returns (ms: seq<Message>)
    requires forall i, j :: 0 <= i < j < |found| ==> found[i].path != found[j].path
    requires forall k :: 0 <= k < |found| ==> found[k].Base() in uids
    ensures IsSnapshot(ms, found, uids)
  {
    var raw := seq(|found|, k requires 0 <= k < |found| => MessageOf(found[k], uids));
    var uid := (m: Message) => m.uid;
    var sorted := Sorted(raw, ByKey(uid));
    SortedPermutes(raw, ByKey(uid));
    SortedOrders(raw, uid);
    SnapshotFromSort(raw, sorted, found, uids);
    ms := Renumber(sorted);
  }

  /** Over any scan that does not exhaust the UIDs there is a refresh. */
  lemma RefreshExists(w: World, mint: nat, found: seq<Found>) returns (box: Box, w': World)
    requires mint < UINT32 && IsScan(found, w.disk.files)
    requires UidList.Read(w.disk.list, mint).next + |Unknown(UidList.Read(w.disk.list, mint).uids, Bases(found))| < UINT32
    ensures Next(w, Refresh(mint, found, box), w')
  {
    var l := UidList.Read(w.disk.list, mint);
    var (uids, next) := Assign(l.uids, l.next, Bases(found));
    AssignKeys(l.uids, l.next, Bases(found));
    assert forall k :: 0 <= k < |found| ==> Bases(found)[k] in NameSet(Bases(found));
    var ms := SnapshotExists(found, uids);
    var live := Live(uids, Bases(found));
    var es := EncodingExists(live);
    var written := Some(UidList.Render(l.validity, next, es));
    assert Persists(written, live, l.validity, next);
    var list := if Dirty(l.uids, Bases(found)) then written else w.disk.list;
    RefreshDone(w.disk, mint, found, l, uids, next, ms, list);
    box := Box(ms, l.validity, next);
    w' := World(Disk(w.disk.files, list), w.issued + Issue(l.next, Unknown(l.uids, Bases(found))));
  }

  // ---- the last name numbered ----

  /** The last unknown name of a scan is the last one numbered. */
  lemma {:induction false} UnknownLast(uids: map<string, nat>, bases: seq<string>, j: nat)
    requires j < |bases| && bases[j] !in uids && Distinct(bases)
    requires forall k :: j < k < |bases| ==> bases[k] in uids
    ensures Unknown(uids, bases) != [] && Unknown(uids, bases)[|Unknown(uids, bases)| - 1] == bases[j]
    decreases |bases|
  {
    if j == 0 {
      NothingUnknown(uids[bases[0] := 0], bases[1..]);
    } else if bases[0] in uids {
      UnknownLast(uids, bases[1..], j - 1);
    } else {
      assert bases[j] != bases[0];
      UnknownLast(uids[bases[0] := 0], bases[1..], j - 1);
    }
  }

  lemma NothingUnknown(uids: map<string, nat>, bases: seq<string>)
    requires forall k :: 0 <= k < |bases| ==> bases[k] in uids
    ensures Unknown(uids, bases) == []
  {
    UnknownNames(uids, bases);
    var new_ := Unknown(uids, bases);
    assert forall i :: 0 <= i < |new_| ==> new_[i] in new_;
    assert forall b :: b in new_ ==> b in bases && b !in uids;
  }

  lemma LastUnknownIndex(uids: map<string, nat>, bases: seq<string>, i: nat) returns (j: nat)
    requires i < |bases| && bases[i] !in uids
    ensures i <= j < |bases| && bases[j] !in uids && forall k :: j < k < |bases| ==> bases[k] in uids
  {
    j := |bases| - 1;
    while bases[j] in uids
      invariant i <= j < |bases|
      invariant forall k :: j < k < |bases| ==> bases[k] in uids
      decreases j
    {
      j := j - 1;
    }
  }

  // ---- what Append reports ----

  predicate Reports(box: Box, p: Path) {
    box.messages != [] && box.messages[|box.messages| - 1].path == p
  }

  /** A visible file without a UID. */
  ghost predicate Waiting(w: World, q: Path) {
    q in w.disk.files && Visible(q) && BaseName(q.name) !in ListOf(w).uids
  }

  lemma BasesDistinct(found: seq<Found>, files: map<Path, Stat>)
    requires IsScan(found, files) && GoodNames(files)
    ensures Distinct(Bases(found))
  {
    forall i, j | 0 <= i < j < |found| ensures Bases(found)[i] != Bases(found)[j] {
      assert found[i].path != found[j].path;
    }
  }

  /** p has just been delivered, under a name without a UID. */
  ghost predicate Delivered(w: World, p: Path, stat: Stat, w1: World) {
    Inv(w) && Next(w, Deliver(p, stat), w1) && BaseName(p.name) !in ListOf(w).uids
  }

  lemma PositionOf(found: seq<Found>, files: map<Path, Stat>, p: Path) returns (i: nat)
    requires IsScan(found, files) && p in files && Visible(p)
    ensures i < |found| && found[i].path == p && found[i].stat == files[p]
  {
    assert FoundPath(found, p);
    i :| 0 <= i < |found| && found[i].path == p;
  }

  lemma ListUnchanged(w: World, p: Path, stat: Stat, w1: World, mint: nat)
    requires Delivered(w, p, stat, w1)
    ensures Inv(w1) && UidList.Read(w.disk.list, mint).uids == UidList.Read(w1.disk.list, mint).uids == ListOf(w).uids
    ensures p in w1.disk.files && Visible(p) && w1.disk.files[p] == stat
    ensures forall q :: Waiting(w, q) ==> q in w1.disk.files && w1.disk.files[q] == w.disk.files[q] && q != p
    ensures forall q :: q in w1.disk.files && q != p ==> q in w.disk.files && w1.disk.files[q] == w.disk.files[q]
  {
    StepKeeps(w, Deliver(p, stat), w1);
  }

  /** The appended message is reported exactly when no waiting file follows it
      in the scan. */
  lemma ReportsByOrder(w: World, p: Path, stat: Stat, w1: World, mint: nat, found: seq<Found>, box: Box, w2: World, i: nat)
    requires Delivered(w, p, stat, w1) && Next(w1, Refresh(mint, found, box), w2)
    requires i < |found| && found[i].path == p
    ensures Reports(box, p) <==> forall k :: i < k < |found| ==> Bases(found)[k] in ListOf(w).uids
  {
    ListUnchanged(w, p, stat, w1, mint);
    AppendReportsLast(w, p, stat, w1, mint, found, box, w2);
    BasesDistinct(found, w1.disk.files);
    LastIsAt(ListOf(w).uids, Bases(found), i);
  }

  lemma LastIsAt(uids: map<string, nat>, bases: seq<string>, i: nat)
    requires i < |bases| && bases[i] !in uids && Distinct(bases)
    ensures Unknown(uids, bases) != []
    ensures Unknown(uids, bases)[|Unknown(uids, bases)| - 1] == bases[i] <==> forall k :: i < k < |bases| ==> bases[k] in uids
  {
    var j := LastUnknownIndex(uids, bases, i);
    UnknownLast(uids, bases, j);
    if i < j { assert bases[i] != bases[j]; }
  }

  /** Whatever order the refresh chooses. */
  ghost predicate Certain(w1: World, p: Path, mint: nat) {
    forall found, box, w2 :: Next(w1, Refresh(mint, found, box), w2) ==> Reports(box, p)
  }

  /** For some order the refresh may choose. */
  ghost predicate Possible(w1: World, p: Path, mint: nat) {
    exists found, box, w2 :: Next(w1, Refresh(mint, found, box), w2) && Reports(box, p)
  }

  ghost predicate AllWaitingBefore(w: World, t: int) {
    forall q :: Waiting(w, q) ==> w.disk.files[q].mtime < t
  }

  /** If all that waits is older, the appended message is reported. */
  lemma OlderAreBefore(w: World, p: Path, stat: Stat, w1: World, mint: nat, found: seq<Found>, box: Box, w2: World)
    requires Delivered(w, p, stat, w1) && Next(w1, Refresh(mint, found, box), w2)
    requires AllWaitingBefore(w, stat.mtime)
    ensures Reports(box, p)
  {
    ListUnchanged(w, p, stat, w1, mint);
    var i := PositionOf(found, w1.disk.files, p);
    forall k | i < k < |found| ensures Bases(found)[k] in ListOf(w).uids {
      var q := found[k].path;
      assert q != p && q in w1.disk.files;
      assert found[i].stat.mtime <= found[k].stat.mtime;
      assert !Waiting(w, q);
    }
    ReportsByOrder(w, p, stat, w1, mint, found, box, w2, i);
  }

  /** If something that waits is newer, it is not. */
  lemma NewerIsAfter(w: World, p: Path, stat: Stat, w1: World, mint: nat, found: seq<Found>, box: Box, w2: World, q: Path)
    requires Delivered(w, p, stat, w1) && Next(w1, Refresh(mint, found, box), w2)
    requires Waiting(w, q) && (w.disk.files[q].mtime > stat.mtime || (w.disk.files[q].mtime == stat.mtime && LastOfTies(found, q)))
    ensures !Reports(box, p)
  {
    ListUnchanged(w, p, stat, w1, mint);
    var i := PositionOf(found, w1.disk.files, p);
    var k := PositionOf(found, w1.disk.files, q);
    assert i < k;
    assert Bases(found)[k] !in ListOf(w).uids;
    ReportsByOrder(w, p, stat, w1, mint, found, box, w2, i);
  }

  /** A tie may fall in favour of the appended message. */
  lemma TieInFavour(w: World, p: Path, stat: Stat, w1: World, mint: nat, found: seq<Found>, box: Box, w2: World)
    requires Delivered(w, p, stat, w1) && Next(w1, Refresh(mint, found, box), w2)
    requires AllWaitingBefore(w, stat.mtime + 1) && LastOfTies(found, p)
    ensures Reports(box, p)
  {
    ListUnchanged(w, p, stat, w1, mint);
    var i := PositionOf(found, w1.disk.files, p);
    forall k | i < k < |found| ensures Bases(found)[k] in ListOf(w).uids {
      var q := found[k].path;
      assert q != p && q in w1.disk.files;
      assert found[i].stat.mtime < found[k].stat.mtime;
      assert !Waiting(w, q);
    }
    ReportsByOrder(w, p, stat, w1, mint, found, box, w2, i);
  }

  /** Two scans of a folder number the same names. */
  lemma SameUnknown(uids: map<string, nat>, files: map<Path, Stat>, found: seq<Found>, other: seq<Found>)
    requires IsScan(found, files) && IsScan(other, files)
    ensures |Unknown(uids, Bases(found))| == |Unknown(uids, Bases(other))|
  {
    ScanNames(found, files);
    ScanNames(other, files);
    UnknownNames(uids, Bases(found));
    UnknownNames(uids, Bases(other));
    SameLength(Unknown(uids, Bases(found)), Unknown(uids, Bases(other)));
  }

  /** From one refresh of a folder, another with the given file last of its age. */
  lemma OtherRefresh(w: World, mint: nat, found: seq<Found>, box: Box, w': World, last: Path)
    returns (found1: seq<Found>, box1: Box, w1: World)
    requires Next(w, Refresh(mint, found, box), w')
    ensures Next(w, Refresh(mint, found1, box1), w1) && LastOfTies(found1, last)
  {
    found1 := ScanExists(w.disk.files, last);
    SameUnknown(UidList.Read(w.disk.list, mint).uids, w.disk.files, found, found1);
    box1, w1 := RefreshExists(w, mint, found1);
  }

  /** What Append reports, by the folder before the call: the appended message
      for certain exactly when every file that waits for a UID is strictly
      older, and possibly exactly when none is strictly newer. Between the two
      lie the ties, which the sort may settle either way. */
  lemma AppendReportsExactly(w: World, p: Path, stat: Stat, w1: World, mint: nat, found: seq<Found>, box: Box, w2: World)
    requires Delivered(w, p, stat, w1) && Next(w1, Refresh(mint, found, box), w2)
    ensures Certain(w1, p, mint) <==> AllWaitingBefore(w, stat.mtime)
    ensures Possible(w1, p, mint) <==> AllWaitingBefore(w, stat.mtime + 1)
  {
    if AllWaitingBefore(w, stat.mtime) {
      forall f, b, v | Next(w1, Refresh(mint, f, b), v) ensures Reports(b, p) { OlderAreBefore(w, p, stat, w1, mint, f, b, v); }
    } else {
      var q :| Waiting(w, q) && !(w.disk.files[q].mtime < stat.mtime);
      var f, b, v := OtherRefresh(w1, mint, found, box, w2, q);
      NewerIsAfter(w, p, stat, w1, mint, f, b, v, q);
    }
    if AllWaitingBefore(w, stat.mtime + 1) {
      var f, b, v := OtherRefresh(w1, mint, found, box, w2, p);
      TieInFavour(w, p, stat, w1, mint, f, b, v);
    } else {
      var q :| Waiting(w, q) && !(w.disk.files[q].mtime < stat.mtime + 1);
      forall f, b, v | Next(w1, Refresh(mint, f, b), v) ensures !Reports(b, p) { NewerIsAfter(w, p, stat, w1, mint, f, b, v, q); }
    }
  }

  // ---- a tie ----

  const WAITING := Path(New, "a")
  const APPENDED := Path(New, "b")
  const NOON := Stat(1, 12)

  const BEFORE := World(Disk(map[WAITING := NOON], None), map[])
  const AFTER := World(Disk(map[WAITING := NOON, APPENDED := NOON], None), map[])

  lemma ShortNames()
    ensures BaseName("a") == "a" && BaseName("b") == "b"
  {
    assert "a"[1..] == "" && "b"[1..] == "";
    assert SepIndex("a") == 1 && SepIndex("b") == 1;
  }

  lemma TieSetting()
    ensures Delivered(BEFORE, APPENDED, NOON, AFTER)
    ensures IsScan([Found(WAITING, NOON), Found(APPENDED, NOON)], AFTER.disk.files)
  {
    ShortNames();
    var found := [Found(WAITING, NOON), Found(APPENDED, NOON)];
    assert found[0].path == WAITING && found[1].path == APPENDED;
    assert AFTER.disk.files == BEFORE.disk.files[APPENDED := NOON];
  }

  /** One message waits, another is appended in the same second: the sort
      decides which of the two Append reports. */
  lemma TieExample(mint: nat)
    requires mint < UINT32
    ensures Delivered(BEFORE, APPENDED, NOON, AFTER)
    ensures Possible(AFTER, APPENDED, mint) && !Certain(AFTER, APPENDED, mint)
  {
    ShortNames();
    TieSetting();
    var found := [Found(WAITING, NOON), Found(APPENDED, NOON)];
    assert Bases(found) == ["a", "b"] && ["a", "b"][1..] == ["b"] && ["b"][1..] == [];
    assert Unknown(map[], ["a", "b"]) == ["a", "b"];
    var box, w2 := RefreshExists(AFTER, mint, found);
    AppendReportsExactly(BEFORE, APPENDED, NOON, AFTER, mint, found, box, w2);
    assert Waiting(BEFORE, WAITING);
    assert forall q :: Waiting(BEFORE, q) ==> q == WAITING;
  }
}
