/** UIDs over any interleaving of operations on one folder (section 2.3.1.1 of
    RFC 3501). */
module MailboxRuns {
  import opened Text
  import opened Seqs
  import opened MaildirFlags
  import opened Maildir
  import UidList
  import Runs

  // ---- numbering without wrap-around ----

  /** The names Assign numbers, in order. */
  function Unknown(uids: map<string, nat>, bases: seq<string>): seq<string>
    decreases |bases|
  {
    if bases == [] then []
    else if bases[0] in uids then Unknown(uids, bases[1..])
    else [bases[0]] + Unknown(uids[bases[0] := 0], bases[1..])
  }

  lemma {:induction false} UnknownByKeys(a: map<string, nat>, b: map<string, nat>, bases: seq<string>)
    requires a.Keys == b.Keys
    ensures Unknown(a, bases) == Unknown(b, bases)
    decreases |bases|
  {
    if bases != [] {
      if bases[0] in a {
        assert bases[0] in b.Keys;
        UnknownByKeys(a, b, bases[1..]);
      } else {
        assert bases[0] !in b.Keys;
        assert a[bases[0] := 0].Keys == b[bases[0] := 0].Keys;
        UnknownByKeys(a[bases[0] := 0], b[bases[0] := 0], bases[1..]);
      }
    }
  }

  lemma {:induction false} UnknownNames(uids: map<string, nat>, bases: seq<string>)
    ensures forall b :: b in Unknown(uids, bases) <==> b in bases && b !in uids
    ensures forall i, j :: 0 <= i < j < |Unknown(uids, bases)| ==> Unknown(uids, bases)[i] != Unknown(uids, bases)[j]
    decreases |bases|
  {
    if bases != [] {
      assert bases == [bases[0]] + bases[1..];
      if bases[0] in uids { UnknownNames(uids, bases[1..]); }
      else {
        var rest := Unknown(uids[bases[0] := 0], bases[1..]);
        UnknownNames(uids[bases[0] := 0], bases[1..]);
        assert forall i :: 0 <= i < |rest| ==> rest[i] in rest;
      }
    }
  }

  lemma DirtyIff(uids: map<string, nat>, bases: seq<string>)
    ensures Dirty(uids, bases) <==> Unknown(uids, bases) != []
  {
    UnknownNames(uids, bases);
    if Unknown(uids, bases) != [] { assert Unknown(uids, bases)[0] in Unknown(uids, bases); }
  }

  /** The assignment a refresh ends with while the counter does not pass
      2^32: old names keep their UIDs, the new ones get next, next + 1, ... */
  ghost predicate Numbers(uids: map<string, nat>, next: nat, bases: seq<string>, uids': map<string, nat>, next': nat) {
    var new_ := Unknown(uids, bases);
    && next' == next + |new_|
    && (forall b :: b in uids ==> b in uids' && uids'[b] == uids[b])
    && (forall i :: 0 <= i < |new_| ==> new_[i] in uids' && uids'[new_[i]] == next + i)
    && (forall b :: b in uids' ==> b in uids || b in new_)
  }

  lemma {:induction false} AssignNumbers(uids: map<string, nat>, next: nat, bases: seq<string>)
    requires next + |Unknown(uids, bases)| < UINT32
    ensures Numbers(uids, next, bases, Assign(uids, next, bases).0, Assign(uids, next, bases).1)
    decreases |bases|
  {
    if bases != [] {
      var b := bases[0];
      if b in uids {
        AssignNumbers(uids, next, bases[1..]);
      } else {
        UnknownByKeys(uids[b := 0], uids[b := next], bases[1..]);
        var rest := Unknown(uids[b := next], bases[1..]);
        assert Unknown(uids, bases) == [b] + rest;
        assert Succ32(next) == next + 1;
        AssignNumbers(uids[b := next], next + 1, bases[1..]);
        var r := Assign(uids, next, bases);
        assert Numbers(uids[b := next], next + 1, bases[1..], r.0, r.1);
        forall i | 0 <= i < |[b] + rest| ensures ([b] + rest)[i] in r.0 && r.0[([b] + rest)[i]] == next + i {
          if i > 0 { assert ([b] + rest)[i] == rest[i - 1]; }
        }
      }
    }
  }

  lemma {:induction false} AssignCounter(uids: map<string, nat>, next: nat, bases: seq<string>)
    requires next < UINT32
    ensures Assign(uids, next, bases).1 == (next + |Unknown(uids, bases)|) % UINT32
    decreases |bases|
  {
    if bases != [] {
      var b := bases[0];
      if b in uids {
        AssignCounter(uids, next, bases[1..]);
      } else {
        UnknownByKeys(uids[b := 0], uids[b := next], bases[1..]);
        AssignCounter(uids[b := next], Succ32(next), bases[1..]);
        WrapStep(next, |Unknown(uids, bases)|);
      }
    }
  }

  ghost predicate AllFresh(uids: map<string, nat>, next: nat, bases: seq<string>) {
    forall b :: b in Unknown(uids, bases) ==> b in Assign(uids, next, bases).0 && Assign(uids, next, bases).0[b] >= next
  }

  /** The counter lies above every UID it has handed out. */
  ghost predicate CounterAbove(uids: map<string, nat>, next: nat, bases: seq<string>) {
    forall b :: b in Unknown(uids, bases) ==>
      b in Assign(uids, next, bases).0 && Assign(uids, next, bases).0[b] < Assign(uids, next, bases).1
  }

  /** A batch keeps the numbering sound exactly when the 32-bit counter stays
      below its end: at the end itself the UIDs are still fresh, but UIDNEXT
      has become zero. */
  lemma SoundExactly(uids: map<string, nat>, next: nat, bases: seq<string>)
    requires next < UINT32 && 1 <= |Unknown(uids, bases)| <= UINT32
    ensures AllFresh(uids, next, bases) && CounterAbove(uids, next, bases) <==> next + |Unknown(uids, bases)| < UINT32
    ensures Assign(uids, next, bases).1 == 0 <==> next + |Unknown(uids, bases)| == UINT32
  {
    var new_, r := Unknown(uids, bases), Assign(uids, next, bases);
    var n := |new_|;
    FreshExactly(uids, next, bases);
    AssignModulo(uids, next, bases);
    AssignCounter(uids, next, bases);
    assert new_[n - 1] in new_ && r.0[new_[n - 1]] == (next + (n - 1)) % UINT32;
    CounterValue(next, n);
    if next + n < UINT32 {
      forall b | b in new_ ensures b in r.0 && r.0[b] < r.1 {
        var i :| 0 <= i < n && new_[i] == b;
        assert r.0[new_[i]] == (next + i) % UINT32 == next + i;
      }
    }
  }

  lemma CounterValue(next: nat, n: nat)
    requires next < UINT32 && n <= UINT32
    ensures (next + n) % UINT32 == if next + n < UINT32 then next + n else if next + n < 2 * UINT32 then next + n - UINT32 else 0
  {
  }

  /** A UID in use is handed out again exactly when the batch runs past the
      end of the counter by more than that UID. */
  lemma ReusedExactly(uids: map<string, nat>, next: nat, bases: seq<string>, u: nat)
    requires u < next < UINT32 && |Unknown(uids, bases)| <= UINT32
    ensures (exists b :: b in Unknown(uids, bases) && b in Assign(uids, next, bases).0 && Assign(uids, next, bases).0[b] == u)
       <==> next + |Unknown(uids, bases)| > UINT32 + u
  {
    var new_, r := Unknown(uids, bases), Assign(uids, next, bases).0;
    AssignModulo(uids, next, bases);
    if next + |new_| > UINT32 + u {
      var i := UINT32 - next + u;
      assert r[new_[i]] == (next + i) % UINT32;
      CounterValue(next, i);
      assert new_[i] in new_ && r[new_[i]] == u;
    } else {
      forall b | b in new_ && b in r ensures r[b] != u {
        var i :| 0 <= i < |new_| && new_[i] == b;
        assert r[new_[i]] == (next + i) % UINT32;
        CounterValue(next, i);
      }
    }
  }

  /** Exactly when the 32-bit counter does not wrap inside a batch do the new
      UIDs all lie at or above the old UIDNEXT. */
  lemma {:induction false} FreshExactly(uids: map<string, nat>, next: nat, bases: seq<string>)
    requires next < UINT32 && |Unknown(uids, bases)| <= UINT32
    ensures AllFresh(uids, next, bases) <==> next + |Unknown(uids, bases)| <= UINT32
  {
    AssignModulo(uids, next, bases);
    var new_, r := Unknown(uids, bases), Assign(uids, next, bases).0;
    if next + |new_| <= UINT32 {
      forall b | b in new_ ensures b in r && r[b] >= next {
        var i :| 0 <= i < |new_| && new_[i] == b;
        assert r[new_[i]] == (next + i) % UINT32;
      }
    } else {
      var i := UINT32 - next;
      assert new_[i] in new_;
      assert r[new_[i]] == (next + i) % UINT32 == 0;
    }
  }

  lemma {:induction false} AssignModulo(uids: map<string, nat>, next: nat, bases: seq<string>)
    requires next < UINT32
    ensures forall b :: b in uids ==> b in Assign(uids, next, bases).0 && Assign(uids, next, bases).0[b] == uids[b]
    ensures forall i :: 0 <= i < |Unknown(uids, bases)| ==>
      Unknown(uids, bases)[i] in Assign(uids, next, bases).0
      && Assign(uids, next, bases).0[Unknown(uids, bases)[i]] == (next + i) % UINT32
    decreases |bases|
  {
    if bases != [] {
      var b := bases[0];
      if b in uids {
        AssignModulo(uids, next, bases[1..]);
      } else {
        UnknownByKeys(uids[b := 0], uids[b := next], bases[1..]);
        var rest := Unknown(uids[b := next], bases[1..]);
        var new_ := Unknown(uids, bases);
        assert new_ == [b] + rest;
        AssignModulo(uids[b := next], Succ32(next), bases[1..]);
        var r := Assign(uids, next, bases).0;
        assert r == Assign(uids[b := next], Succ32(next), bases[1..]).0;
        forall i | 0 <= i < |new_| ensures new_[i] in r && r[new_[i]] == (next + i) % UINT32 {
          if i > 0 {
            assert new_[i] == rest[i - 1];
            WrapStep(next, i);
          } else {
            assert b in uids[b := next];
          }
        }
      }
    }
  }

  lemma WrapStep(next: nat, i: nat)
    requires next < UINT32 && i >= 1
    ensures (Succ32(next) + (i - 1)) % UINT32 == (next + i) % UINT32
  {
    if next + 1 < UINT32 {
      assert Succ32(next) == next + 1;
    } else {
      assert Succ32(next) == 0;
    }
  }

  /** After 2^32 - 1 UIDs the counter comes round and a UID in use is issued
      again to another message. */
  lemma WrapReuses()
    ensures var r := Assign(map["old" := 1], UINT32 - 1, ["a", "b", "c"]).0;
      r["a"] == UINT32 - 1 && r["b"] == 0 && r["c"] == r["old"] == 1
  {
    var bases := ["a", "b", "c"];
    assert bases[1..] == ["b", "c"] && bases[1..][1..] == ["c"] && bases[1..][1..][1..] == [];
    assert Succ32(UINT32 - 1) == 0 && Succ32(0) == 1;
    var m1 := map["old" := 1]["a" := UINT32 - 1];
    var m2 := m1["b" := 0];
    calc {
      Assign(map["old" := 1], UINT32 - 1, bases);
      Assign(m1, 0, bases[1..]);
      Assign(m2, 1, bases[1..][1..]);
      Assign(m2["c" := 1], 2, bases[1..][1..][1..]);
    }
  }

  // ---- the state machine ----

  /** A folder, and every UID issued since the list was first written with the
      base name it was issued to. Any number of Mailbox values,
      reopened at will, may deliver, rename, remove and refresh. */
  datatype World = World(disk: Disk, issued: map<nat, string>)

  datatype Step =
    | Deliver(path: Path, stat: Stat)
    | SetFlags(from: Path, flags: Flags)
    | Remove(paths: set<Path>)
    | Refresh(mint: nat, found: seq<Found>, box: Box)

  predicate PresentIn(files: map<Path, Stat>, base: string) {
    exists p :: p in files && Visible(p) && BaseName(p.name) == base
  }

  ghost predicate GoodNames(files: map<Path, Stat>) {
    && (forall p, q :: p in files && q in files && Visible(p) && Visible(q) && BaseName(p.name) == BaseName(q.name) ==> p == q)
    && (forall p :: p in files && Visible(p) ==> UidList.Clean(BaseName(p.name)))
  }

  /** UIDs a refresh hands out, by number. */
  function Issue(next: nat, names: seq<string>): map<nat, string> {
    map u: nat | next <= u < next + |names| :: NameFrom(next, names, u)
  }

  function NameFrom(next: nat, names: seq<string>, u: nat): string
    requires next <= u < next + |names|
  {
    names[u - next]
  }

  ghost predicate Next(w: World, s: Step, w': World) {
    match s
    case Deliver(p, stat) =>
      && p !in w.disk.files && Visible(p)
      && !PresentIn(w.disk.files, BaseName(p.name)) && UidList.Clean(BaseName(p.name))
      && w' == w.(disk := w.disk.(files := w.disk.files[p := stat]))
    case SetFlags(from, f) =>
      && from in w.disk.files
      && Rename(w.disk.files, from, FlagPath(from, f)) == Some(w'.disk.files)
      && w'.disk.list == w.disk.list && w'.issued == w.issued
    case Remove(paths) =>
      w' == w.(disk := w.disk.(files := w.disk.files - paths))
    case Refresh(mint, found, box) =>
      var l := UidList.Read(w.disk.list, mint);
      var new_ := Unknown(l.uids, Bases(found));
      && mint < UINT32
      && l.next + |new_| < UINT32
      && Refreshes(w.disk, mint, found, w'.disk, box)
      && w'.issued == w.issued + Issue(l.next, new_)
  }

  ghost predicate ListInv(l: UidList.Listing, issued: map<nat, string>) {
    && l.validity < UINT32
    && 1 <= l.next < UINT32
    && (forall u :: u in issued <==> 1 <= u < l.next)
    && (forall b :: b in l.uids ==> l.uids[b] in issued && issued[l.uids[b]] == b)
  }

  ghost predicate Inv(w: World) {
    && GoodNames(w.disk.files)
    && match w.disk.list
       case None => w.issued == map[]
       case Some(text) => UidList.Parse(text).Some? && ListInv(UidList.Parse(text).value, w.issued)
  }

  lemma ReadInv(w: World, mint: nat)
    requires Inv(w) && mint < UINT32
    ensures ListInv(UidList.Read(w.disk.list, mint), w.issued)
  {
  }

  // ---- each step keeps the invariant ----

  lemma FlagPathKeeps(p: Path, f: Flags)
    ensures BaseName(FlagPath(p, f).name) == BaseName(p.name)
    ensures Visible(FlagPath(p, f)) == Visible(p)
  {
    RenameKeepsBase(p.name, f);
    var b := BaseName(p.name);
    if b == "" && p.name != "" { assert SepAt(p.name, 0); }
  }

  lemma RenameKeepsNames(files: map<Path, Stat>, from: Path, f: Flags, files': map<Path, Stat>)
    requires GoodNames(files) && from in files
    requires Rename(files, from, FlagPath(from, f)) == Some(files')
    ensures GoodNames(files')
    ensures forall b :: PresentIn(files, b) <==> PresentIn(files', b)
  {
    var to := FlagPath(from, f);
    FlagPathKeeps(from, f);
    if from != to {
      forall b ensures PresentIn(files, b) <==> PresentIn(files', b) {
        if p :| p in files && Visible(p) && BaseName(p.name) == b {
          if p == from { assert to in files'; } else { assert p in files'; }
        }
        if p :| p in files' && Visible(p) && BaseName(p.name) == b {
          if p == to { assert from in files; } else { assert p in files; }
        }
      }
    }
  }

  ghost predicate Names(ms: seq<Message>, issued: map<nat, string>) {
    forall i :: 0 <= i < |ms| ==> ms[i].uid in issued && issued[ms[i].uid] == ms[i].Base()
  }

  lemma IssuedBelow(l: UidList.Listing, issued: map<nat, string>, bases: seq<string>, uids: map<string, nat>, next: nat)
    requires ListInv(l, issued) && Numbers(l.uids, l.next, bases, uids, next) && next < UINT32
    ensures var issued' := issued + Issue(l.next, Unknown(l.uids, bases));
      && (forall u :: u in issued' <==> 1 <= u < next)
      && (forall u :: u in issued ==> issued'[u] == issued[u])
      && (forall b :: b in uids ==> uids[b] in issued' && issued'[uids[b]] == b)
  {
    var new_ := Unknown(l.uids, bases);
    var issued' := issued + Issue(l.next, new_);
    forall b | b in uids ensures uids[b] in issued' && issued'[uids[b]] == b {
      if b !in l.uids {
        var i :| 0 <= i < |new_| && new_[i] == b;
        assert uids[b] == l.next + i;
      }
    }
  }

  lemma ScanNames(found: seq<Found>, files: map<Path, Stat>)
    requires IsScan(found, files)
    ensures forall b :: b in Bases(found) <==> PresentIn(files, b)
  {
    forall b ensures b in Bases(found) <==> PresentIn(files, b) {
      if b in Bases(found) {
        var i :| 0 <= i < |found| && Bases(found)[i] == b;
        assert found[i].path in files;
      }
      if PresentIn(files, b) {
        var p :| p in files && Visible(p) && BaseName(p.name) == b;
        assert FoundPath(found, p);
        var i :| 0 <= i < |found| && found[i].path == p;
        assert Bases(found)[i] == b;
      }
    }
  }

  lemma PersistedParses(text: Option<string>, live: map<string, nat>, validity: nat, next: nat)
    requires Persists(text, live, validity, next)
    requires validity < UINT32 && 1 <= next < UINT32
    requires forall b :: b in live ==> live[b] < UINT32 && UidList.Clean(b)
    ensures text.Some? && UidList.Parse(text.value) == Some(UidList.Listing(live, validity, next))
  {
    var es :| UidList.Encodes(es, live) && text == Some(UidList.Render(validity, next, es));
    UidList.RoundTrip(live, validity, next, es);
  }

  /** The list a refresh leaves behind. */
  lemma RefreshList(w: World, mint: nat, found: seq<Found>, box: Box, w': World)
    requires Inv(w) && Next(w, Refresh(mint, found, box), w')
    ensures Inv(w')
    ensures w'.disk.list.None? ==> w.disk.list.None? && found == []
    ensures w'.disk.list.Some? ==>
      var l' := UidList.Parse(w'.disk.list.value).value;
      var r := Assign(UidList.Read(w.disk.list, mint).uids, UidList.Read(w.disk.list, mint).next, Bases(found));
      && l'.validity == box.validity && l'.next == box.next
      && (forall b :: b in Bases(found) && b in r.0 ==> b in l'.uids && l'.uids[b] == r.0[b])
      && (forall b :: b in l'.uids ==> b in r.0 && l'.uids[b] == r.0[b])
  {
    var l := UidList.Read(w.disk.list, mint);
    var bases := Bases(found);
    var (uids, next) := Assign(l.uids, l.next, bases);
    ReadInv(w, mint);
    AssignNumbers(l.uids, l.next, bases);
    IssuedBelow(l, w.issued, bases, uids, next);
    DirtyIff(l.uids, bases);
    if Dirty(l.uids, bases) {
      ScanNames(found, w.disk.files);
      LiveIsListable(w, bases, uids, w'.issued, next);
      PersistedParses(w'.disk.list, Live(uids, bases), l.validity, next);
    } else {
      CleanRefresh(w, mint, found, box, w');
    }
  }

  /** A message shows the UID its name is listed under, or a new one. */
  ghost predicate OldOrFresh(ms: seq<Message>, l: UidList.Listing) {
    forall i :: 0 <= i < |ms| ==>
      if ms[i].Base() in l.uids then ms[i].uid == l.uids[ms[i].Base()] else ms[i].uid >= l.next
  }

  ghost predicate Below(issued: map<nat, string>, next: nat) {
    forall u :: u in issued ==> u < next
  }

  ghost predicate Extends(issued: map<nat, string>, issued': map<nat, string>) {
    forall u :: u in issued ==> u in issued' && issued'[u] == issued[u]
  }

  /** Every message is listed under its UID. */
  ghost predicate AllListed(ms: seq<Message>, uids: map<string, nat>) {
    forall i :: 0 <= i < |ms| ==> ms[i].Base() in uids && uids[ms[i].Base()] == ms[i].uid
  }

  lemma NumberedBox(l: UidList.Listing, issued: map<nat, string>, bases: seq<string>, ms: seq<Message>)
    requires ListInv(l, issued) && l.next + |Unknown(l.uids, bases)| < UINT32
    requires AllListed(ms, Assign(l.uids, l.next, bases).0)
    ensures var issued' := issued + Issue(l.next, Unknown(l.uids, bases));
      && Names(ms, issued')
      && Below(issued', Assign(l.uids, l.next, bases).1)
      && Extends(issued, issued')
      && OldOrFresh(ms, l)
      && Assign(l.uids, l.next, bases).1 >= l.next
  {
    var (uids, next) := Assign(l.uids, l.next, bases);
    AssignNumbers(l.uids, l.next, bases);
    IssuedBelow(l, issued, bases, uids, next);
    FreshAbove(l, bases, uids, next, ms);
  }

  lemma FreshAbove(l: UidList.Listing, bases: seq<string>, uids: map<string, nat>, next: nat, ms: seq<Message>)
    requires Numbers(l.uids, l.next, bases, uids, next)
    requires AllListed(ms, uids)
    ensures OldOrFresh(ms, l)
  {
    forall i | 0 <= i < |ms| && ms[i].Base() !in l.uids ensures ms[i].uid >= l.next {
      var new_ := Unknown(l.uids, bases);
      var k :| 0 <= k < |new_| && new_[k] == ms[i].Base();
    }
  }

  lemma SnapshotListed(d: Disk, mint: nat, found: seq<Found>, d': Disk, box: Box)
    requires Refreshes(d, mint, found, d', box)
    ensures var l := UidList.Read(d.list, mint);
      && AllListed(box.messages, Assign(l.uids, l.next, Bases(found)).0)
      && (forall i :: 0 <= i < |box.messages| ==> box.messages[i].Base() in Bases(found))
  {
    var l := UidList.Read(d.list, mint);
    SnapshotBases(box.messages, found, Assign(l.uids, l.next, Bases(found)).0);
  }

  /** The snapshot a refresh shows: no UID is taken back, every message shown
      has its UID issued to its own name, and UIDNEXT is above them all. */
  lemma RefreshBox(w: World, mint: nat, found: seq<Found>, box: Box, w': World)
    requires Inv(w) && Next(w, Refresh(mint, found, box), w')
    ensures Names(box.messages, w'.issued)
    ensures Below(w'.issued, box.next)
    ensures Extends(w.issued, w'.issued)
    ensures OldOrFresh(box.messages, UidList.Read(w.disk.list, mint))
    ensures box.next >= UidList.Read(w.disk.list, mint).next
  {
    ReadInv(w, mint);
    SnapshotListed(w.disk, mint, found, w'.disk, box);
    NumberedBox(UidList.Read(w.disk.list, mint), w.issued, Bases(found), box.messages);
  }

  /** A refresh lists every message it shows under the UID it shows. */
  lemma RefreshShowsList(w: World, mint: nat, found: seq<Found>, box: Box, w': World)
    requires Inv(w) && Next(w, Refresh(mint, found, box), w')
    ensures w'.disk.list.None? ==> box.messages == []
    ensures w'.disk.list.Some? && UidList.Parse(w'.disk.list.value).Some? ==>
      var l' := UidList.Parse(w'.disk.list.value).value;
      l'.validity == box.validity && l'.next == box.next && AllListed(box.messages, l'.uids)
  {
    RefreshList(w, mint, found, box, w');
    SnapshotListed(w.disk, mint, found, w'.disk, box);
  }

  lemma LiveIsListable(w: World, bases: seq<string>, uids: map<string, nat>, issued: map<nat, string>, next: nat)
    requires GoodNames(w.disk.files) && next < UINT32
    requires forall b :: b in bases <==> PresentIn(w.disk.files, b)
    requires forall u :: u in issued <==> 1 <= u < next
    requires forall b :: b in uids ==> uids[b] in issued && issued[uids[b]] == b
    ensures forall b :: b in Live(uids, bases) ==> Live(uids, bases)[b] < UINT32 && UidList.Clean(b)
  {
    forall b | b in Live(uids, bases) ensures Live(uids, bases)[b] < UINT32 && UidList.Clean(b) {
      assert PresentIn(w.disk.files, b);
    }
  }

  lemma CleanDisk(d: Disk, mint: nat, found: seq<Found>, d': Disk, box: Box)
    requires Refreshes(d, mint, found, d', box) && !Dirty(UidList.Read(d.list, mint).uids, Bases(found))
    ensures d' == d
    ensures d.list.None? ==> found == [] && box.messages == []
  {
    assert forall i :: 0 <= i < |found| ==> Bases(found)[i] in Bases(found);
  }

  lemma CleanRefresh(w: World, mint: nat, found: seq<Found>, box: Box, w': World)
    requires Inv(w) && Next(w, Refresh(mint, found, box), w')
    requires var l := UidList.Read(w.disk.list, mint);
      Unknown(l.uids, Bases(found)) == [] && !Dirty(l.uids, Bases(found))
    ensures w'.disk == w.disk && w'.issued == w.issued
    ensures w.disk.list.None? ==> found == [] && box.messages == []
  {
    CleanDisk(w.disk, mint, found, w'.disk, box);
    NothingIssued(UidList.Read(w.disk.list, mint).next);
  }

  lemma NothingIssued(next: nat)
    ensures Issue(next, []) == map[]
  {
  }

  /** Every step keeps the invariant and never takes back a UID. */
  lemma StepKeeps(w: World, s: Step, w': World)
    requires Inv(w) && Next(w, s, w')
    ensures Inv(w')
    ensures Extends(w.issued, w'.issued)
  {
    match s
    case Deliver(p, stat) =>
      assert forall q :: q in w.disk.files && Visible(q) ==> PresentIn(w.disk.files, BaseName(q.name));
    case SetFlags(from, f) => RenameKeepsNames(w.disk.files, from, f, w'.disk.files);
    case Remove(paths) =>
    case Refresh(mint, found, box) =>
      RefreshList(w, mint, found, box, w');
      RefreshBox(w, mint, found, box, w');
  }

  // ---- whole runs ----

  ghost predicate Initial(w: World) {
    GoodNames(w.disk.files) && w.disk.list == None && w.issued == map[]
  }

  ghost predicate Run(ws: seq<World>, steps: seq<Step>) {
    Runs.IsRun(ws, steps, Next) && Initial(ws[0])
  }

  lemma RunInv(ws: seq<World>, steps: seq<Step>, i: nat)
    requires Run(ws, steps) && i < |ws|
    ensures Inv(ws[i])
    ensures i < |steps| ==> Next(ws[i], steps[i], ws[i + 1])
  {
    forall w, s, w' | Inv(w) && Next(w, s, w') ensures Inv(w') { StepKeeps(w, s, w'); }
    Runs.Invariant(ws, steps, Next, Inv, i);
  }

  ghost predicate Since(w: World, w': World) { Extends(w.issued, w'.issued) }

  /** What has been issued stays issued to the same name. */
  lemma NeverTakenBack(ws: seq<World>, steps: seq<Step>, i: nat, j: nat)
    requires Run(ws, steps) && i <= j < |ws|
    ensures Extends(ws[i].issued, ws[j].issued)
  {
    forall w, s, w' | Inv(w) && Next(w, s, w') ensures Inv(w') && Since(w, w') { StepKeeps(w, s, w'); }
    Runs.Monotone(ws, steps, Next, Inv, Since, i, j);
  }

  lemma ShownIsIssued(ws: seq<World>, steps: seq<Step>, i: nat)
    requires Run(ws, steps) && i < |steps| && steps[i].Refresh?
    ensures Names(steps[i].box.messages, ws[i + 1].issued)
    ensures Below(ws[i + 1].issued, steps[i].box.next)
  {
    RunInv(ws, steps, i);
    RefreshBox(ws[i], steps[i].mint, steps[i].found, steps[i].box, ws[i + 1]);
  }

  /** In any run, a UID shown twice, by whichever refreshes, names the same
      message both times, and lies below every UIDNEXT reported from then on. */
  lemma OneNamePerUid(ws: seq<World>, steps: seq<Step>, i: nat, a: nat, j: nat, b: nat)
    requires Run(ws, steps) && i <= j < |steps|
    requires steps[i].Refresh? && a < |steps[i].box.messages|
    requires steps[j].Refresh? && b < |steps[j].box.messages|
    ensures steps[i].box.messages[a].uid == steps[j].box.messages[b].uid
        ==> steps[i].box.messages[a].Base() == steps[j].box.messages[b].Base()
    ensures steps[i].box.messages[a].uid < steps[j].box.next
  {
    ShownIsIssued(ws, steps, i);
    ShownIsIssued(ws, steps, j);
    NeverTakenBack(ws, steps, i + 1, j + 1);
    SameIssue(steps[i].box.messages, a, ws[i + 1].issued, steps[j].box.messages, b, ws[j + 1].issued, steps[j].box.next);
  }

  lemma SameIssue(ms: seq<Message>, a: nat, issued: map<nat, string>,
                  ms': seq<Message>, b: nat, issued': map<nat, string>, next': nat)
    requires a < |ms| && b < |ms'| && Names(ms, issued) && Names(ms', issued')
    requires Extends(issued, issued') && Below(issued', next')
    ensures ms[a].uid == ms'[b].uid ==> ms[a].Base() == ms'[b].Base()
    ensures ms[a].uid < next'
  {
  }

  function ListOf(w: World): UidList.Listing {
    UidList.Read(w.disk.list, 0)
  }

  /** Once a list is on disk it stays readable, under one UIDVALIDITY. */
  lemma ListedStep(w: World, s: Step, w': World)
    requires Inv(w) && Next(w, s, w') && w.disk.list.Some?
    ensures w'.disk.list.Some? && ListOf(w').validity == ListOf(w).validity
    ensures s.Refresh? ==> s.box.validity == ListOf(w).validity
    ensures forall b :: b in ListOf(w).uids && PresentIn(w'.disk.files, b) ==>
      b in ListOf(w').uids && ListOf(w').uids[b] == ListOf(w).uids[b]
  {
    if s.Refresh? {
      RefreshKeepsListed(w, s.mint, s.found, s.box, w');
    }
  }

  lemma RefreshKeepsListed(w: World, mint: nat, found: seq<Found>, box: Box, w': World)
    requires Inv(w) && Next(w, Refresh(mint, found, box), w') && w.disk.list.Some?
    ensures w'.disk.list.Some? && ListOf(w').validity == ListOf(w).validity == box.validity
    ensures forall b :: b in ListOf(w).uids && PresentIn(w'.disk.files, b) ==>
      b in ListOf(w').uids && ListOf(w').uids[b] == ListOf(w).uids[b]
  {
    var l := ListOf(w);
    RefreshList(w, mint, found, box, w');
    ScanNames(found, w.disk.files);
    AssignNumbers(l.uids, l.next, Bases(found));
  }

  lemma {:induction false} ValidityStable(ws: seq<World>, steps: seq<Step>, i: nat, j: nat)
    requires Run(ws, steps) && i <= j < |ws| && ws[i].disk.list.Some?
    ensures ws[j].disk.list.Some? && ListOf(ws[j]).validity == ListOf(ws[i]).validity
    ensures j < |steps| && steps[j].Refresh? ==> steps[j].box.validity == ListOf(ws[i]).validity
    decreases j - i
  {
    RunInv(ws, steps, i);
    if i < |steps| {
      ListedStep(ws[i], steps[i], ws[i + 1]);
      if i < j { ValidityStable(ws, steps, i + 1, j); }
    }
  }

  /** A refresh without the bound on UIDs that runs keep. */
  ghost predicate AnyRefresh(w: World, mint: nat, found: seq<Found>, box: Box, d: Disk) {
    && Inv(w) && w.disk.list.Some? && Refreshes(w.disk, mint, found, d, box)
    && |Unknown(ListOf(w).uids, Bases(found))| <= UINT32
  }

  ghost predicate KeepsValidity(d: Disk, validity: nat) {
    forall m :: UidList.Read(d.list, m).validity == validity
  }

  lemma WrittenValidity(list: Option<string>, uids: map<string, nat>, validity: nat, next: nat)
    requires Persists(list, uids, validity, next) && validity < UINT32 && next < UINT32
    ensures KeepsValidity(Disk(map[], list), validity) <==> next >= 1
    ensures next == 0 ==> forall m :: UidList.Read(list, m) == UidList.Listing(map[], m, 1)
  {
    var es :| UidList.Encodes(es, uids) && list == Some(UidList.Render(validity, next, es));
    UidList.ReadableExactly(validity, next, es);
    if next == 0 { assert UidList.Read(list, validity + 1).validity == validity + 1; }
  }

  /** The refresh that brings the counter to the end of its 32 bits, and only
      that one, ends the UIDVALIDITY: it writes a zero UIDNEXT, which the next
      reader takes for a corrupt list and starts over from UID 1. */
  lemma ValidityEndsExactly(w: World, mint: nat, found: seq<Found>, box: Box, d: Disk)
    requires AnyRefresh(w, mint, found, box, d)
    ensures KeepsValidity(d, ListOf(w).validity) <==> ListOf(w).next + |Unknown(ListOf(w).uids, Bases(found))| != UINT32
    ensures ListOf(w).next + |Unknown(ListOf(w).uids, Bases(found))| == UINT32 ==>
      forall m :: UidList.Read(d.list, m) == UidList.Listing(map[], m, 1)
  {
    var l := ListOf(w);
    assert UidList.Read(w.disk.list, mint) == l;
    CounterEnds(l.uids, l.next, Bases(found));
    var (uids, next) := Assign(l.uids, l.next, Bases(found));
    if Dirty(l.uids, Bases(found)) { WrittenValidity(d.list, Live(uids, Bases(found)), l.validity, next); }
  }

  lemma CounterEnds(uids: map<string, nat>, next: nat, bases: seq<string>)
    requires 1 <= next < UINT32 && |Unknown(uids, bases)| <= UINT32
    ensures Assign(uids, next, bases).1 < UINT32
    ensures Assign(uids, next, bases).1 >= 1 <==> next + |Unknown(uids, bases)| != UINT32
    ensures !Dirty(uids, bases) ==> next + |Unknown(uids, bases)| != UINT32
  {
    DirtyIff(uids, bases);
    AssignCounter(uids, next, bases);
    CounterValue(next, |Unknown(uids, bases)|);
  }

  /** UIDVALIDITY depends on the moment of the refresh exactly until a
      readable list is on disk: an empty folder never writes one, so what
      SELECT reports for it is not what the first message will live under. */
  lemma MintedExactly(file: Option<string>)
    ensures (forall m, n :: UidList.Read(file, m).validity == UidList.Read(file, n).validity)
       <==> file.Some? && UidList.Parse(file.value).Some?
  {
    if file.None? || UidList.Parse(file.value).None? {
      assert UidList.Read(file, 1).validity == 1 && UidList.Read(file, 2).validity == 2;
    }
  }

  /** The message of that name is in the folder from world i + 1 to j. */
  ghost predicate Stays(ws: seq<World>, i: nat, j: nat, base: string)
    requires j < |ws|
  {
    forall k :: i < k <= j ==> PresentIn(ws[k].disk.files, base)
  }

  lemma {:induction false} ListedThroughout(ws: seq<World>, steps: seq<Step>, i: nat, j: nat, base: string)
    requires Run(ws, steps) && i <= j < |ws| && ws[i].disk.list.Some? && base in ListOf(ws[i]).uids
    requires Stays(ws, i, j, base)
    ensures ws[j].disk.list.Some? && base in ListOf(ws[j]).uids
    ensures ListOf(ws[j]).uids[base] == ListOf(ws[i]).uids[base]
    decreases j - i
  {
    if i < j {
      RunInv(ws, steps, i);
      ListedStep(ws[i], steps[i], ws[i + 1]);
      ListedThroughout(ws, steps, i + 1, j, base);
    }
  }

  lemma ShownIsListed(ws: seq<World>, steps: seq<Step>, i: nat, a: nat)
    requires Run(ws, steps) && i < |steps| && steps[i].Refresh? && a < |steps[i].box.messages|
    ensures var m := steps[i].box.messages[a];
      ws[i + 1].disk.list.Some? && m.Base() in ListOf(ws[i + 1]).uids && ListOf(ws[i + 1]).uids[m.Base()] == m.uid
  {
    RunInv(ws, steps, i);
    RunInv(ws, steps, i + 1);
    RefreshShowsList(ws[i], steps[i].mint, steps[i].found, steps[i].box, ws[i + 1]);
  }

  lemma ListedIsShown(ws: seq<World>, steps: seq<Step>, j: nat, b: nat)
    requires Run(ws, steps) && j < |steps| && steps[j].Refresh? && b < |steps[j].box.messages|
    requires ws[j].disk.list.Some? && steps[j].box.messages[b].Base() in ListOf(ws[j]).uids
    ensures steps[j].box.messages[b].uid == ListOf(ws[j]).uids[steps[j].box.messages[b].Base()]
  {
    RunInv(ws, steps, j);
    RefreshBox(ws[j], steps[j].mint, steps[j].found, steps[j].box, ws[j + 1]);
  }

  /** A message that stays in the folder keeps its UID through flag changes,
      prunes, reopens and other deliveries. */
  lemma PresentKeepsUid(ws: seq<World>, steps: seq<Step>, i: nat, a: nat, j: nat, b: nat)
    requires Run(ws, steps) && i < j < |steps|
    requires steps[i].Refresh? && a < |steps[i].box.messages|
    requires steps[j].Refresh? && b < |steps[j].box.messages|
    requires steps[i].box.messages[a].Base() == steps[j].box.messages[b].Base()
    requires Stays(ws, i, j, steps[i].box.messages[a].Base())
    ensures steps[i].box.messages[a].uid == steps[j].box.messages[b].uid
  {
    var base := steps[i].box.messages[a].Base();
    ShownIsListed(ws, steps, i, a);
    assert Stays(ws, i + 1, j, base);
    ListedThroughout(ws, steps, i + 1, j, base);
    ListedIsShown(ws, steps, j, b);
  }

  // ---- strictly ascending snapshots, and the UID Append reports ----

  function Uids(ms: seq<Message>): (us: seq<int>)
    ensures |us| == |ms|
    ensures forall i :: 0 <= i < |ms| ==> us[i] == ms[i].uid
  {
    seq(|ms|, i requires 0 <= i < |ms| => ms[i].uid)
  }

  /** The snapshot shows each visible file once. */
  ghost predicate ShowsFiles(ms: seq<Message>, files: map<Path, Stat>) {
    && Numbered(ms)
    && (forall i, j :: 0 <= i < j < |ms| ==> ms[i].uid <= ms[j].uid)
    && (forall i, j :: 0 <= i < j < |ms| ==> ms[i].path != ms[j].path)
    && (forall i :: 0 <= i < |ms| ==> ms[i].path in files && Visible(ms[i].path))
    && (forall p {:trigger Shows(ms, p)} :: p in files && Visible(p) ==> Shows(ms, p))
  }

  lemma ScannedIsShown(ms: seq<Message>, found: seq<Found>, uids: map<string, nat>, files: map<Path, Stat>)
    requires IsSnapshot(ms, found, uids) && IsScan(found, files)
    ensures ShowsFiles(ms, files)
  {
    forall i | 0 <= i < |ms| ensures ms[i].path in files && Visible(ms[i].path) {
      assert ListedIn(ms[i], found, uids);
      var k :| 0 <= k < |found| && IsMessageOf(ms[i], found[k], uids);
    }
    forall p | p in files && Visible(p) ensures Shows(ms, p) {
      assert FoundPath(found, p);
      var k :| 0 <= k < |found| && found[k].path == p;
      assert ShownIn(found[k], ms, uids);
      var i :| 0 <= i < |ms| && IsMessageOf(ms[i], found[k], uids);
      assert ms[i].path == p;
    }
  }

  lemma SnapshotPaths(d: Disk, mint: nat, found: seq<Found>, d': Disk, box: Box)
    requires Refreshes(d, mint, found, d', box)
    ensures ShowsFiles(box.messages, d.files)
  {
    var l := UidList.Read(d.list, mint);
    ScannedIsShown(box.messages, found, Assign(l.uids, l.next, Bases(found)).0, d.files);
  }

  predicate Shows(ms: seq<Message>, p: Path) {
    exists i :: 0 <= i < |ms| && ms[i].path == p
  }

  /** Sequence order is UID order, without ties. */
  lemma SnapshotAscends(w: World, mint: nat, found: seq<Found>, box: Box, w': World)
    requires Inv(w) && Next(w, Refresh(mint, found, box), w')
    ensures Ascending(Uids(box.messages))
  {
    SnapshotPaths(w.disk, mint, found, w'.disk, box);
    RefreshBox(w, mint, found, box, w');
    DistinctUids(w.disk.files, box.messages, w'.issued);
  }

  lemma DistinctUids(files: map<Path, Stat>, ms: seq<Message>, issued: map<nat, string>)
    requires GoodNames(files) && Names(ms, issued) && ShowsFiles(ms, files)
    ensures Ascending(Uids(ms))
  {
  }

  /** The last message of a snapshot is the last name numbered, if any was. */
  lemma LastIsNewest(w: World, mint: nat, found: seq<Found>, box: Box, w': World)
    requires Inv(w) && Next(w, Refresh(mint, found, box), w')
    requires Unknown(UidList.Read(w.disk.list, mint).uids, Bases(found)) != []
    ensures var new_ := Unknown(UidList.Read(w.disk.list, mint).uids, Bases(found));
      && box.messages != []
      && box.messages[|box.messages| - 1].Base() == new_[|new_| - 1]
      && box.messages[|box.messages| - 1].uid == box.next - 1
  {
    var l := UidList.Read(w.disk.list, mint);
    var bases := Bases(found);
    var new_ := Unknown(l.uids, bases);
    var uids := Assign(l.uids, l.next, bases).0;
    var newest := new_[|new_| - 1];
    AssignNumbers(l.uids, l.next, bases);
    UnknownNames(l.uids, bases);
    assert newest in new_;
    SnapshotBases(box.messages, found, uids);
    assert HasBase(box.messages, newest);
    var i :| 0 <= i < |box.messages| && box.messages[i].Base() == newest;
    RefreshBox(w, mint, found, box, w');
    SnapshotAscends(w, mint, found, box, w');
    TopUid(box.messages, i, w'.issued, box.next);
  }

  lemma TopUid(ms: seq<Message>, i: nat, issued: map<nat, string>, next: nat)
    requires i < |ms| && ms[i].uid == next - 1 && Ascending(Uids(ms))
    requires Names(ms, issued) && Below(issued, next)
    ensures i == |ms| - 1
  {
    assert Uids(ms)[i] <= Uids(ms)[|ms| - 1];
  }

  /** The message Append reports is the appended one exactly when the refresh
      numbers no other waiting file after it. */
  lemma AppendReportsLast(w: World, p: Path, stat: Stat, w1: World, mint: nat, found: seq<Found>, box: Box, w2: World)
    requires Inv(w) && Next(w, Deliver(p, stat), w1)
    requires BaseName(p.name) !in UidList.Read(w.disk.list, mint).uids
    requires Next(w1, Refresh(mint, found, box), w2)
    ensures box.messages != []
    ensures var new_ := Unknown(UidList.Read(w.disk.list, mint).uids, Bases(found));
      new_ != [] && (box.messages[|box.messages| - 1].path == p <==> new_[|new_| - 1] == BaseName(p.name))
  {
    var l := UidList.Read(w1.disk.list, mint);
    var new_ := Unknown(l.uids, Bases(found));
    StepKeeps(w, Deliver(p, stat), w1);
    ScanNames(found, w1.disk.files);
    assert p in w1.disk.files;
    assert PresentIn(w1.disk.files, BaseName(p.name));
    UnknownNames(l.uids, Bases(found));
    assert BaseName(p.name) in new_;
    LastIsNewest(w1, mint, found, box, w2);
    SnapshotPaths(w1.disk, mint, found, w2.disk, box);
  }

  /** On a mailbox just opened, with nothing delivered since, Append reports
      the UIDNEXT the mailbox showed. */
  lemma AppendOnOpened(w0: World, mint0: nat, found0: seq<Found>, box0: Box, w: World,
                       p: Path, stat: Stat, w1: World, mint: nat, found: seq<Found>, box: Box, w2: World)
    requires Inv(w0) && Next(w0, Refresh(mint0, found0, box0), w)
    requires Next(w, Deliver(p, stat), w1) && Next(w1, Refresh(mint, found, box), w2)
    requires BaseName(p.name) !in UidList.Read(w.disk.list, mint).uids
    ensures box.messages != []
    ensures box.messages[|box.messages| - 1].path == p && box.messages[|box.messages| - 1].uid == box0.next
    ensures box.next == box0.next + 1
  {
    var l := UidList.Read(w.disk.list, mint);
    var base := BaseName(p.name);
    RefreshList(w0, mint0, found0, box0, w);
    AppendReportsLast(w, p, stat, w1, mint, found, box, w2);
    StepKeeps(w, Deliver(p, stat), w1);
    OnlyTheDelivered(w0, mint0, found0, box0, w, p, stat, w1, mint, found);
    LastIsNewest(w1, mint, found, box, w2);
    AssignNumbers(l.uids, l.next, Bases(found));
    OpenedNext(w0, mint0, found0, box0, w, mint);
  }

  lemma OpenedNext(w0: World, mint0: nat, found0: seq<Found>, box0: Box, w: World, mint: nat)
    requires Inv(w0) && Next(w0, Refresh(mint0, found0, box0), w)
    ensures UidList.Read(w.disk.list, mint).next == box0.next
  {
    RefreshList(w0, mint0, found0, box0, w);
  }

  lemma OnlyTheDelivered(w0: World, mint0: nat, found0: seq<Found>, box0: Box, w: World,
                         p: Path, stat: Stat, w1: World, mint: nat, found: seq<Found>)
    requires Inv(w0) && Next(w0, Refresh(mint0, found0, box0), w)
    requires Next(w, Deliver(p, stat), w1) && IsScan(found, w1.disk.files)
    requires BaseName(p.name) !in UidList.Read(w.disk.list, mint).uids
    ensures Unknown(UidList.Read(w.disk.list, mint).uids, Bases(found)) == [BaseName(p.name)]
  {
    var l := UidList.Read(w.disk.list, mint);
    var base := BaseName(p.name);
    RefreshList(w0, mint0, found0, box0, w);
    ScanNames(found0, w0.disk.files);
    ScanNames(found, w1.disk.files);
    AssignKeys(UidList.Read(w0.disk.list, mint0).uids, UidList.Read(w0.disk.list, mint0).next, Bases(found0));
    UnknownNames(l.uids, Bases(found));
    forall b | b in Unknown(l.uids, Bases(found)) ensures b == base {
      assert PresentIn(w1.disk.files, b);
      assert PresentIn(w0.disk.files, b) ==> b in Bases(found0) && b in l.uids;
    }
    assert p in w1.disk.files;
    assert PresentIn(w1.disk.files, base);
    SingletonOf(Unknown(l.uids, Bases(found)), base);
  }

  lemma SingletonOf(s: seq<string>, x: string)
    requires x in s && (forall y :: y in s ==> y == x)
    requires forall i, j :: 0 <= i < j < |s| ==> s[i] != s[j]
    ensures s == [x]
  {
    assert |s| >= 2 ==> s[0] != s[1];
    assert forall i :: 0 <= i < |s| ==> s[i] in s;
    assert forall i :: 0 <= i < |s| ==> s[i] == x;
  }
}
