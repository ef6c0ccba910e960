/** One mail folder: the files on disk, the persisted UID list and the
    Mailbox snapshots that number the messages. */
module Maildir {
  import opened Text
  import opened Seqs
  import opened MaildirFlags
  import UidList

  datatype Sub = New | Cur

  datatype Path = Path(sub: Sub, name: string)

  datatype Stat = Stat(size: nat, mtime: int)

  /** The directory: message files and the content of the UID list file. */
  datatype Disk = Disk(files: map<Path, Stat>, list: Option<string>)

  datatype Message = Message(uid: nat, seqNo: nat, path: Path, flags: Flags, recent: bool, stat: Stat)
  {
    function Base(): string { BaseName(path.name) }
    predicate Deleted() { DELETED in flags }
  }

  datatype Found = Found(path: Path, stat: Stat)
  {
    function Base(): string { BaseName(path.name) }
  }

  /** What a Mailbox value remembers of its last scan. */
  datatype Box = Box(messages: seq<Message>, validity: nat, next: nat)

  // ---- scanning ----

  predicate Visible(p: Path) { p.name == "" || p.name[0] != '.' }

  predicate FoundPath(found: seq<Found>, p: Path) {
    exists i :: 0 <= i < |found| && found[i].path == p
  }

  /** Every visible file once, oldest modification first; files of equal age
      may come in any order. */
  ghost predicate IsScan(found: seq<Found>, files: map<Path, Stat>) {
    && (forall i, j :: 0 <= i < j < |found| ==> found[i].path != found[j].path)
    && (forall i :: 0 <= i < |found| ==>
          found[i].path in files && Visible(found[i].path) && files[found[i].path] == found[i].stat)
    && (forall p {:trigger FoundPath(found, p)} :: p in files && Visible(p) ==> FoundPath(found, p))
    && (forall i, j :: 0 <= i < j < |found| ==> found[i].stat.mtime <= found[j].stat.mtime)
  }

  function Bases(found: seq<Found>): (bs: seq<string>)
    ensures |bs| == |found|
    ensures forall i :: 0 <= i < |bs| ==> bs[i] == found[i].Base()
  {
    seq(|found|, i requires 0 <= i < |found| => found[i].Base())
  }

  // ---- numbering ----

  function Succ32(n: nat): nat { (n + 1) % UINT32 }

  /** Unknown base names get the next UIDs, in order. */
  function Assign(uids: map<string, nat>, next: nat, bases: seq<string>): (map<string, nat>, nat)
    decreases |bases|
  {
    if bases == [] then (uids, next)
    else if bases[0] in uids then Assign(uids, next, bases[1..])
    else Assign(uids[bases[0] := next], Succ32(next), bases[1..])
  }

  predicate Dirty(uids: map<string, nat>, bases: seq<string>) {
    exists b :: b in bases && b !in uids
  }

  function Live(uids: map<string, nat>, bases: seq<string>): map<string, nat> {
    map b | b in bases && b in uids :: uids[b]
  }

  function MessageOf(f: Found, uids: map<string, nat>): Message
    requires f.Base() in uids
  {
    Message(uids[f.Base()], 0, f.path, ParseFlags(f.path.name), f.path.sub == New, f.stat)
  }

  ghost predicate IsMessageOf(m: Message, f: Found, uids: map<string, nat>) {
    f.Base() in uids && m.(seqNo := 0) == MessageOf(f, uids)
  }

  ghost predicate ListedIn(m: Message, found: seq<Found>, uids: map<string, nat>) {
    exists k :: 0 <= k < |found| && IsMessageOf(m, found[k], uids)
  }

  ghost predicate ShownIn(f: Found, ms: seq<Message>, uids: map<string, nat>) {
    exists i :: 0 <= i < |ms| && IsMessageOf(ms[i], f, uids)
  }

  predicate Numbered(ms: seq<Message>) {
    forall i :: 0 <= i < |ms| ==> ms[i].seqNo == i + 1
  }

  /** One message per file found, in UID order, numbered from 1. */
  ghost predicate IsSnapshot(ms: seq<Message>, found: seq<Found>, uids: map<string, nat>) {
    && |ms| == |found|
    && Numbered(ms)
    && (forall i, j :: 0 <= i < j < |ms| ==> ms[i].uid <= ms[j].uid)
    && (forall i, j :: 0 <= i < j < |ms| ==> ms[i].path != ms[j].path)
    && (forall i {:trigger ListedIn(ms[i], found, uids)} :: 0 <= i < |ms| ==> ListedIn(ms[i], found, uids))
    && (forall k {:trigger ShownIn(found[k], ms, uids)} :: 0 <= k < |found| ==> ShownIn(found[k], ms, uids))
  }

  ghost predicate Persists(text: Option<string>, uids: map<string, nat>, validity: nat, next: nat) {
    exists es :: UidList.Encodes(es, uids) && text == Some(UidList.Render(validity, next, es))
  }

  /** Refresh as a relation: scan, number, and rewrite the list when a
      message was numbered, dropping the names that are gone. */
  ghost predicate Refreshes(d: Disk, mint: nat, found: seq<Found>, d': Disk, box: Box) {
    var l := UidList.Read(d.list, mint);
    var (uids, next) := Assign(l.uids, l.next, Bases(found));
    && IsScan(found, d.files)
    && IsSnapshot(box.messages, found, uids)
    && box.validity == l.validity
    && box.next == next
    && d'.files == d.files
    && (if Dirty(l.uids, Bases(found))
        then Persists(d'.list, Live(uids, Bases(found)), l.validity, next)
        else d'.list == d.list)
  }

  // ---- flags, removal, delivery ----

  function FlagPath(p: Path, f: Flags): Path { Path(Cur, FileName(BaseName(p.name), f)) }

  /** os.Rename: None when the source is gone. */
  function Rename(files: map<Path, Stat>, from: Path, to: Path): Option<map<Path, Stat>> {
    if from == to then Some(files)
    else if from !in files then None
    else Some((files - {from})[to := files[from]])
  }

  function Flagged(m: Message, f: Flags): Message {
    m.(path := FlagPath(m.path, f), flags := f, recent := false)
  }

  function Kept(ms: seq<Message>): seq<Message> {
    if ms == [] then []
    else
      var last := ms[|ms| - 1];
      Kept(ms[..|ms| - 1]) + (if last.Deleted() then [] else [last])
  }

  function Renumber(ms: seq<Message>): (r: seq<Message>)
    ensures |r| == |ms| && Numbered(r)
    ensures forall i :: 0 <= i < |ms| ==> r[i] == ms[i].(seqNo := i + 1)
  {
    seq(|ms|, i requires 0 <= i < |ms| => ms[i].(seqNo := i + 1))
  }

  /** Sequence numbers of the deleted messages, highest first. */
  function Expunged(ms: seq<Message>): seq<nat> {
    if ms == [] then []
    else
      var last := ms[|ms| - 1];
      (if last.Deleted() then [last.seqNo] else []) + Expunged(ms[..|ms| - 1])
  }

  function Gone(ms: seq<Message>): set<Path> {
    set m | m in ms && m.Deleted() :: m.path
  }

  /** Where Append puts the file of a new message: new/ without flags,
      cur/ with them. */
  function AppendPath(base: string, f: Flags): Path {
    if f == [] then Path(New, base) else FlagPath(Path(New, base), f)
  }

  // ---- the imperative form ----

  class Folder {
    var files: map<Path, Stat>
    var list: Option<string>

    ghost function Content(): Disk reads this { Disk(files, list) }

    constructor ()
      ensures Content() == Disk(map[], None)
    {
      files, list := map[], None;
    }

    /** Deliver: a message file appears in new/ under a name of its own. */
    method Deliver(base: string, stat: Stat)
      modifies this
      ensures Content() == Disk(old(files)[Path(New, base) := stat], old(list))
    {
      files := files[Path(New, base) := stat];
    }
  }

  ghost predicate Enumerates(found: seq<Found>, files: map<Path, Stat>, keys: set<Path>) {
    && (forall i, j :: 0 <= i < j < |found| ==> found[i].path != found[j].path)
    && (forall i :: 0 <= i < |found| ==>
          found[i].path in keys && found[i].path in files && Visible(found[i].path) && files[found[i].path] == found[i].stat)
    && (forall p {:trigger FoundPath(found, p)} :: p in keys && p in files && Visible(p) ==> FoundPath(found, p))
  }

  lemma EnumeratesAdd(found: seq<Found>, files: map<Path, Stat>, keys: set<Path>, p: Path)
    requires Enumerates(found, files, keys) && p !in keys && p in files
    ensures Enumerates(if Visible(p) then found + [Found(p, files[p])] else found, files, keys + {p})
  {
    var found' := if Visible(p) then found + [Found(p, files[p])] else found;
    forall q | q in keys + {p} && q in files && Visible(q) ensures FoundPath(found', q) {
      if q == p {
        assert found'[|found|].path == p;
      } else {
        assert FoundPath(found, q);
        var i :| 0 <= i < |found| && found[i].path == q;
        assert found'[i].path == q;
      }
    }
  }

  lemma ScanFromEnumeration(found: seq<Found>, sorted: seq<Found>, files: map<Path, Stat>)
    requires Enumerates(found, files, files.Keys)
    requires multiset(sorted) == multiset(found) && |sorted| == |found|
    requires forall i, j :: 0 <= i < j < |sorted| ==> sorted[i].stat.mtime <= sorted[j].stat.mtime
    ensures IsScan(sorted, files)
  {
    SameMembers(sorted, found);
    PermutationDistinct(found, sorted);
    forall i, j | 0 <= i < j < |sorted| ensures sorted[i].path != sorted[j].path {
      assert sorted[i] in found && sorted[j] in found;
    }
    forall i | 0 <= i < |sorted|
      ensures sorted[i].path in files && Visible(sorted[i].path) && files[sorted[i].path] == sorted[i].stat
    {
      assert sorted[i] in found;
    }
    forall p | p in files && Visible(p) ensures FoundPath(sorted, p) {
      assert FoundPath(found, p);
      var i :| 0 <= i < |found| && found[i].path == p;
      assert found[i] in sorted;
      var j :| 0 <= j < |sorted| && sorted[j] == found[i];
      assert sorted[j].path == p;
    }
  }

  lemma SnapshotFromSort(raw: seq<Message>, ms: seq<Message>, found: seq<Found>, uids: map<string, nat>)
    requires |raw| == |found|
    requires forall i, j :: 0 <= i < j < |found| ==> found[i].path != found[j].path
    requires forall k :: 0 <= k < |found| ==> found[k].Base() in uids && raw[k] == MessageOf(found[k], uids)
    requires multiset(ms) == multiset(raw) && |ms| == |raw|
    requires forall i, j :: 0 <= i < j < |ms| ==> ms[i].uid <= ms[j].uid
    ensures IsSnapshot(Renumber(ms), found, uids)
  {
    SameMembers(ms, raw);
    PermutationDistinct(raw, ms);
    var r := Renumber(ms);
    forall i, j | 0 <= i < j < |r| ensures r[i].path != r[j].path {
      assert ms[i] in raw && ms[j] in raw;
    }
    forall i | 0 <= i < |r| ensures ListedIn(r[i], found, uids) {
      assert ms[i] in raw;
      var k :| 0 <= k < |raw| && raw[k] == ms[i];
      assert IsMessageOf(r[i], found[k], uids);
    }
    forall k | 0 <= k < |found| ensures ShownIn(found[k], r, uids) {
      assert raw[k] in ms;
      var i :| 0 <= i < |ms| && ms[i] == raw[k];
      assert IsMessageOf(r[i], found[k], uids);
    }
  }

  lemma {:induction false} AssignKeys(uids: map<string, nat>, next: nat, bases: seq<string>)
    ensures Assign(uids, next, bases).0.Keys == uids.Keys + NameSet(bases)
    decreases |bases|
  {
    if bases != [] {
      var b := bases[0];
      assert NameSet(bases) == {b} + NameSet(bases[1..]);
      if b in uids { AssignKeys(uids, next, bases[1..]); }
      else { AssignKeys(uids[b := next], Succ32(next), bases[1..]); }
    }
  }

  lemma {:induction false} KeptStep(ms: seq<Message>, i: nat)
    requires i < |ms|
    ensures Kept(ms[..i + 1]) == Kept(ms[..i]) + (if ms[i].Deleted() then [] else [ms[i]])
    ensures Expunged(ms[..i + 1]) == (if ms[i].Deleted() then [ms[i].seqNo] else []) + Expunged(ms[..i])
    ensures Reversed(Expunged(ms[..i + 1])) == Reversed(Expunged(ms[..i])) + (if ms[i].Deleted() then [ms[i].seqNo] else [])
    ensures Gone(ms[..i + 1]) == Gone(ms[..i]) + (if ms[i].Deleted() then {ms[i].path} else {})
  {
    assert ms[..i + 1][..i] == ms[..i];
    assert ms[..i + 1] == ms[..i] + [ms[i]];
  }

  function Reversed(s: seq<nat>): (r: seq<nat>)
    ensures |r| == |s|
    ensures forall i :: 0 <= i < |s| ==> r[i] == s[|s| - 1 - i]
  {
    seq(|s|, i requires 0 <= i < |s| => s[|s| - 1 - i])
  }

  lemma {:induction false} ExpungedDescends(ms: seq<Message>)
    requires Numbered(ms)
    ensures forall i :: 0 <= i < |Expunged(ms)| ==> 1 <= Expunged(ms)[i] <= |ms|
    ensures forall i, j :: 0 <= i < j < |Expunged(ms)| ==> Expunged(ms)[i] > Expunged(ms)[j]
    decreases |ms|
  {
    if ms != [] { ExpungedDescends(ms[..|ms| - 1]); }
  }

  function Negated(s: seq<nat>): (r: seq<int>)
    ensures |r| == |s|
    ensures forall i :: 0 <= i < |s| ==> r[i] == -(s[i] as int)
  {
    seq(|s|, i requires 0 <= i < |s| => -(s[i] as int))
  }

  lemma DescendingUnique(a: seq<nat>, b: seq<nat>)
    requires forall i, j :: 0 <= i < j < |a| ==> a[i] > a[j]
    requires forall i, j :: 0 <= i < j < |b| ==> b[i] > b[j]
    requires forall x :: x in a <==> x in b
    ensures a == b
  {
    var na, nb := Negated(a), Negated(b);
    forall x | x in na ensures x in nb {
      var i :| 0 <= i < |na| && na[i] == x;
      assert a[i] in b;
      var j :| 0 <= j < |b| && b[j] == a[i];
      assert nb[j] == x;
    }
    forall x | x in nb ensures x in na {
      var i :| 0 <= i < |nb| && nb[i] == x;
      assert b[i] in a;
      var j :| 0 <= j < |a| && a[j] == b[i];
      assert na[j] == x;
    }
    AscendingUnique(na, nb);
    forall i | 0 <= i < |a| ensures a[i] == b[i] { assert na[i] == nb[i]; }
  }

  lemma MinusStep(files: map<Path, Stat>, gone: set<Path>, p: Path)
    ensures files - gone - {p} == files - (gone + {p})
  {
  }

  /** Sorting the numbers collected in ascending order gives them highest
      first. */
  lemma SortedDescending(d: seq<nat>, r: seq<nat>)
    requires forall i, j :: 0 <= i < j < |d| ==> d[i] > d[j]
    requires multiset(r) == multiset(Reversed(d)) && |r| == |d|
    requires forall i, j :: 0 <= i < j < |r| ==> r[i] >= r[j]
    ensures r == d
  {
    var a := Reversed(d);
    SameMembers(r, a);
    PermutationDistinct(a, r);
    forall x ensures x in r <==> x in d {
      if x in r {
        var i :| 0 <= i < |a| && a[i] == x;
        assert d[|d| - 1 - i] == x;
      }
      if x in d {
        var i :| 0 <= i < |d| && d[i] == x;
        assert a[|d| - 1 - i] == x;
      }
    }
    DescendingUnique(r, d);
  }

  /** The scan of Refresh: new/ and cur/, hidden names skipped. */
  method Scan(files: map<Path, Stat>) returns (found: seq<Found>)
    ensures IsScan(found, files)
  {
    var listed: seq<Found> := [];
    var left := files.Keys;
    while left != {}
      invariant left <= files.Keys
      invariant Enumerates(listed, files, files.Keys - left)
      decreases |left|
    {
      var p :| p in left;
      EnumeratesAdd(listed, files, files.Keys - left, p);
      assert files.Keys - left + {p} == files.Keys - (left - {p});
      if Visible(p) { listed := listed + [Found(p, files[p])]; }
      left := left - {p};
    }
    assert files.Keys - left == files.Keys;
    found := SortSlice(listed, (f: Found) => f.stat.mtime);
    ScanFromEnumeration(listed, found, files);
  }

  /** The numbering loop of Refresh. */
  method NumberUnknown(found: seq<Found>, known: map<string, nat>, from: nat)
    returns (uids: map<string, nat>, next: nat, dirty: bool)
    ensures (uids, next) == Assign(known, from, Bases(found))
    ensures dirty == Dirty(known, Bases(found))
    ensures forall k :: 0 <= k < |found| ==> found[k].Base() in uids
  {
    ghost var bases := Bases(found);
    uids, next, dirty := known, from, false;
    assert bases[0..] == bases;
    for i := 0 to |found|
      invariant Assign(uids, next, bases[i..]) == Assign(known, from, bases)
      invariant forall b :: b in known ==> b in uids
      invariant dirty ==> Dirty(known, bases)
      invariant !dirty ==> uids == known
    {
      var base := found[i].Base();
      AssignStep(uids, next, bases, i);
      if base !in uids {
        uids := uids[base := next];
        next := Succ32(next);
        dirty := true;
        assert base in bases;
      }
    }
    AssignKeys(known, from, bases);
    assert forall k :: 0 <= k < |found| ==> bases[k] in NameSet(bases);
  }

  ghost function NameSet(bases: seq<string>): set<string> { set b | b in bases }

  lemma AssignStep(uids: map<string, nat>, next: nat, bases: seq<string>, i: nat)
    requires i < |bases|
    ensures Assign(uids, next, bases[i..])
         == if bases[i] in uids then Assign(uids, next, bases[i + 1..])
            else Assign(uids[bases[i] := next], Succ32(next), bases[i + 1..])
  {
    assert bases[i..][0] == bases[i] && bases[i..][1..] == bases[i + 1..];
  }

  /** One message per file, sorted by UID and numbered from 1. */
  method BuildMessages(found: seq<Found>, uids: map<string, nat>) returns (ms: seq<Message>)
    requires forall i, j :: 0 <= i < j < |found| ==> found[i].path != found[j].path
    requires forall k :: 0 <= k < |found| ==> found[k].Base() in uids
    ensures IsSnapshot(ms, found, uids)
  {
    var raw: seq<Message> := [];
    for i := 0 to |found|
      invariant |raw| == i
      invariant forall k :: 0 <= k < i ==> raw[k] == MessageOf(found[k], uids)
    {
      raw := raw + [MessageOf(found[i], uids)];
    }
    var sorted := SortSlice(raw, (m: Message) => m.uid);
    SnapshotFromSort(raw, sorted, found, uids);
    ms := Renumber(sorted);
  }

  predicate HasBase(ms: seq<Message>, base: string) {
    exists i :: 0 <= i < |ms| && ms[i].Base() == base
  }

  lemma SnapshotBases(ms: seq<Message>, found: seq<Found>, uids: map<string, nat>)
    requires IsSnapshot(ms, found, uids)
    ensures forall i :: 0 <= i < |ms| ==>
      ms[i].Base() in uids && ms[i].uid == uids[ms[i].Base()] && ms[i].Base() in Bases(found)
    ensures forall b :: b in Bases(found) ==> b in uids && HasBase(ms, b)
  {
    forall i | 0 <= i < |ms|
      ensures ms[i].Base() in uids && ms[i].uid == uids[ms[i].Base()] && ms[i].Base() in Bases(found)
    {
      assert ListedIn(ms[i], found, uids);
      var k :| 0 <= k < |found| && IsMessageOf(ms[i], found[k], uids);
      assert Bases(found)[k] == ms[i].Base();
    }
    forall b | b in Bases(found) ensures b in uids && HasBase(ms, b) {
      var k :| 0 <= k < |found| && Bases(found)[k] == b;
      assert ShownIn(found[k], ms, uids);
    }
  }

  /** The names that still have a message; the others are pruned. */
  method LiveNames(ms: seq<Message>, ghost bases: seq<string>, ghost uids: map<string, nat>) returns (live: map<string, nat>)
    requires forall i :: 0 <= i < |ms| ==>
      ms[i].Base() in uids && ms[i].uid == uids[ms[i].Base()] && ms[i].Base() in bases
    requires forall b :: b in bases ==> b in uids && HasBase(ms, b)
    ensures live == Live(uids, bases)
  {
    live := map[];
    for i := 0 to |ms|
      invariant forall k :: 0 <= k < i ==> ms[k].Base() in live
      invariant forall b :: b in live ==> b in uids && live[b] == uids[b] && b in bases
    {
      live := live[ms[i].Base() := ms[i].uid];
    }
    forall b | b in bases ensures b in live {
      assert HasBase(ms, b);
    }
  }

  method PrunedList(ms: seq<Message>, ghost found: seq<Found>, ghost uids: map<string, nat>, validity: nat, next: nat)
    returns (text: string)
    requires IsSnapshot(ms, found, uids)
    ensures Persists(Some(text), Live(uids, Bases(found)), validity, next)
  {
    SnapshotBases(ms, found, uids);
    var live := LiveNames(ms, Bases(found), uids);
    text := UidList.Write(live, validity, next);
  }

  /** Scan, numbering, snapshot and list writing together are a refresh. */
  lemma RefreshDone(d: Disk, mint: nat, found: seq<Found>, l: UidList.Listing, uids: map<string, nat>, next: nat,
                    ms: seq<Message>, list: Option<string>)
    requires l == UidList.Read(d.list, mint)
    requires (uids, next) == Assign(l.uids, l.next, Bases(found))
    requires IsScan(found, d.files) && IsSnapshot(ms, found, uids)
    requires if Dirty(l.uids, Bases(found)) then Persists(list, Live(uids, Bases(found)), l.validity, next) else list == d.list
    ensures Refreshes(d, mint, found, Disk(d.files, list), Box(ms, l.validity, next))
  {
  }

  class Mailbox {
    const dir: Folder
    var messages: seq<Message>
    var uidValidity: nat
    var uidNext: nat

    ghost function Snapshot(): Box reads this { Box(messages, uidValidity, uidNext) }

    constructor (folder: Folder)
      ensures dir == folder && messages == []
    {
      dir := folder;
      messages, uidValidity, uidNext := [], 0, 0;
    }

    /** OpenMailbox */
    static method Open(folder: Folder, mint: nat) returns (mb: Mailbox, ghost found: seq<Found>)
      modifies folder
      ensures fresh(mb) && mb.dir == folder
      ensures Refreshes(old(folder.Content()), mint, found, folder.Content(), mb.Snapshot())
    {
      mb := new Mailbox(folder);
      found := mb.Refresh(mint);
    }

    method Refresh(mint: nat) returns (ghost found: seq<Found>)
      modifies this, dir
      ensures Refreshes(old(dir.Content()), mint, found, dir.Content(), Snapshot())
    {
      var l := UidList.Read(dir.list, mint);
      uidValidity := l.validity;
      var sorted := Scan(dir.files);
      found := sorted;
      var uids, next, dirty := NumberUnknown(sorted, l.uids, l.next);
      messages := BuildMessages(sorted, uids);
      uidNext := next;
      if dirty {
        var text := PrunedList(messages, found, uids, uidValidity, next);
        dir.list := Some(text);
      }
      RefreshDone(old(dir.Content()), mint, found, l, uids, next, messages, dir.list);
    }

    /** SetFlags on the message at position i; false when its file is gone. */
    method SetFlags(i: nat, f: Flags) returns (ok: bool)
      requires i < |messages|
      modifies this`messages, dir`files
      ensures ok == Rename(old(dir.files), old(messages)[i].path, FlagPath(old(messages)[i].path, f)).Some?
      ensures ok ==> Some(dir.files) == Rename(old(dir.files), old(messages)[i].path, FlagPath(old(messages)[i].path, f))
      ensures ok ==> messages == old(messages)[i := Flagged(old(messages)[i], f)]
      ensures !ok ==> dir.files == old(dir.files) && messages == old(messages)
    {
      var m := messages[i];
      match Rename(dir.files, m.path, FlagPath(m.path, f))
      case None => ok := false;
      case Some(files) =>
        dir.files := files;
        messages := messages[i := Flagged(m, f)];
        ok := true;
    }

    /** Removes every message flagged deleted and returns their sequence
        numbers, highest first. */
    method Expunge() returns (seqs: seq<nat>)
      requires Numbered(messages)
      modifies this`messages, dir`files
      ensures seqs == Expunged(old(messages))
      ensures messages == if seqs == [] then old(messages) else Renumber(Kept(old(messages)))
      ensures dir.files == old(dir.files) - Gone(old(messages))
    {
      var kept: seq<Message> := [];
      var ascending: seq<nat> := [];
      for i := 0 to |messages|
        invariant messages == old(messages)
        invariant kept == Kept(messages[..i])
        invariant dir.files == old(dir.files) - Gone(messages[..i])
        invariant ascending == Reversed(Expunged(messages[..i]))
      {
        KeptStep(messages, i);
        if messages[i].Deleted() {
          MinusStep(old(dir.files), Gone(messages[..i]), messages[i].path);
          dir.files := dir.files - {messages[i].path};
          ascending := ascending + [messages[i].seqNo];
        } else {
          kept := kept + [messages[i]];
        }
      }
      assert messages[..|messages|] == messages;
      if ascending == [] {
        seqs := [];
        return;
      }
      messages := Renumber(kept);
      var sorted := SortSlice(ascending, (n: nat) => -(n as int));
      ExpungedDescends(old(messages));
      SortedDescending(Expunged(old(messages)), sorted);
      seqs := sorted;
    }

    /** Append: deliver under a fresh name, move to cur/ when flagged,
        refresh, and hand back the last message. */
    method Append(base: string, stat: Stat, f: Flags, mint: nat) returns (m: Option<Message>, ghost found: seq<Found>)
      requires Path(New, base) !in dir.files
      modifies this, dir
      ensures Refreshes(Disk(old(dir.files)[AppendPath(base, f) := stat], old(dir.list)),
                        mint, found, dir.Content(), Snapshot())
      ensures m == if messages == [] then None else Some(messages[|messages| - 1])
    {
      dir.Deliver(base, stat);
      if f != [] {
        var target := FlagPath(Path(New, base), f);
        dir.files := (dir.files - {Path(New, base)})[target := stat];
      }
      assert dir.files == old(dir.files)[AppendPath(base, f) := stat];
      found := Refresh(mint);
      m := if messages == [] then None else Some(messages[|messages| - 1]);
    }
  }
}
