/** Maildir file names: the stable base name and the flags behind ":2,". A flag
    change renames the file; everything that identifies the message hangs on
    the base name, which every such rename must keep. */
module MaildirFlags {

  const SEP := ":2,"
  const KNOWN := "DFPRST"
  const DELETED := 'T'

  type Flags = seq<char>

  predicate SepAt(name: string, i: nat) {
    i + 3 <= |name| && name[i] == ':' && name[i + 1] == '2' && name[i + 2] == ','
  }

  /** strings.Index(name, ":2,"), |name| when absent. */
  function SepIndex(name: string): (i: nat)
    ensures i <= |name|
    ensures i < |name| ==> SepAt(name, i)
    ensures forall j: nat :: j < i ==> !SepAt(name, j)
  {
    if name == "" || SepAt(name, 0) then 0
    else
      assert forall j: nat :: 1 <= j && SepAt(name, j) ==> SepAt(name[1..], j - 1);
      1 + SepIndex(name[1..])
  }

  function BaseName(name: string): string { name[..SepIndex(name)] }

  function FileName(base: string, f: Flags): string { base + SEP + f }

  function Letters(s: string): set<char> { set c | c in s }

  function FlagsIn(name: string): set<char> {
    var i := SepIndex(name);
    if i == |name| then {} else Letters(name[i + 3..])
  }

  /** The known flags of a set, in file name order. */
  function Ordered(s: set<char>): Flags { Pick(KNOWN, s) }

  function Pick(order: string, s: set<char>): Flags {
    if order == "" then []
    else (if order[0] in s then [order[0]] else []) + Pick(order[1..], s)
  }

  /** Duplicates and unknown letters are dropped, the rest is sorted. */
  function ParseFlags(name: string): Flags { Ordered(FlagsIn(name)) }

  predicate Canonical(f: Flags) { f == Ordered(Letters(f)) }

  function Add(f: Flags, x: char): Flags {
    if x in f then f else Ordered(Letters(f) + {x})
  }

  /** A base name holds no separator of its own. */
  lemma BaseHasNoSep(name: string)
    ensures SepIndex(BaseName(name)) == |BaseName(name)|
  {
    var b := BaseName(name);
    assert forall j: nat :: SepAt(b, j) ==> SepAt(name, j);
  }

  lemma SepInside(base: string, f: Flags, j: nat)
    requires j < |base| && SepAt(FileName(base, f), j)
    ensures SepAt(base, j)
  {
    var n := FileName(base, f);
    assert n[|base|] == ':';
    assert j + 3 <= |base|;
    assert n[j] == base[j] && n[j + 1] == base[j + 1] && n[j + 2] == base[j + 2];
  }

  lemma SepIndexOfFileName(base: string, f: Flags)
    requires SepIndex(base) == |base|
    ensures SepIndex(FileName(base, f)) == |base|
  {
    var n := FileName(base, f);
    assert n[|base|] == ':' && n[|base| + 1] == '2' && n[|base| + 2] == ',';
    assert SepAt(n, |base|);
    var i := SepIndex(n);
    if i < |base| { SepInside(base, f, i); }
  }

  /** Renaming a message to carry other flags keeps its base name. */
  lemma RenameKeepsBase(name: string, f: Flags)
    ensures BaseName(FileName(BaseName(name), f)) == BaseName(name)
  {
    BaseHasNoSep(name);
    SepIndexOfFileName(BaseName(name), f);
  }

  lemma {:induction false} PickMembers(order: string, s: set<char>)
    ensures forall c :: c in Pick(order, s) <==> c in order && c in s
  {
    if order != "" { PickMembers(order[1..], s); }
  }

  /** The flags written into a file name are the ones read back from it. */
  lemma FlagsRoundTrip(name: string, f: Flags)
    requires Canonical(f)
    ensures ParseFlags(FileName(BaseName(name), f)) == f
  {
    var b := BaseName(name);
    BaseHasNoSep(name);
    SepIndexOfFileName(b, f);
    assert FileName(b, f)[|b| + 3..] == f;
  }

  /** Adding a known flag gives a canonical set with exactly that flag more. */
  lemma AddAdds(f: Flags, x: char)
    requires Canonical(f) && x in KNOWN
    ensures Canonical(Add(f, x))
    ensures forall c :: c in Add(f, x) <==> c in f || c == x
  {
    PickMembers(KNOWN, Letters(f));
    var s := Letters(f) + {x};
    PickMembers(KNOWN, s);
    if x !in f {
      assert Letters(Ordered(s)) == s;
    }
  }
}
