/** The persisted UID assignment of a mailbox: its text format, how it is
    read and how it is written. A list that cannot be read is replaced by an
    empty one under a fresh UIDVALIDITY. */
module UidList {
  import opened Text
  import opened Seqs

  datatype Entry = Entry(uid: nat, base: string)

  /** The content of a list that could be read. */
  datatype Listing = Listing(uids: map<string, nat>, validity: nat, next: nat)

  // ---- writing ----

  function RenderEntry(e: Entry): string {
    Digits(e.uid) + " " + e.base + "\n"
  }

  function RenderEntries(es: seq<Entry>): string {
    if es == [] then "" else RenderEntry(es[0]) + RenderEntries(es[1..])
  }

  function RenderHeader(validity: nat, next: nat): string {
    "V" + Digits(validity) + " N" + Digits(next)
  }

  function Render(validity: nat, next: nat, es: seq<Entry>): string {
    RenderHeader(validity, next) + "\n" + RenderEntries(es)
  }

  // ---- reading ----

  function DropCR(line: string): string {
    if line != "" && line[|line| - 1] == '\r' then line[..|line| - 1] else line
  }

  /** bufio.ScanLines over a whole file. */
  function Lines(text: string): seq<string>
    decreases |text|
  {
    if text == "" then []
    else
      var i := IndexOf(text, '\n');
      if i == |text| then [DropCR(text)]
      else [DropCR(text[..i])] + Lines(text[i + 1..])
  }

  function AddLine(uids: map<string, nat>, line: string): map<string, nat> {
    var sp := IndexOf(line, ' ');
    if sp == 0 || sp == |line| then uids
    else
      match ParseUint32(line[..sp])
      case None => uids
      case Some(uid) => uids[line[sp + 1..] := uid]
  }

  function AddLines(uids: map<string, nat>, lines: seq<string>): map<string, nat>
    decreases |lines|
  {
    if lines == [] then uids else AddLines(AddLine(uids, lines[0]), lines[1..])
  }

  function ParseHeader(line: string): Option<(nat, nat)> {
    var header := Fields(line);
    if |header| != 2 || header[0] == "" || header[1] == "" || header[0][0] != 'V' || header[1][0] != 'N' then None
    else
      match (ParseUint32(header[0][1..]), ParseUint32(header[1][1..]))
      case (Some(v), Some(n)) => if n < 1 then None else Some((v, n))
      case _ => None
  }

  /** None stands for a list that is empty or has a corrupt header. */
  function Parse(text: string): Option<Listing> {
    var lines := Lines(text);
    if lines == [] then None
    else
      match ParseHeader(lines[0])
      case None => None
      case Some((v, n)) => Some(Listing(AddLines(map[], lines[1..]), v, n))
  }

  /** readUIDList: a missing or corrupt list starts over from UID 1 under a
      freshly minted UIDVALIDITY. */
  function Read(file: Option<string>, mint: nat): Listing {
    match file
    case None => Listing(map[], mint, 1)
    case Some(text) =>
      match Parse(text)
      case None => Listing(map[], mint, 1)
      case Some(l) => l
  }

  // ---- the assignment a sequence of entries stands for ----

  function MapOf(m: map<string, nat>, es: seq<Entry>): map<string, nat>
    decreases |es|
  {
    if es == [] then m else MapOf(m[es[0].base := es[0].uid], es[1..])
  }

  predicate Has(es: seq<Entry>, base: string) {
    exists i :: 0 <= i < |es| && es[i].base == base
  }

  predicate Encodes(es: seq<Entry>, uids: map<string, nat>) {
    && (forall i, j :: 0 <= i < j < |es| ==> es[i].base != es[j].base)
    && (forall i :: 0 <= i < |es| ==> es[i].base in uids && uids[es[i].base] == es[i].uid)
    && (forall b :: b in uids ==> Has(es, b))
  }

  predicate Fits(es: seq<Entry>) {
    forall i :: 0 <= i < |es| ==> es[i].uid < UINT32
  }

  /** A base name the line format carries unchanged. */
  predicate Clean(base: string) {
    '\n' !in base && (base == "" || base[|base| - 1] != '\r')
  }

  predicate AllClean(es: seq<Entry>) {
    forall i :: 0 <= i < |es| ==> Clean(es[i].base)
  }

  // ---- proofs ----

  lemma LinesCons(line: string, rest: string)
    requires '\n' !in line
    ensures Lines(line + "\n" + rest) == [DropCR(line)] + Lines(rest)
  {
    var text := line + "\n" + rest;
    assert forall j :: 0 <= j < |line| ==> text[j] == line[j];
    IndexOfAt(text, '\n', |line|);
    assert text[..|line|] == line && text[|line| + 1..] == rest;
  }

  lemma HeaderFields(v: string, n: string)
    requires v != "" && n != ""
    requires forall i :: 0 <= i < |v| ==> !IsSpace(v[i])
    requires forall i :: 0 <= i < |n| ==> !IsSpace(n[i])
    ensures Fields(v + " " + n) == [v, n]
  {
    assert v + " " + n == v + (" " + n);
    FieldsWord(v, " " + n);
    assert (" " + n)[1..] == n == n + "";
    FieldsWord(n, "");
  }

  lemma DigitIsNoSpace(c: char)
    requires IsDigit(c)
    ensures !IsSpace(c)
  {
  }

  lemma Tagged(tag: char, k: nat)
    requires !IsSpace(tag) && tag != '\n'
    ensures var w := [tag] + Digits(k);
      && w[0] == tag && w[1..] == Digits(k) && '\n' !in w && IsDigit(w[|w| - 1])
      && forall i :: 0 <= i < |w| ==> !IsSpace(w[i])
  {
    var w := [tag] + Digits(k);
    forall i | 0 <= i < |w| ensures !IsSpace(w[i]) && w[i] != '\n' {
      if i > 0 { DigitIsNoSpace(Digits(k)[i - 1]); assert w[i] == Digits(k)[i - 1]; }
    }
    assert w[|w| - 1] == Digits(k)[|Digits(k)| - 1];
  }

  /** The header reads back, except that a zero UIDNEXT is taken for corrupt. */
  lemma HeaderRoundTrip(validity: nat, next: nat)
    requires validity < UINT32 && next < UINT32
    ensures var h := RenderHeader(validity, next);
      '\n' !in h && DropCR(h) == h && ParseHeader(h) == if next >= 1 then Some((validity, next)) else None
  {
    var h := RenderHeader(validity, next);
    var v, n := ['V'] + Digits(validity), ['N'] + Digits(next);
    Tagged('V', validity);
    Tagged('N', next);
    assert h == v + " " + n;
    assert h[|h| - 1] == n[|n| - 1];
    HeaderFields(v, n);
    ParsesBack(validity);
    ParsesBack(next);
  }

  lemma AddsEntry(uids: map<string, nat>, uid: nat, base: string)
    requires uid < UINT32
    ensures AddLine(uids, Digits(uid) + " " + base) == uids[base := uid]
  {
    var line := Digits(uid) + " " + base;
    var sp := |Digits(uid)|;
    assert forall j :: 0 <= j < sp ==> line[j] == Digits(uid)[j];
    IndexOfAt(line, ' ', sp);
    assert line[..sp] == Digits(uid) && line[sp + 1..] == base;
    ParsesBack(uid);
  }

  /** Reading rendered entries puts them back, each base stripped of one
      trailing CR. */
  lemma {:induction false} EntriesReadBack(uids: map<string, nat>, es: seq<Entry>)
    requires Fits(es) && forall i :: 0 <= i < |es| ==> '\n' !in es[i].base
    ensures AddLines(uids, Lines(RenderEntries(es))) == MapOf(uids, Stripped(es))
    decreases |es|
  {
    if es != [] {
      var e := es[0];
      var line := Digits(e.uid) + " " + e.base;
      assert RenderEntries(es) == line + "\n" + RenderEntries(es[1..]);
      LinesCons(line, RenderEntries(es[1..]));
      assert DropCR(line) == Digits(e.uid) + " " + DropCR(e.base);
      AddsEntry(uids, e.uid, DropCR(e.base));
      var tail := Lines(RenderEntries(es[1..]));
      assert ([DropCR(line)] + tail)[1..] == tail;
      EntriesReadBack(uids[DropCR(e.base) := e.uid], es[1..]);
      assert Stripped(es)[1..] == Stripped(es[1..]);
    }
  }

  ghost function Stripped(es: seq<Entry>): (r: seq<Entry>)
    ensures |r| == |es|
    ensures forall i :: 0 <= i < |es| ==> r[i] == Entry(es[i].uid, DropCR(es[i].base))
  {
    seq(|es|, i requires 0 <= i < |es| => Entry(es[i].uid, DropCR(es[i].base)))
  }

  lemma {:induction false} MapOfKeys(m: map<string, nat>, es: seq<Entry>)
    ensures forall b :: b in MapOf(m, es) <==> b in m || Has(es, b)
    decreases |es|
  {
    if es != [] {
      var m' := m[es[0].base := es[0].uid];
      MapOfKeys(m', es[1..]);
      forall b ensures b in MapOf(m, es) <==> b in m || Has(es, b) {
        if i :| 0 <= i < |es| && es[i].base == b {
          if i > 0 { assert es[1..][i - 1].base == b; }
        }
      }
    }
  }

  lemma {:induction false} MapOfEncoded(m: map<string, nat>, es: seq<Entry>, uids: map<string, nat>)
    requires forall i, j :: 0 <= i < j < |es| ==> es[i].base != es[j].base
    requires forall i :: 0 <= i < |es| ==> es[i].base in uids && uids[es[i].base] == es[i].uid
    requires forall b :: b in m ==> b in uids && uids[b] == m[b]
    requires forall b :: b in uids ==> b in m || Has(es, b)
    ensures MapOf(m, es) == uids
    decreases |es|
  {
    if es != [] {
      var m' := m[es[0].base := es[0].uid];
      forall b | b in uids && b !in m' ensures Has(es[1..], b) {
        var i :| 0 <= i < |es| && es[i].base == b;
        assert es[1..][i - 1].base == b;
      }
      MapOfEncoded(m', es[1..], uids);
    }
  }

  /** A written list can be read exactly when its UIDNEXT is not zero. */
  lemma ReadableExactly(validity: nat, next: nat, es: seq<Entry>)
    requires validity < UINT32 && next < UINT32
    ensures Parse(Render(validity, next, es)).Some? <==> next >= 1
    ensures next >= 1 ==> Parse(Render(validity, next, es)).value.validity == validity
  {
    ParsesRendered(validity, next, es);
  }

  lemma ParsesRendered(validity: nat, next: nat, es: seq<Entry>)
    requires validity < UINT32 && next < UINT32
    ensures Parse(Render(validity, next, es))
         == if next >= 1 then Some(Listing(AddLines(map[], Lines(RenderEntries(es))), validity, next)) else None
  {
    var h := RenderHeader(validity, next);
    HeaderRoundTrip(validity, next);
    LinesCons(h, RenderEntries(es));
    var ls := Lines(RenderEntries(es));
    assert ([h] + ls)[1..] == ls;
  }

  /** Writing a list and reading it back gives the same assignment, the same
      UIDVALIDITY and the same UIDNEXT. */
  lemma RoundTrip(uids: map<string, nat>, validity: nat, next: nat, es: seq<Entry>)
    requires validity < UINT32 && 1 <= next < UINT32
    requires Encodes(es, uids) && Fits(es) && AllClean(es)
    ensures Parse(Render(validity, next, es)) == Some(Listing(uids, validity, next))
  {
    ParsesRendered(validity, next, es);
    EntriesReadBack(map[], es);
    assert Stripped(es) == es;
    MapOfEncoded(map[], es, uids);
  }

  lemma {:induction false} LinesHaveNoNewline(text: string)
    ensures forall l :: l in Lines(text) ==> '\n' !in l
    decreases |text|
  {
    if text != "" {
      var i := IndexOf(text, '\n');
      if i < |text| { LinesHaveNoNewline(text[i + 1..]); }
    }
  }

  lemma {:induction false} KeysHaveNoNewline(uids: map<string, nat>, lines: seq<string>)
    requires forall l :: l in lines ==> '\n' !in l
    requires forall b :: b in uids ==> '\n' !in b
    ensures forall b :: b in AddLines(uids, lines) ==> '\n' !in b
    decreases |lines|
  {
    if lines != [] {
      var uids' := AddLine(uids, lines[0]);
      assert '\n' !in lines[0];
      forall b | b in uids' ensures '\n' !in b {
        var sp := IndexOf(lines[0], ' ');
        if b !in uids { assert b == lines[0][sp + 1..]; }
      }
      KeysHaveNoNewline(uids', lines[1..]);
    }
  }

  predicate EndsInCR(base: string) { base != "" && base[|base| - 1] == '\r' }

  lemma {:induction false} LongestCR(es: seq<Entry>, i: nat) returns (k: nat)
    requires i < |es| && EndsInCR(es[i].base)
    ensures k < |es| && EndsInCR(es[k].base)
    ensures forall j :: 0 <= j < |es| && EndsInCR(es[j].base) ==> |es[j].base| <= |es[k].base|
  {
    k := i;
    for n := 0 to |es|
      invariant k < |es| && EndsInCR(es[k].base)
      invariant forall j :: 0 <= j < n && EndsInCR(es[j].base) ==> |es[j].base| <= |es[k].base|
    {
      if EndsInCR(es[n].base) && |es[n].base| > |es[k].base| { k := n; }
    }
  }

  lemma NewlineIsLost(uids: map<string, nat>, es: seq<Entry>, i: nat)
    requires Encodes(es, uids) && i < |es| && '\n' in es[i].base
    ensures AddLines(map[], Lines(RenderEntries(es))) != uids
  {
    var lines := Lines(RenderEntries(es));
    LinesHaveNoNewline(RenderEntries(es));
    KeysHaveNoNewline(map[], lines);
    assert es[i].base in uids;
    assert es[i].base !in AddLines(map[], lines);
  }

  lemma TrailingCRIsLost(uids: map<string, nat>, es: seq<Entry>, i: nat)
    requires Fits(es) && i < |es| && EndsInCR(es[i].base)
    requires forall j :: 0 <= j < |es| ==> '\n' !in es[j].base && es[j].base in uids
    ensures AddLines(map[], Lines(RenderEntries(es))) != uids
  {
    var k := LongestCR(es, i);
    EntriesReadBack(map[], es);
    MapOfKeys(map[], Stripped(es));
    var longest := es[k].base;
    assert longest in uids;
    assert !Has(Stripped(es), longest);
  }

  /** The round trip works exactly when every base name is clean: a name
      holding a line feed or ending in a carriage return comes back as
      another name, so its message would be numbered again. */
  lemma RoundTripExactly(uids: map<string, nat>, validity: nat, next: nat, es: seq<Entry>)
    requires validity < UINT32 && 1 <= next < UINT32
    requires Encodes(es, uids) && Fits(es)
    ensures Parse(Render(validity, next, es)) == Some(Listing(uids, validity, next)) <==> AllClean(es)
  {
    if AllClean(es) {
      RoundTrip(uids, validity, next, es);
    } else {
      ParsesRendered(validity, next, es);
      if i :| 0 <= i < |es| && '\n' in es[i].base {
        NewlineIsLost(uids, es, i);
      } else {
        var i :| 0 <= i < |es| && !Clean(es[i].base);
        TrailingCRIsLost(uids, es, i);
      }
    }
  }

  // ---- the writer ----

  ghost predicate Collected(es: seq<Entry>, uids: map<string, nat>, keys: set<string>) {
    && Distinct(es)
    && (forall i :: 0 <= i < |es| ==> es[i].base in keys && es[i].base in uids && uids[es[i].base] == es[i].uid)
    && (forall b :: b in keys ==> Has(es, b))
  }

  predicate ByUid(es: seq<Entry>) {
    forall i, j :: 0 <= i < j < |es| ==> es[i].uid <= es[j].uid
  }

  lemma CollectedAdd(es: seq<Entry>, e: Entry, uids: map<string, nat>, keys: set<string>)
    requires Collected(es, uids, keys)
    requires e.base in uids && uids[e.base] == e.uid && e.base !in keys
    ensures Collected(es + [e], uids, keys + {e.base})
  {
    var r := es + [e];
    forall b | b in keys + {e.base} ensures Has(r, b) {
      if b == e.base {
        assert r[|es|].base == b;
      } else {
        assert Has(es, b);
        var i :| 0 <= i < |es| && es[i].base == b;
        assert r[i].base == b;
      }
    }
  }

  lemma CollectedPermutes(es: seq<Entry>, r: seq<Entry>, uids: map<string, nat>)
    requires Collected(es, uids, uids.Keys) && multiset(r) == multiset(es)
    ensures Encodes(r, uids)
  {
    SameMembers(r, es);
    PermutationDistinct(es, r);
    forall i | 0 <= i < |r| ensures r[i].base in uids && uids[r[i].base] == r[i].uid {
      assert r[i] in es;
    }
    forall b | b in uids ensures Has(r, b) {
      assert Has(es, b);
      var i :| 0 <= i < |es| && es[i].base == b;
      assert es[i] in r;
    }
  }

  method Collect(uids: map<string, nat>) returns (list: seq<Entry>)
    ensures Collected(list, uids, uids.Keys)
  {
    list := [];
    var left := uids.Keys;
    while left != {}
      invariant left <= uids.Keys
      invariant Collected(list, uids, uids.Keys - left)
      decreases |left|
    {
      var b :| b in left;
      CollectedAdd(list, Entry(uids[b], b), uids, uids.Keys - left);
      assert uids.Keys - left + {b} == uids.Keys - (left - {b});
      list := list + [Entry(uids[b], b)];
      left := left - {b};
    }
    assert uids.Keys - left == uids.Keys;
  }

  method PrintEntries(list: seq<Entry>) returns (text: string)
    ensures text == RenderEntries(list)
  {
    text := "";
    var k := 0;
    assert list[0..] == list;
    while k < |list|
      invariant 0 <= k <= |list|
      invariant text + RenderEntries(list[k..]) == RenderEntries(list)
    {
      assert list[k..][0] == list[k] && list[k..][1..] == list[k + 1..];
      ghost var rest := RenderEntries(list[k + 1..]);
      assert text + (RenderEntry(list[k]) + rest) == text + RenderEntry(list[k]) + rest;
      text := text + RenderEntry(list[k]);
      k := k + 1;
    }
    assert RenderEntries(list[k..]) == "";
  }

  /** writeUIDList collects the map in an arbitrary order, sorts it by UID
      and renders it. */
  method Write(uids: map<string, nat>, validity: nat, next: nat) returns (text: string)
    ensures exists es :: Encodes(es, uids) && ByUid(es) && text == Render(validity, next, es)
  {
    var list := Collect(uids);
    var sorted := SortSlice(list, (e: Entry) => e.uid);
    CollectedPermutes(list, sorted, uids);
    var body := PrintEntries(sorted);
    text := RenderHeader(validity, next) + "\n" + body;
    assert text == Render(validity, next, sorted);
  }
}
