/** BODYSTRUCTURE and BODY of a message's part tree, printed as nested lists. */
module BodyStructure {
  import opened Text
  import opened Seqs
  import opened InsertionSort
  import opened ImapParser

  datatype Part = Part(ctype: string, csub: string, params: map<string, string>, encoding: string,
                       disp: string, dispName: string, body: string, children: seq<Part>)

  function CountLines(body: string): nat {
    if body == "" then 0 else CountLines(body[1..]) + (if body[0] == '\n' then 1 else 0)
  }

  // ---- the order of strings ----

  predicate Less(a: string, b: string) {
    b != "" && (a == "" || a[0] < b[0] || (a[0] == b[0] && Less(a[1..], b[1..])))
  }

  lemma {:induction false} LessTrans(a: string, b: string, c: string)
    requires Less(a, b) && Less(b, c)
    ensures Less(a, c)
  {
    if a != "" && b != "" && a[0] == b[0] && b[0] == c[0] { LessTrans(a[1..], b[1..], c[1..]); }
  }

  lemma {:induction false} LessTotal(a: string, b: string)
    ensures a == b || Less(a, b) || Less(b, a)
    ensures !(Less(a, b) && Less(b, a)) && !Less(a, a)
  {
    if a != "" { LessTotal(a[1..], a[1..]); }
    if a != "" && b != "" && a[0] == b[0] {
      LessTotal(a[1..], b[1..]);
      assert a == [a[0]] + a[1..] && b == [b[0]] + b[1..];
    }
  }

  ghost predicate Increasing(s: seq<string>) {
    forall i, j :: 0 <= i < j < |s| ==> Less(s[i], s[j])
  }

  ghost predicate SameStrings(a: seq<string>, b: seq<string>) {
    forall x :: x in a <==> x in b
  }

  lemma FirstsAgree(a: seq<string>, b: seq<string>)
    requires Increasing(a) && Increasing(b) && SameStrings(a, b) && a != [] && b != []
    ensures a[0] == b[0]
  {
    assert a[0] in a && b[0] in b;
    assert a[0] in b && b[0] in a;
    var i :| 0 <= i < |b| && b[i] == a[0];
    var j :| 0 <= j < |a| && a[j] == b[0];
    LessTotal(a[0], b[0]);
  }

  lemma EmptyAgrees(b: seq<string>)
    requires SameStrings([], b)
    ensures b == []
  {
    if b != [] { SharedString([], b, 0); }
  }

  lemma SharedString(a: seq<string>, b: seq<string>, i: nat)
    requires SameStrings(a, b) && i < |b|
    ensures b[i] in a
  {
  }

  /** An increasing sequence is determined by its elements. */
  lemma {:induction false} IncreasingUnique(a: seq<string>, b: seq<string>)
    requires Increasing(a) && Increasing(b) && SameStrings(a, b)
    ensures a == b
    decreases |a|
  {
    if a == [] {
      EmptyAgrees(b);
    } else {
      assert a[0] in b;
      FirstsAgree(a, b);
      forall x ensures x in a[1..] <==> x in b[1..] {
        LessTotal(a[0], a[0]);
        assert x in a[1..] <==> x in a && x != a[0];
        assert x in b[1..] <==> x in b && x != b[0];
      }
      IncreasingUnique(a[1..], b[1..]);
    }
  }

  // ---- sorting ----

  lemma AppendIncreases(s: seq<string>, x: string)
    requires Increasing(s) && forall y :: y in s ==> Less(y, x)
    ensures Increasing(s + [x])
  {
    assert forall i :: 0 <= i < |s| ==> s[i] in s;
  }

  lemma BelowNewcomer(s: seq<string>, x: string)
    requires Increasing(s) && x !in s && (s == [] || !Less(x, s[|s| - 1]))
    ensures forall y :: y in s ==> Less(y, x)
  {
    forall y | y in s ensures Less(y, x) {
      var last := s[|s| - 1];
      var i :| 0 <= i < |s| && s[i] == y;
      LessTotal(x, last);
      if i < |s| - 1 { LessTrans(y, last, x); }
    }
  }

  lemma {:induction false} InsertIncreases(s: seq<string>, x: string)
    requires Increasing(s) && x !in s
    ensures Increasing(Insert(s, x, Less))
    decreases |s|
  {
    if s == [] || !Less(x, s[|s| - 1]) {
      BelowNewcomer(s, x);
      AppendIncreases(s, x);
    } else {
      var front, last := s[..|s| - 1], s[|s| - 1];
      InsertIncreases(front, x);
      InsertMembers(front, x, Less);
      AppendIncreases(Insert(front, x, Less), last);
    }
  }

  lemma {:induction false} SortedIsIncreasing(s: seq<string>)
    requires Distinct(s)
    ensures Increasing(Sorted(s, Less)) && SameStrings(Sorted(s, Less), s)
    decreases |s|
  {
    if s != [] {
      var front, last := s[..|s| - 1], s[|s| - 1];
      SortedIsIncreasing(front);
      assert last !in front;
      InsertIncreases(Sorted(front, Less), last);
      InsertMembers(Sorted(front, Less), last, Less);
      assert s == front + [last];
    }
  }

  /** The keys of a map in increasing order. */
  ghost function KeyOrder(keys: set<string>): (ks: seq<string>)
    ensures Increasing(ks) && forall x :: x in ks <==> x in keys
    decreases |keys|
  {
    if keys == {} then []
    else
      var x :| x in keys;
      var rest := KeyOrder(keys - {x});
      InsertIncreases(rest, x);
      InsertMembers(rest, x, Less);
      Insert(rest, x, Less)
  }

  /** Whatever order the map iteration yields the keys in, sorting gives the
      same sequence. */
  lemma OrderIsIrrelevant(enumeration: seq<string>, keys: set<string>)
    requires Distinct(enumeration) && forall x :: x in enumeration <==> x in keys
    ensures Sorted(enumeration, Less) == KeyOrder(keys)
  {
    SortedIsIncreasing(enumeration);
    IncreasingUnique(Sorted(enumeration, Less), KeyOrder(keys));
  }

  /** sortStrings */
  method SortStrings(a: array<string>)
    modifies a
    ensures a[..] == Sorted(old(a[..]), Less)
    ensures Distinct(old(a[..])) ==> Increasing(a[..]) && multiset(a[..]) == multiset(old(a[..]))
  {
    ghost var s := a[..];
    SortInPlace(a, Less);
    SortedPermutes(s, Less);
    if Distinct(s) { SortedIsIncreasing(s); }
  }

  // ---- what is printed ----

  const NIL := Word("NIL")

  function PairWires(ks: seq<string>, m: map<string, string>): seq<Wire>
    requires forall k :: k in ks ==> k in m
  {
    if ks == [] then []
    else
      var n := |ks| - 1;
      assert ks[n] in ks;
      PairWires(ks[..n], m) + [Phrase(ks[n]), Phrase(m[ks[n]])]
  }

  ghost function ParamWire(m: map<string, string>): Wire {
    if m == map[] then NIL else Group(0, PairWires(KeyOrder(m.Keys), m))
  }

  function DispWire(disp: string, name: string): Wire {
    if disp == "" then NIL
    else Group(0, [Phrase(disp), NameWire(name)])
  }

  function NameWire(name: string): Wire {
    if name == "" then NIL else Group(0, [Phrase("FILENAME"), Phrase(name)])
  }

  function LeafFields(p: Part, params: Wire): seq<Wire> {
    [Phrase(p.ctype), Phrase(p.csub), params, NIL, NIL,
     Phrase(p.encoding), Word(Digits(|p.body|))]
  }

  /** The line count is given for text parts only. */
  function LeafLines(p: Part): seq<Wire> {
    if p.ctype == "TEXT" then [Word(Digits(CountLines(p.body)))] else []
  }

  /** Digest, disposition, language and location. */
  function LeafExtension(p: Part, extended: bool): seq<Wire> {
    if extended then [NIL, DispWire(p.disp, p.dispName), NIL, NIL] else []
  }

  function LeafItems(p: Part, params: Wire, extended: bool): seq<Wire> {
    LeafFields(p, params) + LeafLines(p) + LeafExtension(p, extended)
  }

  function TailItems(p: Part, params: Wire, extended: bool): seq<Wire> {
    [Phrase(p.csub)] + (if extended then [params, NIL, NIL, NIL] else [])
  }

  ghost function WireOf(p: Part, extended: bool): (w: Wire)
    ensures w.Group?
    decreases p, 1
  {
    if p.children == [] then Group(0, LeafItems(p, ParamWire(p.params), extended))
    else Group(|p.children|, ChildWires(p, extended) + TailItems(p, ParamWire(p.params), extended))
  }

  ghost function ChildWires(p: Part, extended: bool): (ws: seq<Wire>)
    ensures |ws| == |p.children|
    decreases p, 0
  {
    seq(|p.children|, i requires 0 <= i < |p.children| => WireOf(p.children[i], extended))
  }

  // ---- the printed form is read back ----

  lemma {:induction false} PairsArePrintable(ks: seq<string>, m: map<string, string>)
    requires forall k :: k in ks ==> k in m
    ensures forall i :: 0 <= i < |PairWires(ks, m)| ==> Printable(PairWires(ks, m)[i])
    decreases |ks|
  {
    if ks != [] { PairsArePrintable(ks[..|ks| - 1], m); }
  }

  lemma NumberIsPlain(n: nat)
    ensures PlainWord(Digits(n))
  {
    var s := Digits(n);
    assert IsDigit(s[0]);
    assert forall i :: 0 <= i < |s| ==> IsDigit(s[i]);
  }

  lemma ParamsArePrintable(m: map<string, string>)
    ensures Printable(ParamWire(m))
  {
    PairsArePrintable(KeyOrder(m.Keys), m);
  }

  ghost predicate AllPrintable(ws: seq<Wire>) {
    forall i :: 0 <= i < |ws| ==> Printable(ws[i])
  }

  lemma JoinedPrintable(a: seq<Wire>, b: seq<Wire>)
    requires AllPrintable(a) && AllPrintable(b)
    ensures AllPrintable(a + b)
  {
  }

  lemma NilIsPrintable()
    ensures Printable(NIL)
  {
    assert PlainWord("NIL");
  }

  lemma DispIsPrintable(disp: string, name: string)
    ensures Printable(DispWire(disp, name))
  {
    NilIsPrintable();
  }

  lemma LeafIsPrintable(p: Part, params: Wire, extended: bool)
    requires Printable(params)
    ensures AllPrintable(LeafItems(p, params, extended))
  {
    NumberIsPlain(|p.body|);
    NumberIsPlain(CountLines(p.body));
    NilIsPrintable();
    DispIsPrintable(p.disp, p.dispName);
    JoinedPrintable(LeafFields(p, params), LeafLines(p));
    JoinedPrintable(LeafFields(p, params) + LeafLines(p), LeafExtension(p, extended));
  }

  lemma TailIsPrintable(p: Part, params: Wire, extended: bool)
    requires Printable(params)
    ensures AllPrintable(TailItems(p, params, extended))
  {
    NilIsPrintable();
  }

  lemma {:induction false} StructureIsPrintable(p: Part, extended: bool)
    ensures Printable(WireOf(p, extended))
  {
    ParamsArePrintable(p.params);
    if p.children == [] {
      LeafIsPrintable(p, ParamWire(p.params), extended);
    } else {
      TailIsPrintable(p, ParamWire(p.params), extended);
      forall i | 0 <= i < |p.children| ensures Printable(ChildWires(p, extended)[i]) {
        StructureIsPrintable(p.children[i], extended);
      }
      JoinedPrintable(ChildWires(p, extended), TailItems(p, ParamWire(p.params), extended));
    }
  }

  ghost function Reading(p: Part, extended: bool): Token { TokenOf(WireOf(p, extended)) }

  /** Reading the printed structure of any part tree consumes exactly what was
      printed, whatever follows. */
  lemma StructureRoundTrip(p: Part, extended: bool, rest: string, reader: Reader)
    ensures Next(Print(WireOf(p, extended)) + rest, reader) == Ok(Reading(p, extended), rest)
  {
    StructureIsPrintable(p, extended);
    WireRoundTrip(WireOf(p, extended), rest, reader);
  }

  function Tokens(ws: seq<Wire>): (ts: seq<Token>)
    ensures |ts| == |ws| && forall i :: 0 <= i < |ws| ==> ts[i] == TokenOf(ws[i])
  {
    seq(|ws|, i requires 0 <= i < |ws| => TokenOf(ws[i]))
  }

  lemma ReadingItems(p: Part, extended: bool)
    ensures p.children == [] ==> Reading(p, extended) == List(Tokens(LeafItems(p, ParamWire(p.params), extended)))
    ensures p.children != [] ==> Reading(p, extended) == List(Tokens(ChildWires(p, extended) + TailItems(p, ParamWire(p.params), extended)))
  {
    var items := if p.children == [] then LeafItems(p, ParamWire(p.params), extended) else ChildWires(p, extended) + TailItems(p, ParamWire(p.params), extended);
    assert WireOf(p, extended).items == items;
    assert TokenOf(WireOf(p, extended)).items == Tokens(items);
  }

  /** The leading lists of what is read are the children, in order, and they
      are followed by the subtype; a leaf starts with its type. */
  lemma ReadingShowsChildren(p: Part, extended: bool)
    ensures var t := Reading(p, extended);
      && t.List? && |t.items| > |p.children|
      && (forall i :: 0 <= i < |p.children| ==> t.items[i].List? && t.items[i] == Reading(p.children[i], extended))
      && t.items[|p.children|] == Str(if p.children == [] then p.ctype else p.csub, false)
  {
    ReadingItems(p, extended);
    var n := |p.children|;
    var ws := ChildWires(p, extended) + TailItems(p, ParamWire(p.params), extended);
    assert forall i :: 0 <= i < n ==> ws[i] == WireOf(p.children[i], extended);
    assert ws[n] == TailItems(p, ParamWire(p.params), extended)[0];
  }

  // ---- the printed form loses nothing it should show ----

  predicate SameLeaf(p: Part, q: Part) {
    && p.ctype == q.ctype && p.encoding == q.encoding && |p.body| == |q.body|
    && (p.ctype == "TEXT" ==> CountLines(p.body) == CountLines(q.body))
    && p.disp == q.disp && (p.disp != "" ==> p.dispName == q.dispName)
  }

  /** Equal in everything BODYSTRUCTURE is to report. */
  predicate Same(p: Part, q: Part) {
    && |p.children| == |q.children| && p.csub == q.csub && p.params == q.params
    && (p.children == [] ==> SameLeaf(p, q))
    && forall i :: 0 <= i < |p.children| && i < |q.children| ==> Same(p.children[i], q.children[i])
  }

  lemma {:induction false} PairsInjective(ks: seq<string>, m: map<string, string>, ls: seq<string>, n: map<string, string>)
    requires (forall k :: k in ks ==> k in m) && (forall k :: k in ls ==> k in n)
    requires Tokens(PairWires(ks, m)) == Tokens(PairWires(ls, n))
    ensures ks == ls && forall k :: k in ks ==> m[k] == n[k]
    decreases |ks|
  {
    var a, b := PairWires(ks, m), PairWires(ls, n);
    PairCount(ks, m);
    PairCount(ls, n);
    if ks != [] {
      var i := |ks| - 1;
      var x, y := PairWires(ks[..i], m), PairWires(ls[..i], n);
      PairCount(ks[..i], m);
      PairCount(ls[..i], n);
      assert forall k :: 0 <= k < |x| ==> Tokens(a)[k] == TokenOf(x[k]) && Tokens(b)[k] == TokenOf(y[k]);
      assert Tokens(x) == Tokens(y);
      PairsInjective(ks[..i], m, ls[..i], n);
      assert Tokens(a)[2 * i] == Tokens(b)[2 * i] && Tokens(a)[2 * i + 1] == Tokens(b)[2 * i + 1];
      assert ks == ks[..i] + [ks[i]] && ls == ls[..i] + [ls[i]];
    }
  }

  lemma {:induction false} PairCount(ks: seq<string>, m: map<string, string>)
    requires forall k :: k in ks ==> k in m
    ensures |PairWires(ks, m)| == 2 * |ks|
    decreases |ks|
  {
    if ks != [] { PairCount(ks[..|ks| - 1], m); }
  }

  lemma GroupToken(tight: nat, ws: seq<Wire>)
    ensures TokenOf(Group(tight, ws)) == List(Tokens(ws))
  {
    assert TokenOf(Group(tight, ws)).items == Tokens(ws);
  }

  lemma ParamsInjective(m: map<string, string>, n: map<string, string>)
    requires TokenOf(ParamWire(m)) == TokenOf(ParamWire(n))
    ensures m == n
  {
    if m != map[] && n != map[] {
      var ks, ls := KeyOrder(m.Keys), KeyOrder(n.Keys);
      GroupToken(0, PairWires(ks, m));
      GroupToken(0, PairWires(ls, n));
      PairsInjective(ks, m, ls, n);
      assert forall k :: k in m.Keys <==> k in n.Keys;
      assert m.Keys == n.Keys;
    }
  }

  lemma NameInjective(a: string, b: string)
    requires TokenOf(NameWire(a)) == TokenOf(NameWire(b))
    ensures a == b
  {
    var x, y := TokenOf(NameWire(a)), TokenOf(NameWire(b));
    assert a != "" ==> x.List? && x.items[1] == Str(a, false);
    assert b != "" ==> y.List? && y.items[1] == Str(b, false);
  }

  lemma DispInjective(d: string, a: string, e: string, b: string)
    requires TokenOf(DispWire(d, a)) == TokenOf(DispWire(e, b))
    ensures d == e && (d != "" ==> a == b)
  {
    var x, y := TokenOf(DispWire(d, a)), TokenOf(DispWire(e, b));
    assert d != "" ==> x.List? && x.items[0] == Str(d, false) && x.items[1] == TokenOf(NameWire(a));
    assert e != "" ==> y.List? && y.items[0] == Str(e, false) && y.items[1] == TokenOf(NameWire(b));
    if d != "" { NameInjective(a, b); }
  }

  lemma FieldsInjective(p: Part, q: Part)
    requires Tokens(LeafFields(p, ParamWire(p.params))) == Tokens(LeafFields(q, ParamWire(q.params)))
    ensures p.ctype == q.ctype && p.csub == q.csub && p.params == q.params && p.encoding == q.encoding && |p.body| == |q.body|
  {
    var x, y := Tokens(LeafFields(p, ParamWire(p.params))), Tokens(LeafFields(q, ParamWire(q.params)));
    assert x[0] == y[0] && x[1] == y[1] && x[2] == y[2] && x[5] == y[5] && x[6] == y[6];
    ParamsInjective(p.params, q.params);
    DigitsInjective(|p.body|, |q.body|);
  }

  lemma TokensConcat(a: seq<Wire>, b: seq<Wire>)
    ensures Tokens(a + b) == Tokens(a) + Tokens(b)
  {
  }

  lemma LeafInjective(p: Part, q: Part)
    requires Tokens(LeafItems(p, ParamWire(p.params), true)) == Tokens(LeafItems(q, ParamWire(q.params), true))
    ensures p.csub == q.csub && p.params == q.params && SameLeaf(p, q)
  {
    var x, y := Tokens(LeafItems(p, ParamWire(p.params), true)), Tokens(LeafItems(q, ParamWire(q.params), true));
    TokensConcat(LeafFields(p, ParamWire(p.params)) + LeafLines(p), LeafExtension(p, true));
    TokensConcat(LeafFields(q, ParamWire(q.params)) + LeafLines(q), LeafExtension(q, true));
    TokensConcat(LeafFields(p, ParamWire(p.params)), LeafLines(p));
    TokensConcat(LeafFields(q, ParamWire(q.params)), LeafLines(q));
    assert Tokens(LeafFields(p, ParamWire(p.params))) == x[..7] && Tokens(LeafFields(q, ParamWire(q.params))) == y[..7];
    FieldsInjective(p, q);
    if p.ctype == "TEXT" {
      assert x[7] == TokenOf(LeafLines(p)[0]) && y[7] == TokenOf(LeafLines(q)[0]);
      DigitsInjective(CountLines(p.body), CountLines(q.body));
    }
    var n := |x| - 3;
    assert x[n] == TokenOf(LeafExtension(p, true)[1]) && y[n] == TokenOf(LeafExtension(q, true)[1]);
    DispInjective(p.disp, p.dispName, q.disp, q.dispName);
  }

  lemma TailInjective(p: Part, q: Part, x: seq<Token>)
    requires x == Tokens(TailItems(p, ParamWire(p.params), true)) == Tokens(TailItems(q, ParamWire(q.params), true))
    ensures p.csub == q.csub && p.params == q.params
  {
    assert x[0] == Str(p.csub, false) == Str(q.csub, false);
    assert x[1] == TokenOf(ParamWire(p.params)) == TokenOf(ParamWire(q.params));
    ParamsInjective(p.params, q.params);
  }

  lemma ChildCountsAgree(p: Part, q: Part)
    requires Reading(p, true) == Reading(q, true)
    ensures |p.children| == |q.children|
  {
    ReadingShowsChildren(p, true);
    ReadingShowsChildren(q, true);
  }

  lemma {:induction false} ReadingInjective(p: Part, q: Part)
    requires Reading(p, true) == Reading(q, true)
    ensures Same(p, q)
    decreases p
  {
    ChildCountsAgree(p, q);
    ReadingItems(p, true);
    ReadingItems(q, true);
    if p.children == [] {
      LeafInjective(p, q);
    } else {
      ReadingShowsChildren(p, true);
      ReadingShowsChildren(q, true);
      forall i | 0 <= i < |p.children| ensures Same(p.children[i], q.children[i]) {
        ReadingInjective(p.children[i], q.children[i]);
      }
      TokensConcat(ChildWires(p, true), TailItems(p, ParamWire(p.params), true));
      TokensConcat(ChildWires(q, true), TailItems(q, ParamWire(q.params), true));
      var n, x := |p.children|, Reading(p, true).items;
      assert x[n..] == Tokens(TailItems(p, ParamWire(p.params), true)) == Tokens(TailItems(q, ParamWire(q.params), true));
      TailInjective(p, q, x[n..]);
    }
  }

  lemma {:induction false} SameIsPrintedAlike(p: Part, q: Part)
    requires Same(p, q)
    ensures WireOf(p, true) == WireOf(q, true)
    decreases p
  {
    if p.children != [] {
      forall i | 0 <= i < |p.children| ensures WireOf(p.children[i], true) == WireOf(q.children[i], true) {
        SameIsPrintedAlike(p.children[i], q.children[i]);
      }
      assert ChildWires(p, true) == ChildWires(q, true);
    }
  }

  /** Two part trees have the same BODYSTRUCTURE text exactly when they agree
      in types, parameters, encodings, sizes, line counts and dispositions,
      part by part. */
  lemma StructureExactly(p: Part, q: Part)
    ensures Print(WireOf(p, true)) == Print(WireOf(q, true)) <==> Same(p, q)
  {
    if Same(p, q) {
      SameIsPrintedAlike(p, q);
    }
    if Print(WireOf(p, true)) == Print(WireOf(q, true)) {
      StructureRoundTrip(p, true, "", None);
      StructureRoundTrip(q, true, "", None);
      ReadingInjective(p, q);
    }
  }

  // ---- the imperative form ----

  function Prints(ws: seq<Wire>): (ss: seq<string>)
    ensures |ss| == |ws| && forall i :: 0 <= i < |ws| ==> ss[i] == Print(ws[i])
  {
    seq(|ws|, i requires 0 <= i < |ws| => Print(ws[i]))
  }

  function Concat(ss: seq<string>): string {
    if ss == [] then "" else Concat(ss[..|ss| - 1]) + ss[|ss| - 1]
  }

  /** Loosely printed elements are joined by spaces. */
  lemma {:induction false} SpacedFrom(w: Wire, i: nat)
    requires w.Group? && w.tight <= i < |w.items|
    ensures PrintFrom(w, i) == Gap(w, i) + Join(Prints(w.items[i..]), ' ')
    decreases |w.items| - i
  {
    var ss := Prints(w.items[i..]);
    if i + 1 < |w.items| {
      SpacedFrom(w, i + 1);
      assert ss[1..] == Prints(w.items[i + 1..]);
    }
  }

  lemma PrintSpaced(items: seq<Wire>)
    requires items != []
    ensures Print(Group(0, items)) == "(" + Join(Prints(items), ' ') + ")"
  {
    SpacedFrom(Group(0, items), 0);
    assert items[0..] == items;
  }

  /** Tightly printed elements are concatenated. */
  lemma {:induction false} TightUpTo(w: Wire, i: nat)
    requires w.Group? && i <= w.tight && i <= |w.items|
    ensures PrintFrom(w, 0) == Concat(Prints(w.items[..i])) + PrintFrom(w, i)
    decreases i
  {
    if i > 0 {
      TightUpTo(w, i - 1);
      var ss := Prints(w.items[..i]);
      assert ss[..i - 1] == Prints(w.items[..i - 1]);
      assert PrintFrom(w, i - 1) == Print(w.items[i - 1]) + PrintFrom(w, i);
    }
  }

  lemma PrintMixed(heads: seq<Wire>, tail: seq<Wire>)
    requires heads != [] && tail != []
    ensures Print(Group(|heads|, heads + tail)) == "(" + Concat(Prints(heads)) + " " + Join(Prints(tail), ' ') + ")"
  {
    var w := Group(|heads|, heads + tail);
    TightUpTo(w, |heads|);
    SpacedFrom(w, |heads|);
    assert w.items[..|heads|] == heads && w.items[|heads|..] == tail;
    Bracketed(Concat(Prints(heads)), Join(Prints(tail), ' '));
  }

  lemma Bracketed(a: string, b: string)
    ensures "(" + (a + (" " + b)) + ")" == "(" + a + " " + b + ")"
  {
  }

  method Disposition(disp: string, name: string) returns (s: string)
    ensures s == Print(DispWire(disp, name))
  {
    if disp == "" { return "NIL"; }
    var params := "NIL";
    if name != "" {
      PrintSpaced([Phrase("FILENAME"), Phrase(name)]);
      params := "(" + Join([Quote("FILENAME"), Quote(name)], ' ') + ")";
      assert [Quote("FILENAME"), Quote(name)] == Prints([Phrase("FILENAME"), Phrase(name)]);
    }
    PrintSpaced([Phrase(disp), NameWire(name)]);
    assert [Quote(disp), params] == Prints([Phrase(disp), NameWire(name)]);
    s := "(" + Join([Quote(disp), params], ' ') + ")";
  }

  /** The keys of a map, in whatever order the iteration yields them. */
  method Enumerate(keys: set<string>) returns (ks: seq<string>)
    ensures Distinct(ks) && forall x :: x in ks <==> x in keys
  {
    ks := [];
    var left := keys;
    while left != {}
      invariant left <= keys && Distinct(ks)
      invariant forall x :: x in ks <==> x in keys && x !in left
      decreases |left|
    {
      var k :| k in left;
      ks := ks + [k];
      left := left - {k};
    }
  }

  method SortedKeys(keys: set<string>) returns (ks: seq<string>)
    ensures ks == KeyOrder(keys)
  {
    var found := Enumerate(keys);
    var a := new string[|found|](i requires 0 <= i < |found| => found[i]);
    assert a[..] == found;
    SortStrings(a);
    OrderIsIrrelevant(found, keys);
    ks := a[..];
  }

  lemma {:induction false} JoinSnoc(ss: seq<string>, s: string)
    ensures Join(ss + [s], ' ') == Join(ss, ' ') + (if ss == [] then "" else " ") + s
    decreases |ss|
  {
    if |ss| > 1 {
      JoinSnoc(ss[1..], s);
      assert (ss + [s])[1..] == ss[1..] + [s];
    } else if |ss| == 1 {
      assert (ss + [s])[1..] == [s];
    }
  }

  lemma PairStep(ks: seq<string>, m: map<string, string>, i: nat)
    requires i < |ks| && forall k :: k in ks ==> k in m
    ensures ks[i] in m
    ensures Join(Prints(PairWires(ks[..i + 1], m)), ' ')
         == Join(Prints(PairWires(ks[..i], m)), ' ') + (if i == 0 then "" else " ") + Quote(ks[i]) + " " + Quote(m[ks[i]])
  {
    assert ks[i] in ks;
    var before := Prints(PairWires(ks[..i], m));
    PairCount(ks[..i], m);
    assert ks[..i + 1][..i] == ks[..i];
    assert Prints(PairWires(ks[..i + 1], m)) == before + [Quote(ks[i])] + [Quote(m[ks[i]])];
    JoinSnoc(before, Quote(ks[i]));
    JoinSnoc(before + [Quote(ks[i])], Quote(m[ks[i]]));
  }

  method ParamList(params: map<string, string>) returns (b: string)
    ensures b == Print(ParamWire(params))
  {
    if params == map[] { return "NIL"; }
    var keys := SortedKeys(params.Keys);
    KeysPresent(params);
    b := Pairs(keys, params);
  }

  lemma PairGroups(open: string, before: string, first: bool, k: string, v: string)
    ensures (if first then open + before else open + before + " ") + k + " " + v
         == open + (before + (if first then "" else " ") + k + " " + v)
  {
  }

  method Pairs(keys: seq<string>, params: map<string, string>) returns (b: string)
    requires keys != [] && forall k :: k in keys ==> k in params
    ensures b == Print(Group(0, PairWires(keys, params)))
  {
    b := "(";
    for i := 0 to |keys|
      invariant b == "(" + Join(Prints(PairWires(keys[..i], params)), ' ')
    {
      PairStep(keys, params, i);
      PairGroups("(", Join(Prints(PairWires(keys[..i], params)), ' '), i == 0, Quote(keys[i]), Quote(params[keys[i]]));
      if i > 0 { b := b + " "; }
      b := b + Quote(keys[i]) + " " + Quote(params[keys[i]]);
    }
    assert keys[..|keys|] == keys;
    PairCount(keys, params);
    PrintSpaced(PairWires(keys, params));
    b := b + ")";
  }

  lemma KeysPresent(m: map<string, string>)
    requires m != map[]
    ensures KeyOrder(m.Keys) != []
  {
    var k :| k in m;
    assert k in KeyOrder(m.Keys);
  }

  /** structure */
  method Structure(p: Part, extended: bool) returns (b: string)
    ensures b == Print(WireOf(p, extended))
    decreases p
  {
    var params := ParamList(p.params);
    if |p.children| > 0 {
      ghost var ws := ChildWires(p, extended);
      b := "(";
      for i := 0 to |p.children|
        invariant b == "(" + Concat(Prints(ws[..i]))
      {
        var child := Structure(p.children[i], extended);
        assert Prints(ws[..i + 1])[..i] == Prints(ws[..i]);
        b := b + child;
      }
      assert ws[..|ws|] == ws;
      PrintMixed(ws, TailItems(p, ParamWire(p.params), extended));
      var tail := Tail(p, ParamWire(p.params), params, extended);
      b := b + " " + tail + ")";
    } else {
      b := Leaf(p, ParamWire(p.params), params, extended);
    }
  }

  method Tail(p: Part, ghost wire: Wire, params: string, extended: bool) returns (b: string)
    requires params == Print(wire)
    ensures b == Join(Prints(TailItems(p, wire, extended)), ' ')
  {
    var fields := [Quote(p.csub)];
    if extended { fields := fields + [params, "NIL", "NIL", "NIL"]; }
    assert fields == Prints(TailItems(p, wire, extended));
    b := Join(fields, ' ');
  }

  method Leaf(p: Part, ghost wire: Wire, params: string, extended: bool) returns (b: string)
    requires params == Print(wire)
    ensures b == Print(Group(0, LeafItems(p, wire, extended)))
  {
    var fields := [Quote(p.ctype), Quote(p.csub), params, "NIL", "NIL", Quote(p.encoding), Digits(|p.body|)];
    assert fields == Prints(LeafFields(p, wire));
    if p.ctype == "TEXT" { fields := fields + [Digits(CountLines(p.body))]; }
    assert fields == Prints(LeafFields(p, wire) + LeafLines(p));
    if extended {
      var disp := Disposition(p.disp, p.dispName);
      fields := fields + ["NIL", disp, "NIL", "NIL"];
    }
    assert fields == Prints(LeafItems(p, wire, extended));
    PrintSpaced(LeafItems(p, wire, extended));
    b := "(" + Join(fields, ' ') + ")";
  }
}
