/** A client reading BODYSTRUCTURE by the positions of RFC 3501. */
module StructureClient {
  import opened Text
  import opened ImapParser
  import opened BodyStructure

  datatype Disp = Disp(kind: string, name: Option<string>)

  /** What a client learns of a part (section 7.4.2 of RFC 3501). */
  datatype Shown =
    | Leaf(ctype: string, csub: string, params: map<string, string>, encoding: string, size: nat, lines: Option<nat>, disp: Option<Disp>)
    | Multi(children: seq<Shown>, csub: string, params: map<string, string>)

  // ---- the client ----

  function TokenAt(ts: seq<Token>, i: nat): Token { if i < |ts| then ts[i] else Str("NIL", false) }

  function StrAt(ts: seq<Token>, i: nat): string { if i < |ts| && ts[i].Str? then ts[i].str else "" }

  function NumberAt(ts: seq<Token>, i: nat): nat { if AllDigits(StrAt(ts, i)) then DigitsValue(StrAt(ts, i)) else 0 }

  /** Names and values alternate. */
  function Pairs(ts: seq<Token>): map<string, string> {
    var n := |ts|;
    if n < 2 then map[] else Pairs(ts[..n - 2])[StrAt(ts, n - 2) := StrAt(ts, n - 1)]
  }

  function ReadParams(t: Token): map<string, string> { if t.List? then Pairs(t.items) else map[] }

  function ReadDisp(t: Token): Option<Disp> {
    if t.Str? then None
    else
      var m := ReadParams(TokenAt(t.items, 1));
      Some(Disp.Disp(StrAt(t.items, 0), if "FILENAME" in m then Some(m["FILENAME"]) else None))
  }

  /** The number of lists at the front. */
  function Heads(ts: seq<Token>): (n: nat)
    ensures n <= |ts|
  {
    if ts != [] && ts[0].List? then 1 + Heads(ts[1..]) else 0
  }

  function ReadLeaf(ts: seq<Token>): Shown {
    var text := StrAt(ts, 0) == "TEXT";
    Leaf(StrAt(ts, 0), StrAt(ts, 1), ReadParams(TokenAt(ts, 2)), StrAt(ts, 5), NumberAt(ts, 6),
         if text then Some(NumberAt(ts, 7)) else None, ReadDisp(TokenAt(ts, if text then 9 else 8)))
  }

  function Client(t: Token): Shown {
    if t.Str? then ReadLeaf([])
    else
      var n := Heads(t.items);
      if n == 0 then ReadLeaf(t.items)
      else Multi(seq(n, i requires 0 <= i < n => Client(t.items[i])), StrAt(t.items, n), ReadParams(TokenAt(t.items, n + 1)))
  }

  // ---- the part tree ----

  function ShownLeaf(p: Part, extended: bool): Shown {
    Leaf(p.ctype, p.csub, p.params, p.encoding, |p.body|,
         if p.ctype == "TEXT" then Some(multiset(p.body)['\n']) else None,
         if extended && p.disp != "" then Some(Disp.Disp(p.disp, if p.dispName == "" then None else Some(p.dispName))) else None)
  }

  function Shows(p: Part, extended: bool): Shown {
    if p.children == [] then ShownLeaf(p, extended)
    else
      Multi(seq(|p.children|, i requires 0 <= i < |p.children| => Shows(p.children[i], extended)), p.csub,
            if extended then p.params else map[])
  }

  // ---- the one reads the other ----

  lemma {:induction false} LinesCounted(body: string)
    ensures CountLines(body) == multiset(body)['\n']
  {
    if body != "" {
      LinesCounted(body[1..]);
      assert body == [body[0]] + body[1..];
    }
  }

  lemma {:induction false} PairsRead(ks: seq<string>, m: map<string, string>)
    requires forall k :: k in ks ==> k in m
    ensures Pairs(Tokens(PairWires(ks, m))) == map k | k in ks :: m[k]
    decreases |ks|
  {
    if ks != [] {
      var n := |ks| - 1;
      assert ks == ks[..n] + [ks[n]];
      var before, ws := PairWires(ks[..n], m), PairWires(ks, m);
      var ts := Tokens(ws);
      assert ts[..|ts| - 2] == Tokens(before);
      assert StrAt(ts, |ts| - 2) == ks[n] && StrAt(ts, |ts| - 1) == m[ks[n]];
      PairsRead(ks[..n], m);
    }
  }

  lemma ParamsRead(m: map<string, string>)
    ensures ReadParams(TokenOf(ParamWire(m))) == m
  {
    if m != map[] {
      var ks := KeyOrder(m.Keys);
      GroupToken(0, PairWires(ks, m));
      PairsRead(ks, m);
    }
  }

  lemma NameRead(name: string)
    ensures ReadParams(TokenOf(NameWire(name))) == if name == "" then map[] else map["FILENAME" := name]
  {
    if name != "" {
      var ws := [Phrase("FILENAME"), Phrase(name)];
      GroupToken(0, ws);
      var ts := Tokens(ws);
      assert ts[..0] == [] && Pairs([]) == map[];
      assert StrAt(ts, 0) == "FILENAME" && StrAt(ts, 1) == name;
    }
  }

  lemma DispRead(disp: string, name: string)
    ensures ReadDisp(TokenOf(DispWire(disp, name)))
         == if disp == "" then None else Some(Disp.Disp(disp, if name == "" then None else Some(name)))
  {
    if disp != "" {
      var ws := [Phrase(disp), NameWire(name)];
      GroupToken(0, ws);
      NameRead(name);
      assert TokenAt(Tokens(ws), 1) == TokenOf(NameWire(name));
    }
  }

  lemma NumberRead(ts: seq<Token>, i: nat, n: nat)
    requires i < |ts| && ts[i] == TokenOf(Word(Digits(n)))
    ensures NumberAt(ts, i) == n
  {
    DigitsRoundTrip(n);
  }

  /** The fields of a leaf, by position. */
  ghost predicate LeafLaidOut(ts: seq<Token>, p: Part, extended: bool) {
    var text := p.ctype == "TEXT";
    && |ts| == 7 + (if text then 1 else 0) + (if extended then 4 else 0)
    && ts[0] == Str(p.ctype, false) && ts[1] == Str(p.csub, false) && ts[2] == TokenOf(ParamWire(p.params))
    && ts[5] == Str(p.encoding, false) && ts[6] == TokenOf(Word(Digits(|p.body|)))
    && (text ==> ts[7] == TokenOf(Word(Digits(CountLines(p.body)))))
    && (extended ==> ts[if text then 9 else 8] == TokenOf(DispWire(p.disp, p.dispName)))
  }

  lemma LeafIsLaidOut(p: Part, extended: bool)
    ensures LeafLaidOut(Tokens(LeafItems(p, ParamWire(p.params), extended)), p, extended)
  {
    var params := ParamWire(p.params);
    WiresLaidOut(p, params, extended);
    var ws := LeafItems(p, params, extended);
    assert Tokens(ws)[0] == Str(p.ctype, false) && Tokens(ws)[1] == Str(p.csub, false) && Tokens(ws)[5] == Str(p.encoding, false);
  }

  lemma WiresLaidOut(p: Part, params: Wire, extended: bool)
    ensures var ws, text := LeafItems(p, params, extended), p.ctype == "TEXT";
      && |ws| == 7 + (if text then 1 else 0) + (if extended then 4 else 0)
      && ws[0] == Phrase(p.ctype) && ws[1] == Phrase(p.csub) && ws[2] == params
      && ws[5] == Phrase(p.encoding) && ws[6] == Word(Digits(|p.body|))
      && (text ==> ws[7] == Word(Digits(CountLines(p.body))))
      && (extended ==> ws[if text then 9 else 8] == DispWire(p.disp, p.dispName))
  {
    var fields, lines, ext := LeafFields(p, params), LeafLines(p), LeafExtension(p, extended);
    ThreeRuns(fields, lines, ext);
  }

  lemma ThreeRuns<T>(a: seq<T>, b: seq<T>, c: seq<T>)
    ensures forall i :: 0 <= i < |a| ==> (a + b + c)[i] == a[i]
    ensures forall i :: 0 <= i < |b| ==> (a + b + c)[|a| + i] == b[i]
    ensures forall i :: 0 <= i < |c| ==> (a + b + c)[|a| + |b| + i] == c[i]
  {
  }

  lemma LeafRead(ts: seq<Token>, p: Part, extended: bool)
    requires LeafLaidOut(ts, p, extended)
    ensures ReadLeaf(ts) == ShownLeaf(p, extended)
  {
    ParamsRead(p.params);
    NumberRead(ts, 6, |p.body|);
    if p.ctype == "TEXT" { NumberRead(ts, 7, CountLines(p.body)); }
    LinesCounted(p.body);
    DispRead(p.disp, p.dispName);
  }

  lemma {:induction false} HeadsCounted(ts: seq<Token>, n: nat)
    requires n <= |ts| && (forall i :: 0 <= i < n ==> ts[i].List?) && (n < |ts| ==> ts[n].Str?)
    ensures Heads(ts) == n
    decreases n
  {
    if n > 0 { HeadsCounted(ts[1..], n - 1); }
  }

  /** The fields behind the children. */
  lemma TailLaidOut(p: Part, extended: bool)
    requires p.children != []
    ensures var ts, n := Tokens(ChildWires(p, extended) + TailItems(p, ParamWire(p.params), extended)), |p.children|;
      && n < |ts| && ts[n] == Str(p.csub, false)
      && (if extended then |ts| == n + 5 && ts[n + 1] == TokenOf(ParamWire(p.params)) else |ts| == n + 1)
      && forall i :: 0 <= i < n ==> ts[i] == Reading(p.children[i], extended)
  {
    var heads, tail := ChildWires(p, extended), TailItems(p, ParamWire(p.params), extended);
    var n := |heads|;
    assert (heads + tail)[n] == tail[0];
    assert extended ==> (heads + tail)[n + 1] == tail[1];
    assert forall i :: 0 <= i < n ==> (heads + tail)[i] == WireOf(p.children[i], extended);
  }

  lemma MultiRead(t: Token, p: Part, extended: bool)
    requires t.List? && p.children != [] && Heads(t.items) == |p.children| < |t.items|
    requires forall i :: 0 <= i < |p.children| ==> Client(t.items[i]) == Shows(p.children[i], extended)
    requires t.items[|p.children|] == Str(p.csub, false)
    requires ReadParams(TokenAt(t.items, |p.children| + 1)) == if extended then p.params else map[]
    ensures Client(t) == Shows(p, extended)
  {
    assert Client(t).children == Shows(p, extended).children;
  }

  lemma {:induction false} ClientReads(p: Part, extended: bool)
    ensures Client(Reading(p, extended)) == Shows(p, extended)
  {
    var t := Reading(p, extended);
    ReadingItems(p, extended);
    if p.children == [] {
      LeafIsLaidOut(p, extended);
      HeadsCounted(t.items, 0);
      LeafRead(t.items, p, extended);
    } else {
      TailLaidOut(p, extended);
      var n := |p.children|;
      forall i | 0 <= i < n ensures t.items[i].List? && Client(t.items[i]) == Shows(p.children[i], extended) {
        ClientReads(p.children[i], extended);
      }
      HeadsCounted(t.items, n);
      ParamsRead(p.params);
      MultiRead(t, p, extended);
    }
  }

  /** From the printed text of any part tree a client learns every part's type,
      parameters, encoding, size in bytes, lines of text and disposition. */
  lemma ClientSees(p: Part, extended: bool, rest: string, reader: Reader)
    ensures var r := Next(Print(WireOf(p, extended)) + rest, reader);
      r.Ok? && r.rest == rest && Client(r.value) == Shows(p, extended)
  {
    StructureRoundTrip(p, extended, rest, reader);
    ClientReads(p, extended);
  }
}
