/** The argument tokenizer of IMAP command lines, and the printer of quoted
    strings and lists that it reads back. */
module ImapParser {
  import opened Text

  /** An atom, quoted string or literal, or a parenthesized list. */
  datatype Token = Str(str: string, isLiteral: bool) | List(items: seq<Token>)

  datatype Parsed<+T> = Fail | Ok(value: T, rest: string)

  /** Fetches the bytes of a literal from the connection; None when the parser
      has no connection behind it. */
  type Reader = Option<nat -> Option<string>>

  const MAX_LITERAL: nat := 64 * 1024 * 1024

  // ---- the grammar, on the text that is left ----

  function SkipSpace(s: string): (r: string)
    ensures |r| <= |s| && (r != "" ==> r[0] != ' ')
  {
    if s != "" && s[0] == ' ' then SkipSpace(s[1..]) else s
  }

  predicate EndsAtom(c: char) { c == ' ' || c == '(' || c == ')' }

  function AtomLength(s: string): (k: nat)
    ensures k <= |s|
  {
    if s == "" || EndsAtom(s[0]) then 0 else 1 + AtomLength(s[1..])
  }

  function Atom(s: string): Parsed<Token> {
    var k := AtomLength(s);
    if k == 0 then Fail else Ok(Str(s[..k], false), s[k..])
  }

  /** The rest of a quoted string, after its opening quote. */
  function Quoted(s: string): (r: Parsed<string>)
    ensures r.Ok? ==> |r.rest| < |s|
  {
    if s == "" then Fail
    else if s[0] == '"' then Ok("", s[1..])
    else if s[0] == '\\' then (if |s| < 2 then Fail else Prepend(s[1], Quoted(s[2..])))
    else Prepend(s[0], Quoted(s[1..]))
  }

  function AsToken(p: Parsed<string>): Parsed<Token> {
    match p case Fail => Fail case Ok(v, rest) => Ok(Str(v, false), rest)
  }

  function Prepend(c: char, p: Parsed<string>): Parsed<string> {
    match p case Fail => Fail case Ok(v, rest) => Ok([c] + v, rest)
  }

  /** strconv.Atoi, up to the range of int, which the size limit makes irrelevant. */
  function Atoi(s: string): Option<int> {
    var digits := if s != "" && (s[0] == '+' || s[0] == '-') then s[1..] else s;
    if digits == "" || !AllDigits(digits) then None
    else
      var n: int := DigitsValue(digits);
      Some(if s[0] == '-' then -n else n)
  }

  function TrimPlus(s: string): string {
    if s != "" && s[|s| - 1] == '+' then s[..|s| - 1] else s
  }

  /** {n} ends the line; its bytes come from the reader. */
  function Literal(s: string, reader: Reader): Parsed<Token>
    requires s != ""
  {
    var end := IndexOf(s, '}');
    if end == |s| || end == 0 || reader.None? then Fail
    else
      var n := Atoi(TrimPlus(s[1..end]));
      if n.None? || n.value < 0 || n.value > MAX_LITERAL then Fail
      else
        match reader.value(n.value)
        case None => Fail
        case Some(text) => Ok(Str(text, true), "")
  }

  function Next(s: string, reader: Reader): (r: Parsed<Token>)
    ensures r.Ok? ==> |r.rest| < |s|
    decreases |s|, 0
  {
    var u := SkipSpace(s);
    if u == "" then Fail
    else if u[0] == '(' then
      (match Items(u[1..], reader) case Fail => Fail case Ok(ts, rest) => Ok(List(ts), rest))
    else if u[0] == '"' then
      AsToken(Quoted(u[1..]))
    else if u[0] == '{' then Literal(u, reader)
    else Atom(u)
  }

  /** The elements of a list up to and with its closing parenthesis. */
  function Items(s: string, reader: Reader): (r: Parsed<seq<Token>>)
    ensures r.Ok? ==> |r.rest| < |s|
    decreases |s|, 1
  {
    var u := SkipSpace(s);
    if u == "" then Fail
    else if u[0] == ')' then Ok([], u[1..])
    else
      match Next(u, reader)
      case Fail => Fail
      case Ok(t, rest) => Before([t], Items(rest, reader))
  }

  function Before(ts: seq<Token>, p: Parsed<seq<Token>>): Parsed<seq<Token>> {
    match p case Fail => Fail case Ok(more, rest) => Ok(ts + more, rest)
  }

  // ---- quoted strings ----

  function EscapeChar(c: char): string { if c == '"' || c == '\\' then ['\\', c] else [c] }

  function Escape(s: string): string {
    if s == "" then "" else EscapeChar(s[0]) + Escape(s[1..])
  }

  function Quote(s: string): string { "\"" + Escape(s) + "\"" }

  lemma {:induction false} QuotedUndoesEscape(s: string, rest: string)
    ensures Quoted(Escape(s) + "\"" + rest) == Ok(s, rest)
    decreases |s|
  {
    var text := Escape(s) + "\"" + rest;
    if s == "" {
      assert text == "\"" + rest;
      assert text[1..] == rest;
    } else {
      var tail := Escape(s[1..]) + "\"" + rest;
      QuotedUndoesEscape(s[1..], rest);
      assert text == EscapeChar(s[0]) + tail;
      EscapedFirst(s[0], tail);
      assert [s[0]] + s[1..] == s;
    }
  }

  lemma EscapedFirst(c: char, tail: string)
    ensures Quoted(EscapeChar(c) + tail) == Prepend(c, Quoted(tail))
  {
    var text := EscapeChar(c) + tail;
    if c == '"' || c == '\\' {
      assert text[2..] == tail;
    } else {
      assert text[1..] == tail;
    }
  }

  lemma SkipsNothing(s: string)
    requires s == "" || s[0] != ' '
    ensures SkipSpace(s) == s
  {
  }

  /** Whatever the text and whatever follows, a printed string is read back
      unchanged and nothing after it is touched. */
  lemma QuoteRoundTrip(s: string, rest: string, reader: Reader)
    ensures Next(Quote(s) + rest, reader) == Ok(Str(s, false), rest)
  {
    var text := Quote(s) + rest;
    QuotedUndoesEscape(s, rest);
    assert text[0] == '"' && text[1..] == Escape(s) + "\"" + rest;
    SkipsNothing(text);
  }

  lemma {:induction false} EscapeSnoc(s: string, c: char)
    ensures Escape(s + [c]) == Escape(s) + EscapeChar(c)
    decreases |s|
  {
    if s == "" {
      assert [c][1..] == "";
      assert s + [c] == [c];
    } else {
      EscapeSnoc(s[1..], c);
      assert (s + [c])[1..] == s[1..] + [c];
    }
  }

  method QuoteText(s: string) returns (b: string)
    ensures b == Quote(s)
  {
    b := "\"";
    for i := 0 to |s|
      invariant b == "\"" + Escape(s[..i])
    {
      EscapeSnoc(s[..i], s[i]);
      assert s[..i + 1] == s[..i] + [s[i]];
      if s[i] == '"' || s[i] == '\\' { b := b + "\\"; }
      b := b + [s[i]];
    }
    assert s[..|s|] == s;
    b := b + "\"";
  }

  // ---- literals ----

  function LiteralSpec(n: nat): string { "{" + Digits(n) + "}" }

  lemma SpecFound(n: nat)
    ensures IndexOf(LiteralSpec(n), '}') == |Digits(n)| + 1 && LiteralSpec(n)[1..|Digits(n)| + 1] == Digits(n)
  {
    var s := LiteralSpec(n);
    assert forall i :: 0 <= i < |Digits(n)| ==> s[i + 1] == Digits(n)[i] && IsDigit(Digits(n)[i]);
    IndexOfAt(s, '}', |Digits(n)| + 1);
  }

  lemma AtoiReads(n: nat)
    ensures Atoi(TrimPlus(Digits(n))) == Some(n) && Atoi(TrimPlus(Digits(n) + "+")) == Some(n)
  {
    var d := Digits(n);
    assert IsDigit(d[0]) && IsDigit(d[|d| - 1]);
    assert TrimPlus(d + "+") == d;
    DigitsRoundTrip(n);
  }

  /** {n} at the end of a line is read as exactly the n bytes the connection
      yields, marked as a literal, and nothing is left of the line; one that is
      too large, or without a connection, is refused. */
  lemma LiteralRoundTrip(text: string, read: nat -> Option<string>)
    requires read(|text|) == Some(text)
    ensures Next(LiteralSpec(|text|), Some(read)) == if |text| <= MAX_LITERAL then Ok(Str(text, true), "") else Fail
    ensures Next(LiteralSpec(|text|), None) == Fail
  {
    var n := |text|;
    SkipsNothing(LiteralSpec(n));
    SpecFound(n);
    AtoiReads(n);
  }

  // ---- nested lists ----

  /** What the server prints: strings, bare words, and groups whose first
      `tight` elements follow each other without a space. */
  datatype Wire = Phrase(s: string) | Word(s: string) | Group(tight: nat, items: seq<Wire>)

  predicate PlainWord(s: string) {
    && s != "" && s[0] != '"' && s[0] != '{'
    && forall i :: 0 <= i < |s| ==> !EndsAtom(s[i])
  }

  /** Words are plain, and only groups stand without a space. */
  predicate Printable(w: Wire) {
    match w
    case Phrase(_) => true
    case Word(s) => PlainWord(s)
    case Group(tight, items) =>
      && (forall i :: 0 <= i < |items| ==> Printable(items[i]))
      && (forall i :: 0 <= i < |items| && i < tight ==> items[i].Group?)
  }

  function Print(w: Wire): string
    decreases w, if w.Group? then |w.items| + 1 else 0
  {
    match w
    case Phrase(s) => Quote(s)
    case Word(s) => s
    case Group(tight, items) => "(" + PrintFrom(w, 0) + ")"
  }

  function Gap(w: Wire, i: nat): string
    requires w.Group?
  {
    if i == 0 || i < w.tight then "" else " "
  }

  /** The elements of a group from the i-th on. */
  function PrintFrom(w: Wire, i: nat): string
    requires w.Group? && i <= |w.items|
    decreases w, |w.items| - i
  {
    if i == |w.items| then "" else Gap(w, i) + Print(w.items[i]) + PrintFrom(w, i + 1)
  }

  function TokenOf(w: Wire): Token {
    match w
    case Phrase(s) => Str(s, false)
    case Word(s) => Str(s, false)
    case Group(tight, items) => List(seq(|items|, i requires 0 <= i < |items| => TokenOf(items[i])))
  }

  /** Text that ends an atom. */
  predicate Stops(s: string) { s == "" || EndsAtom(s[0]) }

  lemma {:induction false} AtomEnds(s: string, rest: string)
    requires forall i :: 0 <= i < |s| ==> !EndsAtom(s[i])
    requires Stops(rest)
    ensures AtomLength(s + rest) == |s|
    decreases |s|
  {
    if s == "" {
      assert s + rest == rest;
    } else {
      assert (s + rest)[1..] == s[1..] + rest;
      AtomEnds(s[1..], rest);
    }
  }

  lemma WordRoundTrip(s: string, rest: string, reader: Reader)
    requires PlainWord(s) && Stops(rest)
    ensures Next(s + rest, reader) == Ok(Str(s, false), rest)
  {
    var text := s + rest;
    assert text[0] == s[0] && !EndsAtom(s[0]);
    SkipsNothing(text);
    AtomEnds(s, rest);
    assert text[..|s|] == s && text[|s|..] == rest;
  }

  lemma PrintStarts(w: Wire)
    requires Printable(w)
    ensures Print(w) != "" && Print(w)[0] != ' ' && Print(w)[0] != ')'
    ensures w.Group? ==> Print(w)[0] == '('
  {
  }

  /** One element of a list is read before the others. */
  lemma ItemsStep(gap: string, x: string, t: Token, rest: string, reader: Reader)
    requires gap == "" || gap == " "
    requires x != "" && x[0] != ' ' && x[0] != ')'
    requires Next(x + rest, reader) == Ok(t, rest)
    ensures Items(gap + x + rest, reader) == Before([t], Items(rest, reader))
  {
    var s := gap + x + rest;
    SkipsNothing(x + rest);
    if gap == " " {
      assert s[1..] == x + rest;
      assert SkipSpace(s) == SkipSpace(s[1..]);
    } else {
      assert s == x + rest;
    }
  }

  lemma ItemsEnd(rest: string, reader: Reader)
    ensures Items(")" + rest, reader) == Ok([], rest)
  {
    SkipsNothing(")" + rest);
    assert (")" + rest)[1..] == rest;
  }

  /** What follows the i-th element ends an atom. */
  lemma RestStops(w: Wire, i: nat, rest: string)
    requires Printable(w) && w.Group? && i <= |w.items|
    requires i > 0
    ensures Stops(PrintFrom(w, i) + ")" + rest)
  {
    if i < |w.items| {
      PrintStarts(w.items[i]);
    }
  }

  lemma {:induction false} ItemsRoundTrip(w: Wire, i: nat, rest: string, reader: Reader)
    requires Printable(w) && w.Group? && i <= |w.items|
    ensures Items(PrintFrom(w, i) + ")" + rest, reader) == Ok(TokenOf(w).items[i..], rest)
    decreases w, |w.items| - i
  {
    if i == |w.items| {
      assert PrintFrom(w, i) + ")" + rest == ")" + rest;
      ItemsEnd(rest, reader);
      assert TokenOf(w).items[i..] == [];
    } else {
      var x, tail := Print(w.items[i]), PrintFrom(w, i + 1) + ")" + rest;
      RestStops(w, i + 1, rest);
      WireRoundTrip(w.items[i], tail, reader);
      PrintStarts(w.items[i]);
      ItemsRoundTrip(w, i + 1, rest, reader);
      ItemsStep(Gap(w, i), x, TokenOf(w.items[i]), tail, reader);
      Regroup(Gap(w, i), x, PrintFrom(w, i + 1), ")", rest);
      TokensFrom(w, i);
    }
  }

  lemma TokensFrom(w: Wire, i: nat)
    requires w.Group? && i < |w.items|
    ensures TokenOf(w).items[i..] == [TokenOf(w.items[i])] + TokenOf(w).items[i + 1..]
  {
  }

  lemma Regroup(a: string, b: string, c: string, d: string, e: string)
    ensures a + b + c + d + e == a + b + (c + d + e)
  {
  }

  /** Everything the printer writes is read back, whatever follows it. */
  lemma {:induction false} WireRoundTrip(w: Wire, rest: string, reader: Reader)
    requires Printable(w)
    requires w.Word? ==> Stops(rest)
    ensures Next(Print(w) + rest, reader) == Ok(TokenOf(w), rest)
    decreases w, if w.Group? then |w.items| + 1 else 0
  {
    match w
    case Phrase(s) => QuoteRoundTrip(s, rest, reader);
    case Word(s) => WordRoundTrip(s, rest, reader);
    case Group(_, items) =>
      ItemsRoundTrip(w, 0, rest, reader);
      GroupOpens(PrintFrom(w, 0) + ")" + rest, reader);
      assert Print(w) + rest == "(" + (PrintFrom(w, 0) + ")" + rest);
      assert TokenOf(w).items[0..] == TokenOf(w).items;
  }

  lemma GroupOpens(s: string, reader: Reader)
    ensures Next("(" + s, reader) == match Items(s, reader) case Fail => Fail case Ok(ts, rest) => Ok(List(ts), rest)
  {
    SkipsNothing("(" + s);
    assert ("(" + s)[1..] == s;
  }

  // ---- the parser object ----

  ghost predicate Agrees<T(!new)>(r: Option<T>, rest: string, p: Parsed<T>) {
    match r case None => p.Fail? case Some(t) => p == Ok(t, rest)
  }

  class Parser {
    const line: string
    const reader: Reader
    var pos: nat

    ghost predicate Valid() reads this { pos <= |line| }

    ghost function Left(): string
      reads this
      requires Valid()
    {
      line[pos..]
    }

    constructor (line: string, reader: Reader)
      ensures Valid() && this.line == line && this.reader == reader && Left() == line
    {
      this.line, this.reader, pos := line, reader, 0;
    }

    method SkipSpaces()
      requires Valid()
      modifies this
      ensures Valid() && pos >= old(pos) && Left() == SkipSpace(old(Left()))
    {
      while pos < |line| && line[pos] == ' '
        invariant Valid() && pos >= old(pos)
        invariant SkipSpace(Left()) == SkipSpace(old(Left()))
      {
        assert Left()[1..] == line[pos + 1..];
        pos := pos + 1;
      }
    }

    method ParseAtom() returns (r: Option<Token>)
      requires Valid()
      modifies this
      ensures Valid() && pos >= old(pos) && Agrees(r, Left(), Atom(old(Left())))
    {
      var start := pos;
      while pos < |line|
        invariant start <= pos <= |line|
        invariant AtomLength(line[start..]) == pos - start + AtomLength(line[pos..])
      {
        if EndsAtom(line[pos]) { break; }
        assert line[pos..][1..] == line[pos + 1..];
        pos := pos + 1;
      }
      assert AtomLength(line[pos..]) == 0;
      if pos == start { return None; }
      assert line[start..][..pos - start] == line[start..pos] && line[start..][pos - start..] == line[pos..];
      return Some(Str(line[start..pos], false));
    }

    method ParseQuoted() returns (r: Option<Token>)
      requires Valid() && pos < |line|
      modifies this
      ensures Valid() && pos >= old(pos)
      ensures Agrees(r, Left(), AsToken(Quoted(old(Left())[1..])))
    {
      assert Left()[1..] == line[pos + 1..];
      pos := pos + 1;
      var b := Collect();
      if b.None? { return None; }
      return Some(Str(b.value, false));
    }

    /** Collects characters up to the closing quote. */
    method Collect() returns (r: Option<string>)
      requires Valid()
      modifies this
      ensures Valid() && pos >= old(pos) && Agrees(r, Left(), Quoted(old(Left())))
    {
      ghost var whole := Quoted(line[pos..]);
      var b := "";
      AfterNothing(whole);
      while pos < |line|
        invariant old(pos) <= pos <= |line|
        invariant whole == After(b, Quoted(line[pos..]))
      {
        QuotedStep(line, pos, b);
        var c := line[pos];
        if c == '\\' {
          if pos + 1 >= |line| { return None; }
          pos := pos + 1;
          b := b + [line[pos]];
          pos := pos + 1;
        } else if c == '"' {
          pos := pos + 1;
          return Some(b);
        } else {
          b := b + [c];
          pos := pos + 1;
        }
      }
      return None;
    }

    method ParseLiteral() returns (r: Option<Token>)
      requires Valid() && pos < |line| && line[pos] == '{'
      modifies this
      ensures Valid() && pos >= old(pos) && Agrees(r, Left(), Literal(old(Left()), reader))
    {
      var end := IndexOf(line[pos..], '}');
      if end == |line[pos..]| || reader.None? { return None; }
      var n := Atoi(TrimPlus(line[pos..][1..end]));
      if n.None? || n.value < 0 || n.value > MAX_LITERAL { return None; }
      pos := |line|;
      var text := reader.value(n.value);
      if text.None? { return None; }
      return Some(Str(text.value, true));
    }

    method ParseList() returns (r: Option<Token>)
      requires Valid() && pos < |line|
      modifies this
      ensures Valid() && pos >= old(pos)
      ensures Agrees(r, Left(), match Items(old(Left())[1..], reader) case Fail => Fail case Ok(ts, rest) => Ok(List(ts), rest))
      decreases |line| - pos, 0
    {
      ghost var whole := Items(line[pos + 1..], reader);
      assert Left()[1..] == line[pos + 1..];
      pos := pos + 1;
      var items: seq<Token> := [];
      BeforeNothing(whole);
      while true
        invariant old(pos) < pos <= |line|
        invariant whole == Before(items, Items(line[pos..], reader))
        decreases |line| - pos
      {
        ghost var left := line[pos..];
        SkipSpaces();
        if pos >= |line| { return None; }
        if line[pos] == ')' {
          assert line[pos..][1..] == line[pos + 1..];
          assert items + [] == items;
          pos := pos + 1;
          return Some(List(items));
        }
        var t := NextToken();
        if t.None? { return None; }
        BeforeStep(items, t.value, Items(line[pos..], reader));
        items := items + [t.value];
      }
    }

    method NextToken() returns (r: Option<Token>)
      requires Valid()
      modifies this
      ensures Valid() && pos >= old(pos) && Agrees(r, Left(), Next(old(Left()), reader))
      decreases |line| - pos, 1
    {
      SkipSpaces();
      if pos >= |line| { return None; }
      match line[pos]
      case '(' => r := ParseList();
      case '"' => r := ParseQuoted();
      case '{' => r := ParseLiteral();
      case _ => r := ParseAtom();
    }
  }

  function After(b: string, p: Parsed<string>): Parsed<string> {
    match p case Fail => Fail case Ok(v, rest) => Ok(b + v, rest)
  }

  lemma AfterNothing(p: Parsed<string>)
    ensures After("", p) == p
  {
    if p.Ok? { assert "" + p.value == p.value; }
  }

  lemma AfterStep(b: string, c: char, p: Parsed<string>)
    ensures After(b, Prepend(c, p)) == After(b + [c], p)
  {
    if p.Ok? { assert b + ([c] + p.value) == b + [c] + p.value; }
  }

  /** One round of the loop over a quoted string that has collected b. */
  lemma QuotedStep(line: string, pos: nat, b: string)
    requires pos < |line|
    ensures After(b, Quoted(line[pos..]))
         == if line[pos] == '"' then Ok(b, line[pos + 1..])
            else if line[pos] != '\\' then After(b + [line[pos]], Quoted(line[pos + 1..]))
            else if pos + 1 < |line| then After(b + [line[pos + 1]], Quoted(line[pos + 2..]))
            else Fail
  {
    var left := line[pos..];
    assert left[1..] == line[pos + 1..];
    if line[pos] == '"' {
      assert b + "" == b;
    } else if line[pos] != '\\' {
      AfterStep(b, line[pos], Quoted(line[pos + 1..]));
    } else if pos + 1 < |line| {
      assert left[2..] == line[pos + 2..];
      AfterStep(b, line[pos + 1], Quoted(line[pos + 2..]));
    }
  }

  lemma BeforeStep(ts: seq<Token>, t: Token, p: Parsed<seq<Token>>)
    ensures Before(ts, Before([t], p)) == Before(ts + [t], p)
  {
    if p.Ok? { assert ts + ([t] + p.value) == ts + [t] + p.value; }
  }

  lemma BeforeNothing(p: Parsed<seq<Token>>)
    ensures Before([], p) == p
  {
    if p.Ok? { assert [] + p.value == p.value; }
  }
}
