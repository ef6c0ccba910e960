/** Canonical CRLF text, as stored after DATA, and the dot-stuffed form in
    which POP3 hands it out. */
module LineEndings {
  import opened Text

  const CRLF := "\r\n"

  // ---- bare line feeds ----

  predicate BareAt(s: string, i: nat)
    requires i < |s|
  {
    s[i] == '\n' && (i == 0 || s[i - 1] != '\r')
  }

  predicate Canonical(s: string) {
    forall i :: 0 <= i < |s| ==> !BareAt(s, i)
  }

  /** The rewriting path: a CR before every bare LF. */
  function Canon(s: string): string {
    if s == "" then ""
    else
      var n := |s| - 1;
      Canon(s[..n]) + (if BareAt(s, n) then CRLF else [s[n]])
  }

  /** The LF text behind a mixture of LF and CRLF line ends. */
  function Fold(s: string): string {
    if s == "" then ""
    else
      var n := |s| - 1;
      if s[n] == '\n' && n > 0 && s[n - 1] == '\r' then Fold(s[..n - 1]) + "\n"
      else Fold(s[..n]) + [s[n]]
  }

  /** Every LF becomes CRLF. */
  function Unfold(u: string): string {
    if u == "" then ""
    else Unfold(u[..|u| - 1]) + (if u[|u| - 1] == '\n' then CRLF else [u[|u| - 1]])
  }

  lemma UnfoldSnoc(u: string, c: char)
    ensures Unfold(u + [c]) == Unfold(u) + (if c == '\n' then CRLF else [c])
  {
    assert (u + [c])[..|u|] == u;
  }

  lemma FoldSnoc(s: string, c: char)
    requires c != '\n'
    ensures Fold(s + [c]) == Fold(s) + [c]
  {
    assert (s + [c])[..|s|] == s;
  }

  lemma FoldLine(s: string)
    ensures Fold(s + CRLF) == Fold(s) + "\n"
  {
    assert (s + CRLF)[..|s|] == s;
  }

  lemma CanonLine(s: string)
    ensures Canon(s + CRLF) == Canon(s) + CRLF
  {
    var t := s + CRLF;
    assert t[..|s| + 1] == s + ['\r'] && (s + ['\r'])[..|s|] == s;
    assert Canon(s + ['\r']) == Canon(s) + ['\r'];
    assert Canon(t) == Canon(s) + ['\r'] + ['\n'];
  }

  /** ensureCRLF's rewriting is the canonical form of the text's lines. */
  lemma {:induction false} CanonIsUnfold(s: string)
    ensures Canon(s) == Unfold(Fold(s))
    decreases |s|
  {
    if s != "" {
      var n := |s| - 1;
      if s[n] == '\n' && n > 0 && s[n - 1] == '\r' {
        CanonIsUnfold(s[..n - 1]);
        UnfoldSnoc(Fold(s[..n - 1]), '\n');
        assert s == s[..n - 1] + CRLF;
        CanonLine(s[..n - 1]);
      } else {
        CanonIsUnfold(s[..n]);
        UnfoldSnoc(Fold(s[..n]), s[n]);
      }
    }
  }

  lemma {:induction false} FoldUndoesUnfold(u: string)
    ensures Fold(Unfold(u)) == u
    decreases |u|
  {
    if u != "" {
      var v, c := u[..|u| - 1], u[|u| - 1];
      FoldUndoesUnfold(v);
      assert u == v + [c];
      if c == '\n' { FoldLine(Unfold(v)); } else { FoldSnoc(Unfold(v), c); }
    }
  }

  lemma {:induction false} UnfoldIsCanonical(u: string)
    ensures Canonical(Unfold(u))
    decreases |u|
  {
    if u != "" {
      var v := Unfold(u[..|u| - 1]);
      UnfoldIsCanonical(u[..|u| - 1]);
      forall i | 0 <= i < |Unfold(u)| ensures !BareAt(Unfold(u), i) {
        if i < |v| { assert !BareAt(v, i); }
      }
    }
  }

  /** Nothing to do: exactly the texts without a bare LF are left unchanged,
      so the early return agrees with the rewriting. */
  lemma {:induction false} CanonFixes(s: string)
    requires Canonical(s)
    ensures Canon(s) == s
    decreases |s|
  {
    if s != "" {
      var n := |s| - 1;
      forall i | 0 <= i < n ensures !BareAt(s[..n], i) { assert !BareAt(s, i); }
      CanonFixes(s[..n]);
      assert !BareAt(s, n);
    }
  }

  /** The output has no bare LF, its lines are those of the input, doing it
      twice changes nothing, and only canonical text is left alone. */
  lemma CanonMeaning(s: string)
    ensures Canonical(Canon(s))
    ensures Fold(Canon(s)) == Fold(s)
    ensures Canon(Canon(s)) == Canon(s)
    ensures Canon(s) == s <==> Canonical(s)
  {
    CanonIsUnfold(s);
    UnfoldIsCanonical(Fold(s));
    FoldUndoesUnfold(Fold(s));
    CanonFixes(Canon(s));
    if Canonical(s) { CanonFixes(s); }
  }

  /** It is the only canonical text with those lines. */
  lemma CanonIsUnique(s: string, t: string)
    requires Canonical(t) && Fold(t) == Fold(s)
    ensures t == Canon(s)
  {
    CanonFixes(t);
    CanonIsUnfold(t);
    CanonIsUnfold(s);
  }

  lemma CanonStep(s: string, i: nat)
    requires i < |s|
    ensures Canon(s[..i + 1]) == Canon(s[..i]) + (if BareAt(s, i) then CRLF else [s[i]])
  {
    assert s[..i + 1][..i] == s[..i];
    assert BareAt(s[..i + 1], i) == BareAt(s, i);
  }

  /** ensureCRLF */
  method EnsureCrlf(data: string) returns (out: string)
    ensures out == Canon(data)
  {
    var bare := false;
    for i := 0 to |data|
      invariant forall k :: 0 <= k < i ==> !BareAt(data, k)
      invariant !bare
    {
      if data[i] == '\n' && (i == 0 || data[i - 1] != '\r') {
        bare := true;
        break;
      }
    }
    if !bare {
      CanonFixes(data);
      return data;
    }
    out := "";
    for i := 0 to |data|
      invariant out == Canon(data[..i])
    {
      CanonStep(data, i);
      if data[i] == '\n' && (i == 0 || data[i - 1] != '\r') { out := out + "\r"; }
      out := out + [data[i]];
    }
    assert data[..|data|] == data;
  }

  // ---- lines on the wire ----

  /** Each line followed by CRLF. */
  function Plain(lines: seq<string>): string {
    if lines == [] then "" else lines[0] + CRLF + Plain(lines[1..])
  }

  function Stuff(line: string): string {
    if line != "" && line[0] == '.' then "." + line else line
  }

  function Stuffed(lines: seq<string>): seq<string> {
    seq(|lines|, i requires 0 <= i < |lines| => Stuff(lines[i]))
  }

  function Chomp(line: string): string {
    if line != "" && line[|line| - 1] == '\r' then line[..|line| - 1] else line
  }

  function Chomped(lines: seq<string>): seq<string> {
    seq(|lines|, i requires 0 <= i < |lines| => Chomp(lines[i]))
  }

  predicate At(s: string, pat: string, i: nat) {
    i + |pat| <= |s| && s[i..i + |pat|] == pat
  }

  /** strings.Index: the first occurrence. */
  function Find(s: string, pat: string): (r: Option<nat>)
    ensures r.Some? ==> At(s, pat, r.value) && forall j :: 0 <= j < r.value ==> !At(s, pat, j)
    ensures r.None? ==> forall j :: 0 <= j <= |s| ==> !At(s, pat, j)
  {
    if |s| < |pat| then None
    else if s[..|pat|] == pat then Some(0)
    else
      var r := Find(s[1..], pat);
      assert forall j :: 0 < j <= |s| ==> (At(s, pat, j) <==> At(s[1..], pat, j - 1)) by {
        forall j | 0 < j <= |s| ensures At(s, pat, j) <==> At(s[1..], pat, j - 1) {
          if j + |pat| <= |s| { assert s[j..j + |pat|] == s[1..][j - 1..j - 1 + |pat|]; }
        }
      }
      assert !At(s, pat, 0);
      match r case None => None case Some(i) => Some(i + 1)
  }

  datatype Received = Incomplete | Message(text: string, rest: string)

  function Unstuff(line: string): string {
    if line != "" && line[0] == '.' then line[1..] else line
  }

  /** A client reading a multi-line response (section 3 of RFC 1939). */
  function Receive(s: string): Received
    decreases |s|
  {
    match Find(s, CRLF)
    case None => Incomplete
    case Some(i) =>
      var line, rest := s[..i], s[i + 2..];
      if line == "." then Message("", rest)
      else
        match Receive(rest)
        case Incomplete => Incomplete
        case Message(text, after) => Message(Unstuff(line) + CRLF + text, after)
  }

  predicate LfFree(line: string) { forall i :: 0 <= i < |line| ==> line[i] != '\n' }

  predicate AllLfFree(lines: seq<string>) { forall i :: 0 <= i < |lines| ==> LfFree(lines[i]) }

  lemma LineEndFound(line: string, rest: string)
    requires LfFree(line)
    ensures Find(line + CRLF + rest, CRLF) == Some(|line|)
  {
    var s := line + CRLF + rest;
    assert At(s, CRLF, |line|) by { assert s[|line|..|line| + 2] == CRLF; }
    forall j | 0 <= j < |line| ensures !At(s, CRLF, j) {
      assert s[j + 1] == if j + 1 < |line| then line[j + 1] else '\r';
      assert s[j..j + 2][1] == s[j + 1];
    }
  }

  lemma ReceiveLine(line: string, rest: string)
    requires LfFree(line)
    ensures Receive(line + CRLF + rest)
         == if line == "." then Message("", rest)
            else match Receive(rest)
              case Incomplete => Incomplete
              case Message(text, after) => Message(Unstuff(line) + CRLF + text, after)
  {
    var s := line + CRLF + rest;
    LineEndFound(line, rest);
    assert s[..|line|] == line && s[|line| + 2..] == rest;
  }

  const END := ".\r\n"

  /** Undoing the stuffing gives the lines back, and no earlier line can be
      taken for the terminator. */
  lemma {:induction false} ReceiveUndoesStuffing(lines: seq<string>, rest: string)
    requires AllLfFree(lines)
    ensures Receive(Plain(Stuffed(lines)) + END + rest) == Message(Plain(lines), rest)
    decreases |lines|
  {
    if lines == [] {
      assert END + rest == "." + CRLF + rest;
      assert Plain(Stuffed(lines)) + END + rest == "." + CRLF + rest;
      ReceiveLine(".", rest);
    } else {
      var line, tail := lines[0], Plain(Stuffed(lines[1..])) + END + rest;
      ReceiveUndoesStuffing(lines[1..], rest);
      assert Stuffed(lines)[1..] == Stuffed(lines[1..]);
      assert Plain(Stuffed(lines)) + END + rest == Stuff(line) + CRLF + tail;
      assert LfFree(Stuff(line)) by { assert LfFree(line); }
      ReceiveLine(Stuff(line), tail);
      assert Unstuff(Stuff(line)) == line;
    }
  }

  // ---- the writer ----

  function Lines(block: string): seq<string> { Chomped(Split(block, '\n')) }

  function Header(data: string): string {
    match Find(data, CRLF + CRLF) case None => data case Some(k) => data[..k]
  }

  function Body(data: string): string {
    match Find(data, CRLF + CRLF) case None => "" case Some(k) => data[k + 4..]
  }

  function Take(lines: seq<string>, max: int): seq<string> {
    if 0 < max < |lines| then lines[..max] else lines
  }

  /** The lines written for a message; max < 0 asks for all of it, max >= 0
      for at most max lines of the body. */
  function OutLines(header: string, body: string, max: int): seq<string> {
    Lines(header) + (if max != 0 then [""] + Chomped(Take(Split(body, '\n'), max)) else [])
  }

  function DottedParts(header: string, body: string, max: int): string {
    Plain(Stuffed(OutLines(header, body, max))) + END
  }

  function Dotted(data: string, max: int): string { DottedParts(Header(data), Body(data), max) }

  lemma {:induction false} PlainConcat(a: seq<string>, b: seq<string>)
    ensures Plain(a + b) == Plain(a) + Plain(b)
    decreases |a|
  {
    if a == [] {
      assert a + b == b;
    } else {
      PlainConcat(a[1..], b);
      assert (a + b)[1..] == a[1..] + b;
    }
  }

  lemma SplitIsLfFree(s: string)
    ensures AllLfFree(Split(s, '\n'))
  {
    SplitParts(s, '\n');
    var parts := Split(s, '\n');
    forall i | 0 <= i < |parts| ensures LfFree(parts[i]) { assert parts[i] in parts; }
  }

  lemma WriteStep(lines: seq<string>, i: nat)
    requires i < |lines|
    ensures Plain(Stuffed(Chomped(lines[..i + 1]))) == Plain(Stuffed(Chomped(lines[..i]))) + Stuff(Chomp(lines[i])) + CRLF
  {
    var last := [Stuff(Chomp(lines[i]))];
    assert Stuffed(Chomped(lines[..i + 1])) == Stuffed(Chomped(lines[..i])) + last;
    PlainConcat(Stuffed(Chomped(lines[..i])), last);
    assert last[1..] == [];
    assert Plain(last) == last[0] + CRLF + "";
  }

  method WriteBlock(block: string) returns (out: string)
    ensures out == Plain(Stuffed(Lines(block)))
  {
    out := "";
    var lines := Split(block, '\n');
    for i := 0 to |lines|
      invariant out == Plain(Stuffed(Chomped(lines[..i])))
    {
      WriteStep(lines, i);
      out := WriteLine(out, Chomp(lines[i]));
    }
    assert lines[..|lines|] == lines;
  }

  method WriteLine(before: string, line: string) returns (out: string)
    ensures out == before + Stuff(line) + CRLF
  {
    out := before;
    if line != "" && line[0] == '.' { out := out + "."; }
    out := out + line;
    out := out + CRLF;
  }

  lemma Associative(a: string, b: string, c: string)
    ensures a + (b + c) == a + b + c
  {
  }

  lemma OutLinesParts(header: seq<string>, body: seq<string>)
    ensures Plain(Stuffed(header + [""] + body)) == Plain(Stuffed(header)) + CRLF + Plain(Stuffed(body))
  {
    assert Stuffed(header + [""] + body) == Stuffed(header) + ([""] + Stuffed(body));
    PlainConcat(Stuffed(header), [""] + Stuffed(body));
    PlainBlank(Stuffed(body));
    Associative(Plain(Stuffed(header)), CRLF, Plain(Stuffed(body)));
  }

  method WriteDotted(data: string, maxBodyLines: int) returns (out: string)
    ensures out == Dotted(data, maxBodyLines)
  {
    out := WriteParts(Header(data), Body(data), maxBodyLines);
  }

  method WriteParts(header: string, body: string, maxBodyLines: int) returns (out: string)
    ensures out == DottedParts(header, body, maxBodyLines)
  {
    out := WriteBlock(header);
    if maxBodyLines != 0 {
      var lines := Split(body, '\n');
      if maxBodyLines > 0 && |lines| > maxBodyLines { lines := lines[..maxBodyLines]; }
      SplitIsLfFree(body);
      assert forall i :: 0 <= i < |lines| ==> LfFree(lines[i]);
      SplitJoin(lines, '\n');
      var text := WriteBlock(Join(lines, '\n'));
      out := out + CRLF + text;
      OutLinesParts(Lines(header), Chomped(lines));
      assert Lines(header) + [""] + Chomped(lines) == Lines(header) + ([""] + Chomped(lines));
    } else {
      assert Lines(header) + [] == Lines(header);
    }
    out := out + END;
  }

  // ---- what a client receives ----

  lemma {:induction false} CanonAfterLf(a: string, b: string)
    requires a != "" && a[|a| - 1] == '\n'
    ensures Canon(a + b) == Canon(a) + Canon(b)
    decreases |b|
  {
    if b == "" {
      assert a + b == a;
    } else {
      var n := |b| - 1;
      CanonAfterLf(a, b[..n]);
      assert (a + b)[..|a| + n] == a + b[..n];
      assert BareAt(a + b, |a| + n) == BareAt(b, n);
    }
  }

  lemma CanonOfLine(line: string)
    requires LfFree(line)
    ensures Canon(line) == line && Canon(line + "\n") == Chomp(line) + CRLF
  {
    CanonFixes(line);
    assert (line + "\n")[..|line|] == line;
  }

  lemma LinesCons(a: string, b: string)
    requires LfFree(a)
    ensures Plain(Lines(a + "\n" + b)) == Chomp(a) + CRLF + Plain(Lines(b))
  {
    var s := a + "\n" + b;
    SplitCons(a, b, '\n');
    assert Lines(s) == [Chomp(a)] + Lines(b);
    assert Lines(s)[1..] == Lines(b);
  }

  lemma LinesOne(a: string)
    requires LfFree(a)
    ensures Plain(Lines(a)) == Chomp(a) + CRLF
  {
    IndexOfAt(a, '\n', |a|);
    assert Lines(a) == [Chomp(a)];
    assert Lines(a)[1..] == [];
  }

  lemma CanonCons(a: string, b: string)
    requires LfFree(a)
    ensures Canon(Chomp(a + "\n" + b)) == Chomp(a) + CRLF + Canon(Chomp(b))
  {
    CanonOfLine(a);
    assert Chomp(a + "\n" + b) == (a + "\n") + Chomp(b);
    CanonAfterLf(a + "\n", Chomp(b));
  }

  /** A block written and received is its canonical form, closed by CRLF, with
      a lone CR at its very end lost. */
  lemma {:induction false} LinesMeaning(block: string)
    ensures Plain(Lines(block)) == Canon(Chomp(block)) + CRLF
    decreases |block|
  {
    var i := IndexOf(block, '\n');
    if i == |block| {
      LinesOne(block);
      CanonOfLine(Chomp(block));
    } else {
      var a, b := block[..i], block[i + 1..];
      assert block == a + "\n" + b;
      LinesMeaning(b);
      LinesCons(a, b);
      CanonCons(a, b);
      Associative(Chomp(a) + CRLF, Canon(Chomp(b)), CRLF);
    }
  }

  lemma ChompedIsLfFree(lines: seq<string>)
    requires AllLfFree(lines)
    ensures AllLfFree(Chomped(lines))
  {
    forall i | 0 <= i < |lines| ensures LfFree(Chomped(lines)[i]) { assert LfFree(lines[i]); }
  }

  lemma OutLinesAreLfFree(header: string, body: string, max: int)
    ensures AllLfFree(OutLines(header, body, max))
  {
    SplitIsLfFree(header);
    SplitIsLfFree(body);
    ChompedIsLfFree(Split(header, '\n'));
    ChompedIsLfFree(Take(Split(body, '\n'), max));
  }

  /** The text a client has after RETR. */
  function Retrieved(header: string, body: string): string {
    Canon(Chomp(header)) + CRLF + CRLF + Canon(Chomp(body)) + CRLF
  }

  lemma PlainBlank(lines: seq<string>)
    ensures Plain([""] + lines) == CRLF + Plain(lines)
  {
    assert ([""] + lines)[1..] == lines;
  }

  lemma PlainOut(header: string, body: string)
    ensures Plain(OutLines(header, body, -1)) == Retrieved(header, body)
  {
    var h, b := Lines(header), Lines(body);
    assert OutLines(header, body, -1) == h + ([""] + b);
    PlainConcat(h, [""] + b);
    PlainBlank(b);
    LinesMeaning(header);
    LinesMeaning(body);
    var x, y := Canon(Chomp(header)) + CRLF, Canon(Chomp(body));
    Associative(x, CRLF, y + CRLF);
    Associative(x + CRLF, y, CRLF);
  }

  lemma PartsReceived(header: string, body: string, max: int, rest: string)
    ensures Receive(DottedParts(header, body, max) + rest) == Message(Plain(OutLines(header, body, max)), rest)
  {
    OutLinesAreLfFree(header, body, max);
    ReceiveUndoesStuffing(OutLines(header, body, max), rest);
  }

  lemma RetrMeaning(data: string, rest: string)
    ensures Receive(Dotted(data, -1) + rest) == Message(Retrieved(Header(data), Body(data)), rest)
  {
    PartsReceived(Header(data), Body(data), -1, rest);
    PlainOut(Header(data), Body(data));
  }

  predicate EndsInCr(s: string) { s != "" && s[|s| - 1] == '\r' }

  lemma PartsAreCanonical(data: string)
    requires Canonical(data)
    ensures Canonical(Header(data)) && Canonical(Body(data))
    ensures Canonical(Chomp(Header(data))) && Canonical(Chomp(Body(data)))
  {
    var h, b := Header(data), Body(data);
    forall i | 0 <= i < |h| ensures !BareAt(h, i) { assert !BareAt(data, i); }
    if Find(data, CRLF + CRLF).Some? {
      var k := Find(data, CRLF + CRLF).value;
      assert data[k + 3] == data[k..k + 4][3] == '\n';
      forall i | 0 <= i < |b| ensures !BareAt(b, i) {
        assert !BareAt(data, k + 4 + i);
        assert i > 0 ==> b[i - 1] == data[k + 4 + i - 1];
      }
    }
    forall i | 0 <= i < |Chomp(h)| ensures !BareAt(Chomp(h), i) { assert !BareAt(h, i); }
    forall i | 0 <= i < |Chomp(b)| ensures !BareAt(Chomp(b), i) { assert !BareAt(b, i); }
  }

  lemma PartsRejoin(data: string)
    requires Find(data, CRLF + CRLF).Some?
    ensures data == Header(data) + (CRLF + CRLF) + Body(data)
  {
    var k := Find(data, CRLF + CRLF).value;
    assert data[k..k + 4] == CRLF + CRLF;
    assert data == data[..k] + data[k..k + 4] + data[k + 4..];
  }

  lemma ChompedExactly(header: string, body: string)
    ensures Chomp(header) + CRLF + CRLF + Chomp(body) + CRLF == header + (CRLF + CRLF) + body + CRLF
       <==> !EndsInCr(header) && !EndsInCr(body)
  {
    var shorter := Chomp(header) + CRLF + CRLF + Chomp(body) + CRLF;
    var whole := header + (CRLF + CRLF) + body + CRLF;
    if EndsInCr(header) || EndsInCr(body) {
      assert |shorter| < |whole|;
    }
  }

  lemma RetrievedExactly(header: string, body: string)
    requires Canonical(Chomp(header)) && Canonical(Chomp(body))
    ensures Retrieved(header, body) == header + (CRLF + CRLF) + body + CRLF <==> !EndsInCr(header) && !EndsInCr(body)
  {
    CanonFixes(Chomp(header));
    CanonFixes(Chomp(body));
    ChompedExactly(header, body);
  }

  /** A stored message with a header separator comes back with exactly one
      CRLF added, if and only if neither its header nor its body part ends in
      a lone CR; that CR would be lost. */
  lemma RetrExactly(data: string, rest: string)
    requires Canonical(data) && Find(data, CRLF + CRLF).Some?
    ensures Receive(Dotted(data, -1) + rest) == Message(data + CRLF, rest)
       <==> !EndsInCr(Header(data)) && !EndsInCr(Body(data))
  {
    RetrMeaning(data, rest);
    PartsAreCanonical(data);
    PartsRejoin(data);
    RetrievedExactly(Header(data), Body(data));
  }

  /** Without a separator the client sees two empty lines more. */
  lemma RetrWithoutSeparator(data: string, rest: string)
    requires Canonical(data) && Find(data, CRLF + CRLF).None? && !EndsInCr(data)
    ensures Receive(Dotted(data, -1) + rest) == Message(data + CRLF + CRLF + CRLF, rest)
  {
    RetrMeaning(data, rest);
    CanonFixes(data);
  }

  lemma FewerLines(header: string, body: string, n: nat)
    ensures OutLines(header, body, n) <= OutLines(header, body, -1)
    ensures n > 0 ==> |OutLines(header, body, n)| == |Lines(header)| + 1 + Min(n, |Lines(body)|)
  {
  }

  lemma PlainOfPrefix(few: seq<string>, many: seq<string>)
    requires few <= many
    ensures Plain(few) <= Plain(many)
  {
    assert many == few + many[|few|..];
    PlainConcat(few, many[|few|..]);
  }

  /** TOP n delivers a prefix of what RETR delivers: the header, and for n > 0
      the separator and the first n lines of the body. */
  lemma TopIsPrefix(data: string, n: nat, rest: string)
    ensures Receive(Dotted(data, n) + rest) == Message(Plain(OutLines(Header(data), Body(data), n)), rest)
    ensures Receive(Dotted(data, -1) + rest).Message?
    ensures Receive(Dotted(data, n) + rest).text <= Receive(Dotted(data, -1) + rest).text
    ensures n > 0 ==> |OutLines(Header(data), Body(data), n)| == |Lines(Header(data))| + 1 + Min(n, |Lines(Body(data))|)
  {
    var h, b := Header(data), Body(data);
    PartsReceived(h, b, n, rest);
    PartsReceived(h, b, -1, rest);
    FewerLines(h, b, n);
    PlainOfPrefix(OutLines(h, b, n), OutLines(h, b, -1));
  }

  function Min(a: nat, b: nat): nat { if a < b then a else b }
}
