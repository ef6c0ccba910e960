/** Sequence sets: "1", "2:5", "1,3:*", and the messages they select. */
module SeqSet {
  import opened Text
  import opened Seqs
  import Maildir
  import MailboxRuns

  type Message = Maildir.Message

  // ---- parsing and membership ----

  /** '*' is kept as the largest 32-bit number until a mailbox resolves it. */
  const STAR: nat := UINT32 - 1

  datatype Range = Range(lo: nat, hi: nat)

  function ParseNum(s: string): Option<nat> {
    if s == "*" then Some(STAR)
    else
      match ParseUint32(s)
      case None => None
      case Some(n) => if n == 0 then None else Some(n)
  }

  function Sorted(a: nat, b: nat): Range { if a > b then Range(b, a) else Range(a, b) }

  function ParseRange(part: string): Option<Range> {
    var i := IndexOf(part, ':');
    var a := ParseNum(part[..i]);
    var b := if i < |part| then ParseNum(part[i + 1..]) else a;
    if a.None? || b.None? then None else Some(Sorted(a.value, b.value))
  }

  function ParseParts(parts: seq<string>): Option<seq<Range>> {
    if parts == [] then Some([])
    else
      var n := |parts| - 1;
      var before, last := ParseParts(parts[..n]), ParseRange(parts[n]);
      if before.None? || last.None? then None else Some(before.value + [last.value])
  }

  function Parse(s: string): Option<seq<Range>> {
    if s == "" then None else ParseParts(Split(s, ','))
  }

  function End(x: nat, max: nat): nat { if x == STAR then max else x }

  predicate Between(n: nat, a: nat, b: nat) { a <= n <= b || b <= n <= a }

  predicate InRange(r: Range, n: nat, max: nat) { Between(n, End(r.lo, max), End(r.hi, max)) }

  predicate Contains(rs: seq<Range>, n: nat, max: nat) {
    exists i :: 0 <= i < |rs| && InRange(rs[i], n, max)
  }

  lemma {:induction false} BadPart(parts: seq<string>, i: nat)
    requires i < |parts| && ParseRange(parts[i]).None?
    ensures ParseParts(parts).None?
    decreases |parts|
  {
    var n := |parts| - 1;
    if i < n { BadPart(parts[..n], i); }
  }

  lemma PartsStep(parts: seq<string>, i: nat)
    requires i < |parts| && ParseParts(parts[..i]).Some? && ParseRange(parts[i]).Some?
    ensures ParseParts(parts[..i + 1]) == Some(ParseParts(parts[..i]).value + [ParseRange(parts[i]).value])
  {
    assert parts[..i + 1][..i] == parts[..i];
  }

  method ParseOne(part: string) returns (r: Option<Range>)
    ensures r == ParseRange(part)
  {
    var at := IndexOf(part, ':');
    var a := ParseNum(part[..at]);
    if a.None? { return None; }
    var b := a;
    if at < |part| {
      b := ParseNum(part[at + 1..]);
      if b.None? { return None; }
    }
    var lo, hi := a.value, b.value;
    if lo > hi { lo, hi := hi, lo; }
    return Some(Range(lo, hi));
  }

  method ParseSeqSet(s: string) returns (r: Option<seq<Range>>)
    ensures r == Parse(s)
  {
    if s == "" { return None; }
    var parts := Split(s, ',');
    var ranges: seq<Range> := [];
    for i := 0 to |parts|
      invariant ParseParts(parts[..i]) == Some(ranges)
    {
      var range := ParseOne(parts[i]);
      if range.None? { BadPart(parts, i); return None; }
      PartsStep(parts, i);
      ranges := ranges + [range.value];
    }
    assert parts[..|parts|] == parts;
    return Some(ranges);
  }

  method IsIn(rs: seq<Range>, n: nat, max: nat) returns (r: bool)
    ensures r == Contains(rs, n, max)
  {
    for i := 0 to |rs|
      invariant forall k :: 0 <= k < i ==> !InRange(rs[k], n, max)
    {
      var lo, hi := rs[i].lo, rs[i].hi;
      if lo == STAR { lo := max; }
      if hi == STAR { hi := max; }
      if lo > hi { lo, hi := hi, lo; }
      if n >= lo && n <= hi {
        assert InRange(rs[i], n, max);
        return true;
      }
    }
    return false;
  }

  // ---- selection ----

  function Number(m: Message, uidMode: bool): nat { if uidMode then m.uid else m.seqNo }

  /** What '*' stands for. */
  function Last(ms: seq<Message>, uidMode: bool): nat {
    if !uidMode then |ms| % UINT32 else if ms == [] then 0 else ms[|ms| - 1].uid
  }

  /** The messages whose number lies in the set, in mailbox order. */
  function Filtered(ms: seq<Message>, rs: seq<Range>, uidMode: bool, max: nat): seq<Message> {
    if ms == [] then []
    else
      var n := |ms| - 1;
      Filtered(ms[..n], rs, uidMode, max) + (if Contains(rs, Number(ms[n], uidMode), max) then [ms[n]] else [])
  }

  function Selection(ms: seq<Message>, rs: seq<Range>, uidMode: bool): seq<Message> {
    Filtered(ms, rs, uidMode, Last(ms, uidMode))
  }

  lemma FilterStep(ms: seq<Message>, i: nat, rs: seq<Range>, uidMode: bool, max: nat)
    requires i < |ms|
    ensures Filtered(ms[..i + 1], rs, uidMode, max)
         == Filtered(ms[..i], rs, uidMode, max) + (if Contains(rs, Number(ms[i], uidMode), max) then [ms[i]] else [])
  {
    assert ms[..i + 1][..i] == ms[..i];
  }

  method Selected(ms: seq<Message>, rs: seq<Range>, uidMode: bool) returns (out: seq<Message>)
    ensures out == Selection(ms, rs, uidMode)
  {
    out := [];
    var max: nat := |ms| % UINT32;
    if uidMode {
      max := 0;
      if |ms| > 0 { max := ms[|ms| - 1].uid; }
    }
    for i := 0 to |ms|
      invariant out == Filtered(ms[..i], rs, uidMode, max)
    {
      FilterStep(ms, i, rs, uidMode, max);
      var chosen := IsIn(rs, Number(ms[i], uidMode), max);
      if chosen { out := out + [ms[i]]; }
    }
    assert ms[..|ms|] == ms;
  }

  // ---- the meaning of a written set ----

  datatype Bound = At(n: nat) | Star

  /** "a" is written as the span a:a. */
  datatype Span = One(a: Bound) | Two(a: Bound, b: Bound)
  {
    function From(): Bound { a }
    function To(): Bound { if One? then a else b }
  }

  predicate Writable(b: Bound) { b.Star? || 1 <= b.n < UINT32 }

  predicate AllWritable(set_: seq<Span>) {
    forall i :: 0 <= i < |set_| ==> Writable(set_[i].From()) && Writable(set_[i].To())
  }

  function ShowBound(b: Bound): string { if b.Star? then "*" else Digits(b.n) }

  function ShowSpan(s: Span): string {
    if s.One? then ShowBound(s.a) else ShowBound(s.a) + ":" + ShowBound(s.b)
  }

  function ShowParts(spans: seq<Span>): seq<string> {
    seq(|spans|, i requires 0 <= i < |spans| => ShowSpan(spans[i]))
  }

  function Show(spans: seq<Span>): string { Join(ShowParts(spans), ',') }

  function Resolve(b: Bound, max: nat): nat { if b.Star? then max else b.n }

  /** The standard's reading of one span (section 9 of RFC 3501). */
  predicate Denotes(s: Span, n: nat, max: nat) { Between(n, Resolve(s.From(), max), Resolve(s.To(), max)) }

  predicate Names(spans: seq<Span>, n: nat, max: nat) {
    exists i :: 0 <= i < |spans| && Denotes(spans[i], n, max)
  }

  function Value(b: Bound): nat { if b.Star? then STAR else b.n }

  function RangeOf(s: Span): Range { Sorted(Value(s.From()), Value(s.To())) }

  function RangesOf(spans: seq<Span>): seq<Range> {
    seq(|spans|, i requires 0 <= i < |spans| => RangeOf(spans[i]))
  }

  lemma BoundText(b: Bound)
    requires Writable(b)
    ensures ParseNum(ShowBound(b)) == Some(Value(b))
    ensures ShowBound(b) != "" && ':' !in ShowBound(b) && ',' !in ShowBound(b)
  {
    if b.At? {
      ParsesBack(b.n);
      assert IsDigit(Digits(b.n)[0]);
    }
  }

  lemma SpanText(s: Span)
    requires Writable(s.From()) && Writable(s.To())
    ensures ParseRange(ShowSpan(s)) == Some(RangeOf(s))
    ensures ShowSpan(s) != "" && ',' !in ShowSpan(s)
  {
    var text, a := ShowSpan(s), ShowBound(s.a);
    BoundText(s.From());
    BoundText(s.To());
    if s.One? {
      IndexOfAt(text, ':', |text|);
      assert text[..|text|] == text;
    } else {
      IndexOfAt(text, ':', |a|);
      assert text[..|a|] == a && text[|a| + 1..] == ShowBound(s.b);
    }
  }

  lemma PartsSnoc(parts: seq<string>, last: string)
    requires ParseParts(parts).Some? && ParseRange(last).Some?
    ensures ParseParts(parts + [last]) == Some(ParseParts(parts).value + [ParseRange(last).value])
  {
    assert (parts + [last])[..|parts|] == parts;
  }

  lemma ShowPartsSnoc(spans: seq<Span>)
    requires spans != []
    ensures ShowParts(spans) == ShowParts(spans[..|spans| - 1]) + [ShowSpan(spans[|spans| - 1])]
  {
  }

  lemma RangesOfSnoc(spans: seq<Span>)
    requires spans != []
    ensures RangesOf(spans) == RangesOf(spans[..|spans| - 1]) + [RangeOf(spans[|spans| - 1])]
  {
  }

  lemma {:induction false} PartsText(spans: seq<Span>)
    requires AllWritable(spans)
    ensures ParseParts(ShowParts(spans)) == Some(RangesOf(spans))
    decreases |spans|
  {
    if spans != [] {
      var front, last := spans[..|spans| - 1], spans[|spans| - 1];
      PartsText(front);
      SpanText(last);
      PartsSnoc(ShowParts(front), ShowSpan(last));
      assert ParseParts(ShowParts(front) + [ShowSpan(last)]) == Some(RangesOf(front) + [RangeOf(last)]);
      ShowPartsSnoc(spans);
      RangesOfSnoc(spans);
      assert ShowParts(spans) == ShowParts(front) + [ShowSpan(last)];
      assert RangesOf(spans) == RangesOf(front) + [RangeOf(last)];
    } else {
      assert ShowParts(spans) == [] && RangesOf(spans) == [];
    }
  }

  /** Every written set is read back as its ranges. */
  lemma SetText(spans: seq<Span>)
    requires spans != [] && AllWritable(spans)
    ensures Parse(Show(spans)) == Some(RangesOf(spans))
  {
    var parts := ShowParts(spans);
    forall i | 0 <= i < |parts| ensures ',' !in parts[i] { SpanText(spans[i]); }
    SpanText(spans[0]);
    SplitJoin(parts, ',');
    PartsText(spans);
    assert Join(parts, ',') != "";
  }

  // ---- agreement with the standard ----

  /** 4294967295 shares its value with '*'. That shows when the other end of
      the span is neither '*' nor 1. */
  predicate Ambiguous(s: Span) {
    || (s.From() == At(STAR) && s.To() != Star && s.To() != At(1))
    || (s.To() == At(STAR) && s.From() != Star && s.From() != At(1))
  }

  ghost predicate ReadsRight(s: Span) {
    forall n, max :: 1 <= n <= max < UINT32 ==> (InRange(RangeOf(s), n, max) <==> Denotes(s, n, max))
  }

  /** The code reads a span as the standard does, in every mailbox, exactly
      when it is not ambiguous. */
  lemma SpanExactly(s: Span)
    requires Writable(s.From()) && Writable(s.To())
    ensures ReadsRight(s) <==> !Ambiguous(s)
  {
    if Ambiguous(s) {
      assert InRange(RangeOf(s), 1, 1) && !Denotes(s, 1, 1);
    }
  }

  /** selected returns, in mailbox order, exactly the messages whose number
      lies between the resolved ends of some span. */
  lemma SelectionMeaning(spans: seq<Span>, ms: seq<Message>, uidMode: bool)
    requires spans != [] && AllWritable(spans) && forall i :: 0 <= i < |spans| ==> !Ambiguous(spans[i])
    requires Maildir.Numbered(ms) && Ascending(MailboxRuns.Uids(ms)) && |ms| < UINT32
    requires forall i :: 0 <= i < |ms| ==> 1 <= ms[i].uid < UINT32
    ensures Parse(Show(spans)).Some?
    ensures var out := Selection(ms, Parse(Show(spans)).value, uidMode);
      && Ascending(MailboxRuns.Uids(out))
      && forall m :: m in out <==> m in ms && Names(spans, Number(m, uidMode), Last(ms, uidMode))
  {
    SetText(spans);
    var rs, max := RangesOf(spans), Last(ms, uidMode);
    FilterMembers(ms, rs, uidMode, max);
    FilterAscends(ms, rs, uidMode, max);
    forall m | m in ms ensures Contains(rs, Number(m, uidMode), max) <==> Names(spans, Number(m, uidMode), max) {
      NumbersInBounds(ms, m, uidMode);
      SpansAgree(spans, Number(m, uidMode), max);
    }
  }

  lemma NumbersInBounds(ms: seq<Message>, m: Message, uidMode: bool)
    requires m in ms && Maildir.Numbered(ms) && Ascending(MailboxRuns.Uids(ms)) && |ms| < UINT32
    requires forall i :: 0 <= i < |ms| ==> 1 <= ms[i].uid < UINT32
    ensures 1 <= Number(m, uidMode) <= Last(ms, uidMode) < UINT32
  {
    var i :| 0 <= i < |ms| && ms[i] == m;
    var us := MailboxRuns.Uids(ms);
    assert us[i] <= us[|ms| - 1];
  }

  lemma SpansAgree(spans: seq<Span>, n: nat, max: nat)
    requires AllWritable(spans) && forall i :: 0 <= i < |spans| ==> !Ambiguous(spans[i])
    requires 1 <= n <= max < UINT32
    ensures Contains(RangesOf(spans), n, max) <==> Names(spans, n, max)
  {
    var rs := RangesOf(spans);
    forall i | 0 <= i < |spans| ensures InRange(rs[i], n, max) <==> Denotes(spans[i], n, max) {
      SpanExactly(spans[i]);
    }
    if Contains(rs, n, max) {
      var i :| 0 <= i < |rs| && InRange(rs[i], n, max);
      assert Denotes(spans[i], n, max);
    }
    if Names(spans, n, max) {
      var i :| 0 <= i < |spans| && Denotes(spans[i], n, max);
      assert InRange(rs[i], n, max);
    }
  }

  lemma {:induction false} FilterMembers(ms: seq<Message>, rs: seq<Range>, uidMode: bool, max: nat)
    ensures forall m :: m in Filtered(ms, rs, uidMode, max) <==> m in ms && Contains(rs, Number(m, uidMode), max)
    decreases |ms|
  {
    if ms != [] {
      FilterMembers(ms[..|ms| - 1], rs, uidMode, max);
      assert ms == ms[..|ms| - 1] + [ms[|ms| - 1]];
    }
  }

  lemma {:induction false} FilterAscends(ms: seq<Message>, rs: seq<Range>, uidMode: bool, max: nat)
    requires Ascending(MailboxRuns.Uids(ms))
    ensures Ascending(MailboxRuns.Uids(Filtered(ms, rs, uidMode, max)))
    decreases |ms|
  {
    if ms != [] {
      var n := |ms| - 1;
      var us := MailboxRuns.Uids(ms);
      assert MailboxRuns.Uids(ms[..n]) == us[..n];
      FilterAscends(ms[..n], rs, uidMode, max);
      FilterMembers(ms[..n], rs, uidMode, max);
      var before := Filtered(ms[..n], rs, uidMode, max);
      forall i | 0 <= i < |before| ensures before[i].uid < ms[n].uid {
        assert before[i] in before;
        assert before[i] in ms[..n];
        var k :| 0 <= k < n && ms[..n][k] == before[i];
        assert us[k] < us[n];
      }
    }
  }

  // ---- order of the ends, and '*' ----

  function Mirror(s: Span): Span { if s.One? then s else Two(s.b, s.a) }

  /** a:b and b:a are read as the same range, '*' included. */
  lemma OrderIsIrrelevant(s: Span)
    requires Writable(s.From()) && Writable(s.To())
    ensures ParseRange(ShowSpan(s)) == ParseRange(ShowSpan(Mirror(s)))
  {
    SpanText(s);
    SpanText(Mirror(s));
  }

  /** A set that names '*' selects the last message of a non-empty mailbox,
      which bears the highest number. */
  lemma StarSelectsLast(spans: seq<Span>, ms: seq<Message>, uidMode: bool, i: nat)
    requires AllWritable(spans) && i < |spans| && (spans[i].From() == Star || spans[i].To() == Star)
    requires ms != [] && Maildir.Numbered(ms) && |ms| < UINT32 && Ascending(MailboxRuns.Uids(ms))
    ensures Parse(Show(spans)).Some?
    ensures ms[|ms| - 1] in Selection(ms, Parse(Show(spans)).value, uidMode)
    ensures forall m :: m in ms ==> Number(m, uidMode) <= Number(ms[|ms| - 1], uidMode)
  {
    SetText(spans);
    var rs, max := RangesOf(spans), Last(ms, uidMode);
    assert Number(ms[|ms| - 1], uidMode) == max;
    assert InRange(rs[i], max, max);
    FilterMembers(ms, rs, uidMode, max);
    LastIsHighest(ms, uidMode);
  }

  lemma LastIsHighest(ms: seq<Message>, uidMode: bool)
    requires ms != [] && Maildir.Numbered(ms) && Ascending(MailboxRuns.Uids(ms))
    ensures forall m :: m in ms ==> Number(m, uidMode) <= Number(ms[|ms| - 1], uidMode)
  {
    var us := MailboxRuns.Uids(ms);
    forall m | m in ms ensures Number(m, uidMode) <= Number(ms[|ms| - 1], uidMode) {
      var k :| 0 <= k < |ms| && ms[k] == m;
      assert us[k] <= us[|ms| - 1];
    }
  }

  // ---- the two modes ----

  ghost predicate Selects(spans: seq<Span>, ms: seq<Message>, m: Message, uidMode: bool) {
    Parse(Show(spans)).Some? && m in Selection(ms, Parse(Show(spans)).value, uidMode)
  }

  lemma SelectsOne(spans: seq<Span>, ms: seq<Message>, m: Message, uidMode: bool)
    requires spans != [] && AllWritable(spans) && forall k :: 0 <= k < |spans| ==> !Ambiguous(spans[k])
    requires Maildir.Numbered(ms) && Ascending(MailboxRuns.Uids(ms)) && |ms| < UINT32 && m in ms
    requires forall k :: 0 <= k < |ms| ==> 1 <= ms[k].uid < UINT32
    ensures Selects(spans, ms, m, uidMode) <==> Names(spans, Number(m, uidMode), Last(ms, uidMode))
  {
    var rs, max := RangesOf(spans), Last(ms, uidMode);
    SetText(spans);
    FilterMembers(ms, rs, uidMode, max);
    NumbersInBounds(ms, m, uidMode);
    SpansAgree(spans, Number(m, uidMode), max);
  }

  /** By sequence number the i-th message answers to i and '*' to their count;
      by UID each answers to its UID and '*' to the last one's. */
  lemma SelectsByMode(spans: seq<Span>, ms: seq<Message>, i: nat, uidMode: bool)
    requires spans != [] && AllWritable(spans) && forall k :: 0 <= k < |spans| ==> !Ambiguous(spans[k])
    requires Maildir.Numbered(ms) && Ascending(MailboxRuns.Uids(ms)) && |ms| < UINT32 && i < |ms|
    requires forall k :: 0 <= k < |ms| ==> 1 <= ms[k].uid < UINT32
    ensures Selects(spans, ms, ms[i], uidMode) <==>
      if uidMode then Names(spans, ms[i].uid, ms[|ms| - 1].uid) else Names(spans, i + 1, |ms|)
  {
    SelectsOne(spans, ms, ms[i], uidMode);
  }
}
