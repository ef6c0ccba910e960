/** The Sender Rewriting Scheme: SRS0 addresses, their signature and their
    validity window. */
module SrsScheme {
  import opened Text

  const TS_MOD: nat := 1024
  const MAX_AGE_DAYS: nat := 21

  /** The keyed hash, of a secret and a text: four base64 characters. */
  type Mac = (string, string) -> string

  predicate Base64Char(c: char) {
    'A' <= c <= 'Z' || 'a' <= c <= 'z' || '0' <= c <= '9' || c == '+' || c == '/'
  }

  ghost predicate IsMac(mac: Mac) {
    forall k, m :: |mac(k, m)| == 4 && forall i :: 0 <= i < 4 ==> Base64Char(mac(k, m)[i])
  }

  // ---- model ----

  /** split: local part and lower-cased domain. */
  function Split(addr: string): Option<(string, string)> {
    var at := LastIndexOf(addr, '@');
    if at <= 0 || at == |addr| - 1 then None else Some((addr[..at], Lower(addr[at + 1..])))
  }

  predicate IsSrs(local: string) { |local| >= 5 && Upper(local[..5]) == "SRS0=" }

  function Sign(mac: Mac, secret: string, tt: string, domain: string, local: string): string {
    mac(secret, Lower(tt + domain + local))
  }

  /** Days since the epoch, modulo 1024; now counts seconds. */
  function Day(now: nat): nat { now / 86400 % TS_MOD }

  /** The base32 alphabet of RFC 4648: A to Z, then 2 to 7. */
  function Base32(k: nat): char
    requires k < 32
  {
    if k < 26 then ('A' as int + k) as char else ('2' as int + (k - 26)) as char
  }

  function Base32Index(c: char): Option<nat> {
    if 'A' <= c <= 'Z' then Some(c as int - 'A' as int)
    else if '2' <= c <= '7' then Some(26 + (c as int - '2' as int))
    else None
  }

  function Timestamp(now: nat): string {
    [Base32(Day(now) / 32), Base32(Day(now) % 32)]
  }

  function Age(tt: string, now: nat): Option<nat> {
    if |tt| != 2 then None
    else
      match (Base32Index(UpperChar(tt[0])), Base32Index(UpperChar(tt[1])))
      case (Some(hi), Some(lo)) => Some((Day(now) - (hi * 32 + lo) + TS_MOD) % TS_MOD)
      case _ => None
  }

  predicate TimestampValid(tt: string, now: nat) {
    Age(tt, now).Some? && (Age(tt, now).value <= MAX_AGE_DAYS || Age(tt, now).value >= TS_MOD - 1)
  }

  function Forward(mac: Mac, secret: string, forwardDomain: string, sender: string, now: nat): string {
    if sender == "" then ""
    else
      match Split(sender)
      case None => sender
      case Some((local, domain)) =>
        var tt := Timestamp(now);
        Address("SRS0", Sign(mac, secret, tt, domain, local), tt, domain, local, forwardDomain)
  }

  function Address(tag: string, h: string, tt: string, domain: string, local: string, forwardDomain: string): string {
    Eq(tag, Eq(h, Eq(tt, Eq(domain, local)))) + "@" + forwardDomain
  }

  function Eq(a: string, b: string): string { a + "=" + b }

  /** strings.SplitN(s, "=", n) */
  function SplitN(s: string, n: nat): (parts: seq<string>)
    requires n >= 1
    ensures |parts| >= 1
    decreases n
  {
    var i := IndexOf(s, '=');
    if n == 1 || i == |s| then [s] else [s[..i]] + SplitN(s[i + 1..], n - 1)
  }

  function Reverse(mac: Mac, secret: string, address: string, now: nat): Option<string> {
    match Split(address)
    case None => None
    case Some((local, _)) =>
      if !IsSrs(local) then None
      else
        var parts := SplitN(local, 5);
        if |parts| != 5 then None
        else Verify(mac, secret, parts[1], parts[2], parts[3], parts[4], now)
  }

  function Verify(mac: Mac, secret: string, h: string, tt: string, domain: string, local: string, now: nat): Option<string> {
    if Sign(mac, secret, tt, domain, local) != h then None
    else if !TimestampValid(tt, now) then None
    else Some(local + "@" + domain)
  }

  // ---- the window ----

  /** The signed day is at most 21 days old, or one day ahead, modulo 1024. */
  predicate InWindow(signed: nat, now: nat) {
    var age := (now / 86400 - signed / 86400) % TS_MOD;
    age <= MAX_AGE_DAYS || age == TS_MOD - 1
  }

  lemma Base32RoundTrip(k: nat)
    requires k < 32
    ensures Base32Index(UpperChar(Base32(k))) == Some(k)
    ensures Base32Index(UpperChar(LowerChar(Base32(k)))) == Some(k)
    ensures Base32(k) != '=' && LowerChar(Base32(k)) != '='
  {
  }

  lemma AgeOfDays(d: nat, e: nat)
    ensures (e % TS_MOD - d % TS_MOD + TS_MOD) % TS_MOD == (e - d) % TS_MOD
  {
    var q, r := d / TS_MOD, e / TS_MOD;
    assert d == q * TS_MOD + d % TS_MOD && e == r * TS_MOD + e % TS_MOD;
    var x := e % TS_MOD - d % TS_MOD;
    assert e - d == x + (r - q) * TS_MOD;
    ModShift(x, r - q);
    ModShift(x, 1);
  }

  lemma ModShift(x: int, k: int)
    ensures (x + k * TS_MOD) % TS_MOD == x % TS_MOD
  {
  }

  /** A timestamp, in either case, is accepted exactly inside the window. */
  lemma WindowExactly(signed: nat, now: nat)
    ensures TimestampValid(Timestamp(signed), now) <==> InWindow(signed, now)
    ensures TimestampValid(Lower(Timestamp(signed)), now) <==> InWindow(signed, now)
  {
    var d := Day(signed);
    Base32RoundTrip(d / 32);
    Base32RoundTrip(d % 32);
    assert d / 32 * 32 + d % 32 == d;
    AgeOfDays(signed / 86400, now / 86400);
    assert Age(Timestamp(signed), now) == Some((now / 86400 - signed / 86400) % TS_MOD);
    assert Age(Lower(Timestamp(signed)), now) == Some((now / 86400 - signed / 86400) % TS_MOD);
  }

  // ---- taking an address apart ----

  lemma SplitFirst(w: string, rest: string, n: nat)
    requires '=' !in w && n >= 2
    ensures SplitN(Eq(w, rest), n) == [w] + SplitN(rest, n - 1)
  {
    var s := Eq(w, rest);
    assert forall j :: 0 <= j < |w| ==> s[j] == w[j];
    IndexOfAt(s, '=', |w|);
    assert s[..|w|] == w && s[|w| + 1..] == rest;
  }

  lemma SplitAt(local: string, domain: string)
    requires local != "" && domain != "" && '@' !in domain
    ensures Split(local + "@" + domain) == Some((local, Lower(domain)))
  {
    var s := local + "@" + domain;
    assert forall j :: |local| < j < |s| ==> s[j] == domain[j - |local| - 1];
    LastIndexOfAt(s, '@', |local|);
    assert s[..|local|] == local && s[|local| + 1..] == domain;
  }

  lemma SplitParts(addr: string)
    requires Split(addr).Some?
    ensures var (local, domain) := Split(addr).value;
      local != "" && domain != "" && '@' !in domain && Lower(domain) == domain
  {
    var at := LastIndexOf(addr, '@');
    var d := addr[at + 1..];
    forall i | 0 <= i < |d| ensures LowerChar(d[i]) != '@' {
      assert d[i] == addr[at + 1 + i];
    }
    LowerIdempotent(d);
  }

  predicate Tag(tag: string) { tag == "SRS0" || tag == "srs0" }

  lemma StartsSrs(tag: string, rest: string)
    requires Tag(tag)
    ensures IsSrs(Eq(tag, rest))
  {
    assert Eq(tag, rest)[..5] == tag + "=";
    assert Upper(tag + "=") == "SRS0=";
  }

  /** The five fields of a local part: the last two are cut at the first '='
      of what follows the timestamp. */
  lemma FiveFields(tag: string, h: string, tt: string, rest: string)
    requires Tag(tag) && '=' !in h && '=' !in tt
    ensures IsSrs(Eq(tag, Eq(h, Eq(tt, rest))))
    ensures SplitN(Eq(tag, Eq(h, Eq(tt, rest))), 5) == [tag] + ([h] + ([tt] + SplitN(rest, 2)))
  {
    StartsSrs(tag, Eq(h, Eq(tt, rest)));
    ThreeFields(tag, h, tt, rest, 5);
  }

  lemma ThreeFields(tag: string, h: string, tt: string, rest: string, n: nat)
    requires '=' !in tag && '=' !in h && '=' !in tt && n >= 4
    ensures SplitN(Eq(tag, Eq(h, Eq(tt, rest))), n) == [tag] + ([h] + ([tt] + SplitN(rest, n - 3)))
  {
    var r := Eq(tt, rest);
    assert SplitN(r, n - 2) == [tt] + SplitN(rest, n - 3) by { SplitFirst(tt, rest, n - 2); }
    TwoFields(tag, h, r, n);
  }

  lemma TwoFields(a: string, b: string, rest: string, n: nat)
    requires '=' !in a && '=' !in b && n >= 3
    ensures SplitN(Eq(a, Eq(b, rest)), n) == [a] + ([b] + SplitN(rest, n - 2))
  {
    SplitFirst(a, Eq(b, rest), n);
    SplitFirst(b, rest, n - 1);
  }

  /** Reverse on a local part of the SRS0 shape, in terms of what follows the
      timestamp. */
  lemma ReverseFields(mac: Mac, secret: string, tag: string, h: string, tt: string, rest: string, address: string, now: nat)
    requires Tag(tag) && '=' !in h && '=' !in tt
    requires Split(address).Some? && Split(address).value.0 == Eq(tag, Eq(h, Eq(tt, rest)))
    ensures Reverse(mac, secret, address, now)
         == if |SplitN(rest, 2)| == 2 then Verify(mac, secret, h, tt, SplitN(rest, 2)[0], SplitN(rest, 2)[1], now) else None
  {
    FiveFields(tag, h, tt, rest);
    SplitTwo(rest);
    FieldsAt(tag, h, tt, SplitN(rest, 2));
  }

  lemma FieldsAt(tag: string, h: string, tt: string, tail: seq<string>)
    ensures var parts := [tag] + ([h] + ([tt] + tail));
      && |parts| == 3 + |tail| && parts[1] == h && parts[2] == tt
      && (|tail| == 2 ==> parts[3] == tail[0] && parts[4] == tail[1])
  {
  }

  lemma SplitTwo(s: string)
    ensures |SplitN(s, 2)| == 2 ==> |SplitN(s, 2)[0]| + 1 + |SplitN(s, 2)[1]| == |s|
    ensures |SplitN(s, 2)| <= 2
  {
  }

  lemma NonEmptyEq(a: string, b: string)
    ensures Eq(a, b) != "" && |Eq(a, b)| == |a| + 1 + |b|
  {
  }

  /** What Reverse makes of an address of the SRS0 shape. */
  lemma ReverseShape(mac: Mac, secret: string, tag: string, h: string, tt: string, domain: string, local: string, fd: string, now: nat)
    requires Tag(tag) && '=' !in h && '=' !in tt && '=' !in domain && fd != "" && '@' !in fd
    ensures Reverse(mac, secret, Address(tag, h, tt, domain, local, fd), now)
         == Verify(mac, secret, h, tt, domain, local, now)
  {
    var l := Eq(tag, Eq(h, Eq(tt, Eq(domain, local))));
    NonEmptyEq(tag, Eq(h, Eq(tt, Eq(domain, local))));
    SplitAt(l, fd);
    ReverseFields(mac, secret, tag, h, tt, Eq(domain, local), l + "@" + fd, now);
    SplitFirst(domain, local, 2);
    assert [domain] + SplitN(local, 1) == [domain, local];
  }

  lemma CutDiffers(local: string, d1: string, d2: string)
    requires '@' !in d1 && '@' !in d2
    ensures Eq(d2, local) + "@" + d1 != local + "@" + Eq(d1, d2)
  {
    var back, sender := Eq(d2, local) + "@" + d1, local + "@" + Eq(d1, d2);
    var k := |Eq(d2, local)|;
    assert back[k] == '@';
    assert sender[k] == Eq(d1, d2)[k - |local| - 1];
    assert '@' !in Eq(d1, d2);
  }

  /** A domain with '=' comes back cut in two, which is never the sender. */
  lemma EqualsInDomain(mac: Mac, secret: string, tag: string, h: string, tt: string, domain: string, local: string, fd: string, now: nat)
    requires Tag(tag) && '=' !in h && '=' !in tt && '=' in domain && fd != "" && '@' !in fd
    requires '@' !in domain
    ensures Reverse(mac, secret, Address(tag, h, tt, domain, local, fd), now) != Some(local + "@" + domain)
  {
    var l := Eq(tag, Eq(h, Eq(tt, Eq(domain, local))));
    NonEmptyEq(tag, Eq(h, Eq(tt, Eq(domain, local))));
    SplitAt(l, fd);
    ReverseFields(mac, secret, tag, h, tt, Eq(domain, local), l + "@" + fd, now);
    var d1, d2 := CutAtEquals(domain);
    EqAssoc(d1, d2, local);
    SplitFirst(d1, Eq(d2, local), 2);
    assert [d1] + SplitN(Eq(d2, local), 1) == [d1, Eq(d2, local)];
    CutDiffers(local, d1, d2);
  }

  lemma CutAtEquals(domain: string) returns (d1: string, d2: string)
    requires '=' in domain && '@' !in domain
    ensures domain == Eq(d1, d2) && '=' !in d1 && '@' !in d1 && '@' !in d2
  {
    var i := IndexOf(domain, '=');
    d1, d2 := domain[..i], domain[i + 1..];
  }

  lemma EqAssoc(a: string, b: string, c: string)
    ensures Eq(Eq(a, b), c) == Eq(a, Eq(b, c))
  {
  }

  lemma EqAppend(a: string, b: string, x: string)
    ensures Eq(a, b) + x == Eq(a, b + x)
  {
  }

  /** A forwarding domain that is empty or holds '@' makes the address
      irreversible: nothing, or a longer local part, comes back. */
  lemma BadForwardDomain(mac: Mac, secret: string, tag: string, h: string, tt: string, domain: string, local: string, fd: string, now: nat)
    requires Tag(tag) && '=' !in h && '=' !in tt && (fd == "" || '@' in fd)
    ensures Reverse(mac, secret, Address(tag, h, tt, domain, local, fd), now) != Some(local + "@" + domain)
  {
    var rest := Eq(domain, local);
    var l := Eq(tag, Eq(h, Eq(tt, rest)));
    var addr := l + "@" + fd;
    LastAt(l, fd);
    var at := LastIndexOf(addr, '@');
    if at < |addr| - 1 {
      var x := addr[|l|..at];
      assert addr[..at] == l + x;
      LongerLocal(tag, h, tt, rest, x);
      ReverseFields(mac, secret, tag, h, tt, rest + x, addr, now);
      SplitTwo(rest + x);
      NonEmptyEq(domain, local);
      VerifyLength(mac, secret, h, tt, SplitN(rest + x, 2), now);
    }
  }

  lemma LongerLocal(tag: string, h: string, tt: string, rest: string, x: string)
    ensures Eq(tag, Eq(h, Eq(tt, rest))) + x == Eq(tag, Eq(h, Eq(tt, rest + x)))
  {
    EqAppend(tag, Eq(h, Eq(tt, rest)), x);
    EqAppend(h, Eq(tt, rest), x);
    EqAppend(tt, rest, x);
  }

  lemma VerifyLength(mac: Mac, secret: string, h: string, tt: string, tail: seq<string>, now: nat)
    ensures |tail| == 2 ==>
      var v := Verify(mac, secret, h, tt, tail[0], tail[1], now);
      v.Some? ==> |v.value| == |tail[0]| + 1 + |tail[1]|
  {
  }

  lemma LastAt(l: string, fd: string)
    requires fd == "" || '@' in fd
    ensures var at := LastIndexOf(l + "@" + fd, '@');
      at >= |l| && (fd == "" ==> at == |l + "@" + fd| - 1) && (fd != "" ==> at > |l|)
  {
    var addr := l + "@" + fd;
    assert addr[|l|] == '@';
    if fd != "" {
      var k :| 0 <= k < |fd| && fd[k] == '@';
      assert addr[|l| + 1 + k] == '@';
    }
  }

  // ---- the round trip ----

  lemma HashHasNoEquals(mac: Mac, k: string, m: string)
    requires IsMac(mac)
    ensures '=' !in mac(k, m)
  {
  }

  lemma TimestampHasNoEquals(now: nat)
    ensures '=' !in Timestamp(now) && '=' !in Lower(Timestamp(now))
  {
    Base32RoundTrip(Day(now) / 32);
    Base32RoundTrip(Day(now) % 32);
  }

  /** Reverse undoes Forward exactly when the sender's domain holds no '=', the
      forwarding domain is a domain, and the bounce returns inside the window.
      The sender's local part may hold anything. */
  lemma ReverseUndoesForward(mac: Mac, secret: string, fd: string, sender: string, signed: nat, now: nat)
    requires IsMac(mac) && Split(sender).Some?
    ensures var (local, domain) := Split(sender).value;
      Reverse(mac, secret, Forward(mac, secret, fd, sender, signed), now) == Some(local + "@" + domain)
      <==> '=' !in domain && fd != "" && '@' !in fd && InWindow(signed, now)
  {
    var (local, domain) := Split(sender).value;
    var tt := Timestamp(signed);
    var h := Sign(mac, secret, tt, domain, local);
    SplitParts(sender);
    HashHasNoEquals(mac, secret, Lower(tt + domain + local));
    TimestampHasNoEquals(signed);
    WindowExactly(signed, now);
    if fd == "" || '@' in fd {
      BadForwardDomain(mac, secret, "SRS0", h, tt, domain, local, fd, now);
    } else if '=' in domain {
      EqualsInDomain(mac, secret, "SRS0", h, tt, domain, local, fd, now);
    } else {
      ReverseShape(mac, secret, "SRS0", h, tt, domain, local, fd, now);
    }
  }

  /** Whatever reverses carries the secret's hash over the timestamp, domain and
      local part it reverses to, and a timestamp inside the window. */
  lemma OnlySignedReverses(mac: Mac, secret: string, address: string, now: nat) returns (tt: string, domain: string, local: string)
    requires Reverse(mac, secret, address, now).Some?
    ensures Reverse(mac, secret, address, now) == Some(local + "@" + domain) && TimestampValid(tt, now)
    ensures var parts := SplitN(Split(address).value.0, 5);
      parts == [parts[0], mac(secret, Lower(tt + domain + local)), tt, domain, local]
  {
    var parts := SplitN(Split(address).value.0, 5);
    tt, domain, local := parts[2], parts[3], parts[4];
  }

  lemma LowerAddress(h: string, tt: string, domain: string, local: string, fd: string)
    ensures Lower(Address("SRS0", h, tt, domain, local, fd))
         == Address("srs0", Lower(h), Lower(tt), Lower(domain), Lower(local), Lower(fd))
  {
    LowerJoin(domain, local);
    LowerJoin(tt, Eq(domain, local));
    LowerJoin(h, Eq(tt, Eq(domain, local)));
    var l := Eq("SRS0", Eq(h, Eq(tt, Eq(domain, local))));
    LowerJoin("SRS0", Eq(h, Eq(tt, Eq(domain, local))));
    assert Lower("SRS0") == "srs0";
    LowerConcat(l + "@", fd);
    LowerConcat(l, "@");
    assert Lower("@") == "@";
  }

  lemma LowerJoin(a: string, b: string)
    ensures Lower(Eq(a, b)) == Eq(Lower(a), Lower(b))
  {
    LowerConcat(a + "=", b);
    LowerConcat(a, "=");
    assert Lower("=") == "=";
  }

  lemma LowerSigned(tt: string, domain: string, local: string)
    requires Lower(domain) == domain
    ensures Lower(Lower(tt) + domain + Lower(local)) == Lower(tt + domain + local)
  {
    LowerConcat(tt + domain, local);
    LowerConcat(tt, domain);
    LowerConcat(Lower(tt) + domain, Lower(local));
    LowerConcat(Lower(tt), domain);
    LowerIdempotent(tt);
    LowerIdempotent(local);
  }

  /** The queue and the session lower-case addresses. The lower-cased address
      still reverses (to the lower-cased sender) exactly when the hash happens
      to hold no upper-case letter. */
  lemma LowerCasedReversal(mac: Mac, secret: string, fd: string, sender: string, signed: nat, now: nat)
    requires IsMac(mac) && Split(sender).Some? && fd != "" && '@' !in fd
    requires '=' !in Split(sender).value.1
    ensures var (local, domain) := Split(sender).value;
      var h := Sign(mac, secret, Timestamp(signed), domain, local);
      Reverse(mac, secret, Lower(Forward(mac, secret, fd, sender, signed)), now)
      == if Lower(h) == h && InWindow(signed, now) then Some(Lower(local) + "@" + domain) else None
  {
    var (local, domain) := Split(sender).value;
    var tt := Timestamp(signed);
    var h := Sign(mac, secret, tt, domain, local);
    SplitParts(sender);
    HashHasNoEquals(mac, secret, Lower(tt + domain + local));
    TimestampHasNoEquals(signed);
    WindowExactly(signed, now);
    LowerAddress(h, tt, domain, local, fd);
    LowerSigned(tt, domain, local);
    LowerKeepsOut(h);
    LowerKeepsOutAt(fd);
    ReverseShape(mac, secret, "srs0", Lower(h), Lower(tt), domain, Lower(local), Lower(fd), now);
  }

  lemma LowerKeepsOut(s: string)
    requires '=' !in s
    ensures '=' !in Lower(s)
  {
  }

  lemma LowerKeepsOutAt(s: string)
    requires '@' !in s
    ensures '@' !in Lower(s)
  {
  }
}
