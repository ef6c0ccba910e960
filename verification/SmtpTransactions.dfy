/** Where an SMTP transaction ends, what it lets pass, and how its lines read. */
module SmtpTransactions {
  import opened Text
  import opened Runs
  import opened SmtpDelivery
  import opened SmtpSession
  import RoutingProofs

  // ---- the end of a transaction ----

  predicate Closed(s: State) { s.from == "" && !s.fromSet && s.rcpts == [] }

  /** DATA came as far as a body that was read to its end: recipients were
      there, every limit agreed, the go-ahead was sent, and an oversized body
      was read over. */
  predicate BodyRead(cfg: Settings, s: State, d: DataAnswers) {
    && s.rcpts != [] && d.rateOk && d.ruleOk && (cfg.mode.Submission? && cfg.hasMaySend ==> d.maySend)
    && d.goAheadSent && d.size.Some? && (d.size.value > cfg.maxSize ==> d.restRead)
  }

  /** The commands after which nothing of a transaction is left. */
  predicate Ends(cfg: Settings, s: State, c: Command) {
    || c.Rset? || (c.Helo? && c.arg != "") || (c.Data? && BodyRead(cfg, s, c.answers))
    || (c.StartTls? && Step(cfg, s, c).state.tls != s.tls)
  }

  /** In every session such a command leaves no sender and no recipient, and
      the connection open. */
  lemma CommandsEnd(cfg: Settings, ws: seq<World>, cs: seq<Command>, k: nat)
    requires RoutesLead(cfg) && IsSession(cfg, ws, cs) && k < |cs| && Ends(cfg, ws[k].state, cs[k])
    ensures Closed(ws[k + 1].state) && ws[k + 1].open
  {
    var c := cs[k];
    StepEnds(cfg, ws[k].state, c);
  }

  lemma StepEnds(cfg: Settings, s: State, c: Command)
    requires Ends(cfg, s, c)
    ensures Closed(Step(cfg, s, c).state) && !Step(cfg, s, c).quit
  {
  }

  /** DATA that stores, forwards, queues or discards anything has read its body. */
  lemma EffectsNeedBody(cfg: Settings, s: State, c: Command)
    requires Step(cfg, s, c).log != []
    ensures c.Data? && BodyRead(cfg, s, c.answers)
    ensures c.answers.size.value <= cfg.maxSize && !(cfg.mode.Inbound? && cfg.hasScreen && c.answers.rejected)
  {
  }

  /** Nothing is delivered in any session but within the size limit, past every
      rate limit and rule, with the sender's reputation good, and not rejected
      by screening. */
  lemma DeliveredMeansAllowed(cfg: Settings, ws: seq<World>, cs: seq<Command>, k: nat)
    requires IsSession(cfg, ws, cs) && k < |cs| && Step(cfg, ws[k].state, cs[k]).log != []
    ensures cs[k].Data? && BodyRead(cfg, ws[k].state, cs[k].answers)
    ensures cs[k].answers.size.value <= cfg.maxSize && !(cfg.mode.Inbound? && cfg.hasScreen && cs[k].answers.rejected)
  {
    EffectsNeedBody(cfg, ws[k].state, cs[k]);
  }

  /** Between two deliveries of a session lies an accepted MAIL, and the later
      one goes exactly to the recipients accepted after it: no RCPT is
      delivered to twice. */
  lemma OneDeliveryEach(cfg: Settings, ws: seq<World>, cs: seq<Command>, k: nat, j: nat) returns (m: nat)
    requires RoutesLead(cfg) && IsSession(cfg, ws, cs) && k < j < |cs|
    requires Step(cfg, ws[k].state, cs[k]).log != [] && Step(cfg, ws[j].state, cs[j]).log != []
    ensures k < m < j && Opens(cfg, ws[m].state, cs[m], ws[j].state.from)
    ensures ws[j].state.rcpts == Collected(StoryOf(cfg), ws, cs, m + 1, j)
  {
    EffectsNeedBody(cfg, ws[k].state, cs[k]);
    EffectsNeedBody(cfg, ws[j].state, cs[j]);
    CommandsEnd(cfg, ws, cs, k);
    SessionIsSafe(cfg, ws, cs, j);
    var h;
    h, m := TransactionHistory(cfg, ws, cs, j);
    OpenedAfter(StoryOf(cfg), ws, cs, h, m, j, k + 1);
    StoryOpens(cfg, ws[m].state, cs[m], ws[j].state.from);
  }

  lemma OpenedAfter(t: Story, ws: seq<World>, cs: seq<Command>, h: nat, m: nat, j: nat, k: nat)
    requires OpenedAt(t, ws, cs, h, m, j) && k <= j && !ws[k].state.fromSet
    ensures k <= m
  {
  }

  lemma StoryOpens(cfg: Settings, s: State, c: Command, from: string)
    requires StoryOf(cfg).opens(s, c, from)
    ensures Opens(cfg, s, c, from)
  {
  }

  // ---- what RCPT lets pass ----

  /** Every recipient that a session accepts came with MAIL given, below the
      maximum, past limits and rules, and is hosted and known unless the
      session is a submission. */
  lemma AcceptedMeansAllowed(cfg: Settings, s: State, c: Command)
    requires Added(cfg, s, c) != []
    ensures c.RcptTo? && c.quotaOk && c.ruleOk && s.fromSet && |s.rcpts| < cfg.maxRecipients
    ensures DomainOf(Added(cfg, s, c)[0].addr).Some?
    ensures cfg.mode.Inbound? || cfg.isLocal(DomainOf(Added(cfg, s, c)[0].addr).value) ==>
      cfg.isLocal(DomainOf(Added(cfg, s, c)[0].addr).value) && cfg.route(Added(cfg, s, c)[0].addr).Some?
  {
  }

  // ---- how the lines of a client read ----

  /** An address as a client writes it between angle brackets. */
  predicate Bracketable(addr: string) { '>' !in addr && (addr == "" || addr[0] != '@') }

  lemma TrimmedLine(s: string)
    requires s != "" && !IsSpace(s[0]) && !IsSpace(s[|s| - 1])
    ensures TrimSpace(s) == s
  {
    RoutingProofs.TrimSpaceResult(s);
  }

  lemma BracketsFound(addr: string, tail: string)
    requires Bracketable(addr)
    ensures var rest := "<" + addr + ">" + tail;
      && rest[0] == '<' && IndexOf(rest, '>') == |addr| + 1
      && rest[1..|addr| + 1] == addr && rest[|addr| + 2..] == tail
  {
    var rest := "<" + addr + ">" + tail;
    assert forall i :: 0 <= i < |addr| ==> rest[i + 1] == addr[i];
    IndexOfAt(rest, '>', |addr| + 1);
  }

  lemma ParsesRest(arg: string, prefix: string, rest: string, addr: string, tail: string)
    requires |arg| >= |prefix| && arg[..|prefix|] == prefix && TrimSpace(arg[|prefix|..]) == rest
    requires rest != "" && rest[0] == '<' && IndexOf(rest, '>') == |addr| + 1 < |rest|
    requires rest[1..|addr| + 1] == addr && rest[|addr| + 2..] == tail && Bracketable(addr)
    ensures ParsePath(arg, prefix) == Some(Path(addr, Fields(tail)))
  {
    assert StripRoute(addr) == addr;
  }

  lemma PathReads(prefix: string, addr: string, tail: string)
    requires Bracketable(addr) && (tail == "" || !IsSpace(tail[|tail| - 1]))
    ensures ParsePath(prefix + ("<" + addr + ">" + tail), prefix) == Some(Path(addr, Fields(tail)))
  {
    var rest := "<" + addr + ">" + tail;
    var arg := prefix + rest;
    assert arg[..|prefix|] == prefix && arg[|prefix|..] == rest;
    assert rest[|rest| - 1] == if tail == "" then '>' else tail[|tail| - 1];
    BracketsFound(addr, tail);
    TrimmedLine(rest);
    ParsesRest(arg, prefix, rest, addr, tail);
  }

  lemma OneField(w: string)
    requires w != "" && forall i :: 0 <= i < |w| ==> !IsSpace(w[i])
    ensures Fields(" " + w) == [w]
  {
    assert (" " + w)[1..] == w && w + "" == w;
    FieldsWord(w, "");
  }

  lemma SizeField(n: nat)
    ensures forall i :: 0 <= i < |"SIZE=" + Digits(n)| ==> !IsSpace(("SIZE=" + Digits(n))[i])
    ensures Upper("SIZE=" + Digits(n)) == "SIZE=" + Digits(n)
  {
    assert AllDigits(Digits(n));
  }

  lemma SizeReads(n: nat)
    ensures SizeParam(["SIZE=" + Digits(n)]) == if n < 0x8000_0000_0000_0000 then Some(n) else None
  {
    var p := "SIZE=" + Digits(n);
    SizeField(n);
    assert p[..5] == "SIZE=" && p[5..] == Digits(n);
    assert IsDigit(Digits(n)[0]);
    DigitsRoundTrip(n);
    assert ParseSize(Digits(n)) == if n < 0x8000_0000_0000_0000 then Some(n) else None;
  }

  function SizeTail(n: nat): string { " " + ("SIZE=" + Digits(n)) }

  /** FROM:<a> SIZE=n */
  function MailLine(addr: string, n: nat): string { "FROM:" + ("<" + addr + ">" + SizeTail(n)) }

  lemma SizeTailReads(n: nat)
    ensures Fields(SizeTail(n)) == ["SIZE=" + Digits(n)] && !IsSpace(SizeTail(n)[|SizeTail(n)| - 1])
  {
    var p := "SIZE=" + Digits(n);
    SizeField(n);
    OneField(p);
    assert SizeTail(n)[|SizeTail(n)| - 1] == p[|p| - 1];
  }

  /** MAIL FROM:<a> SIZE=n is read as sender a, declared with n bytes. */
  lemma MailLineReads(addr: string, n: nat)
    requires Bracketable(addr)
    ensures ParsePath(MailLine(addr, n), "FROM:") == Some(Path(addr, ["SIZE=" + Digits(n)]))
  {
    SizeTailReads(n);
    PathReads("FROM:", addr, SizeTail(n));
  }

  /** With a greeting and no open transaction, the inbound port accepts that
      line exactly when the declared size is within the limit. */
  lemma MailAcceptedExactly(cfg: Settings, s: State, addr: string, n: nat)
    requires Bracketable(addr) && cfg.mode.Inbound? && s.helo != "" && !s.fromSet && cfg.maxSize < 0x8000_0000_0000_0000
    ensures MailCode(cfg, s, MailLine(addr, n)) == 250 <==> n <= cfg.maxSize
  {
    MailLineReads(addr, n);
    SizeReads(n);
    MailByPath(cfg, s, MailLine(addr, n), Path(addr, ["SIZE=" + Digits(n)]));
  }

  lemma MailByPath(cfg: Settings, s: State, arg: string, p: Path)
    requires cfg.mode.Inbound? && s.helo != "" && !s.fromSet && ParsePath(arg, "FROM:") == Some(p)
    ensures MailCode(cfg, s, arg) == 250 <==> SizeParam(p.params).Some? && SizeParam(p.params).value <= cfg.maxSize
  {
  }

  /** TO:<local@domain> */
  function RcptLine(local: string, domain: string): string { "TO:" + ("<" + (local + "@" + domain) + ">") }

  /** A mailbox as a client names it. */
  predicate Mailbox(local: string, domain: string) {
    && local != "" && domain != "" && local[0] != '@' && '>' !in local && '>' !in domain && '@' !in domain
    && !IsSpace(local[0]) && !IsSpace(domain[|domain| - 1])
  }

  lemma RcptLineReads(local: string, domain: string)
    requires Mailbox(local, domain)
    ensures ParsePath(RcptLine(local, domain), "TO:") == Some(Path(local + "@" + domain, []))
    ensures TrimSpace(local + "@" + domain) == local + "@" + domain
  {
    var addr := local + "@" + domain;
    MailboxText(local, domain);
    BracketedReads(addr);
    TrimmedLine(addr);
  }

  lemma BracketedReads(addr: string)
    requires Bracketable(addr)
    ensures ParsePath("TO:" + ("<" + addr + ">"), "TO:") == Some(Path(addr, []))
  {
    var none := "";
    PathReads("TO:", addr, none);
    assert "<" + addr + ">" + none == "<" + addr + ">";
  }

  lemma MailboxText(local: string, domain: string)
    requires Mailbox(local, domain)
    ensures var addr := local + "@" + domain;
      addr != "" && Bracketable(addr) && addr[0] == local[0] && addr[|addr| - 1] == domain[|domain| - 1]
  {
    var addr := local + "@" + domain;
    assert forall c :: c in addr ==> c in local || c == '@' || c in domain;
  }

  lemma DomainAfter(local: string, domain: string)
    requires local != "" && domain != "" && '@' !in domain
    ensures DomainOf(local + "@" + domain) == Some(Lower(domain))
  {
    var addr := local + "@" + domain;
    assert addr[|local|] == '@';
    LastIndexOfAt(addr, '@', |local|);
    assert addr[|local| + 1..] == domain;
  }

  lemma LowerMailbox(local: string, domain: string)
    requires local != "" && domain != "" && '@' !in domain
    ensures DomainOf(Lower(local + "@" + domain)) == Some(Lower(domain))
    ensures '@' in Lower(local + "@" + domain)
  {
    var l, d := Lower(local), Lower(domain);
    assert Lower(local + "@" + domain) == l + "@" + d;
    assert (l + "@" + d)[|l|] == '@';
    LowerIdempotent(domain);
    DomainAfter(l, d);
  }

  /** In an open transaction with room, past limits and rules, the inbound port
      accepts that line exactly when the domain is hosted and the address has a
      route, both asked in lower case. */
  lemma RcptAcceptedExactly(cfg: Settings, s: State, local: string, domain: string)
    requires Mailbox(local, domain) && cfg.mode.Inbound? && s.fromSet && |s.rcpts| < cfg.maxRecipients
    ensures RcptCode(cfg, s, RcptTo(RcptLine(local, domain), true, true)) == 250 <==>
      cfg.isLocal(Lower(domain)) && cfg.route(Lower(local + "@" + domain)).Some?
  {
    RcptLineReads(local, domain);
    LowerMailbox(local, domain);
    RcptByPath(cfg, s, RcptTo(RcptLine(local, domain), true, true), local + "@" + domain, Lower(domain));
  }

  lemma AddressKept(cfg: Settings, addr: string)
    requires TrimSpace(addr) == addr && '@' in Lower(addr)
    ensures RcptAddr(cfg, addr) == Lower(addr)
  {
    assert '@' !in "postmaster";
  }

  lemma RcptByPath(cfg: Settings, s: State, c: Command, addr: string, domain: string)
    requires cfg.mode.Inbound? && s.fromSet && |s.rcpts| < cfg.maxRecipients && c.RcptTo? && c.quotaOk && c.ruleOk
    requires ParsePath(c.arg, "TO:") == Some(Path(addr, [])) && TrimSpace(addr) == addr
    requires '@' in Lower(addr) && DomainOf(Lower(addr)) == Some(domain)
    ensures RcptCode(cfg, s, c) == 250 <==> cfg.isLocal(domain) && cfg.route(Lower(addr)).Some?
  {
    AddressKept(cfg, addr);
  }

  // ---- how credentials read ----

  /** An AUTH PLAIN response authzid NUL user NUL password names the user. */
  lemma PlainReads(authzid: string, user: string, password: string)
    requires '\0' !in authzid && '\0' !in user && '\0' !in password && user != ""
    ensures AuthUser("PLAIN", [Some(authzid + "\0" + (user + "\0" + password))]) == Some(user)
  {
    IndexOfAt("PLAIN", ' ', 5);
    assert "PLAIN"[..5] == "PLAIN" && Upper("PLAIN") == "PLAIN";
    ThreeParts(authzid, user, password);
  }

  lemma ThreeParts(a: string, b: string, c: string)
    requires '\0' !in a && '\0' !in b && '\0' !in c
    ensures Split(a + "\0" + (b + "\0" + c), '\0') == [a, b, c]
  {
    SplitCons(b, c, '\0');
    SplitCons(a, b + "\0" + c, '\0');
    IndexOfAt(c, '\0', |c|);
  }

  /** An AUTH LOGIN dialogue names the user in its first answer. */
  lemma LoginReads(user: string, password: string)
    ensures AuthUser("LOGIN", [Some(user), Some(password)]) == Some(user)
  {
    IndexOfAt("LOGIN", ' ', 5);
    assert "LOGIN"[..5] == "LOGIN" && Upper("LOGIN") == "LOGIN";
  }
}
