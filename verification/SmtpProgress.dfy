/** What an orderly SMTP client achieves. */
module SmtpProgress {
  import opened Text
  import opened Runs
  import opened SmtpDelivery
  import opened SmtpSession
  import opened SmtpTransactions

  // ---- the lines of the client ----

  datatype Box = Box(local: string, domain: string)

  function Line(b: Box): Command { RcptTo(RcptLine(b.local, b.domain), true, true) }

  function Lines(bs: seq<Box>): (cs: seq<Command>)
    ensures |cs| == |bs| && forall i :: 0 <= i < |bs| ==> cs[i] == Line(bs[i])
  {
    seq(|bs|, i requires 0 <= i < |bs| => Line(bs[i]))
  }

  /** A recipient to be taken: hosted and with a route, or for another server
      and submitted. */
  predicate Welcome(cfg: Settings, b: Box) {
    && Mailbox(b.local, b.domain)
    && if cfg.isLocal(Lower(b.domain)) then cfg.route(Lower(b.local + "@" + b.domain)).Some? else cfg.mode.Submission?
  }

  /** What is noted of it: its plan, or that it is to be relayed. */
  function Entry(cfg: Settings, b: Box): Rcpt
    requires Welcome(cfg, b)
  {
    var addr := Lower(b.local + "@" + b.domain);
    if cfg.isLocal(Lower(b.domain)) then Rcpt(addr, Lower(b.domain), cfg.route(addr).value) else Rcpt(addr, "", RelayShape)
  }

  predicate AllWelcome(cfg: Settings, bs: seq<Box>) { forall i :: 0 <= i < |bs| ==> Welcome(cfg, bs[i]) }

  function Entries(cfg: Settings, bs: seq<Box>): (rs: seq<Rcpt>)
    requires AllWelcome(cfg, bs)
    ensures |rs| == |bs| && forall i :: 0 <= i < |bs| ==> rs[i] == Entry(cfg, bs[i])
  {
    seq(|bs|, i requires 0 <= i < |bs| => Entry(cfg, bs[i]))
  }

  function PlainLine(user: string, password: string): string { "" + "\0" + (user + "\0" + password) }

  /** Over a connection in the clear: greeting, STARTTLS, greeting, AUTH PLAIN,
      MAIL under the user's own name. */
  function SubmissionOpening(helo: string, user: string, password: string, size: nat): seq<Command> {
    [Helo(helo), StartTls(true, true), Helo(helo), Auth("PLAIN", [Some(PlainLine(user, password))], Granted), Mail(MailLine(user, size))]
  }

  function InboundOpening(helo: string, sender: string, size: nat): seq<Command> {
    [Helo(helo), Mail(MailLine(sender, size))]
  }

  // ---- one command ----

  lemma LoggedIn(cfg: Settings, s: State, user: string, password: string)
    requires cfg.mode.Submission? && cfg.hasAuthenticate && s.tls && s.authed == ""
    requires '\0' !in user && '\0' !in password && user != ""
    ensures Step(cfg, s, Auth("PLAIN", [Some(PlainLine(user, password))], Granted)) == Outcome(s.(authed := Lower(user)), 235, false, [])
  {
    var none := "";
    PlainReads(none, user, password);
    IndexOfAt("PLAIN", ' ', 5);
    assert "PLAIN"[..5] == "PLAIN" && Upper("PLAIN") == "PLAIN";
  }

  lemma MailAccepted(cfg: Settings, s: State, sender: string, size: nat)
    requires Bracketable(sender) && s.helo != "" && !s.fromSet && size <= cfg.maxSize < 0x8000_0000_0000_0000
    requires cfg.mode.Submission? ==> s.authed != "" && Lower(sender) == s.authed
    ensures Step(cfg, s, Mail(MailLine(sender, size))) == Outcome(s.(from := Lower(sender), fromSet := true), 250, false, [])
  {
    MailLineReads(sender, size);
    SizeReads(size);
    MailTaken(cfg, s, MailLine(sender, size), Path(sender, ["SIZE=" + Digits(size)]));
  }

  lemma MailTaken(cfg: Settings, s: State, arg: string, p: Path)
    requires s.helo != "" && !s.fromSet && ParsePath(arg, "FROM:") == Some(p)
    requires SizeParam(p.params).Some? && SizeParam(p.params).value <= cfg.maxSize
    requires cfg.mode.Submission? ==> s.authed != "" && Lower(p.addr) == s.authed
    ensures Step(cfg, s, Mail(arg)) == Outcome(s.(from := Lower(p.addr), fromSet := true), 250, false, [])
  {
  }

  lemma RcptAccepted(cfg: Settings, s: State, b: Box)
    requires Welcome(cfg, b) && s.fromSet && |s.rcpts| < cfg.maxRecipients
    ensures Step(cfg, s, Line(b)) == Outcome(s.(rcpts := s.rcpts + [Entry(cfg, b)]), 250, false, [])
  {
    RcptLineReads(b.local, b.domain);
    LowerMailbox(b.local, b.domain);
    RcptTaken(cfg, s, RcptLine(b.local, b.domain), b.local + "@" + b.domain, Lower(b.domain));
  }

  lemma RcptTaken(cfg: Settings, s: State, arg: string, addr: string, domain: string)
    requires s.fromSet && |s.rcpts| < cfg.maxRecipients
    requires ParsePath(arg, "TO:") == Some(Path(addr, [])) && TrimSpace(addr) == addr
    requires '@' in Lower(addr) && DomainOf(Lower(addr)) == Some(domain)
    requires if cfg.isLocal(domain) then cfg.route(Lower(addr)).Some? else cfg.mode.Submission?
    ensures var a := Lower(addr);
      Step(cfg, s, RcptTo(arg, true, true)) == Outcome(s.(rcpts := s.rcpts +
        [if cfg.isLocal(domain) then Rcpt(a, domain, cfg.route(a).value) else Rcpt(a, "", RelayShape)]), 250, false, [])
  {
    AddressKept(cfg, addr);
    assert RcptCode(cfg, s, RcptTo(arg, true, true)) == 250;
    NotedAs(cfg, Lower(addr), domain);
  }

  lemma NotedAs(cfg: Settings, a: string, domain: string)
    requires DomainOf(a) == Some(domain) && (cfg.isLocal(domain) ==> cfg.route(a).Some?)
    ensures RcptOf(cfg, a) == if cfg.isLocal(domain) then Rcpt(a, domain, cfg.route(a).value) else Rcpt(a, "", RelayShape)
  {
  }

  /** Every limit agrees, the whole body arrives within the size limit, and
      screening passes it. */
  predicate Smooth(cfg: Settings, d: DataAnswers) {
    d.rateOk && d.maySend && d.ruleOk && d.goAheadSent && !d.rejected && d.size.Some? && d.size.value <= cfg.maxSize
  }

  lemma DataDelivers(cfg: Settings, s: State, d: DataAnswers)
    requires s.rcpts != [] && Smooth(cfg, d)
    ensures Step(cfg, s, Data(d)) == Outcome(s.Reset(), Reply(d.tries, cfg.hasForward), false, AllEffects(d.tries, cfg.hasForward))
  {
  }

  // ---- whole sessions ----

  lemma Follow(cfg: Settings, ws: seq<World>, cs: seq<Command>, k: nat)
    requires IsSession(cfg, ws, cs) && k < |cs|
    ensures ws[k + 1].state == Step(cfg, ws[k].state, cs[k]).state
  {
    var c := cs[k];
  }

  /** b was noted, if there was room. */
  predicate Taken(cfg: Settings, s: State, b: Box, s': State) {
    Welcome(cfg, b) && s.fromSet && |s.rcpts| < cfg.maxRecipients ==> s' == s.(rcpts := s.rcpts + [Entry(cfg, b)])
  }

  lemma RcptStep(cfg: Settings, w: World, b: Box, w': World)
    requires Steps(cfg)(w, Line(b), w')
    ensures Taken(cfg, w.state, b, w'.state)
  {
    if Welcome(cfg, b) && w.state.fromSet && |w.state.rcpts| < cfg.maxRecipients { RcptAccepted(cfg, w.state, b); }
  }

  function States(ws: seq<World>, i: nat, n: nat): (ss: seq<State>)
    requires i + n < |ws|
    ensures |ss| == n + 1 && forall k :: 0 <= k <= n ==> ss[k] == ws[i + k].state
  {
    seq(n + 1, k requires 0 <= k <= n => ws[i + k].state)
  }

  lemma AllTaken(cfg: Settings, ws: seq<World>, cs: seq<Command>, next: (World, Command, World) -> bool, i: nat, bs: seq<Box>)
    requires IsRun(ws, cs, next) && i + |bs| <= |cs| && forall k :: 0 <= k < |bs| ==> cs[i + k] == Line(bs[k])
    requires forall w, b, w' :: next(w, Line(b), w') ==> Taken(cfg, w.state, b, w'.state)
    ensures forall k {:trigger bs[k]} :: 0 <= k < |bs| ==> Taken(cfg, States(ws, i, |bs|)[k], bs[k], States(ws, i, |bs|)[k + 1])
  {
  }

  lemma {:induction false} Gathered(ss: seq<State>, rs: seq<Rcpt>, max: nat, n: nat)
    requires |ss| == |rs| + 1 && n <= |rs| <= max && ss[0].fromSet && ss[0].rcpts == []
    requires forall k {:trigger rs[k]} :: 0 <= k < |rs| && ss[k].fromSet && |ss[k].rcpts| < max ==>
      ss[k + 1] == ss[k].(rcpts := ss[k].rcpts + [rs[k]])
    ensures ss[n] == ss[0].(rcpts := rs[..n])
  {
    if n > 0 {
      Gathered(ss, rs, max, n - 1);
      assert rs[..n] == rs[..n - 1] + [rs[n - 1]];
    }
  }

  lemma RcptsAccepted(cfg: Settings, ss: seq<State>, bs: seq<Box>)
    requires |ss| == |bs| + 1 && |bs| <= cfg.maxRecipients && AllWelcome(cfg, bs) && ss[0].fromSet && ss[0].rcpts == []
    requires forall k {:trigger bs[k]} :: 0 <= k < |bs| ==> Taken(cfg, ss[k], bs[k], ss[k + 1])
    ensures ss[|bs|] == ss[0].(rcpts := Entries(cfg, bs))
  {
    var rs := Entries(cfg, bs);
    forall k {:trigger rs[k]} | 0 <= k < |rs| && ss[k].fromSet && |ss[k].rcpts| < cfg.maxRecipients
      ensures ss[k + 1] == ss[k].(rcpts := ss[k].rcpts + [rs[k]])
    {
      assert Taken(cfg, ss[k], bs[k], ss[k + 1]);
    }
    Gathered(ss, rs, cfg.maxRecipients, |bs|);
    assert rs[..|bs|] == rs;
  }

  lemma RcptsGathered(cfg: Settings, ws: seq<World>, cs: seq<Command>, i: nat, bs: seq<Box>)
    requires IsSession(cfg, ws, cs) && |bs| <= cfg.maxRecipients && i + |bs| <= |cs| && AllWelcome(cfg, bs)
    requires forall k :: 0 <= k < |bs| ==> cs[i + k] == Line(bs[k])
    requires ws[i].state.fromSet && ws[i].state.rcpts == []
    ensures ws[i + |bs|].state == ws[i].state.(rcpts := Entries(cfg, bs))
  {
    forall w, b, w' | Steps(cfg)(w, Line(b), w') ensures Taken(cfg, w.state, b, w'.state) { RcptStep(cfg, w, b, w'); }
    AllTaken(cfg, ws, cs, Steps(cfg), i, bs);
    RcptsAccepted(cfg, States(ws, i, |bs|), bs);
  }

  /** The transaction opened at step i ends with the body handed to exactly the
      named recipients, in order, under the given sender. */
  ghost predicate Achieves(cfg: Settings, ws: seq<World>, cs: seq<Command>, sender: string, bs: seq<Box>, d: DataAnswers)
    requires IsSession(cfg, ws, cs) && cs != [] && AllWelcome(cfg, bs)
  {
    var n := |cs| - 1;
    var o := Step(cfg, ws[n].state, cs[n]);
    && ws[n].state.from == sender && ws[n].state.rcpts == Entries(cfg, bs)
    && o.code == Reply(d.tries, cfg.hasForward) && o.log == AllEffects(d.tries, cfg.hasForward)
  }

  lemma TransactionAchieves(cfg: Settings, ws: seq<World>, cs: seq<Command>, i: nat, bs: seq<Box>, d: DataAnswers)
    requires IsSession(cfg, ws, cs) && 0 < |bs| <= cfg.maxRecipients && |cs| == i + |bs| + 1 && AllWelcome(cfg, bs)
    requires forall k :: 0 <= k < |bs| ==> cs[i + k] == Line(bs[k])
    requires cs[i + |bs|] == Data(d) && Smooth(cfg, d)
    requires ws[i].state.fromSet && ws[i].state.rcpts == []
    ensures Achieves(cfg, ws, cs, ws[i].state.from, bs, d)
  {
    RcptsGathered(cfg, ws, cs, i, bs);
    DataDelivers(cfg, ws[i + |bs|].state, d);
  }

  /** Mail from another server, for any number of hosted recipients up to the
      maximum, is delivered to all of them. */
  lemma InboundDelivers(cfg: Settings, ws: seq<World>, cs: seq<Command>, helo: string, sender: string, size: nat, bs: seq<Box>, d: DataAnswers)
    requires cfg.mode.Inbound? && size <= cfg.maxSize < 0x8000_0000_0000_0000 && helo != "" && Bracketable(sender)
    requires 0 < |bs| <= cfg.maxRecipients && AllWelcome(cfg, bs) && Smooth(cfg, d)
    requires IsSession(cfg, ws, cs) && cs == InboundOpening(helo, sender, size) + Lines(bs) + [Data(d)]
    ensures Achieves(cfg, ws, cs, Lower(sender), bs, d)
  {
    var first := InboundOpening(helo, sender, size);
    Layout(first, bs, d, cs);
    Follow(cfg, ws, cs, 0);
    Follow(cfg, ws, cs, 1);
    MailAccepted(cfg, ws[1].state, sender, size);
    TransactionAchieves(cfg, ws, cs, 2, bs, d);
  }

  /** A user's mail, over STARTTLS and AUTH, under the user's own address, is
      delivered to its hosted recipients and queued for the others. */
  lemma SubmissionDelivers(cfg: Settings, ws: seq<World>, cs: seq<Command>, helo: string, user: string, password: string, size: nat,
                           bs: seq<Box>, d: DataAnswers)
    requires cfg.mode.Submission? && cfg.hasAuthenticate && cfg.tlsConfigured && !cfg.implicitTls
    requires size <= cfg.maxSize < 0x8000_0000_0000_0000 && helo != ""
    requires Bracketable(user) && user != "" && '\0' !in user && '\0' !in password
    requires 0 < |bs| <= cfg.maxRecipients && AllWelcome(cfg, bs) && Smooth(cfg, d)
    requires IsSession(cfg, ws, cs) && cs == SubmissionOpening(helo, user, password, size) + Lines(bs) + [Data(d)]
    ensures Achieves(cfg, ws, cs, Lower(user), bs, d)
  {
    var first := SubmissionOpening(helo, user, password, size);
    Layout(first, bs, d, cs);
    Follow(cfg, ws, cs, 0);
    Follow(cfg, ws, cs, 1);
    Follow(cfg, ws, cs, 2);
    Follow(cfg, ws, cs, 3);
    LoggedIn(cfg, ws[3].state, user, password);
    Follow(cfg, ws, cs, 4);
    MailAccepted(cfg, ws[4].state, user, size);
    TransactionAchieves(cfg, ws, cs, 5, bs, d);
  }

  lemma Layout(first: seq<Command>, bs: seq<Box>, d: DataAnswers, cs: seq<Command>)
    requires cs == first + Lines(bs) + [Data(d)]
    ensures |cs| == |first| + |bs| + 1 && cs[|first| + |bs|] == Data(d)
    ensures forall k :: 0 <= k < |first| ==> cs[k] == first[k]
    ensures forall k :: 0 <= k < |bs| ==> cs[|first| + k] == Line(bs[k])
  {
  }
}
