/** The command state machine of one SMTP connection, from the greeting to the
    reply after DATA. */
module SmtpSession {
  import opened Text
  import opened Runs
  import opened SmtpDelivery
  import Routing

  // ---- settings, fixed for the session, and the backend's answers ----

  datatype Mode = Inbound | Submission

  datatype Settings = Settings(
    mode: Mode,
    maxSize: nat,
    maxRecipients: nat,
    implicitTls: bool,
    tlsConfigured: bool,
    hasAuthenticate: bool,
    hasMaySend: bool,
    hasScreen: bool,
    hasForward: bool,
    postmaster: string,
    isLocal: string -> bool,
    route: string -> Option<Shape>)

  /** The backend of the running server: hosted domains and their routing. */
  function RouteOf(hosted: Routing.Config, srs: Routing.Srs): string -> Option<Shape> {
    (addr: string) =>
      var plan := Routing.Plan(hosted, srs, addr);
      if Routing.Found(plan) then Some(PlanShape(|plan.local|, |plan.remote|)) else None
  }

  /** Routing never reports an empty plan as found. */
  ghost predicate RoutesLead(cfg: Settings) {
    forall a :: cfg.route(a).Some? ==> cfg.route(a).value.PlanShape? && Sound(cfg.route(a).value, true)
  }

  lemma RoutingLeads(cfg: Settings, hosted: Routing.Config, srs: Routing.Srs)
    requires cfg.route == RouteOf(hosted, srs)
    ensures RoutesLead(cfg)
  {
  }

  // ---- session state ----

  /** An accepted recipient: RelayShape marks one to be queued for another
      server, any other shape is its local delivery plan. */
  datatype Rcpt = Rcpt(addr: string, domain: string, plan: Shape)
  {
    predicate Remote() { plan.RelayShape? }
  }

  datatype State = State(helo: string, tls: bool, authed: string, from: string, fromSet: bool, rcpts: seq<Rcpt>)
  {
    function Reset(): State { this.(from := "", fromSet := false, rcpts := []) }
  }

  function Fresh(cfg: Settings): State { State("", cfg.implicitTls, "", "", false, []) }

  // ---- commands, with what the outside answers while they run ----

  datatype AuthAnswer = Granted | Locked | Refused

  datatype DataAnswers = DataAnswers(
    rateOk: bool,          // per-address or per-user message limit
    maySend: bool,         // reputation
    ruleOk: bool,          // custom limits
    goAheadSent: bool,     // the 354 reply could be written
    size: Option<nat>,     // None: the connection broke while reading
    restRead: bool,        // the tail of an oversized message could be read
    rejected: bool,        // screening
    tries: seq<RcptTry>)   // one delivery per recipient

  datatype Command =
    | Helo(arg: string)
    | StartTls(replied: bool, handshake: bool)
    | Auth(arg: string, said: seq<Option<string>>, answer: AuthAnswer)
    | Mail(arg: string)
    | RcptTo(arg: string, quotaOk: bool, ruleOk: bool)
    | Data(answers: DataAnswers)
    | Rset
    | Quit
    | Idle(code: int)   // NOOP, HELP, VRFY, EXPN and anything unknown

  // ---- arguments ----

  datatype Path = Path(addr: string, params: seq<string>)

  /** "FROM:<a@b> SIZE=123", with an obsolete source route stripped. */
  function ParsePath(arg: string, prefix: string): Option<Path> {
    if |arg| < |prefix| || Lower(arg[..|prefix|]) != Lower(prefix) then None
    else
      var rest := TrimSpace(arg[|prefix|..]);
      var end := IndexOf(rest, '>');
      if rest == "" || rest[0] != '<' || end == |rest| then None
      else Some(Path(StripRoute(rest[1..end]), Fields(rest[end + 1..])))
  }

  function StripRoute(addr: string): string {
    var i := LastIndexOf(addr, ':');
    if i >= 0 && addr[0] == '@' then addr[i + 1..] else addr
  }

  /** strconv.ParseInt(v, 10, 64), refusing negative numbers. */
  function ParseSize(v: string): Option<nat> {
    var digits := if v != "" && (v[0] == '+' || v[0] == '-') then v[1..] else v;
    if digits == "" || !AllDigits(digits) then None
    else
      var n := DigitsValue(digits);
      if v[0] == '-' && n > 0 then None
      else if n >= 0x8000_0000_0000_0000 then None
      else Some(n)
  }

  /** The first SIZE= parameter, 0 without one; None when malformed. */
  function SizeParam(params: seq<string>): Option<nat> {
    if params == [] then Some(0)
    else if |params[0]| >= 5 && Upper(params[0])[..5] == "SIZE=" then ParseSize(Upper(params[0])[5..])
    else SizeParam(params[1..])
  }

  function DomainOf(email: string): Option<string> {
    var at := LastIndexOf(email, '@');
    if at <= 0 || at == |email| - 1 then None else Some(Lower(email[at + 1..]))
  }

  predicate HeloSafe(c: char) {
    'a' <= c <= 'z' || 'A' <= c <= 'Z' || '0' <= c <= '9' || c in ".-:[]_?"
  }

  function SanitizeHelo(h: string): (r: string)
    ensures |r| <= 255 && (h != "" ==> r != "")
    ensures forall i :: 0 <= i < |r| ==> HeloSafe(r[i])
  {
    seq(if |h| > 255 then 255 else |h|, i requires 0 <= i < |h| => if HeloSafe(h[i]) then h[i] else '?')
  }

  // ---- authentication dialogues ----

  function PlainUser(raw: string): Option<string> {
    var parts := Split(raw, '\0');
    if |parts| != 3 || parts[1] == "" then None else Some(parts[1])
  }

  /** The user name a dialogue produces. said holds the decoded client lines;
      None stands for a cancelled or undecodable one. */
  function AuthUser(arg: string, said: seq<Option<string>>): Option<string> {
    var mech := Upper(arg[..IndexOf(arg, ' ')]);
    if mech == "PLAIN" then
      if |said| >= 1 && said[0].Some? then PlainUser(said[0].value) else None
    else if mech == "LOGIN" then
      if |said| >= 2 && said[0].Some? && said[1].Some? then said[0] else None
    else None
  }

  predicate KnownMechanism(arg: string) { Upper(arg[..IndexOf(arg, ' ')]) in {"PLAIN", "LOGIN"} }

  // ---- replies: the decision of each command ----

  function StartTlsCode(cfg: Settings, s: State): int {
    if !cfg.tlsConfigured then 454 else if s.tls then 503 else 220
  }

  function AuthCode(cfg: Settings, s: State, c: Command): int
    requires c.Auth?
  {
    if cfg.mode.Inbound? || !cfg.hasAuthenticate then 503
    else if !s.tls then 530
    else if s.authed != "" then 503
    else if !KnownMechanism(c.arg) then 504
    else if AuthUser(c.arg, c.said).None? then 501
    else match c.answer case Granted => 235 case Locked => 454 case Refused => 535
  }

  function MailCode(cfg: Settings, s: State, arg: string): int {
    if s.helo == "" || s.fromSet then 503
    else if cfg.mode.Submission? && s.authed == "" then 530
    else
      match ParsePath(arg, "FROM:")
      case None => 501
      case Some(p) =>
        var size := SizeParam(p.params);
        if size.None? then 501
        else if size.value > cfg.maxSize then 552
        else if cfg.mode.Submission? && Lower(p.addr) != s.authed then 553
        else 250
  }

  function RcptAddr(cfg: Settings, addr: string): string {
    var a := Lower(TrimSpace(addr));
    if a == "postmaster" && cfg.postmaster != "" then cfg.postmaster else a
  }

  function RcptCode(cfg: Settings, s: State, c: Command): int
    requires c.RcptTo?
  {
    if !s.fromSet then 503
    else if |s.rcpts| >= cfg.maxRecipients then 452
    else
      match ParsePath(c.arg, "TO:")
      case None => 501
      case Some(p) =>
        var addr := RcptAddr(cfg, p.addr);
        match DomainOf(addr)
        case None => 501
        case Some(domain) =>
          if cfg.mode.Inbound? && !cfg.isLocal(domain) then 554
          else if !c.quotaOk || !c.ruleOk then 452
          else if cfg.isLocal(domain) && cfg.route(addr).None? then 550
          else 250
  }

  function RcptOf(cfg: Settings, addr: string): Rcpt {
    var domain := DomainOf(addr);
    if domain.Some? && cfg.isLocal(domain.value) && cfg.route(addr).Some?
    then Rcpt(addr, domain.value, cfg.route(addr).value)
    else Rcpt(addr, "", RelayShape)
  }

  /** What an accepted RCPT adds. */
  function Added(cfg: Settings, s: State, c: Command): seq<Rcpt> {
    if c.RcptTo? && RcptCode(cfg, s, c) == 250
    then [RcptOf(cfg, RcptAddr(cfg, ParsePath(c.arg, "TO:").value.addr))]
    else []
  }

  /** How far DATA gets. */
  datatype DataEnd =
    | Early(code: int)     // refused, the transaction stays open
    | Closed(code: int)    // refused with 421
    | Broken               // connection lost without a reply
    | Refusal(code: int)   // body read and refused, transaction over
    | Delivery             // body handed to the recipients, transaction over

  function DataResult(cfg: Settings, s: State, d: DataAnswers): DataEnd {
    if s.rcpts == [] then Early(503)
    else if !d.rateOk then (if cfg.mode.Inbound? then Closed(421) else Early(452))
    else if cfg.mode.Submission? && cfg.hasMaySend && !d.maySend then Early(450)
    else if !d.ruleOk then Early(452)
    else if !d.goAheadSent || d.size.None? then Broken
    else if d.size.value > cfg.maxSize then (if d.restRead then Refusal(552) else Broken)
    else if cfg.mode.Inbound? && cfg.hasScreen && d.rejected then Refusal(550)
    else Delivery
  }

  // ---- the whole step ----

  /** code 0 means that no reply was sent. */
  datatype Outcome = Outcome(state: State, code: int, quit: bool, log: seq<Effect>)

  function Step(cfg: Settings, s: State, c: Command): Outcome {
    match c
    case Helo(arg) =>
      if arg == "" then Outcome(s, 501, false, [])
      else Outcome(s.Reset().(helo := SanitizeHelo(arg)), 250, false, [])
    case StartTls(replied, handshake) =>
      var code := StartTlsCode(cfg, s);
      if code != 220 then Outcome(s, code, false, [])
      else if replied && handshake then Outcome(s.Reset().(helo := "", tls := true), 220, false, [])
      else Outcome(s, 220, true, [])
    case Auth(arg, said, _) =>
      var code := AuthCode(cfg, s, c);
      Outcome(if code == 235 then s.(authed := Lower(AuthUser(arg, said).value)) else s, code, false, [])
    case Mail(arg) =>
      var code := MailCode(cfg, s, arg);
      Outcome(if code == 250 then s.(from := Lower(ParsePath(arg, "FROM:").value.addr), fromSet := true) else s, code, false, [])
    case RcptTo(_, _, _) =>
      Outcome(s.(rcpts := s.rcpts + Added(cfg, s, c)), RcptCode(cfg, s, c), false, [])
    case Data(d) =>
      DataOutcome(cfg, s, d)
    case Rset => Outcome(s.Reset(), 250, false, [])
    case Quit => Outcome(s, 221, true, [])
    case Idle(code) => Outcome(s, code, false, [])
  }

  function DataOutcome(cfg: Settings, s: State, d: DataAnswers): Outcome {
    match DataResult(cfg, s, d)
    case Early(code) => Outcome(s, code, false, [])
    case Closed(code) => Outcome(s, code, true, [])
    case Broken => Outcome(s, 0, true, [])
    case Refusal(code) => Outcome(s.Reset(), code, false, [])
    case Delivery => Outcome(s.Reset(), Reply(d.tries, cfg.hasForward), false, AllEffects(d.tries, cfg.hasForward))
  }

  // ---- runs ----

  function Plans(rs: seq<Rcpt>): (ss: seq<Shape>)
    ensures |ss| == |rs| && forall i :: 0 <= i < |rs| ==> ss[i] == rs[i].plan
  {
    seq(|rs|, i requires 0 <= i < |rs| => rs[i].plan)
  }

  /** DATA delivers to the recipients of the transaction, following their plans. */
  predicate Answers(s: State, c: Command) {
    c.Data? ==> AllFit(c.answers.tries, Plans(s.rcpts))
  }

  datatype World = World(state: State, open: bool)

  predicate Next(cfg: Settings, w: World, c: Command, w': World) {
    && w.open && Answers(w.state, c)
    && w' == World(Step(cfg, w.state, c).state, !Step(cfg, w.state, c).quit)
  }

  function Steps(cfg: Settings): (World, Command, World) -> bool {
    (w: World, c: Command, w': World) => Next(cfg, w, c, w')
  }

  ghost predicate IsSession(cfg: Settings, ws: seq<World>, cs: seq<Command>) {
    IsRun(ws, cs, Steps(cfg)) && ws[0] == World(Fresh(cfg), true)
  }

  // ---- what holds in every state ----

  predicate Ordered(s: State) {
    (s.rcpts != [] ==> s.fromSet) && (s.fromSet ==> s.helo != "")
  }

  predicate Trusted(cfg: Settings, s: State) {
    && (s.authed != "" ==> s.tls && cfg.mode.Submission?)
    && (cfg.mode.Submission? && s.fromSet ==> s.authed != "" && s.from == s.authed)
  }

  /** Each recipient is routed as its own address says; relays only leave from
      the submission port. */
  predicate RcptOk(cfg: Settings, r: Rcpt) {
    && (r.Remote() ==> cfg.mode.Submission?)
    && (!r.Remote() ==> cfg.isLocal(r.domain) && DomainOf(r.addr) == Some(r.domain) && cfg.route(r.addr) == Some(r.plan))
  }

  predicate RcptsOk(cfg: Settings, s: State) {
    |s.rcpts| <= cfg.maxRecipients && forall i :: 0 <= i < |s.rcpts| ==> RcptOk(cfg, s.rcpts[i])
  }

  predicate Inv(cfg: Settings, s: State) { Ordered(s) && Trusted(cfg, s) && RcptsOk(cfg, s) }

  lemma AddedIsOk(cfg: Settings, s: State, c: Command)
    requires RoutesLead(cfg)
    ensures |Added(cfg, s, c)| <= 1
    ensures Added(cfg, s, c) != [] ==> RcptOk(cfg, Added(cfg, s, c)[0]) && s.fromSet && |s.rcpts| < cfg.maxRecipients
  {
  }

  lemma StepKeeps(cfg: Settings, s: State, c: Command)
    requires RoutesLead(cfg) && Inv(cfg, s)
    ensures Inv(cfg, Step(cfg, s, c).state)
  {
    AddedIsOk(cfg, s, c);
  }

  /** The guarantees of the protocol hold in every state of every session. */
  lemma SessionIsSafe(cfg: Settings, ws: seq<World>, cs: seq<Command>, i: nat)
    requires RoutesLead(cfg) && IsSession(cfg, ws, cs) && i < |ws|
    ensures Inv(cfg, ws[i].state)
  {
    var inv := (w: World) => Inv(cfg, w.state);
    forall w, c, w' | inv(w) && Steps(cfg)(w, c, w') ensures inv(w') {
      StepKeeps(cfg, w.state, c);
    }
    Invariant(ws, cs, Steps(cfg), inv, i);
  }

  lemma SessionStep(cfg: Settings, ws: seq<World>, cs: seq<Command>, k: nat)
    requires RoutesLead(cfg) && IsSession(cfg, ws, cs) && k < |cs|
    ensures Inv(cfg, ws[k].state) && Answers(ws[k].state, cs[k])
  {
    SessionIsSafe(cfg, ws, cs, k);
    var c := cs[k];
  }

  // ---- what deliveries stand for ----

  lemma {:induction false} OnlyRelaysQueue(rs: seq<RcptTry>, hook: bool)
    requires forall r :: r in rs ==> r.Plan?
    ensures Enqueued !in AllEffects(rs, hook)
    decreases |rs|
  {
    if rs != [] {
      OnlyRelaysQueue(rs[..|rs| - 1], hook);
      var r := rs[|rs| - 1];
      PlansNeverQueue(r.local, r.remote, hook);
    }
  }

  lemma {:induction false} ForwardsNeverQueue(oks: seq<bool>, hook: bool)
    ensures Enqueued !in Forwards(oks, hook)
    decreases |oks|
  {
    if oks != [] { ForwardsNeverQueue(oks[..|oks| - 1], hook); }
  }

  lemma {:induction false} PlansNeverQueue(ts: seq<LocalTry>, remote: seq<bool>, hook: bool)
    ensures Enqueued !in PlanEffects(ts, remote, hook)
    decreases |ts|
  {
    ForwardsNeverQueue(remote, hook);
    if ts != [] {
      PlansNeverQueue(ts[..|ts| - 1], remote, hook);
      ForwardsNeverQueue(ts[|ts| - 1].filterForwards, hook);
    }
  }

  lemma InboundPlansOnly(cfg: Settings, s: State, tries: seq<RcptTry>)
    requires RcptsOk(cfg, s) && cfg.mode.Inbound? && AllFit(tries, Plans(s.rcpts))
    ensures Enqueued !in AllEffects(tries, cfg.hasForward)
  {
    forall r | r in tries ensures r.Plan? {
      var i :| 0 <= i < |tries| && tries[i] == r;
      assert RcptOk(cfg, s.rcpts[i]);
    }
    OnlyRelaysQueue(tries, cfg.hasForward);
  }

  lemma InboundStepNeverQueues(cfg: Settings, s: State, c: Command)
    requires RcptsOk(cfg, s) && cfg.mode.Inbound? && Answers(s, c)
    ensures Enqueued !in Step(cfg, s, c).log
  {
    if c.Data? { InboundPlansOnly(cfg, s, c.answers.tries); }
  }

  /** No open relay: whatever a client of the inbound port sends, nothing is
      ever queued for a recipient it named. */
  lemma NoOpenRelay(cfg: Settings, ws: seq<World>, cs: seq<Command>, k: nat)
    requires RoutesLead(cfg) && IsSession(cfg, ws, cs) && k < |cs|
    requires cfg.mode.Inbound?
    ensures Enqueued !in Step(cfg, ws[k].state, cs[k]).log
  {
    SessionStep(cfg, ws, cs, k);
    InboundStepNeverQueues(cfg, ws[k].state, cs[k]);
  }

  /** Submission acts only for an authenticated user, over TLS, under that
      user's own address. */
  lemma SubmissionActsForUser(cfg: Settings, ws: seq<World>, cs: seq<Command>, k: nat)
    requires RoutesLead(cfg) && IsSession(cfg, ws, cs) && k < |cs|
    requires cfg.mode.Submission?
    requires Step(cfg, ws[k].state, cs[k]).log != []
    ensures ws[k].state.tls && ws[k].state.authed != "" && ws[k].state.from == ws[k].state.authed
  {
    SessionIsSafe(cfg, ws, cs, k);
  }

  lemma RoutedIsSound(cfg: Settings, s: State)
    requires RoutesLead(cfg) && Inv(cfg, s) && cfg.hasForward
    ensures forall p :: p in Plans(s.rcpts) ==> Sound(p, cfg.hasForward)
  {
    forall p | p in Plans(s.rcpts) ensures Sound(p, cfg.hasForward) {
      var i :| 0 <= i < |s.rcpts| && Plans(s.rcpts)[i] == p;
      assert RcptOk(cfg, s.rcpts[i]);
    }
  }

  lemma ReplyIsHonest(cfg: Settings, s: State, d: DataAnswers)
    requires RoutesLead(cfg) && Inv(cfg, s) && cfg.hasForward && AllFit(d.tries, Plans(s.rcpts))
    ensures DataOutcome(cfg, s, d).code == 250 <==> DataOutcome(cfg, s, d).log != []
  {
    if DataResult(cfg, s, d).Delivery? {
      RoutedIsSound(cfg, s);
      AcceptedExactly(Plans(s.rcpts), cfg.hasForward);
      if Reply(d.tries, cfg.hasForward) != 250 { TemporaryMeansNothingDone(d.tries, cfg.hasForward); }
    }
  }

  /** With the forward hook wired, the reply to DATA is honest in every
      session: 250 exactly when something was stored, forwarded, queued or
      deliberately discarded. */
  lemma DataReplyIsHonest(cfg: Settings, ws: seq<World>, cs: seq<Command>, k: nat)
    requires RoutesLead(cfg) && IsSession(cfg, ws, cs) && k < |cs|
    requires cs[k].Data? && cfg.hasForward
    ensures Step(cfg, ws[k].state, cs[k]).code == 250 <==> Step(cfg, ws[k].state, cs[k]).log != []
  {
    SessionStep(cfg, ws, cs, k);
    ReplyIsHonest(cfg, ws[k].state, cs[k].answers);
  }

  // ---- the state is what the commands so far say ----

  /** c is a MAIL accepted in s, for this sender. */
  predicate Opens(cfg: Settings, s: State, c: Command, from: string) {
    c.Mail? && MailCode(cfg, s, c.arg) == 250 && from == Lower(ParsePath(c.arg, "FROM:").value.addr)
  }

  /** c is an AUTH granted in s, over TLS, to this user. */
  predicate Grants(cfg: Settings, s: State, c: Command, user: string) {
    c.Auth? && s.tls && AuthCode(cfg, s, c) == 235 && user == Lower(AuthUser(c.arg, c.said).value)
  }

  predicate Greets(c: Command, helo: string) {
    c.Helo? && c.arg != "" && helo == SanitizeHelo(c.arg)
  }

  /** The commands that matter to the state: the one that greets, opens a
      transaction or grants a user, and what each adds to the recipients. */
  datatype Story = Story(
    greets: (Command, string) -> bool,
    opens: (State, Command, string) -> bool,
    grants: (State, Command, string) -> bool,
    adds: (State, Command) -> seq<Rcpt>)

  function StoryOf(cfg: Settings): Story {
    Story(Greets, (s, c, from) => Opens(cfg, s, c, from), (s, c, user) => Grants(cfg, s, c, user), (s, c) => Added(cfg, s, c))
  }

  predicate Tells(t: Story, s: State, c: Command, s': State) {
    && (s'.tls == s.tls || (s'.tls && s'.helo == ""))
    && (s'.helo == s.helo || s'.helo == "" || (t.greets(c, s'.helo) && s'.tls == s.tls))
    && (s'.authed == s.authed || (t.grants(s, c, s'.authed) && s'.tls))
    && (s'.fromSet ==> s'.helo == s.helo && s.helo != "" && s'.tls == s.tls)
    && (s'.fromSet && s.fromSet ==> s'.from == s.from && s'.rcpts == s.rcpts + t.adds(s, c))
    && (s'.fromSet && !s.fromSet ==> s'.rcpts == [] && t.opens(s, c, s'.from))
  }

  lemma StepTells(cfg: Settings, s: State, c: Command)
    requires Ordered(s)
    ensures Tells(StoryOf(cfg), s, c, Step(cfg, s, c).state)
  {
  }

  ghost predicate Told(t: Story, ws: seq<World>, cs: seq<Command>) {
    && |ws| == |cs| + 1
    && ws[0].state.helo == "" && ws[0].state.authed == "" && !ws[0].state.fromSet
    && forall k {:trigger cs[k]} :: 0 <= k < |cs| ==> Tells(t, ws[k].state, cs[k], ws[k + 1].state)
  }

  lemma SessionTells(cfg: Settings, ws: seq<World>, cs: seq<Command>)
    requires RoutesLead(cfg) && IsSession(cfg, ws, cs)
    ensures Told(StoryOf(cfg), ws, cs)
  {
    forall k {:trigger cs[k]} | 0 <= k < |cs| ensures Tells(StoryOf(cfg), ws[k].state, cs[k], ws[k + 1].state) {
      SessionIsSafe(cfg, ws, cs, k);
      var c := cs[k];
      StepTells(cfg, ws[k].state, c);
    }
  }

  /** Command h gave the present greeting, and no STARTTLS succeeded since. */
  ghost predicate GreetedAt(t: Story, ws: seq<World>, cs: seq<Command>, h: nat, i: nat) {
    && h < i <= |cs| && |cs| < |ws|
    && t.greets(cs[h], ws[i].state.helo)
    && forall j :: h < j <= i ==> ws[j].state.tls == ws[i].state.tls
  }

  lemma {:induction false} GreetingGiven(t: Story, ws: seq<World>, cs: seq<Command>, i: nat) returns (h: nat)
    requires Told(t, ws, cs) && i < |ws|
    requires ws[i].state.helo != ""
    ensures GreetedAt(t, ws, cs, h, i)
  {
    var c := cs[i - 1];
    if ws[i].state.helo == ws[i - 1].state.helo {
      h := GreetingGiven(t, ws, cs, i - 1);
    } else {
      h := i - 1;
    }
  }

  /** What commands m..i added, in order. */
  function Collected(t: Story, ws: seq<World>, cs: seq<Command>, m: nat, i: nat): seq<Rcpt>
    requires m <= i <= |cs|
    requires |cs| < |ws|
    decreases i
  {
    if m == i then [] else Collected(t, ws, cs, m, i - 1) + t.adds(ws[i - 1].state, cs[i - 1])
  }

  /** Command m opened the transaction: it came after the greeting, the
      transaction was open ever since, and its recipients are exactly those
      added since, in order. */
  ghost predicate OpenedAt(t: Story, ws: seq<World>, cs: seq<Command>, h: nat, m: nat, i: nat) {
    && h < m < i && GreetedAt(t, ws, cs, h, i)
    && t.opens(ws[m].state, cs[m], ws[i].state.from)
    && (forall j :: m < j <= i ==> ws[j].state.fromSet)
    && ws[i].state.rcpts == Collected(t, ws, cs, m + 1, i)
  }

  lemma {:induction false} OpeningGiven(t: Story, ws: seq<World>, cs: seq<Command>, i: nat) returns (h: nat, m: nat)
    requires Told(t, ws, cs) && i < |ws|
    requires ws[i].state.fromSet
    ensures OpenedAt(t, ws, cs, h, m, i)
  {
    var c := cs[i - 1];
    if ws[i - 1].state.fromSet {
      h, m := OpeningGiven(t, ws, cs, i - 1);
    } else {
      h := GreetingGiven(t, ws, cs, i - 1);
      m := i - 1;
    }
  }

  /** Every open transaction was opened by an accepted MAIL that followed a
      HELO or EHLO given since the last STARTTLS; its recipients are exactly
      the RCPTs accepted since that MAIL. */
  lemma TransactionHistory(cfg: Settings, ws: seq<World>, cs: seq<Command>, i: nat) returns (h: nat, m: nat)
    requires RoutesLead(cfg) && IsSession(cfg, ws, cs) && i < |ws|
    requires ws[i].state.fromSet
    ensures OpenedAt(StoryOf(cfg), ws, cs, h, m, i)
  {
    SessionTells(cfg, ws, cs);
    h, m := OpeningGiven(StoryOf(cfg), ws, cs, i);
  }

  ghost predicate GrantedAt(t: Story, ws: seq<World>, cs: seq<Command>, k: nat, i: nat) {
    && k < i <= |cs| && |cs| < |ws|
    && t.grants(ws[k].state, cs[k], ws[i].state.authed)
    && forall j :: k < j <= i ==> ws[j].state.authed == ws[i].state.authed && ws[j].state.tls
  }

  lemma {:induction false} GrantGiven(t: Story, ws: seq<World>, cs: seq<Command>, i: nat) returns (k: nat)
    requires Told(t, ws, cs) && i < |ws|
    requires ws[i].state.authed != ""
    ensures GrantedAt(t, ws, cs, k, i)
  {
    var c := cs[i - 1];
    if ws[i].state.authed == ws[i - 1].state.authed {
      k := GrantGiven(t, ws, cs, i - 1);
    } else {
      k := i - 1;
    }
  }

  /** An authenticated user was granted by an AUTH command, over TLS, and
      neither changed since. */
  lemma AuthHistory(cfg: Settings, ws: seq<World>, cs: seq<Command>, i: nat) returns (k: nat)
    requires RoutesLead(cfg) && IsSession(cfg, ws, cs) && i < |ws|
    requires ws[i].state.authed != ""
    ensures GrantedAt(StoryOf(cfg), ws, cs, k, i)
  {
    SessionTells(cfg, ws, cs);
    k := GrantGiven(StoryOf(cfg), ws, cs, i);
  }

  // ---- the session object ----

  class Session {
    const cfg: Settings
    var helo: string
    var tls: bool
    var authed: string
    var from: string
    var fromSet: bool
    var rcpts: seq<Rcpt>

    ghost function Value(): State reads this { State(helo, tls, authed, from, fromSet, rcpts) }

    constructor (cfg: Settings)
      ensures this.cfg == cfg && Value() == Fresh(cfg)
    {
      this.cfg := cfg;
      helo, tls, authed, from, fromSet, rcpts := "", cfg.implicitTls, "", "", false, [];
    }

    method ResetTransaction()
      modifies this
      ensures Value() == old(Value()).Reset()
    {
      from, fromSet, rcpts := "", false, [];
    }

    method CmdHelo(arg: string) returns (code: int)
      modifies this
      ensures Outcome(Value(), code, false, []) == Step(cfg, old(Value()), Helo(arg))
    {
      if arg == "" { return 501; }
      helo := SanitizeHelo(arg);
      ResetTransaction();
      return 250;
    }

    method CmdStartTls(replied: bool, handshake: bool) returns (code: int, quit: bool)
      modifies this
      ensures Outcome(Value(), code, quit, []) == Step(cfg, old(Value()), StartTls(replied, handshake))
    {
      if !cfg.tlsConfigured { return 454, false; }
      if tls { return 503, false; }
      if !replied { return 220, true; }
      if !handshake { return 220, true; }
      tls := true;
      helo := "";
      ResetTransaction();
      return 220, false;
    }

    method CmdAuth(arg: string, said: seq<Option<string>>, answer: AuthAnswer) returns (code: int)
      modifies this
      ensures Outcome(Value(), code, false, []) == Step(cfg, old(Value()), Auth(arg, said, answer))
    {
      if cfg.mode != Submission || !cfg.hasAuthenticate { return 503; }
      if !tls { return 530; }
      if authed != "" { return 503; }
      if !KnownMechanism(arg) { return 504; }
      var user := AuthUser(arg, said);
      if user.None? { return 501; }
      match answer
      case Granted =>
        authed := Lower(user.value);
        return 235;
      case Locked => return 454;
      case Refused => return 535;
    }

    method CmdMail(arg: string) returns (code: int)
      modifies this
      ensures Outcome(Value(), code, false, []) == Step(cfg, old(Value()), Mail(arg))
    {
      if helo == "" { return 503; }
      if fromSet { return 503; }
      if cfg.mode == Submission && authed == "" { return 530; }
      var path := ParsePath(arg, "FROM:");
      if path.None? { return 501; }
      var size := SizeParam(path.value.params);
      if size.None? { return 501; }
      if size.value > cfg.maxSize { return 552; }
      var addr := Lower(path.value.addr);
      if cfg.mode == Submission && addr != authed { return 553; }
      from := addr;
      fromSet := true;
      return 250;
    }

    method CmdRcpt(arg: string, quotaOk: bool, ruleOk: bool) returns (code: int)
      modifies this
      ensures Outcome(Value(), code, false, []) == Step(cfg, old(Value()), RcptTo(arg, quotaOk, ruleOk))
    {
      if !fromSet { return 503; }
      if |rcpts| >= cfg.maxRecipients { return 452; }
      var path := ParsePath(arg, "TO:");
      if path.None? { return 501; }
      var addr := Lower(TrimSpace(path.value.addr));
      if addr == "postmaster" && cfg.postmaster != "" { addr := cfg.postmaster; }
      var domain := DomainOf(addr);
      if domain.None? { return 501; }
      var local := cfg.isLocal(domain.value);
      if cfg.mode == Inbound {
        if !local { return 554; }
        if !quotaOk { return 452; }
      } else if !quotaOk {
        return 452;
      }
      if !ruleOk { return 452; }
      if !local {
        rcpts := rcpts + [Rcpt(addr, "", RelayShape)];
        return 250;
      }
      var plan := cfg.route(addr);
      if plan.None? { return 550; }
      rcpts := rcpts + [Rcpt(addr, domain.value, plan.value)];
      return 250;
    }

    method CmdData(d: DataAnswers) returns (code: int, quit: bool, log: seq<Effect>)
      modifies this
      ensures Outcome(Value(), code, quit, log) == Step(cfg, old(Value()), Data(d))
    {
      log := [];
      if |rcpts| == 0 { return 503, false, log; }
      if cfg.mode == Inbound {
        if !d.rateOk { return 421, true, log; }
      } else if !d.rateOk {
        return 452, false, log;
      } else if cfg.hasMaySend {
        if !d.maySend { return 450, false, log; }
      }
      if !d.ruleOk { return 452, false, log; }
      if !d.goAheadSent { return 0, true, log; }
      if d.size.None? { return 0, true, log; }
      if d.size.value > cfg.maxSize {
        if !d.restRead { return 0, true, log; }
        ResetTransaction();
        return 552, false, log;
      }
      if cfg.mode == Inbound && cfg.hasScreen && d.rejected {
        ResetTransaction();
        return 550, false, log;
      }
      code, log := DeliverAll(d.tries, cfg.hasForward);
      ResetTransaction();
      quit := false;
    }
  }
}
