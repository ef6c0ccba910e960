/** Recipient routing: aliases, distribution lists, forwards and catch-alls
    expanded depth first into a delivery plan. */
module Routing {
  import opened Text

  const MAX_DEPTH: nat := 10

  // ---- configuration ----

  datatype User = User(email: string, maildir: string, forwardTo: seq<string>, keepLocal: Option<bool>)
  {
    predicate KeepsLocalCopy() { keepLocal.None? || keepLocal.value }
  }

  datatype Storage = Virtual | SystemUser(account: string, maildir: string)

  datatype Domain = Domain(name: string, aliases: map<string, seq<string>>, catchAll: seq<string>, storage: Storage)

  datatype Config = Config(domains: seq<Domain>, users: seq<User>)

  /** SRS reversal: off without a secret, otherwise the reversing function. */
  datatype Srs = Off | On(reverse: string -> Option<string>)

  datatype Mailbox = Mailbox(email: string, dir: string)

  // ---- addresses ----

  datatype Addr = Addr(local: string, domain: string)
  {
    function Text(): string { local + "@" + domain }
    function Key(): string { Lower(Text()) }
  }

  /** storage.Split */
  function SplitAddr(email: string): Option<Addr> {
    var e := TrimSpace(email);
    var at := LastIndexOf(e, '@');
    if at <= 0 || at == |e| - 1 then None
    else Some(Addr(e[..at], Lower(e[at + 1..])))
  }

  /** An address as Split leaves it: both parts present, no '@' in the domain,
      no white space around it. */
  predicate Tidy(a: Addr) {
    && a.local != "" && a.domain != ""
    && '@' !in a.domain && Lower(a.domain) == a.domain
    && !IsSpace(a.local[0]) && !IsSpace(a.domain[|a.domain| - 1])
  }

  predicate Lowered(a: Addr) { Tidy(a) && Lower(a.local) == a.local }

  // ---- lookups ----

  function FindDomain(ds: seq<Domain>, name: string): Option<Domain> {
    if ds == [] then None
    else if ds[0].name == name then Some(ds[0])
    else FindDomain(ds[1..], name)
  }

  /** strings.EqualFold on the email */
  function FindUser(us: seq<User>, email: string): Option<User> {
    if us == [] then None
    else if Lower(us[0].email) == Lower(email) then Some(us[0])
    else FindUser(us[1..], email)
  }

  function FindExact(us: seq<User>, email: string): Option<User> {
    if us == [] then None
    else if us[0].email == email then Some(us[0])
    else FindExact(us[1..], email)
  }

  predicate HasUsersOf(us: seq<User>, domain: string) {
    exists i :: 0 <= i < |us| && SplitAddr(us[i].email).Some? && SplitAddr(us[i].email).value.domain == domain
  }

  /** storage.Resolve */
  function StorageResolve(cfg: Config, email: string): Option<Mailbox> {
    match SplitAddr(email)
    case None => None
    case Some(a) => MailboxFor(cfg, Lower(a.local), a.domain)
  }

  function MailboxFor(cfg: Config, local: string, domain: string): Option<Mailbox> {
    var addr := local + "@" + domain;
    match FindDomain(cfg.domains, domain)
    case None => None
    case Some(d) =>
      match FindExact(cfg.users, addr)
      case Some(u) => Some(Mailbox(addr, u.maildir))
      case None =>
        if d.storage.SystemUser? && !HasUsersOf(cfg.users, domain) && local == d.storage.account
        then Some(Mailbox(addr, d.storage.maildir))
        else None
  }

  predicate IsSrs(local: string) {
    |local| >= 5 && Upper(local)[..5] == "SRS0="
  }

  // ---- one address ----

  /** target: a bare local part belongs to the referring domain. */
  function TargetAddr(t: string, sameDomain: string): Option<Addr> {
    var s := TrimSpace(t);
    if s == "" then None
    else
      match SplitAddr(s)
      case Some(a) => Some(Addr(Lower(a.local), a.domain))
      case None => Some(Addr(Lower(s), sameDomain))
  }

  function TargetAddrs(ts: seq<string>, sameDomain: string): seq<Addr> {
    if ts == [] then []
    else OptSeq(TargetAddr(ts[0], sameDomain)) + TargetAddrs(ts[1..], sameDomain)
  }

  function OptSeq<T>(o: Option<T>): seq<T> {
    match o case None => [] case Some(x) => [x]
  }

  /** What one address contributes: a mailbox, a forward, a reversed bounce
      address, and the target strings to expand next. */
  datatype Expansion = Expansion(local: Option<Mailbox>, forward: Option<string>, reversed: Option<string>, targets: seq<string>)

  function Expand(cfg: Config, srs: Srs, a: Addr): Expansion {
    match FindDomain(cfg.domains, a.domain)
    case None => Expansion(None, Some(a.Text()), None, [])
    case Some(d) =>
      match StorageResolve(cfg, a.Text())
      case Some(mb) => ExpandMailbox(mb, FindUser(cfg.users, a.Text()))
      case None =>
        var key := Lower(a.local);
        if key in d.aliases && d.aliases[key] != [] then Expansion(None, None, None, d.aliases[key])
        else if srs.On? && IsSrs(a.local) then Expansion(None, None, srs.reverse(a.Text()), [])
        else Expansion(None, None, None, d.catchAll)
  }

  function ExpandMailbox(mb: Mailbox, user: Option<User>): Expansion {
    match user
    case None => Expansion(Some(mb), None, None, [])
    case Some(u) =>
      Expansion(if u.KeepsLocalCopy() || u.forwardTo == [] then Some(mb) else None, None, None, u.forwardTo)
  }

  // ---- the expansion of a recipient ----

  /** The routing graph: what each address delivers to and leads to. */
  datatype Node = Node(local: Option<Mailbox>, forward: Option<string>, reversed: Option<string>, children: seq<Addr>)

  type Graph = Addr -> Node

  function NodeOf(e: Expansion, domain: string): Node {
    Node(e.local, e.forward, e.reversed, TargetAddrs(e.targets, domain))
  }

  function Routes(cfg: Config, srs: Srs): Graph {
    (a: Addr) => NodeOf(Expand(cfg, srs, a), a.domain)
  }

  datatype Remote = Forwarded(addr: string) | Reversed(addr: string)

  datatype State = State(seen: set<string>, local: seq<Mailbox>, remote: seq<Remote>)

  /** Marks the address and records its own destinations. */
  function Visit(st: State, key: string, n: Node): State {
    State(st.seen + {key},
          st.local + OptSeq(n.local),
          st.remote + (if n.forward.Some? then [Forwarded(n.forward.value)] else [])
                    + (if n.reversed.Some? then [Reversed(n.reversed.value)] else []))
  }

  function ResolveFrom(g: Graph, st: State, a: Addr, depth: nat): State
    requires depth <= MAX_DEPTH + 1
    decreases MAX_DEPTH + 1 - depth, 0
  {
    if depth > MAX_DEPTH then st
    else if a.Key() in st.seen then st
    else ResolveAll(g, Visit(st, a.Key(), g(a)), g(a).children, depth + 1)
  }

  function ResolveAll(g: Graph, st: State, bs: seq<Addr>, depth: nat): State
    requires 1 <= depth <= MAX_DEPTH + 1
    decreases MAX_DEPTH + 1 - depth, |bs| + 1
  {
    if bs == [] then st
    else ResolveAll(g, ResolveFrom(g, st, bs[0], depth), bs[1..], depth)
  }

  const EMPTY := State({}, [], [])

  /** Resolve: the plan of an address, empty when the domain is not ours. */
  function Plan(cfg: Config, srs: Srs, email: string): State {
    match SplitAddr(email)
    case None => EMPTY
    case Some(root) =>
      if FindDomain(cfg.domains, root.domain).None? then EMPTY
      else ResolveFrom(Routes(cfg, srs), EMPTY, root, 0)
  }

  predicate Found(plan: State) { plan.local != [] || plan.remote != [] }

  // ---- the imperative form ----

  lemma TargetsStep(g: Graph, st: State, ts: seq<string>, i: nat, same: string, depth: nat)
    requires i < |ts| && 1 <= depth <= MAX_DEPTH + 1
    ensures ResolveAll(g, st, TargetAddrs(ts[i..], same), depth)
         == match TargetAddr(ts[i], same)
            case None => ResolveAll(g, st, TargetAddrs(ts[i + 1..], same), depth)
            case Some(b) => ResolveAll(g, ResolveFrom(g, st, b, depth), TargetAddrs(ts[i + 1..], same), depth)
  {
    assert ts[i..][0] == ts[i] && ts[i..][1..] == ts[i + 1..];
    var rest := TargetAddrs(ts[i + 1..], same);
    match TargetAddr(ts[i], same)
    case None => assert [] + rest == rest;
    case Some(b) => assert ([b] + rest)[0] == b && ([b] + rest)[1..] == rest;
  }

  class Resolver {
    const cfg: Config
    const srs: Srs
    var seen: set<string>
    var local: seq<Mailbox>
    var remote: seq<Remote>

    ghost function Value(): State reads this { State(seen, local, remote) }

    constructor (cfg: Config, srs: Srs)
      ensures Value() == EMPTY && this.cfg == cfg && this.srs == srs
    {
      this.cfg, this.srs := cfg, srs;
      seen, local, remote := {}, [], [];
    }

    method Resolve(a: Addr, depth: nat)
      requires depth <= MAX_DEPTH + 1
      modifies this
      ensures Value() == ResolveFrom(Routes(cfg, srs), old(Value()), a, depth)
      decreases MAX_DEPTH + 1 - depth, 0
    {
      if depth > MAX_DEPTH { return; }
      if a.Key() in seen { return; }
      var targets := Record(a);
      Targets(targets, a.domain, depth + 1);
    }

    method Record(a: Addr) returns (targets: seq<string>)
      modifies this
      ensures Value() == Visit(old(Value()), a.Key(), Routes(cfg, srs)(a))
      ensures TargetAddrs(targets, a.domain) == Routes(cfg, srs)(a).children
    {
      var e := Expand(cfg, srs, a);
      RecordExpansion(e, a);
      targets := e.targets;
    }

    method RecordExpansion(e: Expansion, a: Addr)
      modifies this
      ensures Value() == Visit(old(Value()), a.Key(), NodeOf(e, a.domain))
    {
      seen := seen + {a.Key()};
      if e.local.Some? { local := local + [e.local.value]; }
      if e.forward.Some? { remote := remote + [Forwarded(e.forward.value)]; }
      if e.reversed.Some? { remote := remote + [Reversed(e.reversed.value)]; }
    }

    method Targets(ts: seq<string>, sameDomain: string, depth: nat)
      requires 1 <= depth <= MAX_DEPTH + 1
      modifies this
      ensures Value() == ResolveAll(Routes(cfg, srs), old(Value()), TargetAddrs(ts, sameDomain), depth)
      decreases MAX_DEPTH + 1 - depth, 1
    {
      ghost var g := Routes(cfg, srs);
      assert ts[0..] == ts;
      for i := 0 to |ts|
        invariant ResolveAll(g, Value(), TargetAddrs(ts[i..], sameDomain), depth)
               == ResolveAll(g, old(Value()), TargetAddrs(ts, sameDomain), depth)
      {
        TargetsStep(g, Value(), ts, i, sameDomain, depth);
        match TargetAddr(ts[i], sameDomain)
        case None =>
        case Some(b) => Resolve(b, depth);
      }
      assert ts[|ts|..] == [];
    }
  }
}
