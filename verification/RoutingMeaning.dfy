/** The delivery plan in terms of the configuration alone. */
module RoutingMeaning {
  import opened Text
  import opened Routing
  import opened RoutingProofs

  // ---- what the configuration says ----

  ghost predicate FirstAt<T>(s: seq<T>, p: T -> bool, x: T, i: nat) {
    i < |s| && s[i] == x && p(x) && forall j :: 0 <= j < i ==> !p(s[j])
  }

  /** x is the first element with the property. */
  ghost predicate First<T>(s: seq<T>, p: T -> bool, x: T) { exists i: nat :: FirstAt(s, p, x, i) }

  function Named(name: string): Domain -> bool { (d: Domain) => d.name == name }

  function ListedAs(addr: string): User -> bool { (u: User) => u.email == addr }

  function OwnerOf(addr: string): User -> bool { (u: User) => Lower(u.email) == Lower(addr) }

  /** d is the domain of that name; a second entry of the name is ignored. */
  ghost predicate Hosts(cfg: Config, name: string, d: Domain) { First(cfg.domains, Named(name), d) }

  ghost predicate Foreign(cfg: Config, name: string) {
    forall i :: 0 <= i < |cfg.domains| ==> cfg.domains[i].name != name
  }

  /** u is the user listed under exactly this address. */
  ghost predicate ListedUser(cfg: Config, addr: string, u: User) { First(cfg.users, ListedAs(addr), u) }

  /** u is the user of this address, letter case aside. */
  ghost predicate OwningUser(cfg: Config, addr: string, u: User) { First(cfg.users, OwnerOf(addr), u) }

  ghost predicate Unlisted(cfg: Config, addr: string) {
    forall i :: 0 <= i < |cfg.users| ==> cfg.users[i].email != addr
  }

  /** mb is the mailbox of an address: a listed user's, or in a domain bound to
      a system account without listed users that account's own. */
  ghost predicate HasMailbox(cfg: Config, a: Addr, mb: Mailbox) {
    && mb.email == Lower(a.local) + "@" + a.domain
    && exists d :: Hosts(cfg, a.domain, d) && (ListedBox(cfg, mb) || AccountBox(cfg, d, a, mb))
  }

  ghost predicate ListedBox(cfg: Config, mb: Mailbox) {
    exists u :: ListedUser(cfg, mb.email, u) && mb.dir == u.maildir
  }

  ghost predicate AccountBox(cfg: Config, d: Domain, a: Addr, mb: Mailbox) {
    && Unlisted(cfg, mb.email) && d.storage.SystemUser? && !HasUsersOf(cfg.users, a.domain)
    && Lower(a.local) == d.storage.account && mb.dir == d.storage.maildir
  }

  ghost predicate IsMailbox(cfg: Config, a: Addr) { exists mb :: HasMailbox(cfg, a, mb) }

  /** Mail for the address stays in the mailbox unless its user forwards it
      and has declined a copy. */
  ghost predicate KeepsCopy(cfg: Config, a: Addr) {
    forall u :: OwningUser(cfg, a.Text(), u) ==> u.forwardTo == [] || u.keepLocal != Some(false)
  }

  ghost predicate DeliversTo(cfg: Config, a: Addr, mb: Mailbox) { HasMailbox(cfg, a, mb) && KeepsCopy(cfg, a) }

  ghost predicate AliasNames(cfg: Config, a: Addr, t: string) {
    exists d :: Hosts(cfg, a.domain, d) && Lower(a.local) in d.aliases && t in d.aliases[Lower(a.local)]
  }

  ghost predicate IsAlias(cfg: Config, a: Addr) { exists t :: AliasNames(cfg, a, t) }

  /** A returning bounce, when SRS is on. */
  predicate IsBounce(srs: Srs, a: Addr) { srs.On? && |a.local| >= 5 && Upper(a.local[..5]) == "SRS0=" }

  ghost predicate CatchesAll(cfg: Config, a: Addr, t: string) {
    exists d :: Hosts(cfg, a.domain, d) && t in d.catchAll
  }

  /** t is among the targets of an address: the forwards of a mailbox; else
      the alias; else, for no bounce, the domain's catch-all. */
  ghost predicate Names(cfg: Config, srs: Srs, a: Addr, t: string) {
    if IsMailbox(cfg, a) then exists u :: OwningUser(cfg, a.Text(), u) && t in u.forwardTo
    else if IsAlias(cfg, a) then AliasNames(cfg, a, t)
    else !IsBounce(srs, a) && CatchesAll(cfg, a, t)
  }

  ghost predicate LeadsTo(cfg: Config, srs: Srs, a: Addr, b: Addr) {
    exists t :: Names(cfg, srs, a, t) && TargetAddr(t, a.domain) == Some(b)
  }

  /** r is what an address sends elsewhere: mail for a foreign domain goes to
      the address, a bounce of ours that reverses to its sender. */
  ghost predicate SendsTo(cfg: Config, srs: Srs, a: Addr, r: Remote) {
    match r
    case Forwarded(x) => Foreign(cfg, a.domain) && x == a.Text()
    case Reversed(x) =>
      && !Foreign(cfg, a.domain) && !IsMailbox(cfg, a) && !IsAlias(cfg, a)
      && IsBounce(srs, a) && srs.reverse(a.Text()) == Some(x)
  }

  // ---- the lookups find what is meant ----

  /** o is the answer of a search for the first element with the property. */
  ghost predicate Answers<T(!new)>(s: seq<T>, p: T -> bool, o: Option<T>) {
    match o
    case Some(x) => First(s, p, x)
    case None => forall i :: 0 <= i < |s| ==> !p(s[i])
  }

  lemma FirstUnique<T(!new)>(s: seq<T>, p: T -> bool, x: T, y: T)
    requires First(s, p, x) && First(s, p, y)
    ensures x == y
  {
    var i: nat :| FirstAt(s, p, x, i);
    var j: nat :| FirstAt(s, p, y, j);
    assert i == j;
  }

  /** The answer is right exactly for the first element. */
  lemma AnswersExactly<T(!new)>(s: seq<T>, p: T -> bool, o: Option<T>)
    requires Answers(s, p, o)
    ensures forall x :: o == Some(x) <==> First(s, p, x)
  {
    forall x | First(s, p, x) ensures o == Some(x) {
      var i: nat :| FirstAt(s, p, x, i);
      if o.Some? { FirstUnique(s, p, x, o.value); }
    }
  }

  /** Passing over an element without the property. */
  lemma AnswersTail<T(!new)>(s: seq<T>, p: T -> bool, o: Option<T>)
    requires s != [] && !p(s[0]) && Answers(s[1..], p, o)
    ensures Answers(s, p, o)
  {
    var rest := s[1..];
    assert forall k :: 1 <= k < |s| ==> s[k] == rest[k - 1];
    if o.Some? {
      var i: nat :| FirstAt(rest, p, o.value, i);
      assert FirstAt(s, p, o.value, i + 1);
    }
  }

  lemma AnswersHead<T(!new)>(s: seq<T>, p: T -> bool)
    requires s != [] && p(s[0])
    ensures Answers(s, p, Some(s[0]))
  {
    assert FirstAt(s, p, s[0], 0);
  }

  lemma {:induction false} FindDomainMeans(ds: seq<Domain>, name: string)
    ensures Answers(ds, Named(name), FindDomain(ds, name))
    decreases |ds|
  {
    if ds != [] {
      if ds[0].name == name { AnswersHead(ds, Named(name)); }
      else { FindDomainMeans(ds[1..], name); AnswersTail(ds, Named(name), FindDomain(ds[1..], name)); }
    }
  }

  lemma {:induction false} FindExactMeans(us: seq<User>, addr: string)
    ensures Answers(us, ListedAs(addr), FindExact(us, addr))
    decreases |us|
  {
    if us != [] {
      if us[0].email == addr { AnswersHead(us, ListedAs(addr)); }
      else { FindExactMeans(us[1..], addr); AnswersTail(us, ListedAs(addr), FindExact(us[1..], addr)); }
    }
  }

  lemma {:induction false} FindUserMeans(us: seq<User>, addr: string)
    ensures Answers(us, OwnerOf(addr), FindUser(us, addr))
    decreases |us|
  {
    if us != [] {
      if Lower(us[0].email) == Lower(addr) { AnswersHead(us, OwnerOf(addr)); }
      else { FindUserMeans(us[1..], addr); AnswersTail(us, OwnerOf(addr), FindUser(us[1..], addr)); }
    }
  }

  lemma DomainFound(cfg: Config, name: string)
    ensures forall d :: FindDomain(cfg.domains, name) == Some(d) <==> Hosts(cfg, name, d)
    ensures FindDomain(cfg.domains, name) == None <==> Foreign(cfg, name)
  {
    FindDomainMeans(cfg.domains, name);
    AnswersExactly(cfg.domains, Named(name), FindDomain(cfg.domains, name));
    if FindDomain(cfg.domains, name).Some? {
      var i: nat :| FirstAt(cfg.domains, Named(name), FindDomain(cfg.domains, name).value, i);
    }
  }

  lemma ListedFound(cfg: Config, addr: string)
    ensures forall u :: FindExact(cfg.users, addr) == Some(u) <==> ListedUser(cfg, addr, u)
    ensures FindExact(cfg.users, addr) == None <==> Unlisted(cfg, addr)
  {
    FindExactMeans(cfg.users, addr);
    AnswersExactly(cfg.users, ListedAs(addr), FindExact(cfg.users, addr));
    if FindExact(cfg.users, addr).Some? {
      var i: nat :| FirstAt(cfg.users, ListedAs(addr), FindExact(cfg.users, addr).value, i);
    }
  }

  lemma OwnerFound(cfg: Config, addr: string)
    ensures forall u :: FindUser(cfg.users, addr) == Some(u) <==> OwningUser(cfg, addr, u)
  {
    FindUserMeans(cfg.users, addr);
    AnswersExactly(cfg.users, OwnerOf(addr), FindUser(cfg.users, addr));
  }

  // ---- one address ----

  lemma MailboxFound(cfg: Config, a: Addr)
    requires Tidy(a)
    ensures forall mb :: StorageResolve(cfg, a.Text()) == Some(mb) <==> HasMailbox(cfg, a, mb)
    ensures StorageResolve(cfg, a.Text()).Some? <==> IsMailbox(cfg, a)
  {
    SplitText(a);
    DomainFound(cfg, a.domain);
    ListedFound(cfg, Lower(a.local) + "@" + a.domain);
  }

  lemma AliasFound(cfg: Config, a: Addr, d: Domain)
    requires Hosts(cfg, a.domain, d)
    ensures forall t :: AliasNames(cfg, a, t) <==> Lower(a.local) in d.aliases && t in d.aliases[Lower(a.local)]
    ensures IsAlias(cfg, a) <==> Lower(a.local) in d.aliases && d.aliases[Lower(a.local)] != []
    ensures forall t :: CatchesAll(cfg, a, t) <==> t in d.catchAll
  {
    DomainFound(cfg, a.domain);
    var key := Lower(a.local);
    if key in d.aliases && d.aliases[key] != [] { assert AliasNames(cfg, a, d.aliases[key][0]); }
  }

  lemma CopyFound(cfg: Config, a: Addr)
    ensures KeepsCopy(cfg, a) <==>
      match FindUser(cfg.users, a.Text()) case None => true case Some(u) => u.KeepsLocalCopy() || u.forwardTo == []
  {
    OwnerFound(cfg, a.Text());
  }

  /** The branches of the expansion, by what the lookups answer. */
  lemma ExpandBranches(cfg: Config, srs: Srs, a: Addr)
    ensures var e := Expand(cfg, srs, a); var user := FindUser(cfg.users, a.Text());
      match StorageResolve(cfg, a.Text())
      case Some(mb) => FindDomain(cfg.domains, a.domain).Some? ==>
        && e.local == (if user.None? || user.value.KeepsLocalCopy() || user.value.forwardTo == [] then Some(mb) else None)
        && e.targets == (if user.None? then [] else user.value.forwardTo)
      case None => e.local == None
  {
  }

  lemma NoDomainNoMailbox(cfg: Config, a: Addr)
    requires Tidy(a) && StorageResolve(cfg, a.Text()).Some?
    ensures FindDomain(cfg.domains, a.domain).Some?
  {
    SplitText(a);
  }

  lemma LocalMeaning(cfg: Config, srs: Srs, a: Addr)
    requires Tidy(a)
    ensures forall mb :: Expand(cfg, srs, a).local == Some(mb) <==> DeliversTo(cfg, a, mb)
  {
    MailboxFound(cfg, a);
    CopyFound(cfg, a);
    ExpandBranches(cfg, srs, a);
    if StorageResolve(cfg, a.Text()).Some? { NoDomainNoMailbox(cfg, a); }
  }

  lemma MailboxTargets(cfg: Config, srs: Srs, a: Addr)
    requires Tidy(a) && StorageResolve(cfg, a.Text()).Some?
    ensures forall t :: t in Expand(cfg, srs, a).targets <==> Names(cfg, srs, a, t)
  {
    MailboxFound(cfg, a);
    OwnerFound(cfg, a.Text());
    ExpandBranches(cfg, srs, a);
    NoDomainNoMailbox(cfg, a);
  }

  lemma OtherTargets(cfg: Config, srs: Srs, a: Addr)
    requires Tidy(a) && StorageResolve(cfg, a.Text()).None?
    ensures forall t :: t in Expand(cfg, srs, a).targets <==> Names(cfg, srs, a, t)
  {
    DomainFound(cfg, a.domain);
    MailboxFound(cfg, a);
    if FindDomain(cfg.domains, a.domain).Some? {
      AliasFound(cfg, a, FindDomain(cfg.domains, a.domain).value);
      BounceShape(a.local);
    } else {
      NothingForeign(cfg, a);
    }
  }

  lemma TargetMeaning(cfg: Config, srs: Srs, a: Addr)
    requires Tidy(a)
    ensures forall t :: t in Expand(cfg, srs, a).targets <==> Names(cfg, srs, a, t)
  {
    if StorageResolve(cfg, a.Text()).Some? { MailboxTargets(cfg, srs, a); } else { OtherTargets(cfg, srs, a); }
  }

  lemma RemoteMeaning(cfg: Config, srs: Srs, a: Addr)
    requires Tidy(a)
    ensures forall x :: Expand(cfg, srs, a).forward == Some(x) <==> SendsTo(cfg, srs, a, Forwarded(x))
    ensures forall x :: Expand(cfg, srs, a).reversed == Some(x) <==> SendsTo(cfg, srs, a, Reversed(x))
  {
    DomainFound(cfg, a.domain);
    MailboxFound(cfg, a);
    if FindDomain(cfg.domains, a.domain).Some? {
      AliasFound(cfg, a, FindDomain(cfg.domains, a.domain).value);
      BounceShape(a.local);
    }
  }

  lemma NothingForeign(cfg: Config, a: Addr)
    requires Foreign(cfg, a.domain)
    ensures !IsMailbox(cfg, a) && !IsAlias(cfg, a) && forall t :: !CatchesAll(cfg, a, t)
  {
    DomainFound(cfg, a.domain);
  }

  lemma BounceShape(local: string)
    ensures IsSrs(local) <==> |local| >= 5 && Upper(local[..5]) == "SRS0="
  {
    if |local| >= 5 { assert Upper(local)[..5] == Upper(local[..5]); }
  }

  lemma {:induction false} TargetsMean(ts: seq<string>, same: string)
    ensures forall b :: b in TargetAddrs(ts, same) <==> exists t :: t in ts && TargetAddr(t, same) == Some(b)
    decreases |ts|
  {
    if ts != [] {
      TargetsMean(ts[1..], same);
      assert ts == [ts[0]] + ts[1..];
    }
  }

  /** What the resolver makes of one address is what the configuration says. */
  lemma RoutesMean(cfg: Config, srs: Srs, a: Addr)
    requires Tidy(a)
    ensures forall mb :: Routes(cfg, srs)(a).local == Some(mb) <==> DeliversTo(cfg, a, mb)
    ensures forall b :: b in Routes(cfg, srs)(a).children <==> LeadsTo(cfg, srs, a, b)
    ensures forall r :: Sends(Routes(cfg, srs)(a), r) <==> SendsTo(cfg, srs, a, r)
  {
    LocalMeaning(cfg, srs, a);
    TargetMeaning(cfg, srs, a);
    RemoteMeaning(cfg, srs, a);
    TargetsMean(Expand(cfg, srs, a).targets, a.domain);
  }

  // ---- the whole plan ----

  /** b is led to from root over n steps. */
  ghost predicate LedBy(leads: (Addr, Addr) -> bool, root: Addr, b: Addr, n: nat)
    decreases n
  {
    if n == 0 then b == root
    else exists c :: LedBy(leads, root, c, n - 1) && leads(c, b)
  }

  ghost function Leads(cfg: Config, srs: Srs): (Addr, Addr) -> bool { (a: Addr, b: Addr) => LeadsTo(cfg, srs, a, b) }

  ghost predicate Led(cfg: Config, srs: Srs, root: Addr, b: Addr, n: nat) { LedBy(Leads(cfg, srs), root, b, n) }

  /** The relation has the edges of the graph, from tidy addresses to tidy ones. */
  ghost predicate SameEdges(g: Graph, leads: (Addr, Addr) -> bool) {
    && (forall a: Addr, b: Addr :: Tidy(a) ==> (b in g(a).children <==> leads(a, b)))
    && (forall a: Addr, b: Addr :: Tidy(a) && b in g(a).children ==> Tidy(b))
  }

  lemma {:induction false} LedByIsReach(g: Graph, leads: (Addr, Addr) -> bool, root: Addr, b: Addr, n: nat)
    requires Tidy(root) && SameEdges(g, leads)
    ensures LedBy(leads, root, b, n) <==> Reach(g, root, b, n)
    ensures Reach(g, root, b, n) ==> Tidy(b)
    decreases n
  {
    if n > 0 {
      forall c ensures LedBy(leads, root, c, n - 1) <==> Reach(g, root, c, n - 1)
        ensures Reach(g, root, c, n - 1) ==> Tidy(c)
      {
        LedByIsReach(g, leads, root, c, n - 1);
      }
    }
  }

  lemma EdgeMeans(cfg: Config, srs: Srs, a: Addr, b: Addr)
    requires Tidy(a)
    ensures b in Routes(cfg, srs)(a).children <==> Leads(cfg, srs)(a, b)
  {
    RoutesMean(cfg, srs, a);
  }

  lemma EdgesSame(g: Graph, ours: iset<string>, leads: (Addr, Addr) -> bool)
    requires Regular(g, ours)
    requires forall a: Addr, b: Addr :: Tidy(a) ==> (b in g(a).children <==> leads(a, b))
    ensures SameEdges(g, leads)
  {
    forall a: Addr, b: Addr | Tidy(a) && b in g(a).children ensures Tidy(b) { assert Lowered(b); }
  }

  lemma EdgesMean(cfg: Config, srs: Srs)
    ensures SameEdges(Routes(cfg, srs), Leads(cfg, srs))
  {
    var g, leads := Routes(cfg, srs), Leads(cfg, srs);
    RoutesAreRegular(cfg, srs);
    forall a: Addr, b: Addr | Tidy(a) ensures b in g(a).children <==> leads(a, b) { EdgeMeans(cfg, srs, a, b); }
    EdgesSame(g, Ours(cfg), leads);
  }

  lemma LedIsReach(cfg: Config, srs: Srs, root: Addr, b: Addr, n: nat)
    requires Tidy(root)
    ensures Led(cfg, srs, root, b, n) <==> Reach(Routes(cfg, srs), root, b, n)
    ensures Led(cfg, srs, root, b, n) ==> Tidy(b)
  {
    EdgesMean(cfg, srs);
    LedByIsReach(Routes(cfg, srs), Leads(cfg, srs), root, b, n);
  }

  /** The address under which a recipient or a target is expanded; a target
      that is the recipient again, written otherwise, is not. */
  ghost predicate Expanded(cfg: Config, srs: Srs, root: Addr, b: Addr, n: nat) {
    Proper(root, b) && Led(cfg, srs, root, b, n)
  }

  ghost predicate LocalWithin(cfg: Config, srs: Srs, root: Addr, mb: Mailbox, max: nat) {
    exists b, n: nat :: n <= max && Expanded(cfg, srs, root, b, n) && DeliversTo(cfg, b, mb)
  }

  ghost predicate RemoteWithin(cfg: Config, srs: Srs, root: Addr, r: Remote, max: nat) {
    exists b, n: nat :: n <= max && Expanded(cfg, srs, root, b, n) && SendsTo(cfg, srs, b, r)
  }

  /** Every mailbox and every remote address of a plan is one that the
      configuration leads to within ten steps. */
  lemma PlanIsSound(cfg: Config, srs: Srs, email: string, root: Addr)
    requires SplitAddr(email) == Some(root)
    ensures forall mb :: mb in Plan(cfg, srs, email).local ==> LocalWithin(cfg, srs, root, mb, MAX_DEPTH)
    ensures forall r :: r in Plan(cfg, srs, email).remote ==> RemoteWithin(cfg, srs, root, r, MAX_DEPTH)
  {
    var g, plan := Routes(cfg, srs), Plan(cfg, srs, email);
    SplitIsTidy(email);
    GraphPlanIsSound(cfg, srs, email);
    forall mb | mb in plan.local ensures LocalWithin(cfg, srs, root, mb, MAX_DEPTH) { LocalMeans(cfg, srs, root, mb); }
    forall r | r in plan.remote ensures RemoteWithin(cfg, srs, root, r, MAX_DEPTH) { RemoteMeans(cfg, srs, root, r); }
  }

  lemma LocalMeans(cfg: Config, srs: Srs, root: Addr, mb: Mailbox)
    requires Tidy(root) && LocalFrom(Routes(cfg, srs), root, mb)
    ensures LocalWithin(cfg, srs, root, mb, MAX_DEPTH)
  {
    var g := Routes(cfg, srs);
    var b :| Within(g, root, b, MAX_DEPTH) && g(b).local == Some(mb);
    var n: nat :| n <= MAX_DEPTH && Reach(g, root, b, n);
    LedIsReach(cfg, srs, root, b, n);
    RoutesMean(cfg, srs, b);
    assert Expanded(cfg, srs, root, b, n);
  }

  lemma RemoteMeans(cfg: Config, srs: Srs, root: Addr, r: Remote)
    requires Tidy(root) && RemoteFrom(Routes(cfg, srs), root, r)
    ensures RemoteWithin(cfg, srs, root, r, MAX_DEPTH)
  {
    var g := Routes(cfg, srs);
    var b :| Within(g, root, b, MAX_DEPTH) && Sends(g(b), r);
    var n: nat :| n <= MAX_DEPTH && Reach(g, root, b, n);
    LedIsReach(cfg, srs, root, b, n);
    RoutesMean(cfg, srs, b);
    assert Expanded(cfg, srs, root, b, n);
  }

  /** Consecutive addresses of a chain lead to each other. */
  ghost predicate IsTrail(cfg: Config, srs: Srs, p: seq<Addr>) {
    forall i :: 0 <= i < |p| - 1 ==> LeadsTo(cfg, srs, p[i], p[i + 1])
  }

  /** No chain of distinct addresses from the recipient has more than ten
      steps. */
  ghost predicate Shallow(cfg: Config, srs: Srs, root: Addr) {
    forall p: seq<Addr> :: p != [] && p[0] == root && IsTrail(cfg, srs, p) && Simple(p) ==> |p| <= MAX_DEPTH + 1
  }

  lemma {:induction false} PathIsTidy(g: Graph, ours: iset<string>, p: seq<Addr>, i: nat)
    requires Regular(g, ours) && i < |p| && Tidy(p[0]) && IsPath(g, p)
    ensures Tidy(p[i])
    decreases i
  {
    if i > 0 {
      PathIsTidy(g, ours, p, i - 1);
      assert p[i - 1 + 1] in g(p[i - 1]).children;
      assert Lowered(p[i]);
    }
  }

  lemma PathIsTrail(cfg: Config, srs: Srs, p: seq<Addr>)
    requires p != [] && Tidy(p[0]) && IsPath(Routes(cfg, srs), p)
    ensures IsTrail(cfg, srs, p)
  {
    RoutesAreRegular(cfg, srs);
    forall i | 0 <= i < |p| - 1 ensures LeadsTo(cfg, srs, p[i], p[i + 1]) {
      PathIsTidy(Routes(cfg, srs), Ours(cfg), p, i);
      RoutesMean(cfg, srs, p[i]);
    }
  }

  lemma ShallowGraph(cfg: Config, srs: Srs, root: Addr)
    requires Tidy(root) && Shallow(cfg, srs, root)
    ensures ShallowFrom(Routes(cfg, srs), root)
  {
    forall p: seq<Addr> | p != [] && p[0] == root && IsPath(Routes(cfg, srs), p) && Simple(p) ensures |p| <= MAX_DEPTH + 1 {
      PathIsTrail(cfg, srs, p);
    }
  }

  ghost predicate LocalOf(cfg: Config, srs: Srs, root: Addr, mb: Mailbox) {
    exists b, n: nat :: Expanded(cfg, srs, root, b, n) && DeliversTo(cfg, b, mb)
  }

  ghost predicate RemoteOf(cfg: Config, srs: Srs, root: Addr, r: Remote) {
    exists b, n: nat :: Expanded(cfg, srs, root, b, n) && SendsTo(cfg, srs, b, r)
  }

  /** When no chain of distinct addresses from the recipient has more than ten
      steps, the plan holds exactly the mailboxes that the configuration
      delivers to and exactly the remote addresses it sends to. */
  lemma PlanIsComplete(cfg: Config, srs: Srs, email: string, root: Addr)
    requires SplitAddr(email) == Some(root) && !Foreign(cfg, root.domain) && Shallow(cfg, srs, root)
    ensures forall mb :: mb in Plan(cfg, srs, email).local <==> LocalOf(cfg, srs, root, mb)
    ensures forall r :: r in Plan(cfg, srs, email).remote <==> RemoteOf(cfg, srs, root, r)
  {
    var plan := Plan(cfg, srs, email);
    SplitIsTidy(email);
    DomainFound(cfg, root.domain);
    ShallowGraph(cfg, srs, root);
    GraphPlanIsComplete(cfg, srs, email, root);
    forall mb ensures mb in plan.local <==> LocalOf(cfg, srs, root, mb) { LocalExactly(cfg, srs, root, mb); }
    forall r ensures r in plan.remote <==> RemoteOf(cfg, srs, root, r) { RemoteExactly(cfg, srs, root, r); }
  }

  lemma LocalExactly(cfg: Config, srs: Srs, root: Addr, mb: Mailbox)
    requires Tidy(root)
    ensures ReachableLocal(Routes(cfg, srs), root, mb) <==> LocalOf(cfg, srs, root, mb)
  {
    var g := Routes(cfg, srs);
    if ReachableLocal(g, root, mb) {
      var b :| Reachable(g, root, b) && g(b).local == Some(mb);
      var n: nat :| Reach(g, root, b, n);
      LedIsReach(cfg, srs, root, b, n);
      RoutesMean(cfg, srs, b);
      assert Expanded(cfg, srs, root, b, n);
    }
    if LocalOf(cfg, srs, root, mb) {
      var b, n: nat :| Expanded(cfg, srs, root, b, n) && DeliversTo(cfg, b, mb);
      LedIsReach(cfg, srs, root, b, n);
      RoutesMean(cfg, srs, b);
      assert Reachable(g, root, b);
    }
  }

  lemma RemoteExactly(cfg: Config, srs: Srs, root: Addr, r: Remote)
    requires Tidy(root)
    ensures ReachableRemote(Routes(cfg, srs), root, r) <==> RemoteOf(cfg, srs, root, r)
  {
    var g := Routes(cfg, srs);
    if ReachableRemote(g, root, r) {
      var b :| Reachable(g, root, b) && Sends(g(b), r);
      var n: nat :| Reach(g, root, b, n);
      LedIsReach(cfg, srs, root, b, n);
      RoutesMean(cfg, srs, b);
      assert Expanded(cfg, srs, root, b, n);
    }
    if RemoteOf(cfg, srs, root, r) {
      var b, n: nat :| Expanded(cfg, srs, root, b, n) && SendsTo(cfg, srs, b, r);
      LedIsReach(cfg, srs, root, b, n);
      RoutesMean(cfg, srs, b);
      assert Reachable(g, root, b);
    }
  }

  // ---- how targets read ----

  /** A target written as an address is that address; one written without '@'
      is a local part of the referring domain. */
  lemma TargetReads(b: Addr, same: string, local: string)
    requires Lowered(b) && local != "" && '@' !in local && !IsSpace(local[0]) && !IsSpace(local[|local| - 1])
    ensures TargetAddr(b.Text(), same) == Some(b)
    ensures TargetAddr(local, same) == Some(Addr(Lower(local), same))
  {
    SplitText(b);
    var s := b.Text();
    assert s[0] == b.local[0] && s[|s| - 1] == b.domain[|b.domain| - 1];
    TrimSpaceResult(s);
    TrimSpaceResult(local);
    LastIndexOfAt(local, '@', -1);
  }
}
