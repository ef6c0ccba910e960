/** What the delivery plan contains, for every configuration. */
module RoutingProofs {
  import opened Text
  import opened Routing

  // ---- addresses ----

  lemma LowerKeepsSpace(c: char)
    ensures IsSpace(LowerChar(c)) == IsSpace(c)
    ensures LowerChar(c) == '@' <==> c == '@'
  {
  }

  lemma {:induction false} TrimLeftResult(s: string)
    ensures TrimLeft(s) == "" || !IsSpace(TrimLeft(s)[0])
    ensures s != "" && !IsSpace(s[0]) ==> TrimLeft(s) == s
  {
    if s != "" && IsSpace(s[0]) { TrimLeftResult(s[1..]); }
  }

  lemma {:induction false} TrimRightResult(s: string)
    ensures TrimRight(s) == "" || !IsSpace(TrimRight(s)[|TrimRight(s)| - 1])
    ensures TrimRight(s) <= s
    ensures s != "" && !IsSpace(s[|s| - 1]) ==> TrimRight(s) == s
  {
    if s != "" && IsSpace(s[|s| - 1]) { TrimRightResult(s[..|s| - 1]); }
  }

  lemma TrimSpaceResult(s: string)
    ensures var t := TrimSpace(s); t == "" || (!IsSpace(t[0]) && !IsSpace(t[|t| - 1]))
    ensures s != "" && !IsSpace(s[0]) && !IsSpace(s[|s| - 1]) ==> TrimSpace(s) == s
  {
    TrimLeftResult(s);
    TrimRightResult(TrimLeft(s));
  }

  lemma SplitIsTidy(email: string)
    ensures SplitAddr(email).Some? ==> Tidy(SplitAddr(email).value)
  {
    var e := TrimSpace(email);
    TrimSpaceResult(email);
    var at := LastIndexOf(e, '@');
    if 0 < at < |e| - 1 {
      var d := e[at + 1..];
      forall i | 0 <= i < |d| ensures LowerChar(d[i]) != '@' {
        assert d[i] == e[at + 1 + i];
        LowerKeepsSpace(d[i]);
      }
      LowerIdempotent(d);
      LowerKeepsSpace(e[|e| - 1]);
      assert d[|d| - 1] == e[|e| - 1];
    }
  }

  lemma LowerTidy(a: Addr)
    requires Tidy(a)
    ensures Lowered(Addr(Lower(a.local), a.domain))
  {
    LowerIdempotent(a.local);
    LowerKeepsSpace(a.local[0]);
  }

  /** Every target of a tidy address is tidy and lower-cased. */
  lemma TargetIsLowered(t: string, same: string)
    requires same != "" && '@' !in same && Lower(same) == same && !IsSpace(same[|same| - 1])
    ensures TargetAddr(t, same).Some? ==> Lowered(TargetAddr(t, same).value)
  {
    var s := TrimSpace(t);
    TrimSpaceResult(t);
    if s != "" {
      SplitIsTidy(s);
      match SplitAddr(s)
      case Some(a) => LowerTidy(a);
      case None =>
        assert Tidy(Addr(s, same));
        LowerTidy(Addr(s, same));
    }
  }

  /** Splitting the text of a tidy address gives the address back. */
  lemma SplitText(a: Addr)
    requires Tidy(a)
    ensures SplitAddr(a.Text()) == Some(a)
  {
    var s := a.Text();
    assert s[0] == a.local[0] && s[|s| - 1] == a.domain[|a.domain| - 1];
    TrimSpaceResult(s);
    assert s[|a.local|] == '@';
    assert forall j :: |a.local| < j < |s| ==> s[j] == a.domain[j - |a.local| - 1];
    LastIndexOfAt(s, '@', |a.local|);
    assert s[..|a.local|] == a.local && s[|a.local| + 1..] == a.domain;
  }

  lemma KeyParts(a: Addr)
    requires Tidy(a)
    ensures a.Key() == Lower(a.local) + "@" + a.domain
  {
    LowerConcat(a.local + "@", a.domain);
    LowerConcat(a.local, "@");
    assert Lower("@") == "@";
  }

  lemma KeysDiffer(a: Addr, b: Addr)
    requires Tidy(a) && Tidy(b) && a.Key() == b.Key()
    ensures a.domain == b.domain && Lower(a.local) == Lower(b.local)
  {
    KeyParts(a);
    KeyParts(b);
    var a', b' := Addr(Lower(a.local), a.domain), Addr(Lower(b.local), b.domain);
    LowerTidy(a);
    LowerTidy(b);
    SplitText(a');
    SplitText(b');
  }

  /** Lower-cased addresses are told apart by their keys. */
  lemma LoweredByKey(a: Addr, b: Addr)
    requires Lowered(a) && Lowered(b) && a.Key() == b.Key()
    ensures a == b
  {
    KeysDiffer(a, b);
  }

  // ---- what one address contributes depends on its key ----

  lemma {:induction false} FindUserFolds(us: seq<User>, e: string, f: string)
    requires Lower(e) == Lower(f)
    ensures FindUser(us, e) == FindUser(us, f)
  {
    if us != [] { FindUserFolds(us[1..], e, f); }
  }

  lemma UpperOfLower(s: string)
    ensures Upper(Lower(s)) == Upper(s)
  {
  }

  lemma StorageByKey(cfg: Config, a: Addr, b: Addr)
    requires Tidy(a) && Tidy(b) && a.Key() == b.Key()
    ensures StorageResolve(cfg, a.Text()) == StorageResolve(cfg, b.Text())
  {
    KeysDiffer(a, b);
    SplitText(a);
    SplitText(b);
  }

  lemma StorageIsKey(cfg: Config, a: Addr)
    requires Tidy(a)
    ensures StorageResolve(cfg, a.Text()).Some? ==> StorageResolve(cfg, a.Text()).value.email == a.Key()
  {
    SplitText(a);
    KeyParts(a);
  }

  lemma ExpandCases(cfg: Config, srs: Srs, a: Addr)
    ensures var e := Expand(cfg, srs, a);
      && (e.local.Some? ==> e.local == StorageResolve(cfg, a.Text()))
      && (e.forward.Some? ==> e.forward == Some(a.Text()) && FindDomain(cfg.domains, a.domain).None?)
  {
  }

  lemma SrsByKey(a: Addr, b: Addr)
    requires Lower(a.local) == Lower(b.local)
    ensures IsSrs(a.local) == IsSrs(b.local)
  {
    UpperOfLower(a.local);
    UpperOfLower(b.local);
  }

  lemma ExpandByKey(cfg: Config, srs: Srs, a: Addr, b: Addr)
    requires Tidy(a) && Tidy(b) && a.Key() == b.Key()
    ensures Expand(cfg, srs, a).targets == Expand(cfg, srs, b).targets
    ensures Expand(cfg, srs, a).local == Expand(cfg, srs, b).local
  {
    KeysDiffer(a, b);
    StorageByKey(cfg, a, b);
    FindUserFolds(cfg.users, a.Text(), b.Text());
    SrsByKey(a, b);
  }

  // ---- what the proofs need of a routing graph ----

  /** Children are tidy and lower-cased; a mailbox is named by the key; only
      addresses of foreign domains are forwards, under their own text; and
      mailbox and children depend on the key alone. */
  ghost predicate Regular(g: Graph, ours: iset<string>) {
    && (forall a: Addr, b: Addr :: Tidy(a) && b in g(a).children ==> Lowered(b))
    && (forall a: Addr :: Tidy(a) && g(a).local.Some? ==> g(a).local.value.email == a.Key())
    && (forall a: Addr :: Tidy(a) && g(a).forward.Some? ==> g(a).forward == Some(a.Text()) && a.domain !in ours)
    && (forall a: Addr, b: Addr :: Tidy(a) && Tidy(b) && a.Key() == b.Key() ==> g(a).children == g(b).children)
  }

  ghost function Ours(cfg: Config): iset<string> {
    iset d: string | FindDomain(cfg.domains, d).Some?
  }

  lemma {:induction false} TargetsAreLowered(ts: seq<string>, same: string)
    requires same != "" && '@' !in same && Lower(same) == same && !IsSpace(same[|same| - 1])
    ensures forall b :: b in TargetAddrs(ts, same) ==> Lowered(b)
  {
    if ts != [] {
      TargetIsLowered(ts[0], same);
      TargetsAreLowered(ts[1..], same);
    }
  }

  lemma NodeIsRegular(cfg: Config, srs: Srs, a: Addr)
    requires Tidy(a)
    ensures var n := NodeOf(Expand(cfg, srs, a), a.domain);
      && (forall b :: b in n.children ==> Lowered(b))
      && (n.local.Some? ==> n.local.value.email == a.Key())
      && (n.forward.Some? ==> n.forward == Some(a.Text()) && a.domain !in Ours(cfg))
  {
    TargetsAreLowered(Expand(cfg, srs, a).targets, a.domain);
    StorageIsKey(cfg, a);
    ExpandCases(cfg, srs, a);
  }

  lemma RoutesAreRegular(cfg: Config, srs: Srs)
    ensures Regular(Routes(cfg, srs), Ours(cfg))
  {
    var g := Routes(cfg, srs);
    forall a: Addr | Tidy(a)
      ensures forall b :: b in g(a).children ==> Lowered(b)
      ensures g(a).local.Some? ==> g(a).local.value.email == a.Key()
      ensures g(a).forward.Some? ==> g(a).forward == Some(a.Text()) && a.domain !in Ours(cfg)
    {
      NodeIsRegular(cfg, srs, a);
    }
    forall a: Addr, b: Addr | Tidy(a) && Tidy(b) && a.Key() == b.Key() ensures g(a).children == g(b).children {
      KeysDiffer(a, b);
      ExpandByKey(cfg, srs, a, b);
    }
  }

  /** b is reached from root over n edges. */
  ghost predicate Reach(g: Graph, root: Addr, b: Addr, n: nat)
    decreases n
  {
    if n == 0 then b == root
    else exists c :: Reach(g, root, c, n - 1) && b in g(c).children
  }

  /** The address under which the resolver visits a key: the root as given,
      any other lower-cased. */
  ghost predicate Proper(root: Addr, a: Addr) {
    Tidy(a) && (a == root || (Lowered(a) && a.Key() != root.Key()))
  }

  // ---- every destination is within ten edges ----

  ghost predicate Sends(n: Node, r: Remote) {
    match r
    case Forwarded(x) => n.forward == Some(x)
    case Reversed(x) => n.reversed == Some(x)
  }

  ghost predicate Within(g: Graph, root: Addr, b: Addr, max: nat) {
    Proper(root, b) && exists n: nat :: n <= max && Reach(g, root, b, n)
  }

  ghost predicate LocalFrom(g: Graph, root: Addr, mb: Mailbox) {
    exists b :: Within(g, root, b, MAX_DEPTH) && g(b).local == Some(mb)
  }

  ghost predicate RemoteFrom(g: Graph, root: Addr, r: Remote) {
    exists b :: Within(g, root, b, MAX_DEPTH) && Sends(g(b), r)
  }

  ghost predicate Justified(g: Graph, root: Addr, st: State) {
    && (forall mb :: mb in st.local ==> LocalFrom(g, root, mb))
    && (forall r :: r in st.remote ==> RemoteFrom(g, root, r))
  }

  lemma VisitAdds(st: State, key: string, n: Node)
    ensures forall mb :: mb in Visit(st, key, n).local <==> mb in st.local || n.local == Some(mb)
    ensures forall r :: r in Visit(st, key, n).remote <==> r in st.remote || Sends(n, r)
  {
  }

  lemma VisitJustified(g: Graph, root: Addr, st: State, a: Addr, depth: nat)
    requires depth <= MAX_DEPTH && Proper(root, a) && Reach(g, root, a, depth) && Justified(g, root, st)
    ensures Justified(g, root, Visit(st, a.Key(), g(a)))
  {
    VisitAdds(st, a.Key(), g(a));
    assert Within(g, root, a, MAX_DEPTH);
  }

  lemma {:induction false} ResolveJustified(g: Graph, ours: iset<string>, root: Addr, st: State, a: Addr, depth: nat)
    requires Regular(g, ours) && depth <= MAX_DEPTH + 1 && Reach(g, root, a, depth) && Justified(g, root, st)
    requires Tidy(a) && (a.Key() in st.seen || Proper(root, a))
    requires depth > 0 ==> root.Key() in st.seen
    ensures Justified(g, root, ResolveFrom(g, st, a, depth))
    decreases MAX_DEPTH + 1 - depth, 0
  {
    if depth <= MAX_DEPTH && a.Key() !in st.seen {
      VisitJustified(g, root, st, a, depth);
      AllJustified(g, ours, root, Visit(st, a.Key(), g(a)), a, g(a).children, depth + 1);
    }
  }

  lemma {:induction false} AllJustified(g: Graph, ours: iset<string>, root: Addr, st: State, a: Addr, bs: seq<Addr>, depth: nat)
    requires Regular(g, ours) && 1 <= depth <= MAX_DEPTH + 1 && Reach(g, root, a, depth - 1) && Justified(g, root, st)
    requires Tidy(a) && root.Key() in st.seen
    requires forall b :: b in bs ==> b in g(a).children
    ensures Justified(g, root, ResolveAll(g, st, bs, depth))
    decreases MAX_DEPTH + 1 - depth, |bs| + 1
  {
    if bs != [] {
      var b := bs[0];
      assert b in bs;
      assert Lowered(b) && Reach(g, root, b, depth);
      ResolveJustified(g, ours, root, st, b, depth);
      ResolveGrows(g, st, b, depth);
      AllJustified(g, ours, root, ResolveFrom(g, st, b, depth), a, bs[1..], depth);
    }
  }

  /** Nothing enters the plan but the destinations of addresses within ten
      edges of the recipient. */
  lemma GraphPlanIsSound(cfg: Config, srs: Srs, email: string)
    ensures SplitAddr(email).None? ==> Plan(cfg, srs, email) == EMPTY
    ensures SplitAddr(email).Some? ==> Justified(Routes(cfg, srs), SplitAddr(email).value, Plan(cfg, srs, email))
  {
    if SplitAddr(email).Some? {
      var root := SplitAddr(email).value;
      SplitIsTidy(email);
      RoutesAreRegular(cfg, srs);
      assert Reach(Routes(cfg, srs), root, root, 0);
      ResolveJustified(Routes(cfg, srs), Ours(cfg), root, EMPTY, root, 0);
    }
  }

  // ---- no destination twice ----

  ghost predicate NoRepeats(st: State) {
    && (forall i :: 0 <= i < |st.local| ==> st.local[i].email in st.seen)
    && (forall i, j :: 0 <= i < j < |st.local| ==> st.local[i].email != st.local[j].email)
    && (forall i :: 0 <= i < |st.remote| && st.remote[i].Forwarded? ==> st.remote[i].addr in st.seen)
    && (forall i, j :: 0 <= i < j < |st.remote| && st.remote[i].Forwarded? && st.remote[j].Forwarded? ==>
          st.remote[i].addr != st.remote[j].addr)
  }

  /** An address the resolver may be asked to expand. */
  ghost predicate Expandable(ours: iset<string>, a: Addr) {
    Tidy(a) && (Lowered(a) || a.domain in ours)
  }

  lemma VisitNoRepeats(g: Graph, ours: iset<string>, st: State, a: Addr)
    requires Regular(g, ours) && NoRepeats(st) && a.Key() !in st.seen && Expandable(ours, a)
    ensures NoRepeats(Visit(st, a.Key(), g(a)))
  {
    KeyParts(a);
    var n := g(a);
    assert n.local.Some? ==> n.local.value.email == a.Key();
    assert n.forward.Some? ==> n.forward == Some(a.Key());
  }

  lemma {:induction false} ResolveNoRepeats(g: Graph, ours: iset<string>, st: State, a: Addr, depth: nat)
    requires depth <= MAX_DEPTH + 1 && Regular(g, ours) && NoRepeats(st) && Expandable(ours, a)
    ensures NoRepeats(ResolveFrom(g, st, a, depth))
    decreases MAX_DEPTH + 1 - depth, 0
  {
    if depth <= MAX_DEPTH && a.Key() !in st.seen {
      VisitNoRepeats(g, ours, st, a);
      AllNoRepeats(g, ours, Visit(st, a.Key(), g(a)), g(a).children, depth + 1);
    }
  }

  lemma {:induction false} AllNoRepeats(g: Graph, ours: iset<string>, st: State, bs: seq<Addr>, depth: nat)
    requires 1 <= depth <= MAX_DEPTH + 1 && Regular(g, ours) && NoRepeats(st)
    requires forall b :: b in bs ==> Lowered(b)
    ensures NoRepeats(ResolveAll(g, st, bs, depth))
    decreases MAX_DEPTH + 1 - depth, |bs| + 1
  {
    if bs != [] {
      assert bs[0] in bs;
      ResolveNoRepeats(g, ours, st, bs[0], depth);
      AllNoRepeats(g, ours, ResolveFrom(g, st, bs[0], depth), bs[1..], depth);
    }
  }

  /** However the aliases fan in, a mailbox gets one copy and a forward address
      one copy. Only reversed bounce addresses may repeat. */
  lemma PlanHasNoRepeats(cfg: Config, srs: Srs, email: string)
    ensures NoRepeats(Plan(cfg, srs, email))
  {
    if SplitAddr(email).Some? {
      var root := SplitAddr(email).value;
      SplitIsTidy(email);
      RoutesAreRegular(cfg, srs);
      if FindDomain(cfg.domains, root.domain).Some? {
        ResolveNoRepeats(Routes(cfg, srs), Ours(cfg), EMPTY, root, 0);
      }
    }
  }

  // ---- completeness ----

  ghost predicate IsPath(g: Graph, p: seq<Addr>) {
    forall i :: 0 <= i < |p| - 1 ==> p[i + 1] in g(p[i]).children
  }

  ghost predicate Simple(p: seq<Addr>) {
    forall i, j :: 0 <= i < j < |p| ==> p[i].Key() != p[j].Key()
  }

  /** No chain of distinct addresses from the root is longer than the depth
      cap allows. */
  ghost predicate ShallowFrom(g: Graph, root: Addr) {
    forall p: seq<Addr> :: p != [] && p[0] == root && IsPath(g, p) && Simple(p) ==> |p| <= MAX_DEPTH + 1
  }

  ghost function Keys(p: seq<Addr>): set<string> {
    set i | 0 <= i < |p| :: p[i].Key()
  }

  ghost predicate AllSeen(bs: seq<Addr>, seen: set<string>) {
    forall b :: b in bs ==> b.Key() in seen
  }

  /** What an address already expanded leads to has been seen; open_ are the
      ones still being expanded. */
  ghost predicate Closed(g: Graph, seen: set<string>, open_: set<string>) {
    forall a: Addr :: Tidy(a) && a.Key() in seen && a.Key() !in open_ ==> AllSeen(g(a).children, seen)
  }

  ghost predicate EmittedBy(n: Node, st: State) {
    && (forall mb :: n.local == Some(mb) ==> mb in st.local)
    && (forall r :: Sends(n, r) ==> r in st.remote)
  }

  ghost predicate Emitted(g: Graph, root: Addr, st: State) {
    forall a: Addr :: Proper(root, a) && a.Key() in st.seen ==> EmittedBy(g(a), st)
  }

  /** st' contains all that st does. */
  ghost predicate Grows(st: State, st': State) {
    && st.seen <= st'.seen
    && (forall mb :: mb in st.local ==> mb in st'.local)
    && (forall r :: r in st.remote ==> r in st'.remote)
  }

  lemma VisitEmits(g: Graph, root: Addr, st: State, a: Addr)
    requires Emitted(g, root, st) && Proper(root, a) && a.Key() !in st.seen
    ensures Emitted(g, root, Visit(st, a.Key(), g(a)))
    ensures Grows(st, Visit(st, a.Key(), g(a)))
  {
    var st' := Visit(st, a.Key(), g(a));
    VisitAdds(st, a.Key(), g(a));
    forall b: Addr | Proper(root, b) && b.Key() in st'.seen ensures EmittedBy(g(b), st') {
      if b.Key() in st.seen {
        assert EmittedBy(g(b), st);
      } else if a != root && b != root {
        LoweredByKey(a, b);
      }
    }
  }

  lemma {:induction false} ResolveGrows(g: Graph, st: State, a: Addr, depth: nat)
    requires depth <= MAX_DEPTH + 1
    ensures Grows(st, ResolveFrom(g, st, a, depth))
    decreases MAX_DEPTH + 1 - depth, 0
  {
    if depth <= MAX_DEPTH && a.Key() !in st.seen {
      VisitAdds(st, a.Key(), g(a));
      AllGrows(g, Visit(st, a.Key(), g(a)), g(a).children, depth + 1);
    }
  }

  lemma {:induction false} AllGrows(g: Graph, st: State, bs: seq<Addr>, depth: nat)
    requires 1 <= depth <= MAX_DEPTH + 1
    ensures Grows(st, ResolveAll(g, st, bs, depth))
    decreases MAX_DEPTH + 1 - depth, |bs| + 1
  {
    if bs != [] {
      ResolveGrows(g, st, bs[0], depth);
      AllGrows(g, ResolveFrom(g, st, bs[0], depth), bs[1..], depth);
    }
  }

  /** The addresses being expanded form a path from the root to the parent of
      the address at hand, one per level of depth. */
  ghost predicate OnStack(g: Graph, root: Addr, path: seq<Addr>, a: Addr, st: State) {
    && (path + [a])[0] == root
    && IsPath(g, path + [a])
    && Simple(path)
    && Keys(path) <= st.seen
  }

  lemma SimpleExtends(path: seq<Addr>, a: Addr, seen: set<string>)
    requires Simple(path) && Keys(path) <= seen && a.Key() !in seen
    ensures Simple(path + [a])
    ensures Keys(path + [a]) == Keys(path) + {a.Key()}
  {
    var p := path + [a];
    forall i, j | 0 <= i < j < |p| ensures p[i].Key() != p[j].Key() {
      assert p[i] == path[i];
      assert path[i].Key() in Keys(path);
    }
    forall k | k in Keys(path) ensures k in Keys(p) {
      var i :| 0 <= i < |path| && path[i].Key() == k;
      assert p[i].Key() == k;
    }
    assert p[|path|].Key() in Keys(p);
  }

  /** The cap cuts nothing: an address at depth 11 has been seen. */
  lemma CapIsIdle(g: Graph, root: Addr, path: seq<Addr>, a: Addr, st: State)
    requires ShallowFrom(g, root) && OnStack(g, root, path, a, st) && |path| > MAX_DEPTH
    ensures a.Key() in st.seen
  {
    if a.Key() !in st.seen {
      SimpleExtends(path, a, st.seen);
    }
  }

  lemma PathExtends(g: Graph, path: seq<Addr>, a: Addr, b: Addr)
    requires IsPath(g, path + [a]) && b in g(a).children
    ensures IsPath(g, path + [a] + [b])
  {
    var p := path + [a] + [b];
    forall i | 0 <= i < |p| - 1 ensures p[i + 1] in g(p[i]).children {
      if i < |path| {
        assert p[i] == (path + [a])[i] && p[i + 1] == (path + [a])[i + 1];
      }
    }
  }

  /** Depth-first search: whatever is newly seen is fully expanded on return. */
  lemma {:induction false} ResolveCompletes(g: Graph, ours: iset<string>, root: Addr, path: seq<Addr>, st: State, a: Addr)
    requires Regular(g, ours) && ShallowFrom(g, root) && OnStack(g, root, path, a, st) && |path| <= MAX_DEPTH + 1
    requires Tidy(root) && Tidy(a) && (a.Key() !in st.seen ==> Proper(root, a))
    requires path != [] ==> root.Key() in st.seen
    requires Closed(g, st.seen, Keys(path)) && Emitted(g, root, st)
    ensures var st' := ResolveFrom(g, st, a, |path|);
      && Grows(st, st') && a.Key() in st'.seen
      && Closed(g, st'.seen, Keys(path)) && Emitted(g, root, st')
    decreases MAX_DEPTH + 1 - |path|, 0
  {
    ResolveGrows(g, st, a, |path|);
    if |path| > MAX_DEPTH {
      CapIsIdle(g, root, path, a, st);
    } else if a.Key() !in st.seen {
      var st1 := Visit(st, a.Key(), g(a));
      VisitEmits(g, root, st, a);
      SimpleExtends(path, a, st.seen);
      OpensClosed(g, st.seen, Keys(path), a);
      assert Keys(path + [a]) <= st1.seen;
      AllComplete(g, ours, root, path + [a], st1, g(a).children);
      var st' := ResolveAll(g, st1, g(a).children, |path| + 1);
      ClosesClosed(g, ours, st'.seen, Keys(path), a);
    }
  }

  lemma OpensClosed(g: Graph, seen: set<string>, open_: set<string>, a: Addr)
    requires Closed(g, seen, open_)
    ensures Closed(g, seen + {a.Key()}, open_ + {a.Key()})
  {
  }

  lemma ClosesClosed(g: Graph, ours: iset<string>, seen: set<string>, open_: set<string>, a: Addr)
    requires Regular(g, ours) && Tidy(a) && Closed(g, seen, open_ + {a.Key()}) && AllSeen(g(a).children, seen)
    ensures Closed(g, seen, open_)
  {
    forall b: Addr | Tidy(b) && b.Key() in seen && b.Key() !in open_ ensures AllSeen(g(b).children, seen) {
      if b.Key() == a.Key() { assert g(b).children == g(a).children; }
    }
  }

  lemma {:induction false} AllComplete(g: Graph, ours: iset<string>, root: Addr, path: seq<Addr>, st: State, bs: seq<Addr>)
    requires Regular(g, ours) && ShallowFrom(g, root) && 1 <= |path| <= MAX_DEPTH + 1
    requires Tidy(root) && path[0] == root && IsPath(g, path) && Simple(path) && Keys(path) <= st.seen
    requires Tidy(path[|path| - 1]) && forall b :: b in bs ==> b in g(path[|path| - 1]).children
    requires root.Key() in st.seen
    requires Closed(g, st.seen, Keys(path)) && Emitted(g, root, st)
    ensures var st' := ResolveAll(g, st, bs, |path|);
      && Grows(st, st') && AllSeen(bs, st'.seen)
      && Closed(g, st'.seen, Keys(path)) && Emitted(g, root, st')
    decreases MAX_DEPTH + 1 - |path|, |bs| + 1
  {
    if bs != [] {
      var b := bs[0];
      assert b in bs;
      StackGrows(g, root, path, b, st);
      assert Lowered(b);
      assert b.Key() !in st.seen ==> Proper(root, b);
      ResolveCompletes(g, ours, root, path, st, b);
      var st1 := ResolveFrom(g, st, b, |path|);
      assert forall c :: c in bs[1..] ==> c in bs;
      AllComplete(g, ours, root, path, st1, bs[1..]);
      SeenStays(bs, st1, ResolveAll(g, st1, bs[1..], |path|));
    }
  }

  lemma StackGrows(g: Graph, root: Addr, path: seq<Addr>, b: Addr, st: State)
    requires path != [] && path[0] == root && IsPath(g, path) && Simple(path) && Keys(path) <= st.seen
    requires b in g(path[|path| - 1]).children
    ensures OnStack(g, root, path, b, st)
  {
    var a := path[|path| - 1];
    assert path == path[..|path| - 1] + [a];
    PathExtends(g, path[..|path| - 1], a, b);
  }

  lemma SeenStays(bs: seq<Addr>, st: State, st': State)
    requires bs != [] && bs[0].Key() in st.seen && Grows(st, st') && AllSeen(bs[1..], st'.seen)
    ensures AllSeen(bs, st'.seen)
  {
    forall b | b in bs ensures b.Key() in st'.seen {
      if b != bs[0] { assert b in bs[1..]; }
    }
  }

  /** Everything reachable has been seen. */
  lemma {:induction false} ReachedIsSeen(g: Graph, ours: iset<string>, root: Addr, b: Addr, n: nat, seen: set<string>)
    requires Regular(g, ours) && Tidy(root) && root.Key() in seen && Closed(g, seen, {}) && Reach(g, root, b, n)
    ensures Tidy(b) && b.Key() in seen
    decreases n
  {
    if n > 0 {
      var c :| Reach(g, root, c, n - 1) && b in g(c).children;
      ReachedIsSeen(g, ours, root, c, n - 1, seen);
      assert AllSeen(g(c).children, seen);
      assert Lowered(b);
    }
  }

  /** Reachable over any number of edges; the root counts under the spelling it
      was given in, every other address lower-cased. */
  ghost predicate Reachable(g: Graph, root: Addr, a: Addr) {
    Proper(root, a) && exists n: nat :: Reach(g, root, a, n)
  }

  ghost predicate Contains(g: Graph, root: Addr, st: State) {
    forall a :: Reachable(g, root, a) ==> EmittedBy(g(a), st)
  }

  lemma ClosedContains(g: Graph, ours: iset<string>, root: Addr, st: State)
    requires Regular(g, ours) && Tidy(root) && root.Key() in st.seen && Closed(g, st.seen, {}) && Emitted(g, root, st)
    ensures Contains(g, root, st)
  {
    forall a | Reachable(g, root, a) ensures EmittedBy(g(a), st) {
      var n: nat :| Reach(g, root, a, n);
      ReachedIsSeen(g, ours, root, a, n, st.seen);
    }
  }

  ghost predicate ReachableLocal(g: Graph, root: Addr, mb: Mailbox) {
    exists a :: Reachable(g, root, a) && g(a).local == Some(mb)
  }

  ghost predicate ReachableRemote(g: Graph, root: Addr, r: Remote) {
    exists a :: Reachable(g, root, a) && Sends(g(a), r)
  }

  lemma ExactlyReachable(g: Graph, root: Addr, st: State)
    requires Contains(g, root, st) && Justified(g, root, st)
    ensures forall mb :: mb in st.local <==> ReachableLocal(g, root, mb)
    ensures forall r :: r in st.remote <==> ReachableRemote(g, root, r)
  {
    forall mb | mb in st.local ensures ReachableLocal(g, root, mb) {
      assert LocalFrom(g, root, mb);
      var b :| Within(g, root, b, MAX_DEPTH) && g(b).local == Some(mb);
      assert Reachable(g, root, b);
    }
    forall r | r in st.remote ensures ReachableRemote(g, root, r) {
      assert RemoteFrom(g, root, r);
      var b :| Within(g, root, b, MAX_DEPTH) && Sends(g(b), r);
      assert Reachable(g, root, b);
    }
  }

  lemma ResolveContains(g: Graph, ours: iset<string>, root: Addr)
    requires Regular(g, ours) && Tidy(root) && ShallowFrom(g, root)
    ensures Contains(g, root, ResolveFrom(g, EMPTY, root, 0))
  {
    assert Keys([]) == {};
    assert ([] + [root])[0] == root;
    assert OnStack(g, root, [], root, EMPTY);
    ResolveCompletes(g, ours, root, [], EMPTY, root);
    ClosedContains(g, ours, root, ResolveFrom(g, EMPTY, root, 0));
  }

  /** When no chain of distinct addresses from the recipient is longer than ten
      edges, the plan is exactly the set of reachable destinations. */
  lemma GraphPlanIsComplete(cfg: Config, srs: Srs, email: string, root: Addr)
    requires SplitAddr(email) == Some(root) && root.domain in Ours(cfg)
    requires ShallowFrom(Routes(cfg, srs), root)
    ensures forall mb :: mb in Plan(cfg, srs, email).local <==> ReachableLocal(Routes(cfg, srs), root, mb)
    ensures forall r :: r in Plan(cfg, srs, email).remote <==> ReachableRemote(Routes(cfg, srs), root, r)
  {
    SplitIsTidy(email);
    RoutesAreRegular(cfg, srs);
    GraphPlanIsSound(cfg, srs, email);
    ResolveContains(Routes(cfg, srs), Ours(cfg), root);
    ExactlyReachable(Routes(cfg, srs), root, Plan(cfg, srs, email));
  }

  /** A destination that only addresses more than ten edges away lead to is
      lost, whatever the graph looks like otherwise. */
  lemma FarIsLost(cfg: Config, srs: Srs, email: string, root: Addr, mb: Mailbox)
    requires SplitAddr(email) == Some(root)
    requires forall b, n: nat :: Reach(Routes(cfg, srs), root, b, n) && Routes(cfg, srs)(b).local == Some(mb) ==> n > MAX_DEPTH
    ensures mb !in Plan(cfg, srs, email).local
  {
    GraphPlanIsSound(cfg, srs, email);
    var g := Routes(cfg, srs);
    assert !LocalFrom(g, root, mb);
  }
}
