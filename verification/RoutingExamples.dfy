/** Destinations that the depth cap loses: in every graph where a chain of ten
    edges comes first, and in two inputs, a mailbox eleven edges away and one
    only two edges away whose alias is first met at the end of the chain. */
module RoutingExamples {
  import opened Text
  import opened Routing
  import opened RoutingProofs

  // ---- at the cap nothing is expanded ----

  lemma {:induction false} NothingBelow(g: Graph, st: State, bs: seq<Addr>)
    ensures ResolveAll(g, st, bs, MAX_DEPTH + 1) == st
    decreases |bs|
  {
    if bs != [] { NothingBelow(g, st, bs[1..]); }
  }

  /** Addresses of which each leads only to the next and delivers nothing. */
  ghost predicate IsChain(g: Graph, path: seq<Addr>, from: nat) {
    && |path| == MAX_DEPTH + 1
    && Simple(path)
    && (forall i :: from <= i < MAX_DEPTH ==> g(path[i]) == Node(None, None, None, [path[i + 1]]))
    && g(path[MAX_DEPTH]).local == None && g(path[MAX_DEPTH]).forward == None && g(path[MAX_DEPTH]).reversed == None
  }

  ghost predicate Unseen(path: seq<Addr>, from: nat, seen: set<string>) {
    forall i :: from <= i < |path| ==> path[i].Key() !in seen
  }

  /** Followed from its i-th address at depth i, a chain of ten edges marks its
      last address as seen without ever expanding it. */
  lemma {:induction false} ChainLosesEnd(g: Graph, path: seq<Addr>, i: nat, st: State)
    requires i <= MAX_DEPTH && IsChain(g, path, i) && Unseen(path, i, st.seen)
    ensures var r := ResolveFrom(g, st, path[i], i);
      r.local == st.local && r.remote == st.remote && path[MAX_DEPTH].Key() in r.seen
    decreases MAX_DEPTH - i
  {
    var st1 := Visit(st, path[i].Key(), g(path[i]));
    if i == MAX_DEPTH {
      NothingBelow(g, st1, g(path[i]).children);
    } else {
      assert forall k :: i < k < |path| ==> path[i].Key() != path[k].Key();
      ChainLosesEnd(g, path, i + 1, st1);
      OneChild(g, st1, path[i + 1], i + 1);
    }
  }

  lemma OneChild(g: Graph, st: State, b: Addr, depth: nat)
    requires 1 <= depth <= MAX_DEPTH + 1
    ensures ResolveAll(g, st, [b], depth) == ResolveFrom(g, st, b, depth)
  {
    assert [b][1..] == [];
  }

  /** Whatever else the root leads to afterwards, if that is only the end of
      the chain, nothing is delivered at all: the end counts as seen. */
  lemma ChainFirstLosesAll(g: Graph, path: seq<Addr>, again: seq<Addr>, start: nat)
    requires IsChain(g, path, 1) && start == 0
    requires g(path[0]) == Node(None, None, None, [path[1]] + again)
    requires forall b :: b in again ==> b == path[MAX_DEPTH]
    ensures ResolveFrom(g, EMPTY, path[0], start).local == [] && ResolveFrom(g, EMPTY, path[0], start).remote == []
  {
    var st := Visit(EMPTY, path[0].Key(), g(path[0]));
    assert forall k :: 0 < k < |path| ==> path[0].Key() != path[k].Key();
    ChainLosesEnd(g, path, 1, st);
    var st1 := ResolveFrom(g, st, path[1], 1);
    assert ([path[1]] + again)[0] == path[1] && ([path[1]] + again)[1..] == again;
    SeenAddsNothing(g, st1, again, 1);
  }

  lemma {:induction false} SeenAddsNothing(g: Graph, st: State, bs: seq<Addr>, depth: nat)
    requires 1 <= depth <= MAX_DEPTH + 1 && forall b :: b in bs ==> b.Key() in st.seen
    ensures ResolveAll(g, st, bs, depth) == st
    decreases |bs|
  {
    if bs != [] {
      assert bs[0] in bs;
      SeenAddsNothing(g, st, bs[1..], depth);
    }
  }

  // ---- two inputs ----

  /** The aliases in order, and the mailbox behind the last of them. */
  const NAMES := "r123456789xy"
  const LAST: nat := MAX_DEPTH
  const OWNER: nat := MAX_DEPTH + 1

  predicate PlainName(c: char) { !IsSpace(c) && c != '@' && LowerChar(c) == c }

  lemma PlainNames()
    ensures |NAMES| == OWNER + 1
    ensures forall i :: 0 <= i < |NAMES| ==> PlainName(NAMES[i])
    ensures forall i, j :: 0 <= i < j < |NAMES| ==> NAMES[i] != NAMES[j]
  {
  }

  function Mail(c: char): Addr { Addr([c], "d") }

  function At(i: nat): Addr
    requires i < |NAMES|
  {
    Mail(NAMES[i])
  }

  const USER := User([NAMES[OWNER]] + "@" + "d", "/y", [], None)

  /** Each alias names the next one; the first names again besides. */
  function Aliases(again: seq<string>): map<string, seq<string>> {
    map i | 0 <= i <= LAST :: [NAMES[i]] := AliasTargets(again, i)
  }

  function AliasTargets(again: seq<string>, i: nat): seq<string>
    requires i <= LAST
  {
    [[NAMES[i + 1]]] + (if i == 0 then again else [])
  }

  function Hosted(again: seq<string>): Config {
    Config([Domain("d", Aliases(again), [], Virtual)], [USER])
  }

  lemma AliasAt(again: seq<string>, i: nat)
    requires i <= LAST
    ensures [NAMES[i]] in Aliases(again) && Aliases(again)[[NAMES[i]]] == AliasTargets(again, i)
  {
    PlainNames();
    assert forall j :: 0 <= j <= LAST && [NAMES[j]] == [NAMES[i]] ==> j == i by {
      assert forall j :: 0 <= j <= LAST ==> [NAMES[j]][0] == NAMES[j];
    }
  }

  lemma PlainAddr(c: char)
    requires PlainName(c)
    ensures Lowered(Mail(c)) && SplitAddr(Mail(c).Text()) == Some(Mail(c)) && Mail(c).Key() == [c] + "@" + "d"
    ensures TargetAddr([c], "d") == Some(Mail(c))
  {
    assert Lower([c]) == [c] && Lower("d") == "d";
    SplitText(Mail(c));
    KeyParts(Mail(c));
    TrimSpaceResult([c]);
    LastIndexOfAt([c], '@', -1);
  }

  /** What the names in again stand for. */
  function Again(again: seq<string>): seq<Addr> { TargetAddrs(again, "d") }

  lemma TargetsCons(c: char, again: seq<string>)
    requires PlainName(c)
    ensures TargetAddrs([[c]] + again, "d") == [Mail(c)] + Again(again)
  {
    PlainAddr(c);
    var ts := [[c]] + again;
    assert ts[0] == [c] && ts[1..] == again;
  }

  /** An address of a domain that is no mailbox, but an alias. */
  lemma AliasNode(cfg: Config, c: char, ts: seq<string>)
    requires PlainName(c) && FindDomain(cfg.domains, "d").Some?
    requires StorageResolve(cfg, Mail(c).Text()) == None
    requires [c] in FindDomain(cfg.domains, "d").value.aliases && FindDomain(cfg.domains, "d").value.aliases[[c]] == ts && ts != []
    ensures Routes(cfg, Off)(Mail(c)) == Node(None, None, None, TargetAddrs(ts, "d"))
  {
    assert Lower([c]) == [c];
  }

  lemma NoMailbox(cfg: Config, c: char, u: User)
    requires PlainName(c) && cfg.users == [u] && u.email != [c] + "@" + "d"
    requires FindDomain(cfg.domains, "d").Some? && FindDomain(cfg.domains, "d").value.storage == Virtual
    ensures StorageResolve(cfg, Mail(c).Text()) == None
  {
    PlainAddr(c);
    assert Lower([c]) == [c];
    NoUser(u, [c] + "@" + "d");
  }

  lemma NoUser(u: User, email: string)
    requires u.email != email
    ensures FindExact([u], email) == None
  {
    assert [u][1..] == [];
  }

  lemma ExampleNode(again: seq<string>, i: nat)
    requires i <= LAST
    ensures Routes(Hosted(again), Off)(At(i)) == Node(None, None, None, [At(i + 1)] + (if i == 0 then Again(again) else []))
  {
    var cfg := Hosted(again);
    PlainNames();
    AliasAt(again, i);
    assert FindDomain(cfg.domains, "d") == Some(cfg.domains[0]);
    assert USER.email[0] == NAMES[OWNER] && ([NAMES[i]] + "@" + "d")[0] == NAMES[i];
    NoMailbox(cfg, NAMES[i], USER);
    AliasNode(cfg, NAMES[i], AliasTargets(again, i));
    TargetsCons(NAMES[i + 1], if i == 0 then again else []);
    assert Again([]) == [];
  }

  /** The chain of ten edges; the mailbox lies one further. */
  function Path_(): (p: seq<Addr>)
    ensures |p| == MAX_DEPTH + 1 && forall i :: 0 <= i <= MAX_DEPTH ==> p[i] == At(i)
  {
    seq(MAX_DEPTH + 1, i requires 0 <= i <= MAX_DEPTH => At(i))
  }

  lemma PathIsSimple()
    ensures Simple(Path_())
  {
    PlainNames();
    forall i, j | 0 <= i < j <= MAX_DEPTH ensures At(i).Key() != At(j).Key() {
      PlainAddr(NAMES[i]);
      PlainAddr(NAMES[j]);
      assert At(i).Key()[0] == NAMES[i] && At(j).Key()[0] == NAMES[j];
    }
  }

  lemma PathIsChain(again: seq<string>)
    ensures IsChain(Routes(Hosted(again), Off), Path_(), 1)
  {
    var g, path := Routes(Hosted(again), Off), Path_();
    PathIsSimple();
    forall i | 1 <= i < MAX_DEPTH ensures g(path[i]) == Node(None, None, None, [path[i + 1]]) { InnerNode(again, i); }
    InnerNode(again, LAST);
  }

  lemma InnerNode(again: seq<string>, i: nat)
    requires 1 <= i <= LAST
    ensures Routes(Hosted(again), Off)(At(i)) == Node(None, None, None, [At(i + 1)])
  {
    ExampleNode(again, i);
    assert [At(i + 1)] + [] == [At(i + 1)];
  }

  /** The recipient's first target starts such a chain; the others, if any,
      are its end. */
  ghost predicate StartsChain(cfg: Config, srs: Srs, email: string, path: seq<Addr>, again: seq<Addr>) {
    && IsChain(Routes(cfg, srs), path, 1)
    && SplitAddr(email) == Some(path[0]) && FindDomain(cfg.domains, path[0].domain).Some?
    && Routes(cfg, srs)(path[0]) == Node(None, None, None, [path[1]] + again)
    && forall b :: b in again ==> b == path[MAX_DEPTH]
  }

  /** Such a recipient is refused as unknown. */
  lemma ChainPlan(cfg: Config, srs: Srs, email: string, path: seq<Addr>, again: seq<Addr>)
    requires StartsChain(cfg, srs, email, path, again)
    ensures !Found(Plan(cfg, srs, email))
  {
    ChainFirstLosesAll(Routes(cfg, srs), path, again, 0);
  }

  lemma ExampleStarts(again: seq<string>)
    requires forall b :: b in Again(again) ==> b == At(LAST)
    ensures StartsChain(Hosted(again), Off, At(0).Text(), Path_(), Again(again))
  {
    var path := Path_();
    PathIsChain(again);
    ExampleNode(again, 0);
    ExampleAddress(again);
    assert path[0] == At(0) && path[1] == At(1) && path[MAX_DEPTH] == At(LAST);
  }

  lemma ExampleAddress(again: seq<string>)
    ensures SplitAddr(At(0).Text()) == Some(At(0)) && FindDomain(Hosted(again).domains, At(0).domain).Some?
  {
    PlainNames();
    PlainAddr(NAMES[0]);
  }

  lemma NothingDelivered(again: seq<string>)
    requires forall b :: b in Again(again) ==> b == At(LAST)
    ensures !Found(Plan(Hosted(again), Off, At(0).Text()))
  {
    ExampleStarts(again);
    ChainPlan(Hosted(again), Off, At(0).Text(), Path_(), Again(again));
  }

  lemma UserNode(cfg: Config, c: char, u: User)
    requires PlainName(c) && cfg.users == [u] && u.email == [c] + "@" + "d" && u.forwardTo == []
    requires FindDomain(cfg.domains, "d").Some?
    ensures Routes(cfg, Off)(Mail(c)).local == Some(Mailbox(u.email, u.maildir))
  {
    PlainAddr(c);
    assert Lower([c]) == [c];
    assert FindExact(cfg.users, u.email) == Some(u);
    assert StorageResolve(cfg, Mail(c).Text()) == Some(Mailbox(u.email, u.maildir));
    assert FindUser(cfg.users, Mail(c).Text()) == Some(u);
  }

  lemma OwnerNode(again: seq<string>)
    ensures Routes(Hosted(again), Off)(At(OWNER)).local == Some(Mailbox(USER.email, "/y"))
  {
    PlainNames();
    UserNode(Hosted(again), NAMES[OWNER], USER);
  }

  lemma {:induction false} PathIsReach(g: Graph, path: seq<Addr>, n: nat)
    requires n < |path| && IsPath(g, path)
    ensures Reach(g, path[0], path[n], n)
    decreases n
  {
    if n > 0 { PathIsReach(g, path, n - 1); }
  }

  lemma OneMoreEdge(g: Graph, root: Addr, a: Addr, b: Addr, n: nat)
    requires Reach(g, root, a, n) && b in g(a).children
    ensures Reach(g, root, b, n + 1)
  {
  }

  lemma PathIsPath(again: seq<string>)
    ensures IsPath(Routes(Hosted(again), Off), Path_())
  {
    var g, path := Routes(Hosted(again), Off), Path_();
    forall i | 0 <= i < |path| - 1 ensures path[i + 1] in g(path[i]).children {
      ExampleNode(again, i);
      assert path[i + 1] == At(i + 1);
    }
  }

  /** A chain of eleven edges to a mailbox: the recipient is taken for unknown. */
  lemma LongChainIsLost()
    ensures !Found(Plan(Hosted([]), Off, At(0).Text()))
    ensures Reach(Routes(Hosted([]), Off), At(0), At(OWNER), MAX_DEPTH + 1)
    ensures Routes(Hosted([]), Off)(At(OWNER)).local == Some(Mailbox(USER.email, "/y"))
  {
    assert Again([]) == [];
    NothingDelivered([]);
    OwnerNode([]);
    ExampleNode([], LAST);
    PathIsPath([]);
    var n := MAX_DEPTH;
    PathIsReach(Routes(Hosted([]), Off), Path_(), n);
    OneMoreEdge(Routes(Hosted([]), Off), At(0), At(LAST), At(OWNER), n);
  }

  /** A mailbox two edges away is lost as well when the alias before it is
      first met at the end of a chain of ten: being within ten edges does not
      mean being delivered. */
  lemma NearIsLost()
    ensures !Found(Plan(Hosted([[NAMES[LAST]]]), Off, At(0).Text()))
    ensures Reach(Routes(Hosted([[NAMES[LAST]]]), Off), At(0), At(OWNER), 2)
    ensures Routes(Hosted([[NAMES[LAST]]]), Off)(At(OWNER)).local == Some(Mailbox(USER.email, "/y"))
  {
    var again := [[NAMES[LAST]]];
    var g := Routes(Hosted(again), Off);
    PlainNames();
    TargetsCons(NAMES[LAST], []);
    assert [[NAMES[LAST]]] + [] == again && Again([]) == [];
    NothingDelivered(again);
    OwnerNode(again);
    ExampleNode(again, 0);
    ExampleNode(again, LAST);
    var zero: nat, one: nat := 0, 1;
    assert Reach(g, At(0), At(0), zero);
    OneMoreEdge(g, At(0), At(0), At(LAST), zero);
    OneMoreEdge(g, At(0), At(LAST), At(OWNER), one);
  }
}
