/** A bounce on its way back: rewritten sender, RCPT, routing, original sender. */
module Bounces {
  import opened Text
  import opened Routing
  import opened RoutingProofs
  import SrsScheme
  import SmtpSession

  /** The routing of the running server reverses with its own secret. */
  function Reversing(mac: SrsScheme.Mac, secret: string, now: nat): Srs {
    On((address: string) => SrsScheme.Reverse(mac, secret, address, now))
  }

  /** A domain as the configuration holds it. */
  predicate HostedName(fd: string) {
    fd != "" && '@' !in fd && Lower(fd) == fd && !IsSpace(fd[|fd| - 1])
  }

  /** The rewritten address is nobody's mailbox and no alias of ours. */
  predicate Unclaimed(hosted: Config, a: Addr) {
    && FindDomain(hosted.domains, a.domain).Some?
    && StorageResolve(hosted, a.Text()).None?
    && var d := FindDomain(hosted.domains, a.domain).value;
       Lower(a.local) !in d.aliases || d.aliases[Lower(a.local)] == []
  }

  /** The local part of the lower-cased rewritten sender. */
  function BounceLocal(mac: SrsScheme.Mac, secret: string, sender: string, signed: nat): string
    requires SrsScheme.Split(sender).Some?
  {
    var (local, domain) := SrsScheme.Split(sender).value;
    var tt := SrsScheme.Timestamp(signed);
    SrsScheme.Eq("srs0", SrsScheme.Eq(Lower(SrsScheme.Sign(mac, secret, tt, domain, local)),
                                      SrsScheme.Eq(Lower(tt), SrsScheme.Eq(domain, Lower(local)))))
  }

  function BounceAddr(mac: SrsScheme.Mac, secret: string, fd: string, sender: string, signed: nat): Addr
    requires SrsScheme.Split(sender).Some?
  {
    Addr(BounceLocal(mac, secret, sender, signed), fd)
  }

  lemma BounceText(mac: SrsScheme.Mac, secret: string, fd: string, sender: string, signed: nat)
    requires SrsScheme.Split(sender).Some? && HostedName(fd)
    ensures Lower(SrsScheme.Forward(mac, secret, fd, sender, signed)) == BounceAddr(mac, secret, fd, sender, signed).Text()
  {
    var (local, domain) := SrsScheme.Split(sender).value;
    var tt := SrsScheme.Timestamp(signed);
    SrsScheme.SplitParts(sender);
    SrsScheme.LowerAddress(SrsScheme.Sign(mac, secret, tt, domain, local), tt, domain, local, fd);
  }

  lemma BounceIsTidy(mac: SrsScheme.Mac, secret: string, fd: string, sender: string, signed: nat)
    requires SrsScheme.Split(sender).Some? && HostedName(fd)
    ensures Tidy(BounceAddr(mac, secret, fd, sender, signed))
    ensures IsSrs(BounceAddr(mac, secret, fd, sender, signed).local)
  {
    StartsLikeSrs(BounceLocal(mac, secret, sender, signed));
  }

  lemma StartsLikeSrs(local: string)
    requires |local| >= 5 && local[..5] == "srs0="
    ensures IsSrs(local) && !IsSpace(local[0])
  {
    assert local[0] == local[..5][0];
    assert forall i :: 0 <= i < 5 ==> Upper(local)[..5][i] == UpperChar(local[..5][i]);
    assert Upper(local)[..5] == "SRS0=";
  }

  /** RCPT lower-cases what it is given and finds nothing to trim. */
  lemma NamedInRcpt(cfg: SmtpSession.Settings, mac: SrsScheme.Mac, secret: string, fd: string, sender: string, signed: nat)
    requires SrsScheme.Split(sender).Some? && HostedName(fd)
    ensures SmtpSession.RcptAddr(cfg, SrsScheme.Forward(mac, secret, fd, sender, signed))
         == BounceAddr(mac, secret, fd, sender, signed).Text()
  {
    var bounce := SrsScheme.Forward(mac, secret, fd, sender, signed);
    var a := BounceAddr(mac, secret, fd, sender, signed);
    BounceText(mac, secret, fd, sender, signed);
    assert bounce[0] == 'S' && bounce[|bounce| - 1] == fd[|fd| - 1];
    TrimSpaceResult(bounce);
    assert a.Text()[|a.local|] == '@';
    assert a.Text() != "postmaster";
  }

  lemma UnclaimedPlan(hosted: Config, srs: Srs, a: Addr)
    requires srs.On? && Tidy(a) && IsSrs(a.local) && Unclaimed(hosted, a)
    ensures Plan(hosted, srs, a.Text()).local == []
    ensures Plan(hosted, srs, a.Text()).remote
         == match srs.reverse(a.Text()) case None => [] case Some(x) => [Reversed(x)]
  {
    SplitText(a);
    var g := Routes(hosted, srs);
    assert Expand(hosted, srs, a) == Expansion(None, None, srs.reverse(a.Text()), []);
    assert g(a).children == [];
    assert ResolveFrom(g, EMPTY, a, 0) == Visit(EMPTY, a.Key(), g(a));
  }

  /** A bounce that names the rewritten sender in RCPT is routed back to that
      sender, and to nowhere else, if the hash has no upper-case letter and the
      day is inside the window; in every other case it is refused as unknown. */
  lemma BounceComesHome(hosted: Config, cfg: SmtpSession.Settings, mac: SrsScheme.Mac, secret: string, fd: string,
                        sender: string, signed: nat, now: nat)
    requires SrsScheme.IsMac(mac) && SrsScheme.Split(sender).Some? && '=' !in SrsScheme.Split(sender).value.1
    requires HostedName(fd) && Unclaimed(hosted, BounceAddr(mac, secret, fd, sender, signed))
    ensures var (local, domain) := SrsScheme.Split(sender).value;
      var h := SrsScheme.Sign(mac, secret, SrsScheme.Timestamp(signed), domain, local);
      var rcpt := SmtpSession.RcptAddr(cfg, SrsScheme.Forward(mac, secret, fd, sender, signed));
      var plan := Plan(hosted, Reversing(mac, secret, now), rcpt);
      && plan.local == []
      && plan.remote == (if Lower(h) == h && SrsScheme.InWindow(signed, now) then [Reversed(Lower(local) + "@" + domain)] else [])
      && (Found(plan) <==> Lower(h) == h && SrsScheme.InWindow(signed, now))
  {
    var a := BounceAddr(mac, secret, fd, sender, signed);
    NamedInRcpt(cfg, mac, secret, fd, sender, signed);
    BounceText(mac, secret, fd, sender, signed);
    BounceIsTidy(mac, secret, fd, sender, signed);
    SrsScheme.LowerCasedReversal(mac, secret, fd, sender, signed, now);
    UnclaimedPlan(hosted, Reversing(mac, secret, now), a);
  }
}
