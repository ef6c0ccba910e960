/** Which pacing rule decides a delivery. */
module PaceRules {
  import opened Text
  import opened Pace

  // ---- the rules, by the configuration's own fields ----

  /** The rule of a ruleset for a destination: the entry that names it, and
      only without one the entry for all. */
  ghost predicate RuleFor(rs: Ruleset, dest: string, l: Limit) {
    (dest in rs && l == rs[dest]) || (dest !in rs && "*" in rs && l == rs["*"])
  }

  predicate Matches(rs: Ruleset, dest: string) { dest in rs || "*" in rs }

  predicate MailboxRule(c: Config, k: Key) {
    Lower(k.mailbox) in c.byMailbox && Matches(c.byMailbox[Lower(k.mailbox)], Lower(k.dest))
  }

  predicate DomainRule(c: Config, k: Key) {
    Lower(k.domain) in c.byDomain && Matches(c.byDomain[Lower(k.domain)], Lower(k.dest))
  }

  /** The sender's side: the mailbox's rule, else the domain's, else the
      global one. */
  ghost predicate SenderDecides(c: Config, k: Key, s: Scoped) {
    var dest, mbx, dom := Lower(k.dest), Lower(k.mailbox), Lower(k.domain);
    if MailboxRule(c, k) then RuleFor(c.byMailbox[mbx], dest, s.limit) && s.key == "mbx:" + mbx + "|" + dest
    else if DomainRule(c, k) then RuleFor(c.byDomain[dom], dest, s.limit) && s.key == "dom:" + dom + "|" + dest
    else RuleFor(c.global, dest, s.limit) && s.key == "g" + "" + "|" + dest
  }

  /** The egress side, when there is an address to send from. */
  ghost predicate EgressDecides(c: Config, k: Key, s: Scoped) {
    k.egressIP != "" && RuleFor(c.perIP, Lower(k.dest), s.limit) && s.key == "ip:" + k.egressIP + "|" + Lower(k.dest)
  }

  /** The buckets of a delivery, with their limits, are exactly those of the
      deciding rules. */
  lemma ApplicableExactly(c: Config, k: Key, s: Scoped)
    ensures s in Applicable(c, k) <==> SenderDecides(c, k, s) || EgressDecides(c, k, s)
  {
    assert s in Applicable(c, k) <==> s in SenderScope(c, k) || s in IPScope(c, k);
  }

  // ---- what cannot matter ----

  /** Answer, wait and buckets after a reservation under a configuration. */
  ghost predicate SameReservation(c: Config, c': Config, k: Key) {
    forall bs: Buckets, now: int ::
      && AllReady(bs, Applicable(c, k), now) == AllReady(bs, Applicable(c', k), now)
      && Reserved(bs, Applicable(c, k), now) == Reserved(bs, Applicable(c', k), now)
      && (Rates(Applicable(c, k)) ==>
          Rates(Applicable(c', k)) && MaxWait(bs, Applicable(c, k), now) == MaxWait(bs, Applicable(c', k), now))
  }

  lemma SameScopes(c: Config, c': Config, k: Key)
    requires SenderScope(c, k) == SenderScope(c', k) && IPScope(c, k) == IPScope(c', k)
    ensures SameReservation(c, c', k)
  {
    assert Applicable(c, k) == Applicable(c', k);
  }

  /** The two rulesets are equal, or both name the destination with the same
      limit and differ in whatever else, the entry for all included. */
  predicate AlikeFor(rs: Ruleset, rs': Ruleset, dest: string) {
    rs == rs' || (dest in rs && dest in rs' && rs[dest] == rs'[dest])
  }

  predicate AllAlike(m: map<string, Ruleset>, m': map<string, Ruleset>, dest: string) {
    m.Keys == m'.Keys && forall o :: o in m ==> AlikeFor(m[o], m'[o], dest)
  }

  /** Where a ruleset names the destination, no other entry of it matters. */
  lemma NamedShields(c: Config, c': Config, k: Key)
    requires AlikeFor(c.global, c'.global, Lower(k.dest)) && AlikeFor(c.perIP, c'.perIP, Lower(k.dest))
    requires AllAlike(c.byDomain, c'.byDomain, Lower(k.dest)) && AllAlike(c.byMailbox, c'.byMailbox, Lower(k.dest))
    ensures SameReservation(c, c', k)
  {
    var dest, mbx, dom := Lower(k.dest), Lower(k.mailbox), Lower(k.domain);
    assert mbx in c.byMailbox <==> mbx in c'.byMailbox.Keys;
    assert dom in c.byDomain <==> dom in c'.byDomain.Keys;
    assert SenderScope(c, k) == SenderScope(c', k);
    assert IPScope(c, k) == IPScope(c', k);
    SameScopes(c, c', k);
  }

  /** Where the sender's mailbox has a rule, no domain or global rule matters. */
  lemma MailboxShields(c: Config, c': Config, k: Key)
    requires MailboxRule(c, k) && c'.byMailbox == c.byMailbox && c'.perIP == c.perIP
    ensures SameReservation(c, c', k)
  {
    SameScopes(c, c', k);
  }

  /** Where its domain has one, no global rule matters. */
  lemma DomainShields(c: Config, c': Config, k: Key)
    requires DomainRule(c, k) && c'.byMailbox == c.byMailbox && c'.byDomain == c.byDomain && c'.perIP == c.perIP
    ensures SameReservation(c, c', k)
  {
    SameScopes(c, c', k);
  }

  // ---- the rate of a named destination ----

  /** l is the entry that names the destination in the deciding ruleset of the
      sender. */
  ghost predicate NamedBySender(c: Config, k: Key, l: Limit) {
    var dest, mbx, dom := Lower(k.dest), Lower(k.mailbox), Lower(k.domain);
    if MailboxRule(c, k) then dest in c.byMailbox[mbx] && l == c.byMailbox[mbx][dest]
    else if DomainRule(c, k) then dest in c.byDomain[dom] && l == c.byDomain[dom][dest]
    else dest in c.global && l == c.global[dest]
  }

  /** A destination with an entry of its own is admitted at that entry's rate
      over every interval, whatever the entry for all says. */
  lemma NamedRateBound(c: Config, bs: Buckets, ks: seq<Key>, times: seq<int>, from: int, until: int, n: nat, l: Limit)
    returns (s: Scoped)
    requires |ks| == |times| && n < |ks| && NamedBySender(c, ks[n], l)
    requires forall i :: 0 <= i < |ks| ==> '|' !in ks[i].dest && Rates(Applicable(c, ks[i])) && from <= times[i] <= until
    requires forall i, j :: 0 <= i < j < |ks| ==> times[i] <= times[j]
    requires NotAfter(bs, from) && Bounded(bs)
    ensures SenderDecides(c, ks[n], s) && s.limit == l
    ensures Granted(bs, Requests(c, ks, times), s.key) as real <= l.Cap() + Flow(l.rate, until - from)
  {
    s := SenderScope(c, ks[n])[0];
    ApplicableExactly(c, ks[n], s);
    assert s in Applicable(c, ks[n]);
    ConfiguredRateBound(c, bs, ks, times, from, until, n, s);
  }
}
