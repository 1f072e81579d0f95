/**
 * The WAN client's published lease and the interface it configures. The kernel is the
 * set of addresses on the WAN interface; netlink calls succeed or fail as the
 * environment decides.
 */
module DhcpClient {
  import opened Common
  import opened LeaseRenewal
  import opened SubnetMasks

  /** The lease as the other services see it. */
  datatype WanLease = WanLease(ip: Option<Ip>, mask: Option<u32>, gateway: Option<Ip>, dns: seq<Ip>)

  const NO_LEASE := WanLease(None, None, None, [])

  function LeaseOf(ack: DhcpAck): WanLease {
    WanLease(Some(ack.ip), Some(ack.mask), ack.gateway, ack.dns)
  }

  datatype Address = Address(ip: Ip, prefix: nat)

  /**
   * How the netlink calls of one configuration or deconfiguration go: whether the calls whose
   * errors are returned all succeed, and the addresses whose deletion fails or is not reached.
   */
  datatype Netlink = Netlink(ok: bool, stuck: set<Address>)

  /** Flush the interface and add the new address. */
  function ConfigureWan(kernel: set<Address>, ip: Ip, mask: u32, n: Netlink): (set<Address>, bool) {
    match MaskToPrefixLen(mask)
    case None => (kernel, false)
    case Some(p) => if n.ok then (kernel * n.stuck + {Address(ip, p)}, true) else (kernel * n.stuck, false)
  }

  /** Delete every address of the interface that has this IP. */
  function DeconfigureWan(kernel: set<Address>, ip: Ip, mask: u32, n: Netlink): set<Address> {
    if MaskToPrefixLen(mask).None? then kernel
    else set a | a in kernel && (a.ip != ip || a in n.stuck)
  }

  datatype Phase = Negotiating | Bound(ack: DhcpAck)

  datatype State = State(phase: Phase, lease: WanLease, kernel: set<Address>)

  /** The turns of the client's main loop and of its bound phase. */
  datatype Event =
    | NegotiationFailed(n: Netlink)            // discover or request phase failed
    | Acquired(ack: DhcpAck, n: Netlink)       // request phase acknowledged
    | RenewalAcked(ack: DhcpAck, n: Netlink)   // renewal acknowledged
    | LeaseLost(n: Netlink)                    // lease expired or renewal failed

  const START := State(Negotiating, NO_LEASE, {})

  /** Publish first; configure only when something changed. The flag is false when that fails. */
  function Applied(lease: WanLease, kernel: set<Address>, ack: DhcpAck, n: Netlink): (WanLease, set<Address>, bool) {
    if lease == LeaseOf(ack) then (lease, kernel, true)
    else
      var (kernel', ok) := ConfigureWan(kernel, ack.ip, ack.mask, n);
      (LeaseOf(ack), kernel', ok)
  }

  function Deconfigured(lease: WanLease, kernel: set<Address>, n: Netlink): set<Address> {
    if lease.ip.Some? && lease.mask.Some? then DeconfigureWan(kernel, lease.ip.value, lease.mask.value, n) else kernel
  }

  function Enter(s: State, ack: DhcpAck, n: Netlink): State {
    var (lease, kernel, ok) := Applied(s.lease, s.kernel, ack, n);
    State(if ok then Bound(ack) else Negotiating, lease, kernel)
  }

  predicate Applicable(s: State, e: Event) {
    s.phase.Bound? <==> e.RenewalAcked? || e.LeaseLost?
  }

  function Next(s: State, e: Event): State
    requires Applicable(s, e)
  {
    match e
    case NegotiationFailed(n) => State(Negotiating, NO_LEASE, Deconfigured(s.lease, s.kernel, n))
    case Acquired(ack, n) => Enter(s, ack, n)
    case RenewalAcked(ack, n) => Enter(s, ack, n)
    case LeaseLost(n) => State(Negotiating, NO_LEASE, Deconfigured(s.lease, s.kernel, n))
  }

  ghost predicate LegalRun(s: State, es: seq<Event>)
    decreases |es|
  {
    es == [] || (Applicable(s, es[0]) && LegalRun(Next(s, es[0]), es[1..]))
  }

  function After(s: State, es: seq<Event>): State
    requires LegalRun(s, es)
    decreases |es|
  {
    if es == [] then s else After(Next(s, es[0]), es[1..])
  }

  /** A turn that has an ACK to configure manages to, whether by netlink or by having nothing to do. */
  predicate Configures(s: State, e: Event) {
    e.Acquired? || e.RenewalAcked? ==>
      s.lease == LeaseOf(e.ack) || (MaskToPrefixLen(e.ack.mask).Some? && e.n.ok)
  }

  // ----- Published lease and interface agree -----

  /** Bound: the last ACK is published and its address is the only one. Otherwise: neither. */
  ghost predicate Agrees(s: State) {
    match s.phase
    case Negotiating => s.lease == NO_LEASE && s.kernel == {}
    case Bound(ack) =>
      && s.lease == LeaseOf(ack)
      && MaskToPrefixLen(ack.mask).Some?
      && s.kernel == {Address(ack.ip, MaskToPrefixLen(ack.mask).value)}
  }

  /** The calls this turn makes do their work; a turn that makes none asks for nothing. */
  ghost predicate CallsSucceed(s: State, e: Event) {
    match e
    case NegotiationFailed(n) => true
    case Acquired(ack, n) => MaskToPrefixLen(ack.mask).Some? && n.ok
    case RenewalAcked(ack, n) =>
      s.lease != LeaseOf(ack) ==>
        && MaskToPrefixLen(ack.mask).Some? && n.ok
        && s.kernel * n.stuck <= {Address(ack.ip, MaskToPrefixLen(ack.mask).value)}
    case LeaseLost(n) => s.kernel * n.stuck == {}
  }

  /** From agreement, a turn ends in agreement exactly when its calls succeed. */
  lemma AgreementIffCallsSucceed(s: State, e: Event)
    requires Agrees(s) && Applicable(s, e)
    ensures Agrees(Next(s, e)) <==> CallsSucceed(s, e)
  {
  }

  ghost predicate AllCallsSucceed(s: State, es: seq<Event>)
    requires LegalRun(s, es)
    decreases |es|
  {
    es == [] || (CallsSucceed(s, es[0]) && AllCallsSucceed(Next(s, es[0]), es[1..]))
  }

  lemma {:induction false} AgreementFrom(s: State, es: seq<Event>)
    requires Agrees(s) && LegalRun(s, es) && AllCallsSucceed(s, es)
    ensures Agrees(After(s, es))
    decreases |es|
  {
    if es != [] {
      AgreementIffCallsSucceed(s, es[0]);
      AgreementFrom(Next(s, es[0]), es[1..]);
    }
  }

  /** In every run whose calls succeed, the published lease agrees with the interface throughout. */
  lemma PublishedLeaseMatchesInterface(es: seq<Event>)
    requires LegalRun(START, es) && AllCallsSucceed(START, es)
    ensures Agrees(After(START, es))
  {
    AgreementFrom(START, es);
  }

  // ----- What is published, whatever the calls do -----

  /** What a turn leaves published: the lease it has an ACK for, or none. */
  function PublishedBy(e: Event): WanLease {
    if e.Acquired? || e.RenewalAcked? then LeaseOf(e.ack) else NO_LEASE
  }

  lemma TurnPublishes(s: State, e: Event)
    requires Applicable(s, e)
    ensures Next(s, e).lease == PublishedBy(e)
    ensures e.Acquired? || e.RenewalAcked? ==> (Next(s, e).phase.Bound? <==> Configures(s, e))
    ensures Next(s, e).phase.Bound? ==> (e.Acquired? || e.RenewalAcked?) && Next(s, e).phase.ack == e.ack
  {
  }

  lemma {:induction false} RunPublishes(s: State, es: seq<Event>)
    requires LegalRun(s, es) && es != []
    ensures After(s, es).lease == PublishedBy(es[|es| - 1])
    ensures After(s, es).phase.Bound? ==> After(s, es).lease == LeaseOf(After(s, es).phase.ack)
    decreases |es|
  {
    TurnPublishes(s, es[0]);
    if |es| > 1 {
      RunPublishes(Next(s, es[0]), es[1..]);
    }
  }

  /** The fields the other services read, one by one. */
  ghost predicate Publishes(lease: WanLease, ack: DhcpAck) {
    lease.ip == Some(ack.ip) && lease.mask == Some(ack.mask) && lease.gateway == ack.gateway && lease.dns == ack.dns
  }

  ghost predicate PublishesNothing(lease: WanLease) {
    lease.ip.None? && lease.mask.None? && lease.gateway.None? && lease.dns == []
  }

  /**
   * In every run, whatever netlink does, the published lease is the one of the last turn's ACK,
   * and none after any other turn; inside the bound phase it is the lease bound under.
   */
  lemma PublishedLeaseIsLastAck(es: seq<Event>)
    requires LegalRun(START, es)
    ensures var s := After(START, es);
      && (es == [] ==> PublishesNothing(s.lease))
      && (es != [] ==>
            var e := es[|es| - 1];
            if e.Acquired? || e.RenewalAcked? then Publishes(s.lease, e.ack) else PublishesNothing(s.lease))
      && (s.phase.Bound? ==> Publishes(s.lease, s.phase.ack))
  {
    if es != [] {
      RunPublishes(START, es);
    }
  }

  // ----- What is on the interface, whatever the calls do -----

  predicate HasAck(e: Event) {
    e.Acquired? || e.RenewalAcked?
  }

  /**
   * What a turn leaves on the interface, address by address. An ACK of new parameters with a
   * contiguous mask leaves the new address, if no call fails, and of the old ones those that
   * could not be flushed; an ACK of the same parameters, or with another mask, leaves all as it
   * was. Losing a lease deletes the addresses with its IP that can be deleted, and no others.
   */
  lemma TurnOnInterface(s: State, e: Event, a: Address)
    requires Applicable(s, e)
    ensures HasAck(e) && (s.lease == LeaseOf(e.ack) || MaskToPrefixLen(e.ack.mask).None?) ==>
      Next(s, e).kernel == s.kernel
    ensures HasAck(e) && s.lease != LeaseOf(e.ack) && MaskToPrefixLen(e.ack.mask).Some? ==>
      (a in Next(s, e).kernel <==>
         || (a in s.kernel && a in e.n.stuck)
         || (e.n.ok && a == Address(e.ack.ip, MaskToPrefixLen(e.ack.mask).value)))
    ensures !HasAck(e) && s.lease.ip.Some? && s.lease.mask.Some? && MaskToPrefixLen(s.lease.mask.value).Some? ==>
      (a in Next(s, e).kernel <==> a in s.kernel && (a.ip != s.lease.ip.value || a in e.n.stuck))
    ensures !HasAck(e) && (s.lease.ip.None? || s.lease.mask.None? || MaskToPrefixLen(s.lease.mask.value).None?) ==>
      Next(s, e).kernel == s.kernel
  {
  }

  /** Outside the bound phase the client acquires or fails to; inside it, it renews or loses its lease. */
  lemma TurnsAreApplicable(s: State, e: Event)
    ensures Applicable(s, e) <==>
            match e
            case NegotiationFailed(_) => s.phase == Negotiating
            case Acquired(_, _) => s.phase == Negotiating
            case RenewalAcked(_, _) => s.phase != Negotiating
            case LeaseLost(_) => s.phase != Negotiating
  {
  }

  // ----- What one failed configuration leaves behind -----

  ghost predicate RenewsSameLease(es: seq<Event>, lease: WanLease) {
    forall e | e in es :: e.RenewalAcked? && LeaseOf(e.ack) == lease
  }

  lemma {:induction false} SameLeaseNeverConfigures(s: State, es: seq<Event>)
    requires s.phase.Bound? && RenewsSameLease(es, s.lease)
    ensures LegalRun(s, es) && After(s, es).phase.Bound?
    ensures After(s, es).lease == s.lease && After(s, es).kernel == s.kernel
    decreases |es|
  {
    if es != [] {
      assert es[0] in es;
      SameLeaseNeverConfigures(Next(s, es[0]), es[1..]);
    }
  }

  /**
   * A failing configuration leaves the lease published. When the server then acknowledges the
   * same parameters nothing has changed, so configuring is skipped, however well netlink
   * works by then: the client stays bound without an address through every such renewal.
   */
  lemma FailedConfigurationIsNeverRetried(ack: DhcpAck, failing: Netlink, working: Netlink, renewals: seq<Event>)
    requires !failing.ok && RenewsSameLease(renewals, LeaseOf(ack))
    ensures var es := [Acquired(ack, failing), Acquired(ack, working)] + renewals;
      && LegalRun(START, es)
      && After(START, es).phase.Bound?
      && After(START, es).lease == LeaseOf(ack)
      && After(START, es).kernel == {}
  {
    var es := [Acquired(ack, failing), Acquired(ack, working)] + renewals;
    var s1 := Next(START, es[0]);
    var s2 := Next(s1, es[1]);
    assert s1 == State(Negotiating, LeaseOf(ack), {});
    assert s2 == State(Bound(ack), LeaseOf(ack), {});
    SameLeaseNeverConfigures(s2, renewals);
    assert es[1..] == [es[1]] + renewals && es[1..][1..] == renewals;
  }

  // ----- The client object -----

  class Client {
    var lease: WanLease
    var kernel: set<Address>

    constructor ()
      ensures lease == NO_LEASE && kernel == {}
    {
      lease := NO_LEASE;
      kernel := {};
    }

    method ApplyLeaseConfig(ack: DhcpAck, n: Netlink) returns (ok: bool)
      modifies this
      ensures (lease, kernel, ok) == Applied(old(lease), old(kernel), ack, n)
    {
      var changed := lease.ip != Some(ack.ip)
                  || lease.mask != Some(ack.mask)
                  || lease.gateway != ack.gateway
                  || lease.dns != ack.dns;
      if changed {
        lease := WanLease(Some(ack.ip), Some(ack.mask), ack.gateway, ack.dns);
      }
      ok := true;
      if changed {
        var result := ConfigureWan(kernel, ack.ip, ack.mask, n);
        kernel := result.0;
        ok := result.1;
      }
    }

    method Deconfigure(n: Netlink)
      modifies this
      ensures lease == NO_LEASE
      ensures kernel == Deconfigured(old(lease), old(kernel), n)
    {
      var ip, mask := lease.ip, lease.mask;
      lease := NO_LEASE;
      if ip.Some? && mask.Some? {
        kernel := DeconfigureWan(kernel, ip.value, mask.value, n);
      }
    }

    /** The main loop and the bound phase, over as many turns as the environment plays. */
    method Run(es: seq<Event>) returns (phase: Phase)
      requires LegalRun(State(Negotiating, lease, kernel), es)
      modifies this
      ensures State(phase, lease, kernel) == After(State(Negotiating, old(lease), old(kernel)), es)
    {
      phase := Negotiating;
      assert es[0..] == es;
      for i := 0 to |es|
        invariant LegalRun(State(phase, lease, kernel), es[i..])
        invariant After(State(phase, lease, kernel), es[i..])
               == After(State(Negotiating, old(lease), old(kernel)), es)
      {
        assert es[i..][1..] == es[i + 1..];
        match es[i] {
          case NegotiationFailed(n) =>
            Deconfigure(n);
          case LeaseLost(n) =>
            Deconfigure(n);
            phase := Negotiating;
          case Acquired(ack, n) =>
            var ok := ApplyLeaseConfig(ack, n);
            if ok {
              phase := Bound(ack);
            }
          case RenewalAcked(ack, n) =>
            var ok := ApplyLeaseConfig(ack, n);
            phase := if ok then Bound(ack) else Negotiating;
        }
      }
    }
  }
}
