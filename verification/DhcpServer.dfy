/**
 * The LAN DHCP server: four message handlers over a lease table, and what they
 * keep over every sequence of messages and every advance of the clock.
 */
module DhcpServer {
  import opened Common
  import opened Ipv4Nets
  import opened LeaseTables

  const LAN_LEASE_SECS: nat := 3600

  datatype State = State(table: Table, now: Time)

  datatype Message =
    | Discover(mac: Mac)
    | Request(mac: Mac, requested: Option<Ip>)
    | Decline(mac: Mac)
    | Release(mac: Mac)

  datatype Reply = NoReply | Offer(ip: Ip) | Ack(ip: Ip) | Nak

  /**
   * What a handler does not decide itself: the clock when its scan ends, when it
   * stamps a lease and when it returns, the entries an eviction scan leaves, the
   * answer of a conflict scan, and whether its reply can be encoded.
   */
  datatype Choice = Choice(
    scanned: Time, stamp: Time, end: Time, survivors: LeaseMap, taken: bool, encodes: bool := true)

  datatype Event = Event(msg: Message, choice: Choice)

  function NewLease(ip: Ip, stamp: Time): ClientLease {
    ClientLease(ip, stamp + Secs(LAN_LEASE_SECS))
  }

  /** The address a REQUEST is about: the one it names, else the client's entry. */
  function WantedIp(m: LeaseMap, mac: Mac, requested: Option<Ip>): Option<Ip> {
    if requested.Some? then requested
    else if mac in m then Some(m[mac].ip)
    else None
  }

  /** The server's own address is the interface address of its subnet. */
  predicate Leasable(net: Ipv4Net, ip: Ip) {
    ip != net.addr && Contains(net, ip)
  }

  ghost predicate Legal(net: Ipv4Net, m: LeaseMap, now: Time, e: Event) {
    && now <= e.choice.scanned <= e.choice.stamp <= e.choice.end
    && match e.msg
       case Discover(mac) => mac !in m ==> Evicts(m, now, e.choice.scanned, e.choice.survivors)
       case Request(mac, requested) =>
         (match WantedIp(m, mac, requested)
          case Some(ip) => Leasable(net, ip) ==> TakenVerdict(m, ip, mac, now, e.choice.scanned, e.choice.taken)
          case None => true)
       case _ => true
  }

  /** One handled message: the new state and the reply decided on. */
  function Next(net: Ipv4Net, s: State, e: Event): (State, Reply) {
    var c := e.choice;
    match e.msg
    case Discover(mac) =>
      if mac in s.table.byMac then
        (State(s.table, c.end), Offer(s.table.byMac[mac].ip))
      else
        var evicted := Table(c.survivors, IpsOf(c.survivors));
        (match NextFreeHost(net, net.addr, evicted.allocatedIps)
         case None => (State(evicted, c.end), NoReply)
         case Some(ip) => (State(Inserted(evicted, mac, NewLease(ip, c.stamp)), c.end), Offer(ip)))
    case Request(mac, requested) =>
      (match WantedIp(s.table.byMac, mac, requested)
       case None => (State(s.table, c.end), NoReply)
       case Some(ip) =>
         if Leasable(net, ip) && !c.taken
         then (State(Inserted(s.table, mac, NewLease(ip, c.stamp)), c.end), Ack(ip))
         else (State(s.table, c.end), Nak))
    case Decline(mac) => (State(Removed(s.table, mac), c.end), NoReply)
    case Release(mac) => (State(Removed(s.table, mac), c.end), NoReply)
  }

  /** A reply that fails to encode is not sent, whatever has changed by then. */
  function Sent(e: Event, reply: Reply): Reply {
    if e.choice.encodes then reply else NoReply
  }

  /** Every kind of reply is sent if it encodes. */
  lemma EncodedRepliesAreSent(net: Ipv4Net, s: State, e: Event)
    ensures e.choice.encodes ==> Sent(e, Next(net, s, e).1) == Next(net, s, e).1
    ensures !e.choice.encodes ==> Sent(e, Next(net, s, e).1) == NoReply
  {
  }

  // ----- Runs -----

  ghost predicate LegalRun(net: Ipv4Net, s: State, es: seq<Event>)
    decreases |es|
  {
    es == [] || (Legal(net, s.table.byMac, s.now, es[0]) && LegalRun(net, Next(net, s, es[0]).0, es[1..]))
  }

  function After(net: Ipv4Net, s: State, es: seq<Event>): State
    decreases |es|
  {
    if es == [] then s else After(net, Next(net, s, es[0]).0, es[1..])
  }

  function Replies(net: Ipv4Net, s: State, es: seq<Event>): seq<Reply>
    decreases |es|
  {
    if es == [] then [] else [Sent(es[0], Next(net, s, es[0]).1)] + Replies(net, Next(net, s, es[0]).0, es[1..])
  }

  function Boot(start: Time): State {
    State(EMPTY, start)
  }

  // ----- One live holder per address -----

  ghost predicate OneLiveHolder(m: LeaseMap, now: Time) {
    forall a, b | LiveAt(m, a, now) && LiveAt(m, b, now) && m[a].ip == m[b].ip :: a == b
  }

  ghost predicate AllLeasable(net: Ipv4Net, m: LeaseMap) {
    forall mac | mac in m :: Leasable(net, m[mac].ip)
  }

  ghost predicate Inv(net: Ipv4Net, s: State) {
    && OneLiveHolder(s.table.byMac, s.now)
    && AllLeasable(net, s.table.byMac)
    && s.table.allocatedIps <= IpsOf(s.table.byMac)
  }

  lemma IndexWithinMap(t: Table, mac: Mac, lease: ClientLease)
    requires t.allocatedIps <= IpsOf(t.byMac)
    ensures Inserted(t, mac, lease).allocatedIps <= IpsOf(Inserted(t, mac, lease).byMac)
    ensures Removed(t, mac).allocatedIps <= IpsOf(Removed(t, mac).byMac)
  {
    var i, r := Inserted(t, mac, lease), Removed(t, mac);
    assert mac in i.byMac && i.byMac[mac].ip == lease.ip;
    forall ip | ip in t.allocatedIps
      ensures ip in i.allocatedIps ==> ip in IpsOf(i.byMac)
      ensures ip in r.allocatedIps ==> ip in IpsOf(r.byMac)
    {
      var o :| o in t.byMac && t.byMac[o].ip == ip;
      if o != mac {
        assert o in i.byMac && i.byMac[o].ip == ip;
        assert o in r.byMac && r.byMac[o].ip == ip;
      }
    }
  }

  /** A lease no live client has can be handed out without breaking uniqueness. */
  lemma GrantKeepsOneHolder(m: LeaseMap, mac: Mac, lease: ClientLease, now: Time, end: Time)
    requires now <= end && OneLiveHolder(m, now)
    requires forall o | o in m && o != mac && m[o].ip == lease.ip :: m[o].expiry <= end
    ensures OneLiveHolder(m[mac := lease], end)
  {
  }

  lemma DiscoverKeepsInv(net: Ipv4Net, s: State, e: Event)
    requires Inv(net, s) && Legal(net, s.table.byMac, s.now, e) && e.msg.Discover?
    ensures Inv(net, Next(net, s, e).0)
  {
    var c, m := e.choice, s.table.byMac;
    if e.msg.mac in m {
      assert forall a | LiveAt(m, a, c.end) :: LiveAt(m, a, s.now);
    } else {
      var evicted := Table(c.survivors, IpsOf(c.survivors));
      assert forall a | LiveAt(c.survivors, a, c.end) :: LiveAt(m, a, s.now);
      FirstFreeIsLeast(FirstHost(net), LastHost(net), net.addr, evicted.allocatedIps);
      match NextFreeHost(net, net.addr, evicted.allocatedIps) {
        case None =>
        case Some(ip) =>
          GrantKeepsOneHolder(c.survivors, e.msg.mac, NewLease(ip, c.stamp), c.end, c.end);
          IndexWithinMap(evicted, e.msg.mac, NewLease(ip, c.stamp));
      }
    }
  }

  lemma RequestKeepsInv(net: Ipv4Net, s: State, e: Event)
    requires Inv(net, s) && Legal(net, s.table.byMac, s.now, e) && e.msg.Request?
    ensures Inv(net, Next(net, s, e).0)
  {
    var c, m := e.choice, s.table.byMac;
    assert forall a | LiveAt(m, a, c.end) :: LiveAt(m, a, s.now);
    match WantedIp(m, e.msg.mac, e.msg.requested) {
      case None =>
      case Some(ip) =>
        if Leasable(net, ip) && !c.taken {
          GrantKeepsOneHolder(m, e.msg.mac, NewLease(ip, c.stamp), s.now, c.end);
          IndexWithinMap(s.table, e.msg.mac, NewLease(ip, c.stamp));
        }
    }
  }

  lemma RemovalKeepsInv(net: Ipv4Net, s: State, e: Event)
    requires Inv(net, s) && Legal(net, s.table.byMac, s.now, e) && (e.msg.Decline? || e.msg.Release?)
    ensures Inv(net, Next(net, s, e).0)
  {
    var m := Removed(s.table, e.msg.mac).byMac;
    assert forall a | LiveAt(m, a, e.choice.end) :: LiveAt(s.table.byMac, a, s.now);
    IndexWithinMap(s.table, e.msg.mac, ClientLease(0, 0));
  }

  lemma NextKeepsInv(net: Ipv4Net, s: State, e: Event)
    requires Inv(net, s) && Legal(net, s.table.byMac, s.now, e)
    ensures Inv(net, Next(net, s, e).0)
    ensures s.now <= Next(net, s, e).0.now
  {
    match e.msg
    case Discover(_) => DiscoverKeepsInv(net, s, e);
    case Request(_, _) => RequestKeepsInv(net, s, e);
    case _ => RemovalKeepsInv(net, s, e);
  }

  lemma {:induction false} RunKeepsInv(net: Ipv4Net, s: State, es: seq<Event>)
    requires Inv(net, s) && LegalRun(net, s, es)
    ensures Inv(net, After(net, s, es))
    ensures s.now <= After(net, s, es).now
    decreases |es|
  {
    if es != [] {
      NextKeepsInv(net, s, es[0]);
      RunKeepsInv(net, Next(net, s, es[0]).0, es[1..]);
    }
  }

  /**
   * Safety over every run from the empty table: no two clients hold unexpired leases
   * on one address, now or at any later clock reading; every entry is in the subnet and
   * is not the server; and every address in the index has an entry.
   */
  lemma OneLiveHolderAlways(net: Ipv4Net, start: Time, es: seq<Event>, later: Time)
    requires LegalRun(net, Boot(start), es)
    requires After(net, Boot(start), es).now <= later
    ensures var t := After(net, Boot(start), es).table;
      && OneLiveHolder(t.byMac, later)
      && AllLeasable(net, t.byMac)
      && t.allocatedIps <= IpsOf(t.byMac)
  {
    RunKeepsInv(net, Boot(start), es);
    var s := After(net, Boot(start), es);
    assert forall a | LiveAt(s.table.byMac, a, later) :: LiveAt(s.table.byMac, a, s.now);
  }

  /**
   * The verdict on a REQUEST, from any state. It is about the address it names or, if it names
   * none, the one in the client's entry; with neither there is no reply. An ACK gives the client
   * that address for an hour; it is in the subnet, not the server's, and no other client holds
   * it. A NAK is for an address that is unfit or live with another, and changes no lease.
   */
  lemma RequestVerdict(net: Ipv4Net, s: State, e: Event)
    requires Legal(net, s.table.byMac, s.now, e) && e.msg.Request?
    ensures var m, mac, (s', reply) := s.table.byMac, e.msg.mac, Next(net, s, e);
      if e.msg.requested.None? && mac !in m then reply == NoReply && s'.table == s.table
      else
        var ip := if e.msg.requested.Some? then e.msg.requested.value else m[mac].ip;
        || (&& reply == Ack(ip)
            && ip != net.addr && Contains(net, ip)
            && s'.table.byMac == m[mac := ClientLease(ip, e.choice.stamp + Secs(3600))]
            && forall o | LiveAt(s'.table.byMac, o, s'.now) && s'.table.byMac[o].ip == ip :: o == mac)
        || (&& reply == Nak
            && s'.table == s.table
            && (|| ip == net.addr || !Contains(net, ip)
                || exists o | LiveAt(m, o, s.now) :: o != mac && m[o].ip == ip))
  {
  }

  /** Which of the two it is: an address fit and free as the scan begins is granted, one taken past its end is not. */
  lemma RequestIsGranted(net: Ipv4Net, s: State, e: Event, ip: Ip)
    requires Legal(net, s.table.byMac, s.now, e) && e.msg.Request?
    requires var m, mac := s.table.byMac, e.msg.mac;
      if e.msg.requested.Some? then e.msg.requested == Some(ip) else mac in m && m[mac].ip == ip
    ensures var m, mac, reply := s.table.byMac, e.msg.mac, Next(net, s, e).1;
      && (ip != net.addr && Contains(net, ip) && (forall o | LiveAt(m, o, s.now) && m[o].ip == ip :: o == mac) ==>
            reply == Ack(ip))
      && (|| ip == net.addr || !Contains(net, ip)
          || (exists o | LiveAt(m, o, e.choice.scanned) :: o != mac && m[o].ip == ip) ==>
            reply == Nak)
  {
  }

  /** A DECLINE or RELEASE takes its sender's entry out of the map, and no other, without a reply. */
  lemma ReleaseVerdict(net: Ipv4Net, s: State, e: Event)
    requires e.msg.Decline? || e.msg.Release?
    ensures var (s', reply) := Next(net, s, e);
      && reply == NoReply && s'.table.byMac == s.table.byMac - {e.msg.mac}
      && forall ip :: ip in s'.table.allocatedIps <==>
           && ip in s.table.allocatedIps
           && !(e.msg.mac in s.table.byMac && s.table.byMac[e.msg.mac].ip == ip)
  {
    if e.msg.mac !in s.table.byMac {
      assert s.table.byMac - {e.msg.mac} == s.table.byMac;
    }
  }

  /**
   * OFFERs are weaker. A known client is offered its old address without a conflict scan, so
   * the offer is exclusive but for a client whose lease has lapsed and whose address another
   * client has meanwhile taken. A live lease is always offered again, to its holder alone.
   */
  lemma OfferIsExclusiveUnlessRetaken(net: Ipv4Net, s: State, e: Event)
    requires Inv(net, s) && Legal(net, s.table.byMac, s.now, e) && Next(net, s, e).1.Offer?
    ensures var (s', reply) := Next(net, s, e);
      && e.msg.mac in s'.table.byMac && s'.table.byMac[e.msg.mac].ip == reply.ip
      && (LiveAt(s.table.byMac, e.msg.mac, s.now) ==> reply.ip == s.table.byMac[e.msg.mac].ip)
      && ((forall o | LiveAt(s'.table.byMac, o, s'.now) && s'.table.byMac[o].ip == reply.ip :: o == e.msg.mac)
          <==> !(e.msg.mac in s.table.byMac && !LiveAt(s.table.byMac, e.msg.mac, s.now)
                 && exists o | LiveAt(s.table.byMac, o, e.choice.end) ::
                      s.table.byMac[o].ip == s.table.byMac[e.msg.mac].ip))
  {
    NextKeepsInv(net, s, e);
    var (s', reply) := Next(net, s, e);
    if e.msg.mac !in s.table.byMac {
      assert LiveAt(s'.table.byMac, e.msg.mac, e.choice.stamp);
      FirstFreeIsLeast(FirstHost(net), LastHost(net), net.addr, IpsOf(e.choice.survivors));
    } else {
      assert forall o | LiveAt(s.table.byMac, o, e.choice.end) :: LiveAt(s.table.byMac, o, s.now);
    }
  }

  // ----- Live leases are stable and honoured -----

  /** Only its own REQUEST, DECLINE or RELEASE may touch a client's live lease. */
  predicate Touches(msg: Message, mac: Mac) {
    msg.mac == mac && !msg.Discover?
  }

  lemma NextKeepsLiveLease(net: Ipv4Net, s: State, e: Event, a: Mac)
    requires Legal(net, s.table.byMac, s.now, e) && !Touches(e.msg, a)
    requires LiveAt(s.table.byMac, a, Next(net, s, e).0.now)
    ensures a in Next(net, s, e).0.table.byMac
    ensures Next(net, s, e).0.table.byMac[a] == s.table.byMac[a]
  {
  }

  /** While A's lease is unexpired no interleaving of other clients' messages changes it. */
  lemma {:induction false} LiveLeaseIsStable(net: Ipv4Net, s: State, es: seq<Event>, a: Mac)
    requires Inv(net, s) && LegalRun(net, s, es)
    requires forall e | e in es :: !Touches(e.msg, a)
    requires LiveAt(s.table.byMac, a, After(net, s, es).now)
    ensures a in After(net, s, es).table.byMac
    ensures After(net, s, es).table.byMac[a] == s.table.byMac[a]
    decreases |es|
  {
    if es != [] {
      var s1 := Next(net, s, es[0]).0;
      assert es[0] in es;
      NextKeepsInv(net, s, es[0]);
      RunKeepsInv(net, s1, es[1..]);
      NextKeepsLiveLease(net, s, es[0], a);
      LiveLeaseIsStable(net, s1, es[1..], a);
    }
  }

  /** A's REQUEST for the address it holds, named or implied, is acknowledged and never NAKed. */
  lemma LiveLeaseIsHonoured(net: Ipv4Net, s: State, e: Event)
    requires Inv(net, s) && Legal(net, s.table.byMac, s.now, e)
    requires e.msg.Request? && LiveAt(s.table.byMac, e.msg.mac, s.now)
    requires e.msg.requested.None? || e.msg.requested.value == s.table.byMac[e.msg.mac].ip
    ensures Next(net, s, e).1 == Ack(s.table.byMac[e.msg.mac].ip)
  {
  }

  /**
   * Together, over a whole history: a client that holds a lease after `before`, and sends
   * nothing but DISCOVERs during `es`, still holds the same lease and is acknowledged when
   * it asks for it before it expires.
   */
  lemma HeldAddressIsRenewable(net: Ipv4Net, start: Time, before: seq<Event>, es: seq<Event>, e: Event)
    requires LegalRun(net, Boot(start), before)
    requires LegalRun(net, After(net, Boot(start), before), es)
    requires forall x | x in es :: !Touches(x.msg, e.msg.mac)
    requires LiveAt(After(net, Boot(start), before).table.byMac, e.msg.mac,
                    After(net, After(net, Boot(start), before), es).now)
    requires var s := After(net, After(net, Boot(start), before), es);
      Legal(net, s.table.byMac, s.now, e)
    requires e.msg.Request?
    requires e.msg.requested.None?
          || e.msg.requested.value == After(net, Boot(start), before).table.byMac[e.msg.mac].ip
    ensures Next(net, After(net, After(net, Boot(start), before), es), e).1
         == Ack(After(net, Boot(start), before).table.byMac[e.msg.mac].ip)
  {
    var s0 := After(net, Boot(start), before);
    RunKeepsInv(net, Boot(start), before);
    RunKeepsInv(net, s0, es);
    LiveLeaseIsStable(net, s0, es, e.msg.mac);
    LiveLeaseIsHonoured(net, After(net, s0, es), e);
  }

  // ----- The index is never observed -----

  /** The same server without an index: it scans the map for addresses in use. */
  function ScanNext(net: Ipv4Net, m: LeaseMap, e: Event): (LeaseMap, Reply) {
    var c := e.choice;
    match e.msg
    case Discover(mac) =>
      if mac in m then (m, Offer(m[mac].ip))
      else
        (match NextFreeHost(net, net.addr, IpsOf(c.survivors))
         case None => (c.survivors, NoReply)
         case Some(ip) => (c.survivors[mac := NewLease(ip, c.stamp)], Offer(ip)))
    case Request(mac, requested) =>
      (match WantedIp(m, mac, requested)
       case None => (m, NoReply)
       case Some(ip) =>
         if Leasable(net, ip) && !c.taken
         then (m[mac := NewLease(ip, c.stamp)], Ack(ip))
         else (m, Nak))
    case Decline(mac) => (m - {mac}, NoReply)
    case Release(mac) => (m - {mac}, NoReply)
  }

  ghost predicate LegalScanRun(net: Ipv4Net, m: LeaseMap, now: Time, es: seq<Event>)
    decreases |es|
  {
    es == [] || (Legal(net, m, now, es[0]) && LegalScanRun(net, ScanNext(net, m, es[0]).0, es[0].choice.end, es[1..]))
  }

  function ScanAfter(net: Ipv4Net, m: LeaseMap, es: seq<Event>): LeaseMap
    decreases |es|
  {
    if es == [] then m else ScanAfter(net, ScanNext(net, m, es[0]).0, es[1..])
  }

  function ScanReplies(net: Ipv4Net, m: LeaseMap, es: seq<Event>): seq<Reply>
    decreases |es|
  {
    if es == [] then []
    else [Sent(es[0], ScanNext(net, m, es[0]).1)] + ScanReplies(net, ScanNext(net, m, es[0]).0, es[1..])
  }

  /**
   * The indexed table refines the index-free one, from any state and whatever the index
   * holds: the two have the same legal runs, give the same replies and keep the same map.
   */
  lemma {:induction false} IndexIsUnobservable(net: Ipv4Net, s: State, es: seq<Event>)
    ensures LegalRun(net, s, es) <==> LegalScanRun(net, s.table.byMac, s.now, es)
    ensures Replies(net, s, es) == ScanReplies(net, s.table.byMac, es)
    ensures After(net, s, es).table.byMac == ScanAfter(net, s.table.byMac, es)
    decreases |es|
  {
    if es != [] {
      var s1 := Next(net, s, es[0]).0;
      assert s1.table.byMac == ScanNext(net, s.table.byMac, es[0]).0 && s1.now == es[0].choice.end;
      IndexIsUnobservable(net, s1, es[1..]);
    }
  }

  ghost predicate NoSharedAddress(m: LeaseMap) {
    forall a, b | a in m && b in m && m[a].ip == m[b].ip :: a == b
  }

  /** While no two entries share an address, every handler leaves an exact index exact. */
  lemma SyncKeptWhileUnshared(net: Ipv4Net, s: State, e: Event)
    requires Legal(net, s.table.byMac, s.now, e)
    requires InSync(s.table) && NoSharedAddress(s.table.byMac)
    ensures InSync(Next(net, s, e).0.table)
  {
    var c := e.choice;
    match e.msg
    case Discover(mac) =>
      if mac !in s.table.byMac {
        var evicted := Table(c.survivors, IpsOf(c.survivors));
        match NextFreeHost(net, net.addr, evicted.allocatedIps) {
          case None =>
          case Some(ip) =>
            InsertKeepsSync(evicted, mac, NewLease(ip, c.stamp));
        }
      }
    case Request(mac, requested) =>
      match WantedIp(s.table.byMac, mac, requested) {
        case None =>
        case Some(ip) => InsertKeepsSync(s.table, mac, NewLease(ip, c.stamp));
      }
    case Decline(mac) => RemoveKeepsSync(s.table, mac);
    case Release(mac) => RemoveKeepsSync(s.table, mac);
  }

  // ----- What the index is not -----

  const EXAMPLE_NET: Ipv4Net := Subnet(0xC0A8_0101, 30)
  const EXAMPLE_IP: Ip := 0xC0A8_0102

  /** A takes the only free address, lets the lease lapse, B requests it, A releases. */
  function StaleIndexRun(): seq<Event> {
    var hour := Secs(LAN_LEASE_SECS);
    [ Event(Discover(1), Choice(0, 0, 0, map[], false)),
      Event(Request(2, Some(EXAMPLE_IP)), Choice(hour, hour, hour, map[], false)),
      Event(Release(1), Choice(hour, hour, hour, map[], false)) ]
  }

  lemma ExampleAddresses()
    ensures FirstHost(EXAMPLE_NET) == EXAMPLE_NET.addr && LastHost(EXAMPLE_NET) == EXAMPLE_IP
    ensures Leasable(EXAMPLE_NET, EXAMPLE_IP)
    ensures NextFreeHost(EXAMPLE_NET, EXAMPLE_NET.addr, {}) == Some(EXAMPLE_IP)
  {
    assert Pow2(2) == 4;
    assert Network(EXAMPLE_NET) == 0xC0A8_0100;
    FirstFreeIsLeast(FirstHost(EXAMPLE_NET), LastHost(EXAMPLE_NET), EXAMPLE_NET.addr, {});
  }

  /**
   * The index is not the set of leased addresses: after this legal run client 2 holds a
   * live lease on an address the index has lost. An expired and a live entry shared that
   * address on the way, and an allocator reading the index without rebuilding it first
   * would hand the address out again.
   */
  lemma IndexLosesLiveAddress()
    ensures LegalRun(EXAMPLE_NET, Boot(0), StaleIndexRun())
    ensures !NoSharedAddress(After(EXAMPLE_NET, Boot(0), StaleIndexRun()[..2]).table.byMac)
    ensures var s := After(EXAMPLE_NET, Boot(0), StaleIndexRun());
      && LiveAt(s.table.byMac, 2, s.now) && s.table.byMac[2].ip == EXAMPLE_IP
      && EXAMPLE_IP !in s.table.allocatedIps
      && NextFreeHost(EXAMPLE_NET, EXAMPLE_NET.addr, s.table.allocatedIps) == Some(EXAMPLE_IP)
  {
    ExampleAddresses();
    var net, es, hour := EXAMPLE_NET, StaleIndexRun(), Secs(LAN_LEASE_SECS);
    var s0 := Boot(0);
    var s1 := Next(net, s0, es[0]).0;
    var s2 := Next(net, s1, es[1]).0;
    var s3 := Next(net, s2, es[2]).0;
    assert IpsOf(map[]) == {};
    assert s1.table == Table(map[1 := ClientLease(EXAMPLE_IP, hour)], {EXAMPLE_IP});
    assert Legal(net, s0.table.byMac, s0.now, es[0]);
    assert Legal(net, s1.table.byMac, s1.now, es[1]);
    assert s2.table.byMac[1].ip == s2.table.byMac[2].ip == EXAMPLE_IP;
    assert s3.table.allocatedIps == {};
    assert es[1..] == [es[1], es[2]] && es[1..][1..] == [es[2]] && es[1..][1..][1..] == [];
    assert es[..2] == [es[0], es[1]] && es[..2][1..] == [es[1]] && es[..2][1..][1..] == [];
  }

  /** Client 1, whose lease lapsed, is offered the address client 2 now holds. */
  lemma LapsedClientIsOfferedTakenAddress()
    ensures var s := After(EXAMPLE_NET, Boot(0), StaleIndexRun()[..2]);
      && LegalRun(EXAMPLE_NET, Boot(0), StaleIndexRun()[..2])
      && LiveAt(s.table.byMac, 2, s.now) && s.table.byMac[2].ip == EXAMPLE_IP
      && forall c: Choice :: Next(EXAMPLE_NET, s, Event(Discover(1), c)).1 == Offer(EXAMPLE_IP)
  {
    ExampleAddresses();
    var net, es, hour := EXAMPLE_NET, StaleIndexRun(), Secs(LAN_LEASE_SECS);
    var s1 := Next(net, Boot(0), es[0]).0;
    assert IpsOf(map[]) == {};
    assert s1.table == Table(map[1 := ClientLease(EXAMPLE_IP, hour)], {EXAMPLE_IP});
    assert Legal(net, s1.table.byMac, s1.now, es[1]);
    assert es[..2] == [es[0], es[1]] && es[..2][1..] == [es[1]] && es[..2][1..][1..] == [];
  }

  // ----- Completeness of the pool -----

  /** A DISCOVER from a client with an entry, expired or not, is offered its address, and changes nothing. */
  lemma KnownClientIsReoffered(net: Ipv4Net, s: State, e: Event)
    requires e.msg.Discover? && e.msg.mac in s.table.byMac
    ensures var (s', reply) := Next(net, s, e);
      reply == Offer(s.table.byMac[e.msg.mac].ip) && s'.table == s.table
  {
  }

  /**
   * A DISCOVER from an unknown client is offered the least host that is neither the
   * server nor held after eviction, for an hour, and goes unanswered only when there is none.
   */
  lemma DiscoverOffersLeastFree(net: Ipv4Net, s: State, e: Event)
    requires e.msg.Discover? && e.msg.mac !in s.table.byMac
    ensures var held, (s', reply) := IpsOf(e.choice.survivors), Next(net, s, e);
      match reply
      case Offer(ip) =>
        && IsHost(net, ip) && ip != net.addr && ip !in held
        && (forall k: Ip | IsHost(net, k) && k < ip :: k == net.addr || k in held)
        && s'.table.byMac == e.choice.survivors[e.msg.mac := ClientLease(ip, e.choice.stamp + Secs(3600))]
        && (e.msg.mac !in e.choice.survivors ==> s'.table.allocatedIps == held + {ip})
      case NoReply =>
        && (forall k: Ip | IsHost(net, k) :: k == net.addr || k in held)
        && s'.table.byMac == e.choice.survivors && InSync(s'.table)
      case _ => false
  {
    FirstFreeIsLeast(FirstHost(net), LastHost(net), net.addr, IpsOf(e.choice.survivors));
  }

  lemma {:induction false} NoMoreIpsThanEntries(m: LeaseMap)
    ensures |IpsOf(m)| <= |m|
    decreases |m|
  {
    if mac :| mac in m {
      var rest := m - {mac};
      assert m.Keys == rest.Keys + {mac};
      NoMoreIpsThanEntries(rest);
      forall ip | ip in IpsOf(m)
        ensures ip in IpsOf(rest) + {m[mac].ip}
      {
        var o :| o in m && m[o].ip == ip;
        assert o != mac ==> o in rest && rest[o].ip == ip;
      }
      assert IpsOf(m) == IpsOf(rest) + {m[mac].ip};
    } else {
      assert IpsOf(m) == {};
    }
  }

  /** Pigeonhole: with fewer surviving entries than hosts besides the server, an offer is made. */
  lemma RoomMeansOffer(net: Ipv4Net, s: State, e: Event)
    requires e.msg.Discover? && e.msg.mac !in s.table.byMac
    requires |e.choice.survivors| < |Hosts(net) - {net.addr as int}|
    ensures Next(net, s, e).1.Offer?
  {
    DiscoverOffersLeastFree(net, s, e);
    if Next(net, s, e).1.NoReply? {
      var held: set<int> := IpsOf(e.choice.survivors);
      var others := Hosts(net) - {net.addr as int};
      forall h | h in others
        ensures h in held
      {
        var k: Ip := h;
        assert IsHost(net, k);
      }
      SubsetSize(others, held);
      NoMoreIpsThanEntries(e.choice.survivors);
    }
  }

  ghost function LiveClients(s: State): set<Mac> {
    set mac | mac in s.table.byMac && s.table.byMac[mac].expiry > s.now
  }

  /** In every run the clients holding live leases are fewer than the subnet's addresses. */
  lemma LiveLeasesFitSubnet(net: Ipv4Net, start: Time, es: seq<Event>)
    requires LegalRun(net, Boot(start), es)
    ensures |LiveClients(After(net, Boot(start), es))| <= Size(net) - 1
  {
    var s := After(net, Boot(start), es);
    RunKeepsInv(net, Boot(start), es);
    var m := s.table.byMac;
    var ipOf: Mac -> int := mac => if mac in m then m[mac].ip else 0;
    var others := Addresses(net) - {net.addr as int};
    forall a, b | a in LiveClients(s) && b in LiveClients(s) && ipOf(a) == ipOf(b)
      ensures a == b
    {
      assert LiveAt(m, a, s.now) && LiveAt(m, b, s.now);
    }
    InjectiveImageSize(LiveClients(s), ipOf, others);
  }

  // ----- The handlers -----

  class Server {
    const net: Ipv4Net
    const leases: LeaseTable
    const clock: Clock

    constructor (net: Ipv4Net, clock: Clock)
      ensures this.net == net && this.clock == clock && fresh(leases)
      ensures Snapshot() == Boot(clock.now)
    {
      this.net := net;
      this.clock := clock;
      leases := new LeaseTable();
    }

    ghost function Snapshot(): State
      reads leases, clock
    {
      State(leases.View(), clock.now)
    }

    /** The handled message is a legal event, and its effect is the one `Next` gives. */
    ghost predicate Handled(before: State, e: Event, reply: Reply)
      reads leases, clock
    {
      && Legal(net, before.table.byMac, before.now, e)
      && Next(net, before, e).0 == Snapshot()
      && Sent(e, Next(net, before, e).1) == reply
    }

    method HandleDiscover(mac: Mac, encodes: bool) returns (reply: Reply, ghost e: Event)
      modifies leases, clock
      ensures e.msg == Discover(mac) && e.choice.encodes == encodes && Handled(old(Snapshot()), e, reply)
    {
      var existing := leases.Get(mac);
      if existing.Some? {
        e := Event(Discover(mac), Choice(clock.now, clock.now, clock.now, map[], false, encodes));
        return if encodes then Offer(existing.value.ip) else NoReply, e;
      }
      var found := leases.NextAvailableIp(clock, net, net.addr);
      ghost var scanned, survivors := clock.now, leases.byMac;
      if found.None? {
        e := Event(Discover(mac), Choice(scanned, scanned, scanned, survivors, false, encodes));
        return NoReply, e;
      }
      var stamp := clock.Now();
      leases.Insert(mac, ClientLease(found.value, stamp + Secs(LAN_LEASE_SECS)));
      reply := if encodes then Offer(found.value) else NoReply;
      e := Event(Discover(mac), Choice(scanned, stamp, stamp, survivors, false, encodes));
    }

    method ValidateRequestedIp(ip: Ip, mac: Mac) returns (ok: bool, ghost taken: bool)
      modifies clock
      ensures old(clock.now) <= clock.now
      ensures Leasable(net, ip) ==> TakenVerdict(leases.byMac, ip, mac, old(clock.now), clock.now, taken)
      ensures ok <==> Leasable(net, ip) && !taken
    {
      if ip == net.addr || !Contains(net, ip) {
        return false, false;
      }
      var other := leases.IsIpTakenByOther(clock, ip, mac);
      return !other, other;
    }

    method HandleRequest(mac: Mac, requested: Option<Ip>, encodes: bool) returns (reply: Reply, ghost e: Event)
      modifies leases, clock
      ensures e.msg == Request(mac, requested) && e.choice.encodes == encodes && Handled(old(Snapshot()), e, reply)
    {
      var existing := leases.Get(mac);
      var ip: Ip;
      if requested.Some? {
        ip := requested.value;
      } else if existing.Some? {
        ip := existing.value.ip;
      } else {
        e := Event(Request(mac, requested), Choice(clock.now, clock.now, clock.now, map[], false, encodes));
        return NoReply, e;
      }
      var ok, taken := ValidateRequestedIp(ip, mac);
      ghost var scanned := clock.now;
      if !ok {
        e := Event(Request(mac, requested), Choice(scanned, scanned, scanned, map[], taken, encodes));
        return if encodes then Nak else NoReply, e;
      }
      var stamp := clock.Now();
      leases.Insert(mac, ClientLease(ip, stamp + Secs(LAN_LEASE_SECS)));
      reply := if encodes then Ack(ip) else NoReply;
      e := Event(Request(mac, requested), Choice(scanned, stamp, stamp, map[], taken, encodes));
    }

    method HandleDecline(mac: Mac) returns (ghost e: Event)
      modifies leases
      ensures e.msg == Decline(mac) && Handled(old(Snapshot()), e, NoReply)
    {
      var _ := leases.Remove(mac);
      e := Event(Decline(mac), Choice(clock.now, clock.now, clock.now, map[], false));
    }

    method HandleRelease(mac: Mac) returns (ghost e: Event)
      modifies leases
      ensures e.msg == Release(mac) && Handled(old(Snapshot()), e, NoReply)
    {
      var _ := leases.Remove(mac);
      e := Event(Release(mac), Choice(clock.now, clock.now, clock.now, map[], false));
    }
  }
}
