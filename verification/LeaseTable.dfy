/**
 * The LAN server's lease table: a map from client to lease, and an index of the
 * addresses in use that speeds up allocation.
 *
 * Every clock reading is a separate one, also inside a scan of the map, so a scan
 * is specified by the readings that bracket it rather than by a single instant.
 */
module LeaseTables {
  import opened Common
  import opened Ipv4Nets

  type Mac = m: nat | m < 0x1_0000_0000_0000

  datatype ClientLease = ClientLease(ip: Ip, expiry: Time)

  type LeaseMap = map<Mac, ClientLease>

  /** The map and its index, as a value. */
  datatype Table = Table(byMac: LeaseMap, allocatedIps: set<Ip>)

  const EMPTY := Table(map[], {})

  function IpsOf(m: LeaseMap): set<Ip> {
    set mac | mac in m :: m[mac].ip
  }

  ghost predicate InSync(t: Table) {
    t.allocatedIps == IpsOf(t.byMac)
  }

  ghost predicate LiveAt(m: LeaseMap, mac: Mac, now: Time) {
    mac in m && m[mac].expiry > now
  }

  function Inserted(t: Table, mac: Mac, lease: ClientLease): Table {
    var freed := if mac in t.byMac then t.allocatedIps - {t.byMac[mac].ip} else t.allocatedIps;
    Table(t.byMac[mac := lease], freed + {lease.ip})
  }

  function Removed(t: Table, mac: Mac): Table {
    if mac in t.byMac
    then Table(t.byMac - {mac}, t.allocatedIps - {t.byMac[mac].ip})
    else t
  }

  /** `after` is what an eviction scan may leave when its readings lie between `lo` and `hi`. */
  ghost predicate Evicts(before: LeaseMap, lo: Time, hi: Time, after: LeaseMap) {
    && after.Keys <= before.Keys
    && (forall m | m in after :: after[m] == before[m] && before[m].expiry > lo)
    && (forall m | m in before && m !in after :: before[m].expiry <= hi)
  }

  /** `taken` is an answer the conflict scan may give when its readings lie between `lo` and `hi`. */
  ghost predicate TakenVerdict(m: LeaseMap, ip: Ip, client: Mac, lo: Time, hi: Time, taken: bool) {
    if taken then
      exists o :: o in m && o != client && m[o].ip == ip && m[o].expiry > lo
    else
      forall o | o in m && o != client && m[o].ip == ip :: m[o].expiry <= hi
  }

  /** The first address from `ip` up to `last` that is neither the server nor held. */
  function FirstFree(ip: nat, last: int, server: Ip, held: set<Ip>): Option<Ip>
    requires last < U32_SIZE
    decreases last - ip
  {
    if ip > last then None
    else if ip != server && ip !in held then Some(ip)
    else FirstFree(ip + 1, last, server, held)
  }

  function NextFreeHost(net: Ipv4Net, server: Ip, held: set<Ip>): Option<Ip> {
    FirstFree(FirstHost(net), LastHost(net), server, held)
  }

  lemma {:induction false} FirstFreeIsLeast(ip: nat, last: int, server: Ip, held: set<Ip>)
    requires last < U32_SIZE
    ensures match FirstFree(ip, last, server, held)
      case Some(r) =>
        && ip <= r <= last && r != server && r !in held
        && (forall k: Ip | ip <= k < r :: k == server || k in held)
      case None => forall k: Ip | ip <= k <= last :: k == server || k in held
    decreases last - ip
  {
    if ip <= last && (ip == server || ip in held) {
      FirstFreeIsLeast(ip + 1, last, server, held);
    }
  }

  // ----- When the index tracks the map -----

  /** Removing a lease keeps the index exact just when no other client's entry has the same address. */
  lemma RemoveKeepsSync(t: Table, mac: Mac)
    requires InSync(t)
    ensures InSync(Removed(t, mac)) <==>
            (mac in t.byMac ==> forall o | o in t.byMac && o != mac :: t.byMac[o].ip != t.byMac[mac].ip)
  {
    if mac in t.byMac {
      var r := Removed(t, mac);
      assert forall o :: o in r.byMac ==> r.byMac[o] == t.byMac[o];
      if o :| o in t.byMac && o != mac && t.byMac[o].ip == t.byMac[mac].ip {
        assert o in r.byMac && r.byMac[o].ip in IpsOf(r.byMac);
      } else {
        assert r.allocatedIps == IpsOf(r.byMac);
      }
    }
  }

  /**
   * Replacing a lease keeps the index exact just when the client keeps its address
   * or no other client's entry has the address it gives up.
   */
  lemma InsertKeepsSync(t: Table, mac: Mac, lease: ClientLease)
    requires InSync(t)
    ensures InSync(Inserted(t, mac, lease)) <==>
            (mac in t.byMac && t.byMac[mac].ip != lease.ip ==>
               forall o | o in t.byMac && o != mac :: t.byMac[o].ip != t.byMac[mac].ip)
  {
    var r := Inserted(t, mac, lease);
    assert forall o :: o in r.byMac && o != mac ==> o in t.byMac && r.byMac[o] == t.byMac[o];
    assert r.byMac[mac] == lease;
    if o :| o in t.byMac && o != mac && mac in t.byMac
            && t.byMac[mac].ip != lease.ip && t.byMac[o].ip == t.byMac[mac].ip {
      assert o in r.byMac && r.byMac[o].ip in IpsOf(r.byMac);
      assert t.byMac[mac].ip !in r.allocatedIps;
    } else {
      forall ip | ip in r.allocatedIps
        ensures ip in IpsOf(r.byMac)
      {
        if ip != lease.ip {
          var o :| o in t.byMac && t.byMac[o].ip == ip;
          assert o in r.byMac && r.byMac[o] == t.byMac[o];
        }
      }
      forall o | o in r.byMac
        ensures r.byMac[o].ip in r.allocatedIps
      {
      }
      assert r.allocatedIps == IpsOf(r.byMac);
    }
  }

  class LeaseTable {
    var byMac: LeaseMap
    var allocatedIps: set<Ip>

    ghost function View(): Table
      reads this
    {
      Table(byMac, allocatedIps)
    }

    constructor ()
      ensures View() == EMPTY
    {
      byMac := map[];
      allocatedIps := {};
    }

    function Get(mac: Mac): (lease: Option<ClientLease>)
      reads this
      ensures lease.Some? <==> mac in byMac
      ensures lease.Some? ==> lease.value == byMac[mac]
    {
      if mac in byMac then Some(byMac[mac]) else None
    }

    method Insert(mac: Mac, lease: ClientLease)
      modifies this
      ensures View() == Inserted(old(View()), mac, lease)
      ensures byMac == old(byMac)[mac := lease]
      ensures forall ip :: ip in allocatedIps <==>
                || ip == lease.ip
                || (ip in old(allocatedIps) && !(mac in old(byMac) && old(byMac)[mac].ip == ip))
    {
      if mac in byMac {
        allocatedIps := allocatedIps - {byMac[mac].ip};
      }
      allocatedIps := allocatedIps + {lease.ip};
      byMac := byMac[mac := lease];
    }

    method Remove(mac: Mac) returns (lease: Option<ClientLease>)
      modifies this
      ensures View() == Removed(old(View()), mac)
      ensures byMac == old(byMac) - {mac}
      ensures forall ip :: ip in allocatedIps <==>
                ip in old(allocatedIps) && !(mac in old(byMac) && old(byMac)[mac].ip == ip)
      ensures lease == old(Get(mac))
    {
      if mac !in byMac {
        return None;
      }
      lease := Some(byMac[mac]);
      byMac := byMac - {mac};
      allocatedIps := allocatedIps - {lease.value.ip};
    }

    predicate IsIpAvailable(ip: Ip)
      reads this
    {
      ip !in allocatedIps
    }

    method IsIpTakenByOther(clock: Clock, ip: Ip, client: Mac) returns (taken: bool)
      modifies clock
      ensures old(clock.now) <= clock.now
      ensures TakenVerdict(byMac, ip, client, old(clock.now), clock.now, taken)
    {
      var todo := byMac.Keys;
      while todo != {}
        invariant todo <= byMac.Keys
        invariant old(clock.now) <= clock.now
        invariant forall o | o in byMac && o !in todo && o != client && byMac[o].ip == ip ::
                    byMac[o].expiry <= clock.now
        decreases |todo|
      {
        var mac :| mac in todo;
        todo := todo - {mac};
        if byMac[mac].ip == ip {
          var t := clock.Now();
          if byMac[mac].expiry > t && mac != client {
            return true;
          }
        }
      }
      taken := false;
    }

    method EvictExpired(clock: Clock)
      modifies this, clock
      ensures old(clock.now) <= clock.now
      ensures Evicts(old(byMac), old(clock.now), clock.now, byMac)
      ensures InSync(View())
    {
      var todo := byMac.Keys;
      while todo != {}
        invariant todo <= byMac.Keys <= old(byMac).Keys
        invariant old(clock.now) <= clock.now
        invariant forall m | m in byMac :: byMac[m] == old(byMac)[m]
        invariant forall m | m in byMac && m !in todo :: byMac[m].expiry > old(clock.now)
        invariant forall m | m in old(byMac) && m !in byMac :: old(byMac)[m].expiry <= clock.now
        decreases |todo|
      {
        var mac :| mac in todo;
        todo := todo - {mac};
        var t := clock.Now();
        if byMac[mac].expiry <= t {
          byMac := byMac - {mac};
        }
      }
      allocatedIps := IpsOf(byMac);
    }

    method NextAvailableIp(clock: Clock, net: Ipv4Net, server: Ip) returns (ip: Option<Ip>)
      modifies this, clock
      ensures old(clock.now) <= clock.now
      ensures Evicts(old(byMac), old(clock.now), clock.now, byMac)
      ensures InSync(View())
      ensures ip == NextFreeHost(net, server, allocatedIps)
    {
      EvictExpired(clock);
      var host := FirstHost(net);
      while host <= LastHost(net)
        invariant FirstFree(FirstHost(net), LastHost(net), server, allocatedIps)
               == FirstFree(host, LastHost(net), server, allocatedIps)
        decreases LastHost(net) - host
      {
        if host != server && IsIpAvailable(host) {
          return Some(host);
        }
        host := host + 1;
      }
      ip := None;
    }
  }
}
