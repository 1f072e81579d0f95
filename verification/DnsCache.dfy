/**
 * The DNS response cache: lookups that delete what they find expired, inserts that
 * stamp their expiry before taking the lock, and a periodic prune.
 */
module DnsCache {
  import opened Common

  const DEFAULT_TTL_SECS: u32 := 30
  const MAX_TTL_SECS: u32 := 3600

  // ----- Keys -----

  /** A printed record type or class, which has no colon in it. */
  type Label = s: string | ':' !in s witness ""

  datatype Question = Question(name: string, qtype: Label, qclass: Label)

  type Key = string

  function KeyOf(q: Question): Key {
    q.name + ":" + q.qtype + ":" + q.qclass
  }

  lemma LastColonSplits(x: string, y: Label, x': string, y': Label)
    requires x + ":" + y == x' + ":" + y'
    ensures x == x' && y == y'
  {
    var s, s' := x + ":" + y, x' + ":" + y';
    assert s[|x|] == ':' && s'[|x'|] == ':';
    assert |x| == |x'|;
    assert x == s[..|x|] && x' == s'[..|x|];
    assert y == s[|x| + 1..] && y' == s'[|x| + 1..];
  }

  /** The colon-joined key determines name, type and class, even when the name has colons. */
  lemma KeyDeterminesQuestion(a: Question, b: Question)
    requires KeyOf(a) == KeyOf(b)
    ensures a == b
  {
    LastColonSplits(a.name + ":" + a.qtype, a.qclass, b.name + ":" + b.qtype, b.qclass);
    LastColonSplits(a.name, a.qtype, b.name, b.qtype);
  }

  // ----- How long a response is kept -----

  /** The answers' times to live, as the external parser finds them, or nothing when it fails. */
  type TtlParser = Bytes -> Option<seq<u32>>

  function MinTtl(ttls: seq<u32>): (r: u32)
    requires ttls != []
    ensures r in ttls && forall t | t in ttls :: r <= t
  {
    if |ttls| == 1 then ttls[0]
    else
      var rest := MinTtl(ttls[1..]);
      assert ttls == [ttls[0]] + ttls[1..];
      if ttls[0] <= rest then ttls[0] else rest
  }

  /** The seconds a response is cached for, or nothing when it is not cached. */
  function CacheTtl(parse: TtlParser, response: Bytes): Option<nat> {
    if |response| < DNS_HEADER_SIZE || parse(response).None? then None
    else
      var ttls := parse(response).value;
      var ttl := if ttls == [] then DEFAULT_TTL_SECS else MinTtl(ttls);
      if ttl == 0 then None else Some(Min(MAX_TTL_SECS, ttl))
  }

  /**
   * A response is cached unless it is too short, does not parse or has an answer with no time
   * to live: for the least of its answers' times, but no longer than an hour, or for thirty
   * seconds when it has no answers.
   */
  lemma CachedForLeastTtl(parse: TtlParser, response: Bytes)
    ensures CacheTtl(parse, response).Some? <==>
            |response| >= 12 && parse(response).Some? && 0 !in parse(response).value
    ensures CacheTtl(parse, response).Some? ==>
      var t, ttls := CacheTtl(parse, response).value, parse(response).value;
      if ttls == [] then t == 30
      else 0 < t <= 3600 && (forall x | x in ttls :: t <= x) && (t == 3600 || t in ttls)
  {
  }

  // ----- The cache and the log it refines -----

  datatype CacheEntry = CacheEntry(response: Bytes, expiry: Time)

  type Cache = map<Key, CacheEntry>

  /** An insertion, with the clock reading its expiry counts from. */
  datatype Insertion = Insertion(key: Key, response: Bytes, at: Time, ttl: nat)

  type Log = seq<Insertion>

  function Expiry(i: Insertion): Time {
    i.at + Secs(i.ttl)
  }

  function LatestFor(log: Log, key: Key): Option<Insertion> {
    if log == [] then None
    else if log[|log| - 1].key == key then Some(log[|log| - 1])
    else LatestFor(log[..|log| - 1], key)
  }

  /** What the log alone answers: the latest insertion for the key, while it has not expired. */
  function Visible(log: Log, key: Key, at: Time): Option<Bytes> {
    match LatestFor(log, key)
    case None => None
    case Some(i) => if Expiry(i) > at then Some(i.response) else None
  }

  function LookedUp(cache: Cache, key: Key, at: Time): (Cache, Option<Bytes>) {
    if key !in cache then (cache, None)
    else if cache[key].expiry > at then (cache, Some(cache[key].response))
    else (cache - {key}, None)
  }

  function Pruned(cache: Cache, at: Time): Cache {
    map k | k in cache && cache[k].expiry > at :: cache[k]
  }

  datatype State = State(cache: Cache, log: Log, now: Time)

  /** Operations in the order they take the lock; an insert reads the clock before that. */
  datatype Op =
    | Lookup(key: Key, at: Time)
    | Insert(key: Key, response: Bytes, stamped: Time, at: Time)
    | Prune(at: Time)

  predicate Legal(s: State, op: Op) {
    s.now <= op.at && (op.Insert? ==> op.stamped <= op.at)
  }

  function Logged(parse: TtlParser, log: Log, op: Op): Log {
    if op.Insert? && CacheTtl(parse, op.response).Some?
    then log + [Insertion(op.key, op.response, op.stamped, CacheTtl(parse, op.response).value)]
    else log
  }

  function Apply(parse: TtlParser, s: State, op: Op): State {
    var log' := Logged(parse, s.log, op);
    match op
    case Lookup(key, at) => State(LookedUp(s.cache, key, at).0, log', at)
    case Insert(key, response, stamped, at) =>
      (match CacheTtl(parse, response)
       case None => State(s.cache, log', at)
       case Some(ttl) => State(s.cache[key := CacheEntry(response, stamped + Secs(ttl))], log', at))
    case Prune(at) => State(Pruned(s.cache, at), log', at)
  }

  /** A cached entry is its key's latest insertion; a missing one has none or an expired one. */
  ghost predicate RefinesAt(s: State, key: Key) {
    match LatestFor(s.log, key)
    case None => key !in s.cache
    case Some(i) =>
      if key in s.cache then s.cache[key] == CacheEntry(i.response, Expiry(i)) else Expiry(i) <= s.now
  }

  ghost predicate Refines(s: State) {
    forall key: Key :: RefinesAt(s, key)
  }

  lemma LatestAfterAppend(log: Log, i: Insertion, key: Key)
    ensures LatestFor(log + [i], key) == if i.key == key then Some(i) else LatestFor(log, key)
  {
  }

  lemma ApplyKeepsRefines(parse: TtlParser, s: State, op: Op)
    requires Refines(s) && Legal(s, op)
    ensures Refines(Apply(parse, s, op))
  {
    var s' := Apply(parse, s, op);
    forall key: Key
      ensures RefinesAt(s', key)
    {
      assert RefinesAt(s, key);
      if s'.log != s.log {
        LatestAfterAppend(s.log, s'.log[|s.log|], key);
      }
    }
  }

  /** A lookup returns exactly the latest insertion for its key if unexpired, else nothing. */
  lemma LookupIsVisible(s: State, key: Key, at: Time)
    requires Refines(s) && s.now <= at
    ensures LookedUp(s.cache, key, at).1 == Visible(s.log, key, at)
  {
    assert RefinesAt(s, key);
  }

  /** The insertion at `k` is its key's last. */
  ghost predicate LatestAt(log: Log, k: nat, key: Key) {
    && k < |log| && log[k].key == key
    && forall j | k < j < |log| :: log[j].key != key
  }

  lemma {:induction false} LatestForIsLatest(log: Log, key: Key, k: nat)
    requires LatestAt(log, k, key)
    ensures LatestFor(log, key) == Some(log[k])
  {
    if log[|log| - 1].key != key {
      LatestForIsLatest(log[..|log| - 1], key, k);
    }
  }

  lemma {:induction false} NeverInserted(log: Log, key: Key)
    ensures LatestFor(log, key).None? <==> forall i | i in log :: i.key != key
  {
    if log != [] && log[|log| - 1].key != key {
      NeverInserted(log[..|log| - 1], key);
      assert log == log[..|log| - 1] + [log[|log| - 1]];
    }
  }

  /** The cache answers with the key's last insertion, until that has expired. */
  lemma LookupServesLatest(s: State, key: Key, at: Time, k: nat)
    requires Refines(s) && s.now <= at && LatestAt(s.log, k, key)
    ensures LookedUp(s.cache, key, at).1
         == if at < s.log[k].at + Secs(s.log[k].ttl) then Some(s.log[k].response) else None
  {
    LookupIsVisible(s, key, at);
    LatestForIsLatest(s.log, key, k);
  }

  /** It answers with nothing else. */
  lemma LookupServesOnlyInserted(s: State, key: Key, at: Time)
    requires Refines(s) && s.now <= at && LookedUp(s.cache, key, at).1.Some?
    ensures exists k: nat :: LatestAt(s.log, k, key) && at < s.log[k].at + Secs(s.log[k].ttl)
  {
    LookupIsVisible(s, key, at);
    NeverInserted(s.log, key);
    var k := LastIndex(s.log, key, |s.log|);
    if k >= 0 {
      assert LatestAt(s.log, k, key);
      LatestForIsLatest(s.log, key, k);
    }
  }

  /** Where the key was last inserted among the first `n` insertions, or -1. */
  lemma {:induction false} LastIndex(log: Log, key: Key, n: nat) returns (k: int)
    requires n <= |log|
    ensures -1 <= k < n && (k >= 0 ==> log[k].key == key)
    ensures forall j | k < j < n :: log[j].key != key
  {
    k := n - 1;
    if n > 0 && log[n - 1].key != key {
      k := LastIndex(log, key, n - 1);
    }
  }

  /** What an insertion adds to the log, and that nothing else adds to it. */
  lemma OnlyInsertionsAreLogged(parse: TtlParser, s: State, op: Op)
    ensures Apply(parse, s, op).log ==
            if op.Insert? && |op.response| >= 12 && parse(op.response).Some? && 0 !in parse(op.response).value
            then s.log + [Insertion(op.key, op.response, op.stamped, CacheTtl(parse, op.response).value)]
            else s.log
  {
    if op.Insert? {
      CachedForLeastTtl(parse, op.response);
    }
  }

  // ----- Runs -----

  ghost predicate LegalRun(parse: TtlParser, s: State, ops: seq<Op>)
    decreases |ops|
  {
    ops == [] || (Legal(s, ops[0]) && LegalRun(parse, Apply(parse, s, ops[0]), ops[1..]))
  }

  /** What the lookups of a run return. */
  function Answers(parse: TtlParser, s: State, ops: seq<Op>): seq<Option<Bytes>>
    decreases |ops|
  {
    if ops == [] then []
    else
      var first := if ops[0].Lookup? then [LookedUp(s.cache, ops[0].key, ops[0].at).1] else [];
      first + Answers(parse, Apply(parse, s, ops[0]), ops[1..])
  }

  /** What they would return from the append-only log. */
  function LogAnswers(parse: TtlParser, log: Log, ops: seq<Op>): seq<Option<Bytes>>
    decreases |ops|
  {
    if ops == [] then []
    else
      var first := if ops[0].Lookup? then [Visible(log, ops[0].key, ops[0].at)] else [];
      first + LogAnswers(parse, Logged(parse, log, ops[0]), ops[1..])
  }

  lemma {:induction false} CacheRefinesLog(parse: TtlParser, s: State, ops: seq<Op>)
    requires Refines(s) && LegalRun(parse, s, ops)
    ensures Answers(parse, s, ops) == LogAnswers(parse, s.log, ops)
    decreases |ops|
  {
    if ops != [] {
      ApplyKeepsRefines(parse, s, ops[0]);
      if ops[0].Lookup? {
        LookupIsVisible(s, ops[0].key, ops[0].at);
      }
      CacheRefinesLog(parse, Apply(parse, s, ops[0]), ops[1..]);
    }
  }

  function WithoutPrunes(ops: seq<Op>): seq<Op> {
    if ops == [] then []
    else (if ops[0].Prune? then [] else [ops[0]]) + WithoutPrunes(ops[1..])
  }

  lemma {:induction false} UnprunedIsLegal(parse: TtlParser, s: State, ops: seq<Op>, t: State)
    requires LegalRun(parse, s, ops) && t.now <= s.now
    ensures LegalRun(parse, t, WithoutPrunes(ops))
    decreases |ops|
  {
    if ops != [] {
      var rest := WithoutPrunes(ops[1..]);
      if ops[0].Prune? {
        UnprunedIsLegal(parse, Apply(parse, s, ops[0]), ops[1..], t);
        assert WithoutPrunes(ops) == rest;
      } else {
        UnprunedIsLegal(parse, Apply(parse, s, ops[0]), ops[1..], Apply(parse, t, ops[0]));
        assert WithoutPrunes(ops) == [ops[0]] + rest && ([ops[0]] + rest)[1..] == rest;
      }
    }
  }

  lemma {:induction false} LogIgnoresPrunes(parse: TtlParser, log: Log, ops: seq<Op>)
    ensures LogAnswers(parse, log, WithoutPrunes(ops)) == LogAnswers(parse, log, ops)
    decreases |ops|
  {
    if ops != [] {
      var rest := WithoutPrunes(ops[1..]);
      LogIgnoresPrunes(parse, Logged(parse, log, ops[0]), ops[1..]);
      if ops[0].Prune? {
        assert WithoutPrunes(ops) == rest;
      } else {
        assert WithoutPrunes(ops) == [ops[0]] + rest && ([ops[0]] + rest)[1..] == rest;
      }
    }
  }

  /** Pruning is unobservable: leaving every prune out of a run changes no lookup's answer. */
  lemma PruningIsUnobservable(parse: TtlParser, s: State, ops: seq<Op>)
    requires Refines(s) && LegalRun(parse, s, ops)
    ensures LegalRun(parse, s, WithoutPrunes(ops))
    ensures Answers(parse, s, WithoutPrunes(ops)) == Answers(parse, s, ops)
  {
    UnprunedIsLegal(parse, s, ops, s);
    CacheRefinesLog(parse, s, ops);
    CacheRefinesLog(parse, s, WithoutPrunes(ops));
    LogIgnoresPrunes(parse, s.log, ops);
  }

  // ----- Freshness -----

  ghost predicate TtlsFromParser(parse: TtlParser, log: Log) {
    forall i | i in log :: CacheTtl(parse, i.response) == Some(i.ttl)
  }

  /** The response came from an insertion of that key, less than its cache time ago. */
  ghost predicate FreshFrom(parse: TtlParser, i: Insertion, key: Key, response: Bytes, at: Time) {
    && i.key == key && i.response == response && |response| >= DNS_HEADER_SIZE
    && parse(response).Some?
    && var ttls := parse(response).value;
    && at < i.at + Secs(MAX_TTL_SECS)
    && (ttls == [] ==> at < i.at + Secs(DEFAULT_TTL_SECS))
    && forall t | t in ttls :: at < i.at + Secs(t)
  }

  lemma {:induction false} LatestIsInLog(log: Log, key: Key)
    ensures LatestFor(log, key).Some? ==> LatestFor(log, key).value in log && LatestFor(log, key).value.key == key
  {
    if log != [] && log[|log| - 1].key != key {
      LatestIsInLog(log[..|log| - 1], key);
    }
  }

  /** A hit is never served at or after its insertion time plus min(3600, least answer TTL). */
  lemma HitsAreFresh(parse: TtlParser, s: State, key: Key, at: Time)
    requires Refines(s) && TtlsFromParser(parse, s.log) && s.now <= at
    requires LookedUp(s.cache, key, at).1.Some?
    ensures exists i | i in s.log :: FreshFrom(parse, i, key, LookedUp(s.cache, key, at).1.value, at)
  {
    LookupIsVisible(s, key, at);
    LatestIsInLog(s.log, key);
    var i := LatestFor(s.log, key).value;
    assert FreshFrom(parse, i, key, i.response, at);
  }

  /**
   * The key's last insertion is served exactly while it is younger than an hour and than each
   * of its answers' times to live, or than thirty seconds when it has no answers.
   */
  lemma ServedIffFresh(parse: TtlParser, s: State, key: Key, at: Time, k: nat)
    requires Refines(s) && TtlsFromParser(parse, s.log) && s.now <= at && LatestAt(s.log, k, key)
    ensures parse(s.log[k].response).Some?
    ensures var i, ttls := s.log[k], parse(s.log[k].response).value;
      LookedUp(s.cache, key, at).1.Some? <==>
        if ttls == [] then at < i.at + Secs(30)
        else at < i.at + Secs(3600) && forall t | t in ttls :: at < i.at + Secs(t)
    ensures LookedUp(s.cache, key, at).1.Some? ==> LookedUp(s.cache, key, at).1.value == s.log[k].response
  {
    LookupServesLatest(s, key, at, k);
    CachedForLeastTtl(parse, s.log[k].response);
  }

  // ----- The locked operations -----

  class ResponseCache {
    var entries: Cache

    constructor ()
      ensures entries == map[]
    {
      entries := map[];
    }

    method LookupCache(key: Key, clock: Clock) returns (response: Option<Bytes>)
      modifies this, clock
      ensures old(clock.now) <= clock.now
      ensures (entries, response) == LookedUp(old(entries), key, clock.now)
    {
      if key in entries {
        var now := clock.Now();
        if entries[key].expiry > now {
          return Some(entries[key].response);
        }
        entries := entries - {key};
      }
      response := None;
    }

    method InsertCache(parse: TtlParser, key: Key, response: Bytes, clock: Clock)
      modifies this, clock
      ensures old(clock.now) <= clock.now
      ensures entries == match CacheTtl(parse, response)
                         case None => old(entries)
                         case Some(ttl) => old(entries)[key := CacheEntry(response, clock.now + Secs(ttl))]
    {
      if |response| < DNS_HEADER_SIZE {
        return;
      }
      var parsed := parse(response);
      if parsed.None? {
        return;
      }
      var ttl := if parsed.value == [] then DEFAULT_TTL_SECS else MinTtl(parsed.value);
      if ttl == 0 {
        return;
      }
      var cacheTtl := Min(MAX_TTL_SECS, ttl);
      var now := clock.Now();
      entries := entries[key := CacheEntry(response, now + Secs(cacheTtl))];
    }

    method PruneExpired(clock: Clock)
      modifies this, clock
      ensures old(clock.now) <= clock.now
      ensures entries == Pruned(old(entries), clock.now)
    {
      var now := clock.Now();
      var todo := entries.Keys;
      while todo != {}
        invariant clock.now == now
        invariant todo <= entries.Keys <= old(entries).Keys
        invariant forall k | k in entries :: entries[k] == old(entries)[k]
        invariant forall k | k in entries && k !in todo :: entries[k].expiry > now
        invariant forall k | k in old(entries) && k !in entries :: old(entries)[k].expiry <= now
        decreases |todo|
      {
        var k :| k in todo;
        todo := todo - {k};
        if entries[k].expiry <= now {
          entries := entries - {k};
        }
      }
    }
  }
}
