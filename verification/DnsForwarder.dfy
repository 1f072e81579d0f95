/**
 * The DNS forwarder end to end: each client query is answered from the cache or through
 * the pending-query protocol, with every locked section of every task interleaved.
 */
module DnsForwarder {
  import opened Common
  import P = DnsPending
  import C = DnsCache

  /** The external packet parser: the first question of a query, and the TTLs of a response. */
  datatype Parser = Parser(question: Bytes -> Option<C.Question>, ttls: C.TtlParser)

  datatype Stage =
    | Looking                     // cache not yet consulted
    | Missed                      // not cached, not yet registered
    | Forwarding                  // in the pending-query protocol
    | Answering(reply: Bytes)     // about to send to the client
    | Finished
    | Crashed                     // patched a response too short to patch

  datatype Job = Job(query: Bytes, question: C.Question, stage: Stage)

  datatype Reply = Reply(tid: P.Tid, bytes: Bytes)

  /** `replies` is the history of datagrams sent to clients. */
  datatype State = State(
    jobs: map<P.Tid, Job>,
    fwd: P.State,
    cache: C.State,
    replies: seq<Reply>)

  datatype Step =
    | Arrive(tid: P.Tid, query: Bytes)
    | LookUp(tid: P.Tid, at: Time)
    | Forward(step: P.Step)
    | Store(tid: P.Tid, stamped: Time, at: Time)
    | GiveUp(tid: P.Tid)
    | Send(tid: P.Tid)
    | Prune(at: Time)

  function Init(start: Time): State {
    State(map[], P.INIT, C.State(map[], [], start), [])
  }

  /** At first nothing has been asked, sent, cached or answered. */
  lemma StartsEmpty(start: Time)
    ensures var s := Init(start);
      && s.jobs == map[] && s.replies == [] && s.cache.cache == map[] && s.cache.log == [] && s.cache.now == start
      && s.fwd.tasks == map[] && s.fwd.pending == map[] && s.fwd.receiver == P.Idle
      && s.fwd.sent == [] && s.fwd.deliveries == []
  {
  }

  predicate AtStage(s: State, tid: P.Tid, stage: Stage) {
    tid in s.jobs && s.jobs[tid].stage == stage
  }

  predicate Returned(s: State, tid: P.Tid) {
    AtStage(s, tid, Forwarding) && tid in s.fwd.tasks && s.fwd.tasks[tid].phase.Done?
  }

  function KeyFor(s: State, tid: P.Tid): C.Key
    requires tid in s.jobs
  {
    C.KeyOf(s.jobs[tid].question)
  }

  function CacheOp(s: State, step: Step): C.Op
    requires step.LookUp? || step.Store? || step.Prune?
    requires step.LookUp? ==> step.tid in s.jobs
    requires step.Store? ==> Returned(s, step.tid) && s.fwd.tasks[step.tid].phase.result.Some?
  {
    match step
    case LookUp(tid, at) => C.Lookup(KeyFor(s, tid), at)
    case Store(tid, stamped, at) => C.Insert(KeyFor(s, tid), s.fwd.tasks[tid].phase.result.value, stamped, at)
    case Prune(at) => C.Prune(at)
  }

  ghost predicate Enabled(s: State, step: Step) {
    match step
    case Arrive(tid, _) => tid !in s.jobs
    case LookUp(tid, _) => AtStage(s, tid, Looking) && C.Legal(s.cache, CacheOp(s, step))
    case Forward(p) =>
      P.Enabled(s.fwd, p) && (p.Register? ==> AtStage(s, p.tid, Missed) && s.jobs[p.tid].query == p.query)
    case Store(tid, _, _) =>
      Returned(s, tid) && s.fwd.tasks[tid].phase.result.Some? && C.Legal(s.cache, CacheOp(s, step))
    case GiveUp(tid) => Returned(s, tid) && s.fwd.tasks[tid].phase.result.None?
    case Send(tid) => tid in s.jobs && s.jobs[tid].stage.Answering?
    case Prune(_) => C.Legal(s.cache, CacheOp(s, step))
  }

  function SetStage(s: State, tid: P.Tid, stage: Stage): State
    requires tid in s.jobs
  {
    s.(jobs := s.jobs[tid := s.jobs[tid].(stage := stage)])
  }

  /** A cached response under this query's transaction ID. */
  function Repatched(query: Bytes, response: Bytes): Stage {
    if |query| >= 2 && |response| >= 2 then Answering(P.PatchXid(response, P.XidOf(query))) else Crashed
  }

  function Apply(parser: Parser, s: State, step: Step): State
    requires Enabled(s, step)
  {
    match step
    case Arrive(tid, query) =>
      if |query| < DNS_HEADER_SIZE || parser.question(query).None? then s
      else s.(jobs := s.jobs[tid := Job(query, parser.question(query).value, Looking)])
    case LookUp(tid, at) =>
      var s' := s.(cache := C.Apply(parser.ttls, s.cache, CacheOp(s, step)));
      (match C.LookedUp(s.cache.cache, KeyFor(s, tid), at).1
       case Some(response) => SetStage(s', tid, Repatched(s.jobs[tid].query, response))
       case None => SetStage(s', tid, Missed))
    case Forward(p) =>
      var s' := s.(fwd := P.Apply(s.fwd, p));
      if p.Register? then SetStage(s', p.tid, Forwarding) else s'
    case Store(tid, stamped, at) =>
      SetStage(s.(cache := C.Apply(parser.ttls, s.cache, CacheOp(s, step))),
               tid, Answering(s.fwd.tasks[tid].phase.result.value))
    case GiveUp(tid) => SetStage(s, tid, Finished)
    case Send(tid) => SetStage(s.(replies := s.replies + [Reply(tid, s.jobs[tid].stage.reply)]), tid, Finished)
    case Prune(at) => s.(cache := C.Apply(parser.ttls, s.cache, CacheOp(s, step)))
  }

  ghost predicate LegalRun(parser: Parser, s: State, steps: seq<Step>)
    decreases |steps|
  {
    steps == [] || (Enabled(s, steps[0]) && LegalRun(parser, Apply(parser, s, steps[0]), steps[1..]))
  }

  function After(parser: Parser, s: State, steps: seq<Step>): State
    requires LegalRun(parser, s, steps)
    decreases |steps|
  {
    if steps == [] then s else After(parser, Apply(parser, s, steps[0]), steps[1..])
  }

  // ----- Provenance -----

  /** `r` is, past its ID, the datagram delivered to a task whose question has this key. */
  ghost predicate FromDelivery(s: State, key: C.Key, r: Bytes, d: P.Delivery) {
    && d in s.fwd.deliveries
    && d.tid in s.jobs && KeyFor(s, d.tid) == key
    && |r| == |d.dg.bytes| >= DNS_HEADER_SIZE
    && r[2..] == d.dg.bytes[2..]
  }

  ghost predicate Sourced(s: State, key: C.Key, r: Bytes) {
    exists d :: FromDelivery(s, key, r, d)
  }

  ghost predicate GoodReply(s: State, tid: P.Tid, r: Bytes) {
    && tid in s.jobs && |r| >= 2 && |s.jobs[tid].query| >= 2
    && r[..2] == s.jobs[tid].query[..2]
    && Sourced(s, KeyFor(s, tid), r)
  }

  ghost predicate GoodJob(parser: Parser, s: State, tid: P.Tid)
    requires tid in s.jobs
  {
    var j := s.jobs[tid];
    && |j.query| >= DNS_HEADER_SIZE && parser.question(j.query) == Some(j.question)
    && !j.stage.Crashed?
    && (j.stage.Answering? ==> GoodReply(s, tid, j.stage.reply))
  }

  ghost predicate TasksHaveJobs(s: State) {
    forall tid | tid in s.fwd.tasks :: tid in s.jobs && s.jobs[tid].query == s.fwd.tasks[tid].query
  }

  ghost predicate Inv(parser: Parser, s: State) {
    && P.Inv(s.fwd)
    && C.Refines(s.cache)
    && JobInv(parser, s)
  }

  ghost predicate JobInv(parser: Parser, s: State) {
    && C.TtlsFromParser(parser.ttls, s.cache.log)
    && TasksHaveJobs(s)
    && (forall i | i in s.cache.log :: Sourced(s, i.key, i.response))
    && (forall tid | tid in s.jobs :: GoodJob(parser, s, tid))
    && (forall r | r in s.replies :: GoodReply(s, r.tid, r.bytes))
  }

  /** `s'` keeps the queries and the deliveries of `s`. */
  ghost predicate Extends(s: State, s': State) {
    && (forall tid | tid in s.jobs ::
          tid in s'.jobs && s'.jobs[tid].query == s.jobs[tid].query && s'.jobs[tid].question == s.jobs[tid].question)
    && s.fwd.deliveries <= s'.fwd.deliveries
  }

  lemma SourcedPersists(s: State, s': State, key: C.Key, r: Bytes)
    requires Extends(s, s') && Sourced(s, key, r)
    ensures Sourced(s', key, r)
  {
    var d :| FromDelivery(s, key, r, d);
    assert FromDelivery(s', key, r, d);
  }

  lemma GoodReplyPersists(s: State, s': State, tid: P.Tid, r: Bytes)
    requires Extends(s, s') && GoodReply(s, tid, r)
    ensures GoodReply(s', tid, r)
  {
    SourcedPersists(s, s', KeyFor(s, tid), r);
  }

  /** What a step must add to the old facts, which persist because it only extends the state. */
  lemma JobInvExtends(parser: Parser, s: State, s': State)
    requires JobInv(parser, s) && Extends(s, s') && TasksHaveJobs(s')
    requires C.TtlsFromParser(parser.ttls, s'.cache.log)
    requires forall i | i in s'.cache.log :: i in s.cache.log || Sourced(s', i.key, i.response)
    requires forall r | r in s'.replies :: r in s.replies || GoodReply(s', r.tid, r.bytes)
    requires forall tid | tid in s'.jobs ::
               (tid in s.jobs && s'.jobs[tid] == s.jobs[tid]) || GoodJob(parser, s', tid)
    ensures JobInv(parser, s')
  {
    forall i | i in s'.cache.log
      ensures Sourced(s', i.key, i.response)
    {
      if i in s.cache.log {
        SourcedPersists(s, s', i.key, i.response);
      }
    }
    forall r | r in s'.replies
      ensures GoodReply(s', r.tid, r.bytes)
    {
      if r in s.replies {
        GoodReplyPersists(s, s', r.tid, r.bytes);
      }
    }
    forall tid | tid in s'.jobs
      ensures GoodJob(parser, s', tid)
    {
      if tid in s.jobs && s'.jobs[tid] == s.jobs[tid] {
        assert GoodJob(parser, s, tid);
        if s.jobs[tid].stage.Answering? {
          GoodReplyPersists(s, s', tid, s.jobs[tid].stage.reply);
        }
      }
    }
  }

  /** One job moves to another stage; what is logged and replied meanwhile is well sourced. */
  ghost predicate Moves(parser: Parser, s: State, tid: P.Tid, s': State, logged: C.Log, sent: seq<Reply>) {
    && tid in s.jobs && tid in s'.jobs
    && s'.jobs == s.jobs[tid := s.jobs[tid].(stage := s'.jobs[tid].stage)]
    && s'.fwd == s.fwd
    && s'.cache.log == s.cache.log + logged && s'.replies == s.replies + sent
    && !s'.jobs[tid].stage.Crashed?
    && (s'.jobs[tid].stage.Answering? ==> GoodReply(s, tid, s'.jobs[tid].stage.reply))
    && (forall i | i in logged :: Sourced(s, i.key, i.response) && C.CacheTtl(parser.ttls, i.response) == Some(i.ttl))
    && (forall r | r in sent :: GoodReply(s, r.tid, r.bytes))
  }

  lemma MoveExtends(parser: Parser, s: State, tid: P.Tid, s': State, logged: C.Log, sent: seq<Reply>)
    requires JobInv(parser, s) && Moves(parser, s, tid, s', logged, sent)
    ensures Extends(s, s') && TasksHaveJobs(s') && C.TtlsFromParser(parser.ttls, s'.cache.log)
  {
  }

  lemma MovedJobIsGood(parser: Parser, s: State, tid: P.Tid, s': State, logged: C.Log, sent: seq<Reply>)
    requires JobInv(parser, s) && Moves(parser, s, tid, s', logged, sent) && Extends(s, s')
    ensures GoodJob(parser, s', tid)
  {
    assert GoodJob(parser, s, tid);
    if s'.jobs[tid].stage.Answering? {
      GoodReplyPersists(s, s', tid, s'.jobs[tid].stage.reply);
    }
  }

  lemma MoveKeepsJobs(parser: Parser, s: State, tid: P.Tid, s': State, logged: C.Log, sent: seq<Reply>)
    requires JobInv(parser, s) && Moves(parser, s, tid, s', logged, sent)
    ensures JobInv(parser, s')
  {
    MoveExtends(parser, s, tid, s', logged, sent);
    forall i | i in logged
      ensures Sourced(s', i.key, i.response)
    {
      SourcedPersists(s, s', i.key, i.response);
    }
    forall r | r in sent
      ensures GoodReply(s', r.tid, r.bytes)
    {
      GoodReplyPersists(s, s', r.tid, r.bytes);
    }
    MovedJobIsGood(parser, s, tid, s', logged, sent);
    JobInvExtends(parser, s, s');
  }

  /** The forwarding protocol goes on while the jobs stay as they are. */
  lemma ForwardingKeepsJobs(parser: Parser, s: State, fwd: P.State)
    requires JobInv(parser, s) && s.fwd.deliveries <= fwd.deliveries
    requires forall tid | tid in fwd.tasks :: tid in s.jobs && s.jobs[tid].query == fwd.tasks[tid].query
    ensures JobInv(parser, s.(fwd := fwd))
  {
    JobInvExtends(parser, s, s.(fwd := fwd));
  }

  lemma RegisterKeepsJobs(parser: Parser, s: State, step: Step)
    requires JobInv(parser, s) && Enabled(s, step) && step.Forward? && step.step.Register?
    ensures JobInv(parser, Apply(parser, s, step))
  {
    var registered := s.(fwd := P.Apply(s.fwd, step.step));
    ForwardingKeepsJobs(parser, s, registered.fwd);
    MoveKeepsJobs(parser, registered, step.step.tid, Apply(parser, s, step), [], []);
  }

  lemma ForwardKeepsJobs(parser: Parser, s: State, step: Step)
    requires JobInv(parser, s) && Enabled(s, step) && step.Forward? && !step.step.Register?
    ensures JobInv(parser, Apply(parser, s, step))
  {
    P.StepExtends(s.fwd, step.step);
    ForwardingKeepsJobs(parser, s, P.Apply(s.fwd, step.step));
  }

  /** A hit is answered with a delivered datagram under the query's own ID. */
  lemma HitIsSourced(parser: Parser, s: State, tid: P.Tid, at: Time, response: Bytes)
    requires JobInv(parser, s) && C.Refines(s.cache) && s.cache.now <= at && tid in s.jobs
    requires C.LookedUp(s.cache.cache, KeyFor(s, tid), at).1 == Some(response)
    ensures var stage := Repatched(s.jobs[tid].query, response);
      stage.Answering? && GoodReply(s, tid, stage.reply)
  {
    var key, job := KeyFor(s, tid), s.jobs[tid];
    C.LookupIsVisible(s.cache, key, at);
    C.LatestIsInLog(s.cache.log, key);
    assert GoodJob(parser, s, tid);
    var d :| FromDelivery(s, key, response, d);
    var reply := P.PatchXid(response, P.XidOf(job.query));
    assert FromDelivery(s, key, reply, d);
    P.XidDeterminesBytes(reply, job.query);
  }

  lemma LookUpKeepsJobs(parser: Parser, s: State, step: Step)
    requires JobInv(parser, s) && C.Refines(s.cache) && Enabled(s, step) && step.LookUp?
    ensures JobInv(parser, Apply(parser, s, step))
  {
    var found := C.LookedUp(s.cache.cache, KeyFor(s, step.tid), step.at).1;
    if found.Some? {
      HitIsSourced(parser, s, step.tid, step.at, found.value);
    }
    MoveKeepsJobs(parser, s, step.tid, Apply(parser, s, step), [], []);
  }

  /** The key's last insertion before the lookup, when it has not expired by then. */
  ghost predicate Cached(s: State, key: C.Key, at: Time, k: nat) {
    C.LatestAt(s.cache.log, k, key) && at < s.cache.log[k].at + Secs(s.cache.log[k].ttl)
  }

  lemma LookUpTouchesItsJob(parser: Parser, s: State, tid: P.Tid, at: Time)
    requires Enabled(s, LookUp(tid, at))
    ensures var s' := Apply(parser, s, LookUp(tid, at));
      && s'.fwd == s.fwd && s'.replies == s.replies && s'.cache.log == s.cache.log
      && tid in s'.jobs && s'.jobs == s.jobs[tid := s.jobs[tid].(stage := s'.jobs[tid].stage)]
  {
  }

  /** A query whose answer is cached is about to be answered with it, under its own ID. */
  lemma HitEffect(parser: Parser, s: State, tid: P.Tid, at: Time, k: nat)
    requires Inv(parser, s) && Enabled(s, LookUp(tid, at)) && Cached(s, KeyFor(s, tid), at, k)
    ensures var s' := Apply(parser, s, LookUp(tid, at));
      && tid in s'.jobs && s'.jobs[tid].stage.Answering? && |s.jobs[tid].query| >= 2
      && var reply, response := s'.jobs[tid].stage.reply, s.cache.log[k].response;
      && |reply| == |response| >= 2
      && reply[..2] == s.jobs[tid].query[..2] && reply[2..] == response[2..]
  {
    C.LookupServesLatest(s.cache, KeyFor(s, tid), at, k);
    HitIsSourced(parser, s, tid, at, s.cache.log[k].response);
  }

  /** Any other query goes on to be forwarded. */
  lemma MissEffect(parser: Parser, s: State, tid: P.Tid, at: Time)
    requires Inv(parser, s) && Enabled(s, LookUp(tid, at))
    requires forall k: nat :: !Cached(s, KeyFor(s, tid), at, k)
    ensures AtStage(Apply(parser, s, LookUp(tid, at)), tid, Missed)
  {
    if C.LookedUp(s.cache.cache, KeyFor(s, tid), at).1.Some? {
      C.LookupServesOnlyInserted(s.cache, KeyFor(s, tid), at);
      var k: nat :| C.LatestAt(s.cache.log, k, KeyFor(s, tid)) && at < s.cache.log[k].at + Secs(s.cache.log[k].ttl);
      assert Cached(s, KeyFor(s, tid), at, k);
    }
  }

  /** A query whose answer is cached is answered by its lookup and the sending alone: nothing is forwarded. */
  lemma CachedQueryIsAnswered(parser: Parser, s: State, tid: P.Tid, at: Time, k: nat)
    requires Inv(parser, s) && Enabled(s, LookUp(tid, at)) && Cached(s, KeyFor(s, tid), at, k)
    ensures LegalRun(parser, s, [LookUp(tid, at), Send(tid)])
    ensures var s' := After(parser, s, [LookUp(tid, at), Send(tid)]);
      && s'.fwd == s.fwd && |s'.replies| == |s.replies| + 1 && s'.replies[..|s.replies|] == s.replies
      && var r, response := s'.replies[|s.replies|], s.cache.log[k].response;
      && r.tid == tid && |r.bytes| == |response| >= 2 && |s.jobs[tid].query| >= 2
      && r.bytes[..2] == s.jobs[tid].query[..2] && r.bytes[2..] == response[2..]
  {
    var s1 := Apply(parser, s, LookUp(tid, at));
    HitEffect(parser, s, tid, at, k);
    LookUpTouchesItsJob(parser, s, tid, at);
    TwoSteps(parser, s, LookUp(tid, at), Send(tid));
    assert Apply(parser, s1, Send(tid)).replies == s.replies + [Reply(tid, s1.jobs[tid].stage.reply)];
  }

  lemma TwoSteps(parser: Parser, s: State, a: Step, b: Step)
    requires Enabled(s, a) && Enabled(Apply(parser, s, a), b)
    ensures LegalRun(parser, s, [a, b])
    ensures After(parser, s, [a, b]) == Apply(parser, Apply(parser, s, a), b)
  {
    var s1 := Apply(parser, s, a);
    assert [a, b][1..] == [b] && [b][1..] == [];
    assert After(parser, s1, [b]) == Apply(parser, s1, b);
  }

  /** When each step may be taken; a query is forwarded, stored, given up and sent in its stage only. */
  lemma StepsAreEnabled(s: State, tid: P.Tid, at: Time)
    ensures forall query: Bytes :: Enabled(s, Arrive(tid, query)) <==> tid !in s.jobs
    ensures Enabled(s, LookUp(tid, at)) <==> tid in s.jobs && s.jobs[tid].stage == Looking && s.cache.now <= at
    ensures forall p: P.Step :: Enabled(s, Forward(p)) <==>
              && P.Enabled(s.fwd, p)
              && (p.Register? ==>
                    p.tid in s.jobs && s.jobs[p.tid].stage == Missed && p.query == s.jobs[p.tid].query)
    ensures forall stamped: Time :: Enabled(s, Store(tid, stamped, at)) <==>
              && tid in s.jobs && s.jobs[tid].stage == Forwarding
              && tid in s.fwd.tasks && s.fwd.tasks[tid].phase.Done? && s.fwd.tasks[tid].phase.result.Some?
              && s.cache.now <= at && stamped <= at
    ensures Enabled(s, GiveUp(tid)) <==>
            && tid in s.jobs && s.jobs[tid].stage == Forwarding
            && tid in s.fwd.tasks && s.fwd.tasks[tid].phase == P.Done(None)
    ensures Enabled(s, Send(tid)) <==> tid in s.jobs && s.jobs[tid].stage.Answering?
    ensures Enabled(s, Prune(at)) <==> s.cache.now <= at
  {
  }

  /** A prune drops what has expired by then, and nothing else. */
  lemma PruneEffect(parser: Parser, s: State, at: Time, key: C.Key)
    requires Enabled(s, Prune(at))
    ensures var s' := Apply(parser, s, Prune(at));
      && s' == s.(cache := s'.cache) && s'.cache.log == s.cache.log && s'.cache.now == at
      && (key in s'.cache.cache <==> key in s.cache.cache && at < s.cache.cache[key].expiry)
      && (key in s'.cache.cache ==> s'.cache.cache[key] == s.cache.cache[key])
  {
  }

  /** What the other steps of a query do; the pending-query protocol's own steps change nothing else. */
  lemma QueryEffects(parser: Parser, s: State, tid: P.Tid, query: Bytes)
    ensures tid !in s.jobs ==>
      Apply(parser, s, Arrive(tid, query)) ==
        if |query| >= 12 && parser.question(query).Some?
        then s.(jobs := s.jobs[tid := Job(query, parser.question(query).value, Looking)])
        else s
    ensures Enabled(s, GiveUp(tid)) ==>
      Apply(parser, s, GiveUp(tid)) == s.(jobs := s.jobs[tid := s.jobs[tid].(stage := Finished)])
    ensures Enabled(s, Send(tid)) ==>
      Apply(parser, s, Send(tid))
      == s.(jobs := s.jobs[tid := s.jobs[tid].(stage := Finished)],
            replies := s.replies + [Reply(tid, s.jobs[tid].stage.reply)])
    ensures forall stamped, at | Enabled(s, Store(tid, stamped, at)) ::
      var result, s' := s.fwd.tasks[tid].phase.result.value, Apply(parser, s, Store(tid, stamped, at));
      && s' == s.(jobs := s.jobs[tid := s.jobs[tid].(stage := Answering(result))], cache := s'.cache)
      && s'.cache == C.Apply(parser.ttls, s.cache, C.Insert(C.KeyOf(s.jobs[tid].question), result, stamped, at))
    ensures forall p | Enabled(s, Forward(p)) ::
      Apply(parser, s, Forward(p)) ==
        if p.Register?
        then s.(fwd := P.Apply(s.fwd, p), jobs := s.jobs[p.tid := s.jobs[p.tid].(stage := Forwarding)])
        else s.(fwd := P.Apply(s.fwd, p))
  {
  }

  /** A returned response is the delivered datagram under the query's own ID. */
  lemma ResultIsSourced(parser: Parser, s: State, tid: P.Tid)
    requires JobInv(parser, s) && P.Inv(s.fwd) && tid in s.jobs
    requires tid in s.fwd.tasks && s.fwd.tasks[tid].phase.Done? && s.fwd.tasks[tid].phase.result.Some?
    ensures GoodReply(s, tid, s.fwd.tasks[tid].phase.result.value)
  {
    var r := s.fwd.tasks[tid].phase.result.value;
    P.ResultsAreDelivered(s.fwd, tid);
    var d :| P.ReturnedFrom(s.fwd, tid, r, d);
    assert FromDelivery(s, KeyFor(s, tid), r, d);
  }

  lemma StoreKeepsJobs(parser: Parser, s: State, step: Step)
    requires JobInv(parser, s) && Enabled(s, step) && step.Store?
    requires GoodReply(s, step.tid, s.fwd.tasks[step.tid].phase.result.value)
    ensures JobInv(parser, Apply(parser, s, step))
  {
    var s' := Apply(parser, s, step);
    MoveKeepsJobs(parser, s, step.tid, s', s'.cache.log[|s.cache.log|..], []);
  }

  lemma ArriveKeepsJobs(parser: Parser, s: State, step: Step)
    requires JobInv(parser, s) && Enabled(s, step) && step.Arrive?
    ensures JobInv(parser, Apply(parser, s, step))
  {
    JobInvExtends(parser, s, Apply(parser, s, step));
  }

  lemma FinishKeepsJobs(parser: Parser, s: State, step: Step)
    requires JobInv(parser, s) && Enabled(s, step) && (step.GiveUp? || step.Send?)
    ensures JobInv(parser, Apply(parser, s, step))
  {
    assert GoodJob(parser, s, step.tid);
    var sent := if step.Send? then [Reply(step.tid, s.jobs[step.tid].stage.reply)] else [];
    MoveKeepsJobs(parser, s, step.tid, Apply(parser, s, step), [], sent);
  }

  lemma PruneKeepsJobs(parser: Parser, s: State, step: Step)
    requires JobInv(parser, s) && Enabled(s, step) && step.Prune?
    ensures JobInv(parser, Apply(parser, s, step))
  {
    JobInvExtends(parser, s, Apply(parser, s, step));
  }

  lemma StepKeepsInv(parser: Parser, s: State, step: Step)
    requires Inv(parser, s) && Enabled(s, step)
    ensures Inv(parser, Apply(parser, s, step))
  {
    match step
    case Forward(p) =>
      P.StepKeepsInv(s.fwd, p);
      if p.Register? {
        RegisterKeepsJobs(parser, s, step);
      } else {
        ForwardKeepsJobs(parser, s, step);
      }
    case LookUp(_, _) =>
      C.ApplyKeepsRefines(parser.ttls, s.cache, CacheOp(s, step));
      LookUpKeepsJobs(parser, s, step);
    case Store(tid, _, _) =>
      C.ApplyKeepsRefines(parser.ttls, s.cache, CacheOp(s, step));
      ResultIsSourced(parser, s, tid);
      StoreKeepsJobs(parser, s, step);
    case Prune(_) =>
      C.ApplyKeepsRefines(parser.ttls, s.cache, CacheOp(s, step));
      PruneKeepsJobs(parser, s, step);
    case Arrive(_, _) => ArriveKeepsJobs(parser, s, step);
    case _ => FinishKeepsJobs(parser, s, step);
  }

  lemma {:induction false} RunKeepsInv(parser: Parser, s: State, steps: seq<Step>)
    requires Inv(parser, s) && LegalRun(parser, s, steps)
    ensures Inv(parser, After(parser, s, steps))
    decreases |steps|
  {
    if steps != [] {
      StepKeepsInv(parser, s, steps[0]);
      RunKeepsInv(parser, Apply(parser, s, steps[0]), steps[1..]);
    }
  }

  /** Whoever has been replied to is finished, and nobody has been replied to twice. */
  ghost predicate RepliedOnce(s: State) {
    && (forall r | r in s.replies :: AtStage(s, r.tid, Finished))
    && (forall i, j | 0 <= i < j < |s.replies| :: s.replies[i].tid != s.replies[j].tid)
  }

  /** A finished job stays so, and a step replies only to a job it thereby finishes. */
  lemma FinishedForGood(parser: Parser, s: State, step: Step, tid: P.Tid)
    requires Enabled(s, step)
    ensures AtStage(s, tid, Finished) ==> AtStage(Apply(parser, s, step), tid, Finished)
    ensures var replies := Apply(parser, s, step).replies;
      || replies == s.replies
      || (step.Send? && !AtStage(s, step.tid, Finished) && AtStage(Apply(parser, s, step), step.tid, Finished)
          && |replies| == |s.replies| + 1 && s.replies <= replies && replies[|s.replies|].tid == step.tid)
  {
  }

  lemma StepRepliesOnce(parser: Parser, s: State, step: Step)
    requires RepliedOnce(s) && Enabled(s, step)
    ensures RepliedOnce(Apply(parser, s, step))
  {
    var s' := Apply(parser, s, step);
    forall tid
      ensures AtStage(s, tid, Finished) ==> AtStage(s', tid, Finished)
    {
      FinishedForGood(parser, s, step, tid);
    }
    FinishedForGood(parser, s, step, 0);
    forall i | 0 <= i < |s.replies|
      ensures s'.replies[i] == s.replies[i] && s.replies[i] in s.replies
    {
    }
  }

  lemma {:induction false} RunRepliesOnce(parser: Parser, s: State, steps: seq<Step>)
    requires RepliedOnce(s) && LegalRun(parser, s, steps)
    ensures RepliedOnce(After(parser, s, steps))
    decreases |steps|
  {
    if steps != [] {
      StepRepliesOnce(parser, s, steps[0]);
      RunRepliesOnce(parser, Apply(parser, s, steps[0]), steps[1..]);
    }
  }

  /**
   * `r` answers `query`: it carries the query's transaction ID, and the rest of it is a
   * datagram that came, with the ID the asking task had drawn, from the upstream that task
   * had asked the same question.
   */
  ghost predicate Answers(s: State, r: Reply, d: P.Delivery) {
    && r.tid in s.jobs && d.tid in s.jobs && d.tid in s.fwd.tasks
    && |r.bytes| == |d.dg.bytes| >= DNS_HEADER_SIZE && |s.jobs[r.tid].query| >= 2
    && r.bytes[..2] == s.jobs[r.tid].query[..2]
    && r.bytes[2..] == d.dg.bytes[2..]
    && s.jobs[d.tid].question == s.jobs[r.tid].question
    && d in s.fwd.deliveries
    && d.dg.from == s.fwd.tasks[d.tid].upstream
    && P.XidOf(d.dg.bytes) == s.fwd.tasks[d.tid].xid
    && s.fwd.tasks[d.tid].query == s.jobs[d.tid].query
  }

  lemma ReplyHasProvenance(parser: Parser, s: State, r: Reply)
    requires Inv(parser, s) && r in s.replies
    ensures exists d :: Answers(s, r, d)
  {
    var d :| FromDelivery(s, KeyFor(s, r.tid), r.bytes, d);
    C.KeyDeterminesQuestion(s.jobs[d.tid].question, s.jobs[r.tid].question);
    assert P.GoodDelivery(s.fwd, d);
    assert Answers(s, r, d);
  }

  /**
   * In every interleaving every reply sent to a client has such an origin, no query is answered
   * twice, and no task crashes.
   */
  lemma EveryReplyHasProvenance(parser: Parser, start: Time, steps: seq<Step>)
    requires LegalRun(parser, Init(start), steps)
    ensures var s := After(parser, Init(start), steps);
      && (forall r | r in s.replies :: exists d :: Answers(s, r, d))
      && (forall i, j | 0 <= i < j < |s.replies| :: s.replies[i].tid != s.replies[j].tid)
      && (forall tid | tid in s.jobs ::
            !s.jobs[tid].stage.Crashed? && parser.question(s.jobs[tid].query) == Some(s.jobs[tid].question))
  {
    RunKeepsInv(parser, Init(start), steps);
    RunRepliesOnce(parser, Init(start), steps);
    var s := After(parser, Init(start), steps);
    forall r | r in s.replies
      ensures exists d :: Answers(s, r, d)
    {
      ReplyHasProvenance(parser, s, r);
    }
    forall tid | tid in s.jobs
      ensures !s.jobs[tid].stage.Crashed? && parser.question(s.jobs[tid].query) == Some(s.jobs[tid].question)
    {
      assert GoodJob(parser, s, tid);
    }
  }

  /** In every interleaving a cache hit serves an insertion of the asked key within its time. */
  lemma EveryHitIsFresh(parser: Parser, start: Time, steps: seq<Step>, tid: P.Tid, at: Time)
    requires LegalRun(parser, Init(start), steps)
    requires Enabled(After(parser, Init(start), steps), LookUp(tid, at))
    requires C.LookedUp(After(parser, Init(start), steps).cache.cache,
                        KeyFor(After(parser, Init(start), steps), tid), at).1.Some?
    ensures var s := After(parser, Init(start), steps);
      exists i | i in s.cache.log ::
        C.FreshFrom(parser.ttls, i, KeyFor(s, tid), C.LookedUp(s.cache.cache, KeyFor(s, tid), at).1.value, at)
  {
    RunKeepsInv(parser, Init(start), steps);
    var s := After(parser, Init(start), steps);
    C.HitsAreFresh(parser.ttls, s.cache, KeyFor(s, tid), at);
  }
}
