/**
 * Whether the answer a client gets is an answer to its question. The forwarder checks a
 * datagram's sender and transaction ID, and nothing else, so this rests on upstreams that
 * answer only what they were asked, and on IDs not being drawn again too soon.
 */
module DnsAnswers {
  import opened Common
  import P = DnsPending
  import C = DnsCache
  import D = DnsForwarder

  /** The external parser's reading of the first question in a datagram. */
  type QuestionParser = Bytes -> Option<C.Question>

  /** A datagram from where the query went, with the query's ID and its question. */
  predicate Echoes(parse: QuestionParser, q: P.SentQuery, dg: P.Datagram) {
    && |q.bytes| >= 2 && |dg.bytes| >= DNS_HEADER_SIZE
    && dg.from == q.to
    && P.XidOf(dg.bytes) == P.XidOf(q.bytes)
    && parse(dg.bytes) == parse(q.bytes)
  }

  ghost predicate Echoed(parse: QuestionParser, s: P.State, dg: P.Datagram) {
    exists q | q in s.sent :: Echoes(parse, q, dg)
  }

  ghost predicate IsUpstream(s: P.State, host: Ip) {
    exists tid | tid in s.tasks :: s.tasks[tid].upstream == host
  }

  /** Upstreams, early or late, send answers to what they were asked. Other hosts send anything. */
  ghost predicate Honest(parse: QuestionParser, s: P.State, step: P.Step) {
    step.Receive? && |step.dg.bytes| >= DNS_HEADER_SIZE && IsUpstream(s, step.dg.from) ==> Echoed(parse, s, step.dg)
  }

  /** What honesty asks of a step: nothing but of whole datagrams from hosts that were asked. */
  lemma HonestSteps(parse: QuestionParser, s: P.State, step: P.Step)
    ensures !step.Receive? ==> Honest(parse, s, step)
    ensures step.Receive? && |step.dg.bytes| < 12 ==> Honest(parse, s, step)
    ensures step.Receive? && (forall tid | tid in s.tasks :: s.tasks[tid].upstream != step.dg.from) ==>
      Honest(parse, s, step)
    ensures step.Receive? && (exists q | q in s.sent :: Echoes(parse, q, step.dg)) ==> Honest(parse, s, step)
  {
  }

  // ----- What is delivered answers something that was asked -----

  ghost predicate SentAsTask(s: P.State, q: P.SentQuery) {
    && q.tid in s.tasks && |q.bytes| >= DNS_HEADER_SIZE
    && q.to == s.tasks[q.tid].upstream
    && q.bytes == P.Forwarded(s.tasks[q.tid])
    && P.XidOf(q.bytes) == s.tasks[q.tid].xid
  }

  /** Every query went to its task's upstream under its task's ID, and every delivery answers one. */
  ghost predicate Inv(parse: QuestionParser, s: P.State) {
    && P.Inv(s)
    && (forall tid | tid in s.tasks && s.tasks[tid].phase.Registered? :: |s.tasks[tid].query| >= DNS_HEADER_SIZE)
    && (forall q | q in s.sent :: SentAsTask(s, q))
    && (forall d | d in s.deliveries :: Echoed(parse, s, d.dg))
    && (s.receiver.Holding? && s.receiver.dg.from == s.receiver.entry.upstream ==> Echoed(parse, s, s.receiver.dg))
  }

  lemma EchoedPersists(parse: QuestionParser, s: P.State, s': P.State, dg: P.Datagram)
    requires Echoed(parse, s, dg) && s.sent <= s'.sent
    ensures Echoed(parse, s', dg)
  {
    var q :| q in s.sent && Echoes(parse, q, dg);
    assert q in s'.sent;
  }

  ghost predicate SameTask(t: P.Task, t': P.Task) {
    t'.query == t.query && t'.upstream == t.upstream && t'.xid == t.xid
  }

  /** No step changes what a task asks, whom, or under which ID; sending is from `Registered`. */
  lemma StepKeepsTasks(s: P.State, step: P.Step, tid: P.Tid)
    requires P.Enabled(s, step) && tid in s.tasks
    ensures tid in P.Apply(s, step).tasks && SameTask(s.tasks[tid], P.Apply(s, step).tasks[tid])
    ensures P.Apply(s, step).tasks[tid].phase.Registered? ==> s.tasks[tid].phase.Registered?
  {
  }

  lemma StepAddsOneQuery(s: P.State, step: P.Step)
    requires P.Enabled(s, step)
    ensures s.sent <= P.Apply(s, step).sent
    ensures forall q | q in P.Apply(s, step).sent ::
              q in s.sent
              || (step.SendOk? && var t := s.tasks[step.tid]; q == P.SentQuery(step.tid, t.upstream, P.Forwarded(t)))
  {
  }

  lemma StepKeepsQueries(parse: QuestionParser, s: P.State, step: P.Step)
    requires Inv(parse, s) && P.Enabled(s, step)
    ensures var s' := P.Apply(s, step);
      && (forall tid | tid in s'.tasks && s'.tasks[tid].phase.Registered? :: |s'.tasks[tid].query| >= DNS_HEADER_SIZE)
      && (forall q | q in s'.sent :: SentAsTask(s', q))
  {
    var s' := P.Apply(s, step);
    forall tid | tid in s'.tasks && s'.tasks[tid].phase.Registered?
      ensures |s'.tasks[tid].query| >= DNS_HEADER_SIZE
    {
      if tid in s.tasks {
        StepKeepsTasks(s, step, tid);
      }
    }
    StepAddsOneQuery(s, step);
    forall q | q in s'.sent
      ensures SentAsTask(s', q)
    {
      assert q in s.sent ==> SentAsTask(s, q);
      StepKeepsTasks(s, step, q.tid);
    }
  }

  /** What the receiver holds for its entry's upstream came from an upstream. */
  lemma ReceivedIsEchoed(parse: QuestionParser, s: P.State, step: P.Step)
    requires Inv(parse, s) && P.Enabled(s, step) && step.Receive? && Honest(parse, s, step)
    ensures var r := P.Apply(s, step).receiver; r.Holding? && r.dg.from == r.entry.upstream ==> Echoed(parse, s, r.dg)
  {
    var r := P.Apply(s, step).receiver;
    if r.Holding? && r.dg.from == r.entry.upstream {
      assert P.OwnedEntry(s, P.XidOf(step.dg.bytes));
      assert s.tasks[r.entry.owner].upstream == step.dg.from;
    }
  }

  lemma StepDeliversHeld(s: P.State, step: P.Step)
    requires P.Enabled(s, step)
    ensures forall d | d in P.Apply(s, step).deliveries ::
              d in s.deliveries
              || (s.receiver.Holding? && s.receiver.dg.from == s.receiver.entry.upstream && d.dg == s.receiver.dg)
    ensures !step.Receive? && P.Apply(s, step).receiver.Holding? ==> P.Apply(s, step).receiver == s.receiver
  {
  }

  lemma StepKeepsInv(parse: QuestionParser, s: P.State, step: P.Step)
    requires Inv(parse, s) && P.Enabled(s, step) && Honest(parse, s, step)
    ensures Inv(parse, P.Apply(s, step))
  {
    var s' := P.Apply(s, step);
    P.StepKeepsInv(s, step);
    StepKeepsQueries(parse, s, step);
    StepAddsOneQuery(s, step);
    StepDeliversHeld(s, step);
    forall d | d in s'.deliveries
      ensures Echoed(parse, s', d.dg)
    {
      EchoedPersists(parse, s, s', d.dg);
    }
    if s'.receiver.Holding? && s'.receiver.dg.from == s'.receiver.entry.upstream {
      if step.Receive? {
        ReceivedIsEchoed(parse, s, step);
      }
      EchoedPersists(parse, s, s', s'.receiver.dg);
    }
  }

  // ----- Exactly when a task can be given an answer to another question -----

  function Asked(parse: QuestionParser, s: P.State, tid: P.Tid): Option<C.Question>
    requires tid in s.tasks
  {
    parse(P.Forwarded(s.tasks[tid]))
  }

  /** Another question went to the task's upstream under the task's ID. */
  ghost predicate Rival(parse: QuestionParser, s: P.State, tid: P.Tid, q: P.SentQuery)
    requires tid in s.tasks
  {
    && q in s.sent && |q.bytes| >= 2
    && q.to == s.tasks[tid].upstream && P.XidOf(q.bytes) == s.tasks[tid].xid
    && parse(q.bytes) != Asked(parse, s, tid)
  }

  /** Without a rival, what is delivered to a task answers the task's own question. */
  lemma DeliveryAnswersOwnQuestion(parse: QuestionParser, s: P.State, d: P.Delivery)
    requires Inv(parse, s) && d in s.deliveries
    ensures P.GoodDelivery(s, d)
    ensures parse(d.dg.bytes) == Asked(parse, s, d.tid) || exists q :: Rival(parse, s, d.tid, q)
  {
    assert P.GoodDelivery(s, d) && Echoed(parse, s, d.dg);
    var q :| q in s.sent && Echoes(parse, q, d.dg);
    if parse(d.dg.bytes) != Asked(parse, s, d.tid) {
      assert Rival(parse, s, d.tid, q);
    }
  }

  /** An honest datagram that, received and delivered next, would give the task another question's answer. */
  ghost predicate Misanswers(parse: QuestionParser, s: P.State, tid: P.Tid, dg: P.Datagram)
    requires tid in s.tasks
  {
    && P.Enabled(s, P.Receive(dg)) && Honest(parse, s, P.Receive(dg))
    && var held := P.Apply(s, P.Receive(dg));
    && P.Enabled(held, P.Deliver)
    && P.Apply(held, P.Deliver).tasks[tid].chan == P.Filled(dg.bytes)
    && parse(dg.bytes) != Asked(parse, s, tid)
  }

  lemma RivalMisanswers(parse: QuestionParser, s: P.State, tid: P.Tid, q: P.SentQuery)
    requires Inv(parse, s) && s.receiver.Idle?
    requires P.InPhase(s, tid, P.Waiting) && P.HasEntry(s, tid) && Rival(parse, s, tid, q)
    ensures Misanswers(parse, s, tid, P.Datagram(q.to, q.bytes))
  {
    var dg := P.Datagram(q.to, q.bytes);
    assert SentAsTask(s, q) && P.OwnedEntry(s, s.tasks[tid].xid);
    assert Echoes(parse, q, dg);
    var held := P.Apply(s, P.Receive(dg));
    assert held.receiver == P.Holding(P.Entry(tid, dg.from), dg);
  }

  lemma MisansweredHasRival(parse: QuestionParser, s: P.State, tid: P.Tid, dg: P.Datagram) returns (q: P.SentQuery)
    requires Inv(parse, s) && s.receiver.Idle?
    requires P.InPhase(s, tid, P.Waiting) && P.HasEntry(s, tid) && Misanswers(parse, s, tid, dg)
    ensures Rival(parse, s, tid, q)
  {
    var held := P.Apply(s, P.Receive(dg));
    assert P.OwnedEntry(s, s.tasks[tid].xid);
    assert held.receiver.Holding? && held.receiver.entry.owner == tid && dg.from == s.tasks[tid].upstream;
    assert P.OwnedEntry(s, P.XidOf(dg.bytes));
    q :| q in s.sent && Echoes(parse, q, dg);
  }

  /**
   * With honest upstreams a waiting task can be given an answer to another question exactly
   * when another question has gone to its upstream under its ID.
   */
  lemma MisansweredIffRival(parse: QuestionParser, s: P.State, tid: P.Tid)
    requires Inv(parse, s) && s.receiver.Idle?
    requires P.InPhase(s, tid, P.Waiting) && P.HasEntry(s, tid)
    ensures (exists dg :: Misanswers(parse, s, tid, dg)) <==> (exists q :: Rival(parse, s, tid, q))
  {
    if dg :| Misanswers(parse, s, tid, dg) {
      var q := MisansweredHasRival(parse, s, tid, dg);
    }
    if q :| Rival(parse, s, tid, q) {
      RivalMisanswers(parse, s, tid, q);
    }
  }

  // ----- End to end -----

  ghost predicate HonestStep(parser: D.Parser, s: D.State, step: D.Step) {
    step.Forward? ==> Honest(parser.question, s.fwd, step.step)
  }

  /** A legal run with honest upstreams. */
  ghost predicate HonestRun(parser: D.Parser, s: D.State, steps: seq<D.Step>)
    decreases |steps|
  {
    steps == [] ||
    (D.Enabled(s, steps[0]) && HonestStep(parser, s, steps[0]) &&
     HonestRun(parser, D.Apply(parser, s, steps[0]), steps[1..]))
  }

  lemma {:induction false} HonestRunIsLegal(parser: D.Parser, s: D.State, steps: seq<D.Step>)
    requires HonestRun(parser, s, steps)
    ensures D.LegalRun(parser, s, steps)
    decreases |steps|
  {
    if steps != [] {
      HonestRunIsLegal(parser, D.Apply(parser, s, steps[0]), steps[1..]);
    }
  }

  function After(parser: D.Parser, s: D.State, steps: seq<D.Step>): D.State
    requires HonestRun(parser, s, steps)
  {
    HonestRunIsLegal(parser, s, steps);
    D.After(parser, s, steps)
  }

  lemma {:induction false} RunKeepsInv(parser: D.Parser, s: D.State, steps: seq<D.Step>)
    requires HonestRun(parser, s, steps) && Inv(parser.question, s.fwd)
    ensures Inv(parser.question, After(parser, s, steps).fwd)
    decreases |steps|
  {
    if steps != [] {
      if steps[0].Forward? {
        StepKeepsInv(parser.question, s.fwd, steps[0].step);
      }
      RunKeepsInv(parser, D.Apply(parser, s, steps[0]), steps[1..]);
    }
  }

  /** Rewriting the ID of a datagram changes nothing in the question the parser reads. */
  ghost predicate IgnoresId(parse: QuestionParser) {
    forall b: Bytes, xid: P.Xid | |b| >= 2 :: parse(P.PatchXid(b, xid)) == parse(b)
  }

  /** Datagrams that agree past the ID hold the same question. */
  lemma SameQuestionPastId(parse: QuestionParser, a: Bytes, b: Bytes)
    requires IgnoresId(parse) && |a| == |b| >= 2 && a[2..] == b[2..]
    ensures parse(a) == parse(b)
  {
    assert P.PatchXid(a, 0) == P.PatchXid(b, 0);
    assert parse(P.PatchXid(a, 0)) == parse(a) && parse(P.PatchXid(b, 0)) == parse(b);
  }

  /** Parsers that look at what is past the ID are just those that ignore it. */
  lemma IgnoringIdIsReadingPastIt(parse: QuestionParser)
    ensures IgnoresId(parse) <==>
            forall a: Bytes, b: Bytes | |a| == |b| >= 2 && a[2..] == b[2..] :: parse(a) == parse(b)
  {
    if IgnoresId(parse) {
      forall a: Bytes, b: Bytes | |a| == |b| >= 2 && a[2..] == b[2..]
        ensures parse(a) == parse(b)
      {
        SameQuestionPastId(parse, a, b);
      }
    } else {
      var b: Bytes, xid: P.Xid :| |b| >= 2 && parse(P.PatchXid(b, xid)) != parse(b);
      assert P.PatchXid(b, xid)[2..] == b[2..];
    }
  }

  ghost predicate HasRival(parse: QuestionParser, s: P.State, tid: P.Tid)
    requires tid in s.tasks
  {
    exists q :: Rival(parse, s, tid, q)
  }

  /** What a delivery tells about the question of the job it was for. */
  lemma DeliveryAnswersJob(parser: D.Parser, s: D.State, d: P.Delivery)
    requires D.Inv(parser, s) && Inv(parser.question, s.fwd) && IgnoresId(parser.question) && d in s.fwd.deliveries
    ensures d.tid in s.jobs && d.tid in s.fwd.tasks
    ensures parser.question(d.dg.bytes) == Some(s.jobs[d.tid].question) || HasRival(parser.question, s.fwd, d.tid)
  {
    DeliveryAnswersOwnQuestion(parser.question, s.fwd, d);
    assert D.GoodJob(parser, s, d.tid);
    var t := s.fwd.tasks[d.tid];
    assert parser.question(P.PatchXid(t.query, t.xid)) == parser.question(t.query);
  }

  /** The client is answered what it asked. */
  ghost predicate AnswersItsQuestion(parser: D.Parser, s: D.State, r: D.Reply) {
    && r.tid in s.jobs
    && parser.question(r.bytes) == parser.question(s.jobs[r.tid].query) == Some(s.jobs[r.tid].question)
  }

  /** The reply is of delivery `d`, and answers what was asked unless the task of `d` has a rival. */
  ghost predicate AnswersUnlessRival(parser: D.Parser, s: D.State, r: D.Reply, d: P.Delivery) {
    && D.Answers(s, r, d)
    && (AnswersItsQuestion(parser, s, r) || HasRival(parser.question, s.fwd, d.tid))
  }

  lemma ReplyAnswersUnlessRival(parser: D.Parser, s: D.State, r: D.Reply)
    requires D.Inv(parser, s) && Inv(parser.question, s.fwd) && IgnoresId(parser.question) && r in s.replies
    ensures exists d :: AnswersUnlessRival(parser, s, r, d)
  {
    D.ReplyHasProvenance(parser, s, r);
    var d :| D.Answers(s, r, d);
    DeliveryAnswersJob(parser, s, d);
    SameQuestionPastId(parser.question, r.bytes, d.dg.bytes);
    assert D.GoodJob(parser, s, r.tid);
    assert AnswersUnlessRival(parser, s, r, d);
  }

  lemma RunKeepsBoth(parser: D.Parser, start: Time, steps: seq<D.Step>)
    requires HonestRun(parser, D.Init(start), steps)
    ensures var s := After(parser, D.Init(start), steps); D.Inv(parser, s) && Inv(parser.question, s.fwd)
  {
    HonestRunIsLegal(parser, D.Init(start), steps);
    D.RunKeepsInv(parser, D.Init(start), steps);
    RunKeepsInv(parser, D.Init(start), steps);
  }

  /**
   * With honest upstreams every reply to every client, from the cache or not, answers the
   * question the client asked, unless another question had gone to the upstream, under the ID,
   * of the very task whose answer it is.
   */
  lemma EveryReplyAnswersUnlessRival(parser: D.Parser, start: Time, steps: seq<D.Step>)
    requires HonestRun(parser, D.Init(start), steps) && IgnoresId(parser.question)
    ensures var s := After(parser, D.Init(start), steps);
      forall r | r in s.replies :: exists d :: AnswersUnlessRival(parser, s, r, d)
  {
    RunKeepsBoth(parser, start, steps);
    var s := After(parser, D.Init(start), steps);
    forall r | r in s.replies
      ensures exists d :: AnswersUnlessRival(parser, s, r, d)
    {
      ReplyAnswersUnlessRival(parser, s, r);
    }
  }

  ghost predicate NoRivals(parse: QuestionParser, s: P.State) {
    forall tid | tid in s.tasks :: !HasRival(parse, s, tid)
  }

  /** So when no two questions went to one upstream under one ID, every reply answers its question. */
  lemma EveryReplyAnswersItsQuestion(parser: D.Parser, start: Time, steps: seq<D.Step>)
    requires HonestRun(parser, D.Init(start), steps) && IgnoresId(parser.question)
    requires NoRivals(parser.question, After(parser, D.Init(start), steps).fwd)
    ensures var s := After(parser, D.Init(start), steps);
      forall r | r in s.replies :: AnswersItsQuestion(parser, s, r)
  {
    RunKeepsBoth(parser, start, steps);
    var s := After(parser, D.Init(start), steps);
    forall r | r in s.replies
      ensures AnswersItsQuestion(parser, s, r)
    {
      ReplyAnswersUnlessRival(parser, s, r);
    }
  }

  // ----- A late answer, served and cached under another question -----

  lemma HonestCons(parser: D.Parser, s: D.State, step: D.Step, rest: seq<D.Step>)
    requires D.Enabled(s, step) && HonestStep(parser, s, step) && HonestRun(parser, D.Apply(parser, s, step), rest)
    ensures HonestRun(parser, s, [step] + rest)
    ensures After(parser, s, [step] + rest) == After(parser, D.Apply(parser, s, step), rest)
  {
    assert ([step] + rest)[1..] == rest;
  }

  /** A query whose question is not cached goes out, as in `P.Ask`. */
  function AfterQuery(parser: D.Parser, s: D.State, tid: P.Tid, query: Bytes): D.State
    requires parser.question(query).Some?
  {
    s.(jobs := s.jobs[tid := D.Job(query, parser.question(query).value, D.Forwarding)],
       fwd := P.AfterAsking(s.fwd, tid, query))
  }

  lemma QueryMisses(parser: D.Parser, s: D.State, tid: P.Tid, query: Bytes)
    requires tid !in s.jobs && parser.question(query).Some? && |query| >= DNS_HEADER_SIZE && s.cache.cache == map[]
    ensures D.Enabled(s, D.Arrive(tid, query))
    ensures var s1 := D.Apply(parser, s, D.Arrive(tid, query));
      && D.Enabled(s1, D.LookUp(tid, s.cache.now))
      && D.Apply(parser, s1, D.LookUp(tid, s.cache.now))
         == s.(jobs := s.jobs[tid := D.Job(query, parser.question(query).value, D.Missed)])
  {
    var s1 := D.Apply(parser, s, D.Arrive(tid, query));
    assert s1.jobs[tid := D.Job(query, parser.question(query).value, D.Missed)]
        == s.jobs[tid := D.Job(query, parser.question(query).value, D.Missed)];
  }

  lemma QueryIsSent(parser: D.Parser, s: D.State, tid: P.Tid, query: Bytes)
    requires D.AtStage(s, tid, D.Missed) && s.jobs[tid].query == query
    requires parser.question(query) == Some(s.jobs[tid].question)
    requires tid !in s.fwd.tasks && P.Accepted(s.fwd, query) && 7 !in s.fwd.pending
    ensures D.Enabled(s, D.Forward(P.Ask(tid, query)))
    ensures var s1 := D.Apply(parser, s, D.Forward(P.Ask(tid, query)));
      && D.Enabled(s1, D.Forward(P.SendOk(tid)))
      && D.Apply(parser, s1, D.Forward(P.SendOk(tid))) == AfterQuery(parser, s, tid, query)
  {
    P.AskingSteps(s.fwd, tid, query);
  }

  lemma HonestTwo(parser: D.Parser, s: D.State, a: D.Step, b: D.Step, rest: seq<D.Step>)
    requires D.Enabled(s, a) && HonestStep(parser, s, a)
    requires var s1 := D.Apply(parser, s, a);
      D.Enabled(s1, b) && HonestStep(parser, s1, b) && HonestRun(parser, D.Apply(parser, s1, b), rest)
    ensures HonestRun(parser, s, [a] + ([b] + rest))
    ensures After(parser, s, [a] + ([b] + rest)) == After(parser, D.Apply(parser, D.Apply(parser, s, a), b), rest)
  {
    HonestCons(parser, D.Apply(parser, s, a), b, rest);
    HonestCons(parser, s, a, [b] + rest);
  }

  lemma MissedQueryGoesOut(parser: D.Parser, s: D.State, tid: P.Tid, query: Bytes, rest: seq<D.Step>)
    requires D.AtStage(s, tid, D.Missed) && s.jobs[tid].query == query
    requires parser.question(query) == Some(s.jobs[tid].question)
    requires tid !in s.fwd.tasks && P.Accepted(s.fwd, query) && 7 !in s.fwd.pending
    requires HonestRun(parser, AfterQuery(parser, s, tid, query), rest)
    ensures var steps := [D.Forward(P.Ask(tid, query))] + ([D.Forward(P.SendOk(tid))] + rest);
      HonestRun(parser, s, steps) && After(parser, s, steps) == After(parser, AfterQuery(parser, s, tid, query), rest)
  {
    QueryIsSent(parser, s, tid, query);
    HonestTwo(parser, s, D.Forward(P.Ask(tid, query)), D.Forward(P.SendOk(tid)), rest);
  }

  lemma QueryGoesOut(parser: D.Parser, s: D.State, tid: P.Tid, query: Bytes, rest: seq<D.Step>)
    returns (steps: seq<D.Step>)
    requires tid !in s.jobs && tid !in s.fwd.tasks && parser.question(query).Some?
    requires P.Accepted(s.fwd, query) && 7 !in s.fwd.pending && s.cache.cache == map[]
    requires HonestRun(parser, AfterQuery(parser, s, tid, query), rest)
    ensures HonestRun(parser, s, steps)
    ensures After(parser, s, steps) == After(parser, AfterQuery(parser, s, tid, query), rest)
  {
    var missed := s.(jobs := s.jobs[tid := D.Job(query, parser.question(query).value, D.Missed)]);
    var later := [D.Forward(P.Ask(tid, query))] + ([D.Forward(P.SendOk(tid))] + rest);
    assert AfterQuery(parser, missed, tid, query) == AfterQuery(parser, s, tid, query);
    MissedQueryGoesOut(parser, missed, tid, query, rest);
    QueryMisses(parser, s, tid, query);
    HonestTwo(parser, s, D.Arrive(tid, query), D.LookUp(tid, s.cache.now), later);
    steps := [D.Arrive(tid, query)] + ([D.LookUp(tid, s.cache.now)] + later);
  }

  function GivenUp(s: D.State, tid: P.Tid): D.State
    requires tid in s.jobs && tid in s.fwd.tasks
  {
    s.(jobs := s.jobs[tid := s.jobs[tid].(stage := D.Finished)],
       fwd := s.fwd.(tasks := s.fwd.tasks[tid := s.fwd.tasks[tid].(phase := P.Done(None), chan := P.Closed)],
                     pending := s.fwd.pending - {s.fwd.tasks[tid].xid}))
  }

  lemma TimedOutSteps(s: P.State, tid: P.Tid)
    requires P.InPhase(s, tid, P.Waiting) && P.HasEntry(s, tid)
    ensures P.Enabled(s, P.Timeout(tid)) && P.Enabled(P.Apply(s, P.Timeout(tid)), P.Cleanup(tid))
    ensures P.Apply(P.Apply(s, P.Timeout(tid)), P.Cleanup(tid))
         == s.(tasks := s.tasks[tid := s.tasks[tid].(phase := P.Done(None), chan := P.Closed)],
               pending := s.pending - {s.tasks[tid].xid})
  {
    var s1 := P.Apply(s, P.Timeout(tid));
    assert s1.tasks[tid := s.tasks[tid].(phase := P.Done(None), chan := P.Closed)]
        == s.tasks[tid := s.tasks[tid].(phase := P.Done(None), chan := P.Closed)];
  }

  lemma QueryTimesOut(parser: D.Parser, s: D.State, tid: P.Tid, rest: seq<D.Step>) returns (steps: seq<D.Step>)
    requires D.AtStage(s, tid, D.Forwarding) && P.InPhase(s.fwd, tid, P.Waiting) && P.HasEntry(s.fwd, tid)
    requires HonestRun(parser, GivenUp(s, tid), rest)
    ensures HonestRun(parser, s, steps) && After(parser, s, steps) == After(parser, GivenUp(s, tid), rest)
  {
    var timeout, cleanup := D.Forward(P.Timeout(tid)), D.Forward(P.Cleanup(tid));
    TimedOutSteps(s.fwd, tid);
    var cleaned := D.Apply(parser, D.Apply(parser, s, timeout), cleanup);
    assert D.Apply(parser, cleaned, D.GiveUp(tid)) == GivenUp(s, tid);
    HonestCons(parser, cleaned, D.GiveUp(tid), rest);
    HonestTwo(parser, s, timeout, cleanup, [D.GiveUp(tid)] + rest);
    steps := [timeout] + ([cleanup] + ([D.GiveUp(tid)] + rest));
  }

  /** The task's response once `dg` has been delivered and read. */
  function Response(s: P.State, tid: P.Tid, dg: P.Datagram): Bytes
    requires tid in s.tasks && |s.tasks[tid].query| >= 2 && |dg.bytes| >= 2
  {
    P.PatchXid(dg.bytes, P.XidOf(s.tasks[tid].query))
  }

  predicate Matches(s: P.State, tid: P.Tid, dg: P.Datagram) {
    && P.InPhase(s, tid, P.Waiting) && |s.tasks[tid].query| >= 2
    && |dg.bytes| >= DNS_HEADER_SIZE && dg.from == s.tasks[tid].upstream
    && P.XidOf(dg.bytes) == s.tasks[tid].xid && s.receiver.Idle?
    && P.XidOf(dg.bytes) in s.pending && s.pending[P.XidOf(dg.bytes)] == P.Entry(tid, dg.from)
  }

  function Answered(s: P.State, tid: P.Tid, dg: P.Datagram): P.State
    requires Matches(s, tid, dg)
  {
    s.(tasks := s.tasks[tid := s.tasks[tid].(
         phase := P.Done(Some(Response(s, tid, dg))), chan := P.Filled(dg.bytes))],
       pending := s.pending - {P.XidOf(dg.bytes)},
       deliveries := s.deliveries + [P.Delivery(tid, dg)])
  }

  lemma AnsweringSteps(s: P.State, tid: P.Tid, dg: P.Datagram)
    requires Matches(s, tid, dg)
    ensures P.Enabled(s, P.Receive(dg))
    ensures var s1 := P.Apply(s, P.Receive(dg));
      && P.Enabled(s1, P.Deliver)
      && var s2 := P.Apply(s1, P.Deliver);
      && P.Enabled(s2, P.Wake(tid)) && P.Apply(s2, P.Wake(tid)) == Answered(s, tid, dg)
  {
    var s1 := P.Apply(s, P.Receive(dg));
    assert s1.receiver == P.Holding(P.Entry(tid, dg.from), dg);
    var s2 := P.Apply(s1, P.Deliver);
    assert s2.tasks == s.tasks[tid := s.tasks[tid].(chan := P.Filled(dg.bytes))];
    assert P.Apply(s2, P.Wake(tid)).tasks == Answered(s, tid, dg).tasks;
  }

  /** The answer is stored under the task's key, and sent to its client. */
  function Served(parser: D.Parser, s: D.State, tid: P.Tid, dg: P.Datagram): D.State
    requires tid in s.jobs && Matches(s.fwd, tid, dg)
  {
    var response := Response(s.fwd, tid, dg);
    D.State(
      s.jobs[tid := s.jobs[tid].(stage := D.Finished)],
      Answered(s.fwd, tid, dg),
      C.Apply(parser.ttls, s.cache, C.Insert(D.KeyFor(s, tid), response, s.cache.now, s.cache.now)),
      s.replies + [D.Reply(tid, response)])
  }

  lemma StoringSteps(parser: D.Parser, s: D.State, tid: P.Tid, response: Bytes)
    requires D.AtStage(s, tid, D.Forwarding) && P.InPhase(s.fwd, tid, P.Done(Some(response)))
    ensures var store := D.Store(tid, s.cache.now, s.cache.now);
      && D.Enabled(s, store)
      && var s1 := D.Apply(parser, s, store);
      && D.Enabled(s1, D.Send(tid))
      && D.Apply(parser, s1, D.Send(tid)) == D.State(
           s.jobs[tid := s.jobs[tid].(stage := D.Finished)], s.fwd,
           C.Apply(parser.ttls, s.cache, C.Insert(D.KeyFor(s, tid), response, s.cache.now, s.cache.now)),
           s.replies + [D.Reply(tid, response)])
  {
    var s1 := D.Apply(parser, s, D.Store(tid, s.cache.now, s.cache.now));
    assert s1.jobs[tid := s.jobs[tid].(stage := D.Finished)] == s.jobs[tid := s.jobs[tid].(stage := D.Finished)];
  }

  lemma AnswerIsServed(parser: D.Parser, s: D.State, tid: P.Tid, dg: P.Datagram) returns (steps: seq<D.Step>)
    requires D.AtStage(s, tid, D.Forwarding) && Matches(s.fwd, tid, dg) && Honest(parser.question, s.fwd, P.Receive(dg))
    ensures HonestRun(parser, s, steps) && After(parser, s, steps) == Served(parser, s, tid, dg)
  {
    var receive, deliver, wake := D.Forward(P.Receive(dg)), D.Forward(P.Deliver), D.Forward(P.Wake(tid));
    var store, send := D.Store(tid, s.cache.now, s.cache.now), D.Send(tid);
    AnsweringSteps(s.fwd, tid, dg);
    var answered := s.(fwd := Answered(s.fwd, tid, dg));
    StoringSteps(parser, answered, tid, Response(s.fwd, tid, dg));
    HonestTwo(parser, answered, store, send, []);
    var delivered := D.Apply(parser, D.Apply(parser, s, receive), deliver);
    HonestCons(parser, delivered, wake, [store] + ([send] + []));
    HonestTwo(parser, s, receive, deliver, [wake] + ([store] + ([send] + [])));
    steps := [receive] + ([deliver] + ([wake] + ([store] + ([send] + []))));
  }

  /**
   * A rival is all it takes: from any state a run may reach, with the receiver idle, the other
   * question's answer can be what a waiting task's client is sent next.
   */
  lemma RivalAnswerIsServed(parser: D.Parser, s: D.State, tid: P.Tid, q: P.SentQuery) returns (steps: seq<D.Step>)
    requires D.Inv(parser, s) && Inv(parser.question, s.fwd) && IgnoresId(parser.question)
    requires D.AtStage(s, tid, D.Forwarding) && P.InPhase(s.fwd, tid, P.Waiting) && P.HasEntry(s.fwd, tid)
    requires s.fwd.receiver.Idle? && Rival(parser.question, s.fwd, tid, q)
    ensures HonestRun(parser, s, steps)
    ensures var s' := After(parser, s, steps);
      && |s'.replies| == |s.replies| + 1 && s.replies <= s'.replies
      && var r := s'.replies[|s.replies|];
      && r.tid == tid && !AnswersItsQuestion(parser, s', r) && parser.question(r.bytes) == parser.question(q.bytes)
  {
    var dg := P.Datagram(q.to, q.bytes);
    assert SentAsTask(s.fwd, q) && D.GoodJob(parser, s, tid);
    assert P.OwnedEntry(s.fwd, s.fwd.tasks[tid].xid);
    assert Echoes(parser.question, q, dg);
    steps := AnswerIsServed(parser, s, tid, dg);
    var t, r := s.fwd.tasks[tid], Response(s.fwd, tid, dg);
    assert parser.question(P.PatchXid(t.query, t.xid)) == parser.question(t.query);
    assert parser.question(r) == parser.question(q.bytes);
    assert Served(parser, s, tid, dg).replies[|s.replies|] == D.Reply(tid, r);
  }

  /** Query `a` has timed out, and query `b` has gone out under the ID `a` had. */
  function Reused(parser: D.Parser, a: Bytes, b: Bytes): D.State
    requires parser.question(a).Some? && parser.question(b).Some?
  {
    AfterQuery(parser, GivenUp(AfterQuery(parser, D.Init(0), 1, a), 1), 2, b)
  }

  function LateAnswer(a: Bytes): P.Datagram {
    P.Datagram(P.SOME_UPSTREAM, P.AskedBy(1, a).bytes)
  }

  lemma LateAnswerMatches(parser: D.Parser, a: Bytes, b: Bytes)
    requires |a| >= DNS_HEADER_SIZE && |b| >= DNS_HEADER_SIZE
    requires parser.question(a).Some? && parser.question(b).Some?
    ensures var s := Reused(parser, a, b);
      && D.AtStage(s, 2, D.Forwarding) && s.jobs[2] == D.Job(b, parser.question(b).value, D.Forwarding)
      && Matches(s.fwd, 2, LateAnswer(a)) && s.fwd.tasks[2].query == b
      && Honest(parser.question, s.fwd, P.Receive(LateAnswer(a)))
      && s.cache == C.State(map[], [], 0) && s.replies == []
  {
    var s := Reused(parser, a, b);
    assert P.AskedBy(1, a) in s.fwd.sent;
    assert Echoes(parser.question, P.AskedBy(1, a), LateAnswer(a));
  }

  lemma LateAnswerRun(parser: D.Parser, a: Bytes, b: Bytes) returns (steps: seq<D.Step>)
    requires |a| >= DNS_HEADER_SIZE && |b| >= DNS_HEADER_SIZE
    requires parser.question(a).Some? && parser.question(b).Some?
    ensures D.AtStage(Reused(parser, a, b), 2, D.Forwarding) && Matches(Reused(parser, a, b).fwd, 2, LateAnswer(a))
    ensures HonestRun(parser, D.Init(0), steps)
    ensures After(parser, D.Init(0), steps) == Served(parser, Reused(parser, a, b), 2, LateAnswer(a))
  {
    var asked := AfterQuery(parser, D.Init(0), 1, a);
    LateAnswerMatches(parser, a, b);
    var serving := AnswerIsServed(parser, Reused(parser, a, b), 2, LateAnswer(a));
    var reusing := QueryGoesOut(parser, GivenUp(asked, 1), 2, b, serving);
    var timing := QueryTimesOut(parser, asked, 1, reusing);
    steps := QueryGoesOut(parser, D.Init(0), 1, a, timing);
  }

  /**
   * The property fails when an ID is drawn again too soon: query `a` times out, query `b`
   * draws the same ID, and the upstream's late answer to `a` is then served to `b`'s client
   * and cached for `b`'s question.
   */
  lemma LateAnswerIsServed(parser: D.Parser, a: Bytes, b: Bytes) returns (steps: seq<D.Step>)
    requires |a| >= DNS_HEADER_SIZE && |b| >= DNS_HEADER_SIZE && IgnoresId(parser.question)
    requires parser.question(a).Some? && parser.question(b).Some? && parser.question(a) != parser.question(b)
    ensures HonestRun(parser, D.Init(0), steps)
    ensures var s := After(parser, D.Init(0), steps);
      && |s.replies| == 1 && var r := s.replies[0];
      && r.tid in s.jobs && s.jobs[r.tid].query == b
      && parser.question(r.bytes) == parser.question(a)
      && (C.CacheTtl(parser.ttls, r.bytes).Some? ==>
            C.LookedUp(s.cache.cache, C.KeyOf(parser.question(b).value), 0).1 == Some(r.bytes))
  {
    steps := LateAnswerRun(parser, a, b);
    LateAnswerMatches(parser, a, b);
    var r := Response(Reused(parser, a, b).fwd, 2, LateAnswer(a));
    assert Served(parser, Reused(parser, a, b), 2, LateAnswer(a)).replies == [D.Reply(2, r)];
    assert parser.question(r) == parser.question(LateAnswer(a).bytes) == parser.question(a);
  }
}
