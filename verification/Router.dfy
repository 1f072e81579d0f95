/**
 * The WAN client and the DNS forwarder together: each query that misses the cache reads the
 * published lease for its upstream, while the client goes on publishing and withdrawing.
 */
module Router {
  import opened Common
  import L = LeaseRenewal
  import W = DhcpClient
  import A = DnsAnswers
  import D = DnsForwarder
  import P = DnsPending

  const FALLBACK_DNS_SERVER: Ip := 0x0808_0808

  /** The upstream a task reads off the published lease. */
  function UpstreamDns(lease: W.WanLease): Ip {
    if lease.dns != [] then lease.dns[0] else FALLBACK_DNS_SERVER
  }

  /** The upstream a query should go to: the first DNS server of the lease the client is bound under. */
  function Prescribed(phase: W.Phase): Ip {
    match phase
    case Bound(ack) => if ack.dns != [] then ack.dns[0] else FALLBACK_DNS_SERVER
    case Negotiating => FALLBACK_DNS_SERVER
  }

  /** The published lease a task read its upstream off, and the phase the client was in just then. */
  datatype Choice = Choice(tid: P.Tid, lease: W.WanLease, phase: W.Phase)

  /** The client was not bound, but a lease with its own DNS server was still published. */
  predicate Stale(c: Choice) {
    c.phase.Negotiating? && c.lease.dns != [] && c.lease.dns[0] != FALLBACK_DNS_SERVER
  }

  datatype State = State(wan: W.State, dns: D.State, choices: seq<Choice>)

  datatype Step =
    | Wan(event: W.Event)
    | Choose(tid: P.Tid)
    | Dns(step: D.Step)

  function Init(start: Time): State {
    State(W.START, D.Init(start), [])
  }

  ghost predicate Chose(s: State, tid: P.Tid, upstream: Ip) {
    exists c | c in s.choices :: c.tid == tid && UpstreamDns(c.lease) == upstream
  }

  /** A task chooses its upstream after missing the cache, and registers with that choice. */
  ghost predicate Enabled(s: State, step: Step) {
    match step
    case Wan(e) => W.Applicable(s.wan, e)
    case Choose(tid) => D.AtStage(s.dns, tid, D.Missed) && forall c | c in s.choices :: c.tid != tid
    case Dns(d) =>
      && D.Enabled(s.dns, d)
      && (d.Forward? && d.step.Register? ==> Chose(s, d.step.tid, d.step.upstream))
  }

  function Apply(parser: D.Parser, s: State, step: Step): State
    requires Enabled(s, step)
  {
    match step
    case Wan(e) => s.(wan := W.Next(s.wan, e))
    case Choose(tid) => s.(choices := s.choices + [Choice(tid, s.wan.lease, s.wan.phase)])
    case Dns(d) => s.(dns := D.Apply(parser, s.dns, d))
  }

  // ----- When the published lease is the one the client is bound under -----

  ghost predicate Published(s: W.State) {
    s.lease == match s.phase case Bound(ack) => W.LeaseOf(ack) case Negotiating => W.NO_LEASE
  }

  /** A turn leaves the lease published that the client is bound under, or none, exactly then. */
  lemma PublishedIffConfigures(s: W.State, e: W.Event)
    requires Published(s) && W.Applicable(s, e)
    ensures Published(W.Next(s, e)) <==> W.Configures(s, e)
  {
  }

  /** Any query that has missed the cache may choose, once, and reads the lease published just then. */
  lemma ChoosingEffect(parser: D.Parser, s: State, tid: P.Tid)
    ensures Enabled(s, Choose(tid)) <==>
            && tid in s.dns.jobs && s.dns.jobs[tid].stage == D.Missed
            && forall i | 0 <= i < |s.choices| :: s.choices[i].tid != tid
    ensures Enabled(s, Choose(tid)) ==>
      Apply(parser, s, Choose(tid)) == s.(choices := s.choices + [Choice(tid, s.wan.lease, s.wan.phase)])
  {
  }

  /** Without a DNS server in the lease queries go to 8.8.8.8. */
  lemma FallbackIsRead(lease: W.WanLease)
    ensures UpstreamDns(lease)
         == if lease.dns == [] then 8 * 0x100_0000 + 8 * 0x1_0000 + 8 * 0x100 + 8 else lease.dns[0]
  {
  }

  ghost predicate LegalRun(parser: D.Parser, s: State, steps: seq<Step>)
    decreases |steps|
  {
    steps == [] || (Enabled(s, steps[0]) && LegalRun(parser, Apply(parser, s, steps[0]), steps[1..]))
  }

  /**
   * What a turn does to the upstream of queries that choose after it. From a published lease
   * that is the client's own, it leaves the prescribed one to be read unless it fails to
   * configure a lease that has a DNS server other than the fallback.
   */
  lemma FailedConfigurationMisdirects(s: W.State, e: W.Event)
    requires Published(s) && W.Applicable(s, e)
    ensures var s' := W.Next(s, e);
      UpstreamDns(s'.lease) == Prescribed(s'.phase) <==>
        W.Configures(s, e) || e.ack.dns == [] || e.ack.dns[0] == FALLBACK_DNS_SERVER
  {
    PublishedIffConfigures(s, e);
  }

  /** Every configuration of the run succeeds. */
  ghost predicate AllConfigure(parser: D.Parser, s: State, steps: seq<Step>)
    requires LegalRun(parser, s, steps)
    decreases |steps|
  {
    steps == [] ||
    ((steps[0].Wan? ==> W.Configures(s.wan, steps[0].event)) &&
     AllConfigure(parser, Apply(parser, s, steps[0]), steps[1..]))
  }

  function After(parser: D.Parser, s: State, steps: seq<Step>): State
    requires LegalRun(parser, s, steps)
    decreases |steps|
  {
    if steps == [] then s else After(parser, Apply(parser, s, steps[0]), steps[1..])
  }

  // ----- Where queries go -----

  /** Bound, the lease is the one published. Whatever netlink does, no turn changes that. */
  ghost predicate BoundIsPublished(lease: W.WanLease, phase: W.Phase) {
    phase.Bound? ==> lease == W.LeaseOf(phase.ack)
  }

  ghost predicate GoodChoices(s: State) {
    && BoundIsPublished(s.wan.lease, s.wan.phase)
    && (forall c | c in s.choices :: BoundIsPublished(c.lease, c.phase))
    && (forall i, j | 0 <= i < j < |s.choices| :: s.choices[i].tid != s.choices[j].tid)
    && (forall tid | tid in s.dns.fwd.tasks :: Chose(s, tid, s.dns.fwd.tasks[tid].upstream))
  }

  ghost predicate SentToUpstream(s: P.State) {
    forall q | q in s.sent :: q.tid in s.tasks && q.to == s.tasks[q.tid].upstream
  }

  ghost predicate Inv(parser: D.Parser, s: State) {
    D.Inv(parser, s.dns) && GoodChoices(s) && SentToUpstream(s.dns.fwd)
  }

  /** A task keeps its upstream, and a new one comes with the upstream it registers. */
  lemma StepKeepsUpstreams(s: P.State, step: P.Step)
    requires P.Enabled(s, step)
    ensures forall tid | tid in s.tasks ::
              tid in P.Apply(s, step).tasks && P.Apply(s, step).tasks[tid].upstream == s.tasks[tid].upstream
    ensures forall tid | tid in P.Apply(s, step).tasks && tid !in s.tasks ::
              step.Register? && step.tid == tid && P.Apply(s, step).tasks[tid].upstream == step.upstream
  {
  }

  lemma StepKeepsSentToUpstream(s: P.State, step: P.Step)
    requires P.Enabled(s, step) && SentToUpstream(s)
    ensures SentToUpstream(P.Apply(s, step))
  {
    StepKeepsUpstreams(s, step);
    forall q | q in P.Apply(s, step).sent && q !in s.sent
      ensures step.SendOk? && q.tid == step.tid && q.to == s.tasks[q.tid].upstream
    {
    }
  }

  lemma ForwardKeepsChoices(parser: D.Parser, s: State, step: Step)
    requires GoodChoices(s) && Enabled(s, step) && step.Dns? && step.step.Forward?
    ensures GoodChoices(Apply(parser, s, step))
  {
    var s' := Apply(parser, s, step);
    StepKeepsUpstreams(s.dns.fwd, step.step.step);
    forall tid | tid in s'.dns.fwd.tasks
      ensures Chose(s', tid, s'.dns.fwd.tasks[tid].upstream)
    {
      if tid in s.dns.fwd.tasks {
        assert Chose(s, tid, s.dns.fwd.tasks[tid].upstream);
      }
    }
  }

  lemma ChoosingKeepsChoices(parser: D.Parser, s: State, step: Step)
    requires GoodChoices(s) && Enabled(s, step) && step.Choose?
    ensures GoodChoices(Apply(parser, s, step))
  {
    var s' := Apply(parser, s, step);
    forall tid | tid in s'.dns.fwd.tasks
      ensures Chose(s', tid, s'.dns.fwd.tasks[tid].upstream)
    {
      var c :| c in s.choices && c.tid == tid && UpstreamDns(c.lease) == s.dns.fwd.tasks[tid].upstream;
      assert c in s'.choices;
    }
  }

  lemma OtherStepKeepsForwarding(parser: D.Parser, s: D.State, step: D.Step)
    requires D.Enabled(s, step) && !step.Forward?
    ensures D.Apply(parser, s, step).fwd == s.fwd
  {
  }

  lemma DnsStepKeepsChoices(parser: D.Parser, s: State, step: Step)
    requires GoodChoices(s) && SentToUpstream(s.dns.fwd) && Enabled(s, step) && step.Dns?
    ensures GoodChoices(Apply(parser, s, step)) && SentToUpstream(Apply(parser, s, step).dns.fwd)
  {
    if step.step.Forward? {
      StepKeepsSentToUpstream(s.dns.fwd, step.step.step);
      ForwardKeepsChoices(parser, s, step);
    } else {
      OtherStepKeepsForwarding(parser, s.dns, step.step);
      forall tid | tid in s.dns.fwd.tasks
        ensures Chose(Apply(parser, s, step), tid, s.dns.fwd.tasks[tid].upstream)
      {
        assert Chose(s, tid, s.dns.fwd.tasks[tid].upstream);
      }
    }
  }

  lemma StepKeepsInv(parser: D.Parser, s: State, step: Step)
    requires Inv(parser, s) && Enabled(s, step)
    ensures Inv(parser, Apply(parser, s, step))
  {
    match step
    case Wan(e) => WanKeepsChoices(parser, s, step);
    case Choose(_) => ChoosingKeepsChoices(parser, s, step);
    case Dns(d) =>
      D.StepKeepsInv(parser, s.dns, d);
      DnsStepKeepsChoices(parser, s, step);
  }

  lemma WanKeepsChoices(parser: D.Parser, s: State, step: Step)
    requires GoodChoices(s) && Enabled(s, step) && step.Wan?
    ensures GoodChoices(Apply(parser, s, step))
  {
    var s' := Apply(parser, s, step);
    W.TurnPublishes(s.wan, step.event);
    forall tid | tid in s'.dns.fwd.tasks
      ensures Chose(s', tid, s'.dns.fwd.tasks[tid].upstream)
    {
      assert Chose(s, tid, s.dns.fwd.tasks[tid].upstream);
    }
  }

  lemma {:induction false} RunKeepsInv(parser: D.Parser, s: State, steps: seq<Step>)
    requires Inv(parser, s) && LegalRun(parser, s, steps)
    ensures Inv(parser, After(parser, s, steps))
    decreases |steps|
  {
    if steps != [] {
      StepKeepsInv(parser, s, steps[0]);
      RunKeepsInv(parser, Apply(parser, s, steps[0]), steps[1..]);
    }
  }

  /** `to` is the upstream that this task's one choice gave it: the prescribed one unless stale. */
  ghost predicate ChosenUpstream(s: State, tid: P.Tid, to: Ip, c: Choice) {
    && c in s.choices && c.tid == tid && to == UpstreamDns(c.lease)
    && (to == Prescribed(c.phase) <==> !Stale(c))
  }

  lemma TaskUpstreamIsChosen(parser: D.Parser, s: State, tid: P.Tid)
    requires Inv(parser, s) && tid in s.dns.fwd.tasks
    ensures exists c :: ChosenUpstream(s, tid, s.dns.fwd.tasks[tid].upstream, c)
  {
    assert Chose(s, tid, s.dns.fwd.tasks[tid].upstream);
    var c :| c in s.choices && c.tid == tid && UpstreamDns(c.lease) == s.dns.fwd.tasks[tid].upstream;
    assert ChosenUpstream(s, tid, s.dns.fwd.tasks[tid].upstream, c);
  }

  ghost predicate CameFrom(s: State, r: D.Reply, d: P.Delivery, c: Choice) {
    D.Answers(s.dns, r, d) && ChosenUpstream(s, d.tid, d.dg.from, c)
  }

  lemma ReplyCameFromChoice(parser: D.Parser, s: State, r: D.Reply)
    requires Inv(parser, s) && r in s.dns.replies
    ensures exists d, c :: CameFrom(s, r, d, c)
  {
    D.ReplyHasProvenance(parser, s.dns, r);
    var d :| D.Answers(s.dns, r, d);
    TaskUpstreamIsChosen(parser, s, d.tid);
    var c :| ChosenUpstream(s, d.tid, s.dns.fwd.tasks[d.tid].upstream, c);
    assert CameFrom(s, r, d, c);
  }

  lemma InitInv(parser: D.Parser, start: Time)
    ensures Inv(parser, Init(start))
    ensures Init(start).dns.cache.now == start && Init(start).wan.phase.Negotiating?
  {
    D.StartsEmpty(start);
  }

  /**
   * In every interleaving of client and forwarder, whatever netlink does, each query goes where
   * its task's one choice says: to the first DNS server of the lease the client was bound under
   * just then, or to the fallback when there was none, but for a choice made while a lease was
   * still published that the client was not bound under. Every reply is of a datagram from there.
   */
  lemma QueriesFollowLease(parser: D.Parser, start: Time, steps: seq<Step>)
    requires LegalRun(parser, Init(start), steps)
    ensures var s := After(parser, Init(start), steps);
      && (forall i, j | 0 <= i < j < |s.choices| :: s.choices[i].tid != s.choices[j].tid)
      && (forall q | q in s.dns.fwd.sent :: exists c :: ChosenUpstream(s, q.tid, q.to, c))
      && (forall r | r in s.dns.replies :: exists d, c :: CameFrom(s, r, d, c))
  {
    InitInv(parser, start);
    RunKeepsInv(parser, Init(start), steps);
    var s := After(parser, Init(start), steps);
    forall q | q in s.dns.fwd.sent
      ensures exists c :: ChosenUpstream(s, q.tid, q.to, c)
    {
      TaskUpstreamIsChosen(parser, s, q.tid);
    }
    forall r | r in s.dns.replies
      ensures exists d, c :: CameFrom(s, r, d, c)
    {
      ReplyCameFromChoice(parser, s, r);
    }
  }

  // ----- When every configuration succeeds no choice is stale -----

  ghost predicate NoneStale(s: State) {
    Published(s.wan) && forall c | c in s.choices :: !Stale(c)
  }

  lemma {:induction false} ConfiguredRunIsNeverStale(parser: D.Parser, s: State, steps: seq<Step>)
    requires NoneStale(s) && LegalRun(parser, s, steps) && AllConfigure(parser, s, steps)
    ensures NoneStale(After(parser, s, steps))
    decreases |steps|
  {
    if steps != [] {
      if steps[0].Wan? {
        PublishedIffConfigures(s.wan, steps[0].event);
      }
      ConfiguredRunIsNeverStale(parser, Apply(parser, s, steps[0]), steps[1..]);
    }
  }

  ghost predicate WentAsPrescribed(s: State, q: P.SentQuery, c: Choice) {
    c in s.choices && c.tid == q.tid && q.to == Prescribed(c.phase)
  }

  ghost predicate CameAsPrescribed(s: State, r: D.Reply, d: P.Delivery, c: Choice) {
    D.Answers(s.dns, r, d) && c in s.choices && c.tid == d.tid && d.dg.from == Prescribed(c.phase)
  }

  /** So in a run whose configurations succeed every query goes, and every reply comes, as prescribed. */
  lemma ConfiguredQueriesGoAsPrescribed(parser: D.Parser, start: Time, steps: seq<Step>)
    requires LegalRun(parser, Init(start), steps) && AllConfigure(parser, Init(start), steps)
    ensures var s := After(parser, Init(start), steps);
      && (forall q | q in s.dns.fwd.sent :: exists c :: WentAsPrescribed(s, q, c))
      && (forall r | r in s.dns.replies :: exists d, c :: CameAsPrescribed(s, r, d, c))
  {
    InitInv(parser, start);
    RunKeepsInv(parser, Init(start), steps);
    ConfiguredRunIsNeverStale(parser, Init(start), steps);
    var s := After(parser, Init(start), steps);
    forall q | q in s.dns.fwd.sent
      ensures exists c :: WentAsPrescribed(s, q, c)
    {
      TaskUpstreamIsChosen(parser, s, q.tid);
      var c :| ChosenUpstream(s, q.tid, q.to, c);
      assert WentAsPrescribed(s, q, c);
    }
    forall r | r in s.dns.replies
      ensures exists d, c :: CameAsPrescribed(s, r, d, c)
    {
      ReplyCameFromChoice(parser, s, r);
      var d, c :| CameFrom(s, r, d, c);
      assert CameAsPrescribed(s, r, d, c);
    }
  }

  // ----- A query that goes to a DNS server of a lease the client is not bound under -----

  lemma RunCons(parser: D.Parser, s: State, step: Step, rest: seq<Step>)
    requires Enabled(s, step) && LegalRun(parser, Apply(parser, s, step), rest)
    ensures LegalRun(parser, s, [step] + rest)
    ensures After(parser, s, [step] + rest) == After(parser, Apply(parser, s, step), rest)
  {
    assert ([step] + rest)[1..] == rest;
  }

  lemma RunTwo(parser: D.Parser, s: State, a: Step, b: Step, rest: seq<Step>)
    requires Enabled(s, a) && Enabled(Apply(parser, s, a), b)
    requires LegalRun(parser, Apply(parser, Apply(parser, s, a), b), rest)
    ensures LegalRun(parser, s, [a] + ([b] + rest))
    ensures After(parser, s, [a] + ([b] + rest)) == After(parser, Apply(parser, Apply(parser, s, a), b), rest)
  {
    RunCons(parser, Apply(parser, s, a), b, rest);
    RunCons(parser, s, a, [b] + rest);
  }

  /** A configuration has failed, and a query has missed the cache and chosen. */
  function Misled(parser: D.Parser, ack: L.DhcpAck, n: W.Netlink, query: Bytes): State
    requires parser.question(query).Some?
  {
    var missed := D.Init(0).(jobs := map[1 := D.Job(query, parser.question(query).value, D.Missed)]);
    State(W.Next(W.START, W.Acquired(ack, n)), missed, [Choice(1, W.LeaseOf(ack), W.Negotiating)])
  }

  lemma MisledSteps(parser: D.Parser, ack: L.DhcpAck, n: W.Netlink, query: Bytes, rest: seq<Step>)
    returns (steps: seq<Step>)
    requires !W.Configures(W.START, W.Acquired(ack, n))
    requires |query| >= DNS_HEADER_SIZE && parser.question(query).Some?
    requires LegalRun(parser, Misled(parser, ack, n, query), rest)
    ensures LegalRun(parser, Init(0), steps)
    ensures After(parser, Init(0), steps) == After(parser, Misled(parser, ack, n, query), rest)
  {
    var failed := State(W.Next(W.START, W.Acquired(ack, n)), D.Init(0), []);
    var misled := Misled(parser, ack, n, query);
    A.QueryMisses(parser, D.Init(0), 1, query);
    assert D.Init(0).jobs[1 := misled.dns.jobs[1]] == misled.dns.jobs;
    W.TurnPublishes(W.START, W.Acquired(ack, n));
    assert Apply(parser, misled.(choices := []), Choose(1)) == misled;
    RunCons(parser, misled.(choices := []), Choose(1), rest);
    RunTwo(parser, failed, Dns(D.Arrive(1, query)), Dns(D.LookUp(1, 0)), [Choose(1)] + rest);
    var later := [Dns(D.Arrive(1, query))] + ([Dns(D.LookUp(1, 0))] + ([Choose(1)] + rest));
    RunCons(parser, Init(0), Wan(W.Acquired(ack, n)), later);
    steps := [Wan(W.Acquired(ack, n))] + later;
  }

  /**
   * After a failed configuration a query goes to the failed lease's DNS server, whatever the
   * ACK and the query: the wrong one exactly when the lease has one other than the fallback.
   */
  lemma MisdirectedQueryRun(parser: D.Parser, ack: L.DhcpAck, n: W.Netlink, query: Bytes) returns (steps: seq<Step>)
    requires !W.Configures(W.START, W.Acquired(ack, n))
    requires |query| >= DNS_HEADER_SIZE && parser.question(query).Some?
    ensures LegalRun(parser, Init(0), steps)
    ensures var s := After(parser, Init(0), steps);
      && s.wan.phase.Negotiating? && |s.dns.fwd.sent| == 1
      && var q := s.dns.fwd.sent[0];
      && |q.bytes| == |query| && q.bytes[2..] == query[2..]
      && (ack.dns != [] ==> q.to == ack.dns[0])
      && (q.to == Prescribed(s.wan.phase) <==> ack.dns == [] || ack.dns[0] == FALLBACK_DNS_SERVER)
  {
    var s := Misled(parser, ack, n, query);
    var upstream := UpstreamDns(W.LeaseOf(ack));
    var register := Dns(D.Forward(P.Register(1, query, upstream, [7])));
    var send := Dns(D.Forward(P.SendOk(1)));
    assert Choice(1, W.LeaseOf(ack), W.Negotiating) in s.choices;
    var registered := Apply(parser, s, register);
    assert registered.dns.fwd.tasks[1] == P.Task(query, upstream, 7, P.Registered, P.Open);
    RunTwo(parser, s, register, send, []);
    steps := MisledSteps(parser, ack, n, query, [register] + ([send] + []));
  }
}
