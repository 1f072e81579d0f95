/**
 * The WAN client's bound phase: it sleeps until T1, renews, binds again under each new
 * ACK, and withdraws the lease when a renewal fails or time runs out.
 *
 * The times of a turn count from the binding of the lease in force; those in the log do not.
 */
module BoundPhase {
  import opened Common
  import opened LeaseRenewal
  import opened UnansweredRenewal
  import C = DhcpClient

  /** A lease and the instant its time started. */
  datatype Binding = Binding(ack: DhcpAck, at: Time)

  datatype Event =
    | Bind(binding: Binding)
    | Request(at: Time, dest: Ip)   // decided on at this reading of the clock
    | Withdraw(at: Time)
    | Abandon(at: Time)             // left with the lease of a failed configuration published

  /**
   * One turn of the loop, as the environment plays it: the clock at its head, the end of a
   * sleep, the rounds of a renewal, the instant a new lease's time starts, and netlink.
   */
  datatype Turn = Turn(head: Time, wake: Time, rounds: seq<Round>, rebound: Time, net: C.Netlink)

  /** `renewing` when the turns played so far end within a renewal. */
  datatype State = State(client: C.State, boundAt: Time, now: Time, renewing: bool, log: seq<Event>)

  datatype Decision = Expire | Sleep(secs: nat) | Renew

  function Decide(elapsed: u32, lease: u32): Decision {
    if elapsed >= lease then Expire
    else if elapsed < T1(lease) then Sleep(T1(lease) - elapsed)
    else Renew
  }

  function TermsOf(ack: DhcpAck): Terms {
    Terms(ack.leaseSecs, ack.server)
  }

  predicate Holds(s: State) {
    s.client.phase.Bound?
  }

  function Current(s: State): Binding
    requires Holds(s)
  {
    Binding(s.client.phase.ack, s.boundAt)
  }

  /** As when the phase begins, and again after each new ACK. */
  predicate JustBound(s: State) {
    Holds(s) && !s.renewing && s.now == 0
  }

  function Lease(s: State): u32
    requires Holds(s)
  {
    Current(s).ack.leaseSecs
  }

  function Choice(s: State, turn: Turn): Decision
    requires Holds(s)
  {
    Decide(Reading(turn.head), Lease(s))
  }

  function Renewal(s: State, turn: Turn): (Outcome, seq<RoundLog>)
    requires Holds(s)
  {
    RunRounds(TermsOf(Current(s).ack), Progress(None, turn.head), turn.rounds)
  }

  /** Clock readings never decrease, and a sleep lasts at least as long as asked. */
  ghost predicate Legal(s: State, turn: Turn) {
    && Holds(s) && !s.renewing && s.now <= turn.head
    && match Choice(s, turn)
       case Expire => true
       case Sleep(secs) => turn.head + Secs(secs) <= turn.wake
       case Renew =>
         && LegalRounds(TermsOf(Current(s).ack), Progress(None, turn.head), turn.rounds)
         && Reached(Renewal(s, turn).0) <= turn.rebound
  }

  function Requests(boundAt: Time, rounds: seq<RoundLog>): seq<Event> {
    if rounds == [] then []
    else
      var first := if rounds[0].requested then [Request(boundAt + rounds[0].head, rounds[0].dest)] else [];
      first + Requests(boundAt, rounds[1..])
  }

  function Asked(s: State, rounds: seq<RoundLog>): State {
    s.(log := s.log + Requests(s.boundAt, rounds))
  }

  function Lost(s: State, at: Time, net: C.Netlink): State
    requires Holds(s)
  {
    s.(client := C.Next(s.client, C.LeaseLost(net)), now := at, log := s.log + [Withdraw(s.boundAt + at)])
  }

  /** A failing configuration ends the phase, and leaves the new lease published. */
  function Rebound(s: State, ack: DhcpAck, turn: Turn): State
    requires Holds(s)
  {
    var client := C.Next(s.client, C.RenewalAcked(ack, turn.net));
    var at := s.boundAt + turn.rebound;
    if client.phase.Bound? then State(client, at, 0, false, s.log + [Bind(Binding(ack, at))])
    else s.(client := client, now := turn.rebound, log := s.log + [Abandon(at)])
  }

  function AfterRenewal(s: State, turn: Turn): State
    requires Holds(s)
  {
    var (outcome, rounds) := Renewal(s, turn);
    var asked := Asked(s, rounds);
    match outcome
    case Running(p) => asked.(now := p.now, renewing := true)
    case Renewed(ack, _) => Rebound(asked, ack, turn)
    case _ => Lost(asked, outcome.at, turn.net)
  }

  function Next(s: State, turn: Turn): State
    requires Holds(s)
  {
    match Choice(s, turn)
    case Expire => Lost(s, turn.head, turn.net)
    case Sleep(_) => s.(now := turn.wake)
    case Renew => AfterRenewal(s, turn)
  }

  /** The phase begins by configuring what was acknowledged. */
  function Entered(client: C.State, ack: DhcpAck, net: C.Netlink, at: Time): State
    requires client.phase.Negotiating?
  {
    var client' := C.Next(client, C.Acquired(ack, net));
    State(client', at, 0, false, if client'.phase.Bound? then [Bind(Binding(ack, at))] else [])
  }

  ghost predicate LegalRun(s: State, turns: seq<Turn>)
    decreases |turns|
  {
    turns == [] || (Legal(s, turns[0]) && LegalRun(Next(s, turns[0]), turns[1..]))
  }

  function After(s: State, turns: seq<Turn>): State
    decreases |turns|
  {
    if turns == [] || !Holds(s) then s else After(Next(s, turns[0]), turns[1..])
  }

  // ----- What a turn does -----

  /** The phase begins with what was acknowledged configured, or does not begin. */
  lemma EnteringEffect(client: C.State, ack: DhcpAck, net: C.Netlink, at: Time)
    requires client.phase.Negotiating?
    ensures var s := Entered(client, ack, net, at);
      && s.client == C.Next(client, C.Acquired(ack, net)) && s.boundAt == at && s.now == 0 && !s.renewing
      && (JustBound(s) <==> C.Configures(client, C.Acquired(ack, net)))
      && s.log == (if JustBound(s) then [Bind(Binding(ack, at))] else [])
  {
  }

  /** Turns are played as late as the environment likes, one after the other, while a lease is held. */
  lemma TurnsAreLegal(s: State, turn: Turn)
    requires Holds(s)
    ensures Legal(s, turn) <==>
            && !s.renewing && s.now <= turn.head
            && (Reading(turn.head) < Lease(s) && Reading(turn.head) < Lease(s) / 2 ==>
                  Secs(Lease(s) / 2 - Reading(turn.head)) <= turn.wake - turn.head)
            && (Lease(s) / 2 <= Reading(turn.head) < Lease(s) ==>
                  && LegalRounds(TermsOf(Current(s).ack), Progress(None, turn.head), turn.rounds)
                  && Reached(Renewal(s, turn).0) <= turn.rebound)
  {
  }

  /** An overdue lease is withdrawn, and before T1 nothing changes but the time. */
  lemma IdleTurnEffect(s: State, turn: Turn)
    requires Holds(s)
    ensures Lease(s) <= Reading(turn.head) ==>
      var s' := Next(s, turn);
      !Holds(s') && s'.client.lease == C.NO_LEASE && s'.log == s.log + [Withdraw(s.boundAt + turn.head)]
    ensures Reading(turn.head) < Lease(s) && Reading(turn.head) < Lease(s) / 2 ==> Next(s, turn) == s.(now := turn.wake)
    ensures Legal(s, turn) && Reading(turn.head) < Lease(s) && Reading(turn.head) < Lease(s) / 2 ==>
      turn.head + Secs(Lease(s) / 2 - Reading(turn.head)) <= turn.wake
  {
  }

  /** Every request of a renewal is logged, with its time and destination, and nothing else is. */
  lemma {:induction false} RequestsAreLogged(boundAt: Time, rounds: seq<RoundLog>)
    ensures forall l | l in rounds && l.requested :: Request(boundAt + l.head, l.dest) in Requests(boundAt, rounds)
    ensures forall e | e in Requests(boundAt, rounds) ::
              exists l | l in rounds :: l.requested && e == Request(boundAt + l.head, l.dest)
  {
    if rounds != [] {
      RequestsAreLogged(boundAt, rounds[1..]);
      forall e | e in Requests(boundAt, rounds)
        ensures exists l | l in rounds :: l.requested && e == Request(boundAt + l.head, l.dest)
      {
        if e in Requests(boundAt, rounds[1..]) {
          var l :| l in rounds[1..] && l.requested && e == Request(boundAt + l.head, l.dest);
          assert l in rounds;
        } else {
          assert rounds[0] in rounds;
        }
      }
    }
  }

  predicate IsRenewal(s: State, turn: Turn)
    requires Holds(s)
  {
    Lease(s) / 2 <= Reading(turn.head) < Lease(s)
  }

  /** An ACK heard first, and configured, binds anew; one that fails to be leaves the lease published. */
  lemma AckedTurnEffect(s: State, turn: Turn, k: nat)
    requires Holds(s) && IsRenewal(s, turn)
    requires AnsweredAt(TermsOf(Current(s).ack), turn.rounds, k) && turn.rounds[k].answer.GotAck?
    ensures var s', ack, at := Next(s, turn), turn.rounds[k].answer.ack, s.boundAt + turn.rebound;
      && s'.client == C.Next(s.client, C.RenewalAcked(ack, turn.net)) && s'.client.lease == C.LeaseOf(ack)
      && if C.Configures(s.client, C.RenewalAcked(ack, turn.net)) then
           && JustBound(s') && Current(s') == Binding(ack, at)
           && s'.log == s.log + Requests(s.boundAt, Renewal(s, turn).1) + [Bind(Binding(ack, at))]
         else
           && !Holds(s')
           && s'.log == s.log + Requests(s.boundAt, Renewal(s, turn).1) + [Abandon(at)]
  {
    AnswerEndsRun(TermsOf(Current(s).ack), Progress(None, turn.head), turn.rounds, k);
  }

  /** A NAK or an error heard first, and the end of the lease, withdraw it. */
  lemma LosingTurnEffect(s: State, turn: Turn, k: nat)
    requires Holds(s) && IsRenewal(s, turn)
    requires var t, rs := TermsOf(Current(s).ack), turn.rounds;
      LapsedAt(t, rs, k) || (AnsweredAt(t, rs, k) && !rs[k].answer.GotAck?)
    ensures var s', r := Next(s, turn), turn.rounds[k];
      && !Holds(s') && s'.client.lease == C.NO_LEASE
      && var at := if Lease(s) <= Reading(r.head) then r.head else r.end;
      && s'.log == s.log + Requests(s.boundAt, Renewal(s, turn).1) + [Withdraw(s.boundAt + at)]
  {
    var t, p := TermsOf(Current(s).ack), Progress(None, turn.head);
    if LapsedAt(t, turn.rounds, k) {
      LapseEndsRun(t, p, turn.rounds, k);
    } else {
      AnswerEndsRun(t, p, turn.rounds, k);
    }
  }

  // ----- What a log says of the binding in force -----

  function LastBinding(log: seq<Event>): Option<Binding> {
    if log == [] then None
    else if log[|log| - 1].Bind? then Some(log[|log| - 1].binding)
    else LastBinding(log[..|log| - 1])
  }

  /** The first event is a binding, and each later one fits the last binding before it. */
  ghost predicate Each(log: seq<Event>, fits: (Binding, Event) -> bool) {
    if |log| <= 1 then log == [] || log[0].Bind?
    else
      var before := log[..|log| - 1];
      LastBinding(before).Some? && fits(LastBinding(before).value, log[|log| - 1]) && Each(before, fits)
  }

  lemma {:induction false} EachAt(log: seq<Event>, fits: (Binding, Event) -> bool, i: nat)
    requires Each(log, fits) && i < |log|
    ensures log[0].Bind?
    ensures i > 0 ==> LastBinding(log[..i]).Some? && fits(LastBinding(log[..i]).value, log[i])
    decreases |log|
  {
    var before := log[..|log| - 1];
    if |log| == 1 {
    } else if i == |before| {
      EachAt(before, fits, 0);
    } else {
      EachAt(before, fits, i);
      assert before[..i] == log[..i];
    }
  }

  lemma {:induction false} AppendEach(log: seq<Event>, e: Event, b: Binding, fits: (Binding, Event) -> bool)
    requires Each(log, fits) && LastBinding(log) == Some(b) && fits(b, e)
    ensures Each(log + [e], fits)
    ensures LastBinding(log + [e]) == Some(if e.Bind? then e.binding else b)
  {
    assert (log + [e])[..|log|] == log;
  }

  lemma {:induction false} AppendAll(log: seq<Event>, es: seq<Event>, b: Binding, fits: (Binding, Event) -> bool)
    requires Each(log, fits) && LastBinding(log) == Some(b)
    requires forall e | e in es :: !e.Bind? && fits(b, e)
    ensures Each(log + es, fits) && LastBinding(log + es) == Some(b)
    decreases |es|
  {
    if es == [] {
      assert log + es == log;
    } else {
      var front, last := es[..|es| - 1], es[|es| - 1];
      AppendAll(log, front, b, fits);
      AppendEach(log + front, last, b, fits);
      assert log + es == (log + front) + [last];
    }
  }

  lemma {:induction false} RequestsFit(rounds: seq<RoundLog>, b: Binding, fits: (Binding, Event) -> bool)
    requires forall l | l in rounds :: fits(b, Request(b.at + l.head, l.dest))
    ensures forall e | e in Requests(b.at, rounds) :: e.Request? && fits(b, e)
  {
    if rounds != [] {
      assert rounds[0] in rounds;
      RequestsFit(rounds[1..], b, fits);
    }
  }

  ghost predicate LogFits(s: State, fits: (Binding, Event) -> bool) {
    Each(s.log, fits) && (Holds(s) ==> LastBinding(s.log) == Some(Current(s)))
  }

  lemma AskingFits(s: State, rounds: seq<RoundLog>, fits: (Binding, Event) -> bool)
    requires Holds(s) && LogFits(s, fits)
    requires forall l | l in rounds :: fits(Current(s), Request(s.boundAt + l.head, l.dest))
    ensures LogFits(Asked(s, rounds), fits)
  {
    RequestsFit(rounds, Current(s), fits);
    AppendAll(s.log, Requests(s.boundAt, rounds), Current(s), fits);
  }

  lemma LosingFits(s: State, at: Time, net: C.Netlink, fits: (Binding, Event) -> bool)
    requires Holds(s) && LogFits(s, fits) && fits(Current(s), Withdraw(s.boundAt + at))
    ensures LogFits(Lost(s, at, net), fits)
  {
    AppendEach(s.log, Withdraw(s.boundAt + at), Current(s), fits);
  }

  lemma RenewalBindsOrEnds(client: C.State, ack: DhcpAck, net: C.Netlink)
    ensures C.Enter(client, ack, net).phase == C.Bound(ack) || C.Enter(client, ack, net).phase.Negotiating?
  {
  }

  lemma RebindingFits(s: State, ack: DhcpAck, turn: Turn, fits: (Binding, Event) -> bool)
    requires Holds(s) && LogFits(s, fits) && fits(Current(s), Bind(Binding(ack, s.boundAt + turn.rebound)))
    requires fits(Current(s), Abandon(s.boundAt + turn.rebound))
    ensures LogFits(Rebound(s, ack, turn), fits)
  {
    AppendEach(s.log, Bind(Binding(ack, s.boundAt + turn.rebound)), Current(s), fits);
    AppendEach(s.log, Abandon(s.boundAt + turn.rebound), Current(s), fits);
    RenewalBindsOrEnds(s.client, ack, turn.net);
  }

  /** What a renewal turn must do for the log to go on fitting. */
  lemma RenewalFits(s: State, turn: Turn, fits: (Binding, Event) -> bool)
    requires Holds(s) && LogFits(s, fits)
    requires forall l | l in Renewal(s, turn).1 :: fits(Current(s), Request(s.boundAt + l.head, l.dest))
    requires match Renewal(s, turn).0
      case Running(_) => true
      case Renewed(ack, _) =>
        && fits(Current(s), Bind(Binding(ack, s.boundAt + turn.rebound)))
        && fits(Current(s), Abandon(s.boundAt + turn.rebound))
      case o => fits(Current(s), Withdraw(s.boundAt + o.at))
    ensures LogFits(AfterRenewal(s, turn), fits)
  {
    var (outcome, rounds) := Renewal(s, turn);
    var asked := Asked(s, rounds);
    AskingFits(s, rounds, fits);
    match outcome
    case Running(_) =>
    case Renewed(ack, _) => RebindingFits(asked, ack, turn, fits);
    case _ => LosingFits(asked, outcome.at, turn.net, fits);
  }

  // ----- Every request is made in the window of the lease in force -----

  /**
   * Not before T1; before expiry exactly while 32-bit seconds of the lease's age do not
   * wrap; and till then to the server, when that is known, exactly before T2.
   */
  predicate RequestInWindow(b: Binding, e: Event) {
    e.Request? ==>
      && b.at + Secs(T1(b.ack.leaseSecs)) <= e.at
      && (e.at < b.at + Secs(b.ack.leaseSecs) <==> e.at < b.at + Secs(U32_SIZE))
      && (e.at < b.at + Secs(U32_SIZE) ==>
            e.dest == if b.ack.server.Some? && e.at < b.at + Secs(T2(b.ack.leaseSecs))
                      then b.ack.server.value else BROADCAST_IP)
  }

  /** The loop renews only when it has read T1 or later, so no request comes sooner. */
  lemma RenewalInWindow(s: State, turn: Turn)
    requires Legal(s, turn) && Choice(s, turn).Renew?
    ensures forall l | l in Renewal(s, turn).1 :: RequestInWindow(Current(s), Request(s.boundAt + l.head, l.dest))
  {
    var t := TermsOf(Current(s).ack);
    ReadingBounds(turn.head, 0);
    RoundsFallInWindow(t, Progress(None, turn.head), turn.rounds);
    forall l | l in Renewal(s, turn).1
      ensures RequestInWindow(Current(s), Request(s.boundAt + l.head, l.dest))
    {
      WindowShifts(t, l, Current(s));
    }
  }

  lemma WindowShifts(t: Terms, l: RoundLog, b: Binding)
    requires InWindow(t, l) && t == TermsOf(b.ack)
    ensures RequestInWindow(b, Request(b.at + l.head, l.dest))
  {
  }

  lemma TurnKeepsWindow(s: State, turn: Turn)
    requires LogFits(s, RequestInWindow) && Legal(s, turn)
    ensures LogFits(Next(s, turn), RequestInWindow)
  {
    match Choice(s, turn)
    case Expire => LosingFits(s, turn.head, turn.net, RequestInWindow);
    case Sleep(_) =>
    case Renew =>
      RenewalInWindow(s, turn);
      RenewalFits(s, turn, RequestInWindow);
  }

  lemma {:induction false} RunKeepsWindow(s: State, turns: seq<Turn>)
    requires LogFits(s, RequestInWindow) && LegalRun(s, turns)
    ensures LogFits(After(s, turns), RequestInWindow)
    decreases |turns|
  {
    if turns != [] {
      TurnKeepsWindow(s, turns[0]);
      RunKeepsWindow(Next(s, turns[0]), turns[1..]);
    }
  }

  /**
   * In every run of the bound phase, over all its renewals and new leases, every request
   * is made in the window of the lease then in force.
   */
  lemma RequestsFallInWindow(client: C.State, ack: DhcpAck, net: C.Netlink, at: Time, turns: seq<Turn>)
    requires client.phase.Negotiating? && LegalRun(Entered(client, ack, net, at), turns)
    ensures var log := After(Entered(client, ack, net, at), turns).log;
      forall i | 0 <= i < |log| && log[i].Request? ::
        LastBinding(log[..i]).Some? && RequestInWindow(LastBinding(log[..i]).value, log[i])
  {
    RunKeepsWindow(Entered(client, ack, net, at), turns);
    var log := After(Entered(client, ack, net, at), turns).log;
    forall i | 0 <= i < |log| && log[i].Request?
      ensures LastBinding(log[..i]).Some? && RequestInWindow(LastBinding(log[..i]).value, log[i])
    {
      EachAt(log, RequestInWindow, i);
    }
  }

  // ----- With exact timers, no lease outlives its end by a minute -----

  /** Nothing takes time but listening, which ends at an answer or after the retry interval. */
  predicate ExactRound(t: Terms, p: Progress, r: Round) {
    var interval := Secs(Interval(t, Reading(r.head)));
    && p.now == r.head == r.check == r.sent
    && if r.answer.Silence? then r.end == r.sent + interval else r.sent <= r.end <= r.sent + interval
  }

  ghost predicate ExactRounds(t: Terms, p: Progress, rs: seq<Round>)
    decreases |rs|
  {
    rs == [] || (ExactRound(t, p, rs[0]) && ExactRounds(t, Played(t, p, rs[0]), rs[1..]))
  }

  ghost predicate Exact(s: State, turn: Turn)
    requires Holds(s)
  {
    && turn.head == s.now
    && match Choice(s, turn)
       case Expire => true
       case Sleep(secs) => turn.wake == turn.head + Secs(secs)
       case Renew =>
         && ExactRounds(TermsOf(Current(s).ack), Progress(None, turn.head), turn.rounds)
         && turn.rebound == Reached(Renewal(s, turn).0)
  }

  /** A legal run with exact timers. */
  ghost predicate ExactRun(s: State, turns: seq<Turn>)
    decreases |turns|
  {
    turns == [] || (Legal(s, turns[0]) && Exact(s, turns[0]) && ExactRun(Next(s, turns[0]), turns[1..]))
  }

  lemma {:induction false} ExactRunIsLegal(s: State, turns: seq<Turn>)
    requires ExactRun(s, turns)
    ensures LegalRun(s, turns)
    decreases |turns|
  {
    if turns != [] {
      ExactRunIsLegal(Next(s, turns[0]), turns[1..]);
    }
  }

  lemma {:induction false} RoundsStopByLanding(t: Terms, p: Progress, e: nat, rs: seq<Round>)
    requires p.now == Secs(e) && Landing(t, e) < U32_SIZE && ExactRounds(t, p, rs)
    ensures Reached(RunRounds(t, p, rs).0) <= Secs(Landing(t, e))
    decreases |rs|
  {
    LandingIsAhead(t, e);
    Unwrapped(e);
    if rs != [] && e < t.lease {
      var next := e + Interval(t, e);
      RoundUnfolds(t, e, next);
      LandingIsAhead(t, next);
      ExactSecond(t, p, e, rs[0]);
      if rs[0].answer.Silence? {
        RoundsStopByLanding(t, Played(t, p, rs[0]), next, rs[1..]);
      }
    }
  }

  lemma ExactSecond(t: Terms, p: Progress, e: u32, r: Round)
    requires p.now == Secs(e) && ExactRound(t, p, r)
    ensures Reading(r.head) == e
    ensures r.end <= Secs(e + Interval(t, e))
    ensures r.answer.Silence? ==> r.end == Secs(e + Interval(t, e))
  {
    ReadingBounds(r.head, e);
  }

  predicate BelowWrap(lease: u32) {
    lease < U32_SIZE - 56
  }

  /** Whatever happens under a lease below 2^32 - 56 seconds happens less than a minute after its end. */
  predicate InTime(b: Binding, e: Event) {
    var at := match e case Bind(next) => next.at case _ => e.at;
    BelowWrap(b.ack.leaseSecs) ==> at < b.at + Secs(b.ack.leaseSecs + 60)
  }

  ghost predicate NotOverdue(s: State) {
    Holds(s) && BelowWrap(Lease(s)) ==> s.now < Secs(Lease(s) + 60)
  }

  /** Between turns the age of the lease is zero or T1; within a renewal, it is in time. */
  ghost predicate InStep(s: State) {
    && LogFits(s, InTime) && NotOverdue(s)
    && (Holds(s) && !s.renewing ==> s.now == 0 || s.now == Secs(T1(Lease(s))))
  }

  /** From T1 a renewal with exact timers ends in time, however it ends. */
  lemma RenewalEndsInTime(s: State, turn: Turn)
    requires Holds(s) && s.now == Secs(T1(Lease(s))) && BelowWrap(Lease(s))
    requires Exact(s, turn) && Choice(s, turn).Renew?
    ensures Reached(Renewal(s, turn).0) < Secs(Lease(s) + 60)
  {
    var t := TermsOf(Current(s).ack);
    LandsInTime(t);
    RoundsStopByLanding(t, Progress(None, turn.head), T1(t.lease), turn.rounds);
  }

  /** At age zero or T1 the lease is over, or its renewal due, only where it should be. */
  lemma ExactDecision(s: State, turn: Turn)
    requires Holds(s) && Exact(s, turn) && (s.now == 0 || s.now == Secs(T1(Lease(s))))
    ensures match Choice(s, turn)
      case Expire => s.now == 0
      case Sleep(_) => turn.wake == Secs(T1(Lease(s)))
      case Renew => s.now == Secs(T1(Lease(s)))
  {
    ReadingBounds(turn.head, T1(Lease(s)));
  }

  lemma ExactRenewalKeepsStep(s: State, turn: Turn)
    requires InStep(s) && Legal(s, turn) && Exact(s, turn) && Choice(s, turn).Renew?
    ensures InStep(Next(s, turn))
  {
    ExactDecision(s, turn);
    if BelowWrap(Lease(s)) {
      RenewalEndsInTime(s, turn);
    }
    forall l | l in Renewal(s, turn).1
      ensures InTime(Current(s), Request(s.boundAt + l.head, l.dest))
    {
      RoundBeforeStop(TermsOf(Current(s).ack), Progress(None, turn.head), turn.rounds, l);
    }
    RenewalFits(s, turn, InTime);
  }

  lemma {:induction false} RoundBeforeStop(t: Terms, p: Progress, rs: seq<Round>, l: RoundLog)
    requires LegalRounds(t, p, rs) && l in RunRounds(t, p, rs).1
    ensures l.head <= Reached(RunRounds(t, p, rs).0)
    decreases |rs|
  {
    if rs != [] && Reading(rs[0].head) < t.lease && rs[0].answer.Silence? {
      ReachedIsLater(t, Played(t, p, rs[0]), rs[1..]);
      if l != Entry(t, p, rs[0]) {
        RoundBeforeStop(t, Played(t, p, rs[0]), rs[1..], l);
      }
    }
  }

  lemma {:induction false} ReachedIsLater(t: Terms, p: Progress, rs: seq<Round>)
    requires LegalRounds(t, p, rs)
    ensures p.now <= Reached(RunRounds(t, p, rs).0)
    decreases |rs|
  {
    if rs != [] && Reading(rs[0].head) < t.lease && rs[0].answer.Silence? {
      ReachedIsLater(t, Played(t, p, rs[0]), rs[1..]);
    }
  }

  lemma ExactTurnKeepsStep(s: State, turn: Turn)
    requires InStep(s) && Legal(s, turn) && Exact(s, turn)
    ensures InStep(Next(s, turn))
  {
    ExactDecision(s, turn);
    match Choice(s, turn)
    case Expire => LosingFits(s, turn.head, turn.net, InTime);
    case Sleep(_) =>
    case Renew => ExactRenewalKeepsStep(s, turn);
  }

  lemma {:induction false} ExactRunKeepsStep(s: State, turns: seq<Turn>)
    requires InStep(s) && ExactRun(s, turns)
    ensures InStep(After(s, turns))
    decreases |turns|
  {
    if turns != [] {
      ExactTurnKeepsStep(s, turns[0]);
      ExactRunKeepsStep(Next(s, turns[0]), turns[1..]);
    }
  }

  lemma EnteredInStep(client: C.State, ack: DhcpAck, net: C.Netlink, at: Time)
    requires client.phase.Negotiating?
    ensures InStep(Entered(client, ack, net, at))
  {
  }

  lemma InStepInTime(s: State)
    requires InStep(s)
    ensures forall i | 0 < i < |s.log| ::
              LastBinding(s.log[..i]).Some? && InTime(LastBinding(s.log[..i]).value, s.log[i])
  {
    forall i | 0 < i < |s.log|
      ensures LastBinding(s.log[..i]).Some? && InTime(LastBinding(s.log[..i]).value, s.log[i])
    {
      EachAt(s.log, InTime, i);
    }
  }

  /**
   * In every run with exact timers, whatever answers come, each lease below 2^32 - 56 seconds
   * is renewed, withdrawn or abandoned less than a minute after its end.
   */
  lemma NoLeaseOutlivesItsEnd(client: C.State, ack: DhcpAck, net: C.Netlink, at: Time, turns: seq<Turn>)
    requires client.phase.Negotiating? && ExactRun(Entered(client, ack, net, at), turns)
    ensures var s := After(Entered(client, ack, net, at), turns);
      && NotOverdue(s)
      && forall i | 0 < i < |s.log| ::
           LastBinding(s.log[..i]).Some? && InTime(LastBinding(s.log[..i]).value, s.log[i])
  {
    EnteredInStep(client, ack, net, at);
    ExactRunKeepsStep(Entered(client, ack, net, at), turns);
    InStepInTime(After(Entered(client, ack, net, at), turns));
  }

  // ----- When nobody answers -----

  /** A turn with exact timers whose renewal gets `n` silent rounds. */
  function SilentTurn(s: State, n: nat, net: C.Netlink): Turn
    requires Holds(s)
  {
    var t := TermsOf(Current(s).ack);
    var rounds := IdealRounds(t, Progress(None, s.now), n);
    var decision := Decide(Reading(s.now), t.lease);
    Turn(s.now, s.now + (if decision.Sleep? then Secs(decision.secs) else 0), rounds,
         Reached(RunRounds(t, Progress(None, s.now), rounds).0), net)
  }

  /** The turns from binding on: at most a sleep, and what comes after it. */
  function SilentTurns(s: State, n: nat, net: C.Netlink): seq<Turn>
    requires Holds(s)
  {
    var first := SilentTurn(s, n, net);
    if Choice(s, first).Sleep? then [first, SilentTurn(Next(s, first), n, net)] else [first]
  }

  lemma SilentTurnIsLegal(s: State, n: nat, net: C.Netlink)
    requires Holds(s) && !s.renewing
    ensures Legal(s, SilentTurn(s, n, net)) && Exact(s, SilentTurn(s, n, net))
  {
    IdealRoundsAreLegal(TermsOf(Current(s).ack), Progress(None, s.now), n);
    IdealRoundsAreExact(TermsOf(Current(s).ack), Progress(None, s.now), n);
  }

  lemma {:induction false} IdealRoundsAreExact(t: Terms, p: Progress, n: nat)
    ensures ExactRounds(t, p, IdealRounds(t, p, n))
    decreases n
  {
    if n > 0 {
      var next := Played(t, p, IdealRound(t, p));
      IdealRoundsAreExact(t, next, n - 1);
      assert IdealRounds(t, p, n)[1..] == IdealRounds(t, next, n - 1);
    }
  }

  lemma SilentTurnsAreExact(s: State, n: nat, net: C.Netlink)
    requires Holds(s) && !s.renewing
    ensures ExactRun(s, SilentTurns(s, n, net)) && LegalRun(s, SilentTurns(s, n, net))
  {
    var first := SilentTurn(s, n, net);
    SilentTurnIsLegal(s, n, net);
    if Choice(s, first).Sleep? {
      SilentTurnIsLegal(Next(s, first), n, net);
      assert SilentTurns(s, n, net)[1..] == [SilentTurn(Next(s, first), n, net)];
    }
    ExactRunIsLegal(s, SilentTurns(s, n, net));
  }

  /** An unanswered client sleeps until T1 and renews from there, unless its lease is of no length. */
  lemma SilentTurnsRenewFromT1(s: State, n: nat, net: C.Netlink)
    requires JustBound(s) && Lease(s) > 0
    ensures var atT1 := s.(now := Secs(T1(Lease(s))));
      After(s, SilentTurns(s, n, net)) == AfterRenewal(atT1, SilentTurn(atT1, n, net))
  {
    var first := SilentTurn(s, n, net);
    var atT1 := s.(now := Secs(T1(Lease(s))));
    ReadingBounds(Secs(T1(Lease(s))), T1(Lease(s)));
    assert Choice(atT1, SilentTurn(atT1, n, net)).Renew?;
    if Choice(s, first).Sleep? {
      var second := SilentTurn(atT1, n, net);
      assert Next(s, first) == atT1 && [first, second][1..] == [second];
      OneTurn(atT1, second);
      assert After(s, [first, second]) == After(atT1, [second]);
    } else {
      OneTurn(s, first);
    }
  }

  lemma OneTurn(s: State, turn: Turn)
    requires Holds(s)
    ensures After(s, [turn]) == Next(s, turn)
  {
    assert [turn][1..] == [];
  }

  /** The phase is over, the lease no longer published: withdrawn, and less than a minute after its end. */
  ghost predicate WithdrawnInTime(s: State, b: Binding) {
    && !Holds(s) && s.client.lease == C.NO_LEASE
    && s.log != [] && s.log[|s.log| - 1].Withdraw?
    && b.at + Secs(b.ack.leaseSecs) <= s.log[|s.log| - 1].at < b.at + Secs(b.ack.leaseSecs + 60)
  }

  lemma ShortLeaseIsWithdrawn(s: State, n: nat, net: C.Netlink)
    requires JustBound(s) && BelowWrap(Lease(s)) && n > 51
    ensures WithdrawnInTime(After(s, SilentTurns(s, n, net)), Current(s))
  {
    if Lease(s) == 0 {
      OneTurn(s, SilentTurn(s, n, net));
    } else {
      SilentTurnsRenewFromT1(s, n, net);
      UnansweredRenewalExpires(TermsOf(Current(s).ack), n);
    }
  }

  lemma LongLeaseIsKept(s: State, n: nat, net: C.Netlink)
    requires JustBound(s) && !BelowWrap(Lease(s))
    ensures var s' := After(s, SilentTurns(s, n, net)); Holds(s') && s'.client == s.client
  {
    SilentTurnsRenewFromT1(s, n, net);
    WrappedRenewalNeverEnds(TermsOf(Current(s).ack), n);
  }

  /**
   * When nobody answers and timers are exact, the lease is withdrawn in time exactly if it is
   * below 2^32 - 56 seconds. A longer one, the infinite one included, is kept for ever.
   */
  lemma WithdrawnInTimeIffBelowWrap(s: State, net: C.Netlink)
    requires JustBound(s)
    ensures forall n: nat :: ExactRun(s, SilentTurns(s, n, net)) && LegalRun(s, SilentTurns(s, n, net))
    ensures (exists n: nat :: WithdrawnInTime(After(s, SilentTurns(s, n, net)), Current(s)))
       <==> BelowWrap(Lease(s))
    ensures (forall n: nat :: Holds(After(s, SilentTurns(s, n, net)))) <==> !BelowWrap(Lease(s))
  {
    forall n: nat
      ensures ExactRun(s, SilentTurns(s, n, net)) && LegalRun(s, SilentTurns(s, n, net))
    {
      SilentTurnsAreExact(s, n, net);
    }
    if BelowWrap(Lease(s)) {
      ShortLeaseIsWithdrawn(s, 52, net);
    } else {
      forall n: nat
        ensures Holds(After(s, SilentTurns(s, n, net)))
      {
        LongLeaseIsKept(s, n, net);
      }
    }
  }

  // ----- The bound phase within the client's main loop -----

  /** What a run of the bound phase is to the client: acknowledged renewals, then perhaps a loss. */
  function Events(s: State, turns: seq<Turn>): seq<C.Event>
    decreases |turns|
  {
    if turns == [] || !Holds(s) then []
    else
      var turn, rest := turns[0], Events(Next(s, turns[0]), turns[1..]);
      match Choice(s, turn)
      case Expire => [C.LeaseLost(turn.net)] + rest
      case Sleep(_) => rest
      case Renew =>
        match Renewal(s, turn).0
        case Running(_) => rest
        case Renewed(ack, _) => [C.RenewalAcked(ack, turn.net)] + rest
        case _ => [C.LeaseLost(turn.net)] + rest
  }

  lemma ClientTurnFirst(s: C.State, e: C.Event, rest: seq<C.Event>)
    requires C.Applicable(s, e) && C.LegalRun(C.Next(s, e), rest)
    ensures C.LegalRun(s, [e] + rest) && C.After(s, [e] + rest) == C.After(C.Next(s, e), rest)
  {
    assert ([e] + rest)[1..] == rest;
  }

  /** Every run of the bound phase is a legal run of the client's turns, and ends in the same state. */
  lemma {:induction false} BoundPhaseRefinesClient(s: State, turns: seq<Turn>)
    requires LegalRun(s, turns)
    ensures C.LegalRun(s.client, Events(s, turns))
    ensures C.After(s.client, Events(s, turns)) == After(s, turns).client
    decreases |turns|
  {
    if turns != [] {
      var rest := Events(Next(s, turns[0]), turns[1..]);
      BoundPhaseRefinesClient(Next(s, turns[0]), turns[1..]);
      if Events(s, turns) != rest {
        ClientTurnFirst(s.client, Events(s, turns)[0], rest);
      }
    }
  }

  /** One renewal, from the state `s` has, and the new configuration or the loss it ends in. */
  method RenewBinding(client: C.Client, ack: DhcpAck, boundAt: Time, turn: Turn, ghost s: State)
    returns (phase: C.Phase, newBoundAt: Time, events: seq<Event>)
    requires s.client == C.State(C.Bound(ack), client.lease, client.kernel) && s.boundAt == boundAt
    modifies client
    ensures var s' := AfterRenewal(s, turn);
      s'.client == C.State(phase, client.lease, client.kernel) && s'.boundAt == newBoundAt && s'.log == s.log + events
  {
    var outcome, rounds := RenewLease(TermsOf(ack), turn.head, turn.rounds);
    phase, newBoundAt, events := C.Bound(ack), boundAt, Requests(boundAt, rounds);
    match outcome {
      case Running(_) =>
      case Renewed(newAck, _) =>
        var ok := client.ApplyLeaseConfig(newAck, turn.net);
        if ok {
          phase, newBoundAt := C.Bound(newAck), boundAt + turn.rebound;
          events := events + [Bind(Binding(newAck, newBoundAt))];
        } else {
          phase, events := C.Negotiating, events + [Abandon(boundAt + turn.rebound)];
        }
      case _ =>
        client.Deconfigure(turn.net);
        phase, events := C.Negotiating, events + [Withdraw(boundAt + outcome.at)];
    }
  }

  /** One turn of the loop, from the state `s` has. */
  method PlayTurn(client: C.Client, ack: DhcpAck, boundAt: Time, turn: Turn, ghost s: State)
    returns (phase: C.Phase, newBoundAt: Time, events: seq<Event>)
    requires s.client == C.State(C.Bound(ack), client.lease, client.kernel) && s.boundAt == boundAt
    modifies client
    ensures var s' := Next(s, turn);
      s'.client == C.State(phase, client.lease, client.kernel) && s'.boundAt == newBoundAt && s'.log == s.log + events
  {
    phase, newBoundAt, events := C.Bound(ack), boundAt, [];
    var elapsed := Reading(turn.head);
    if elapsed >= ack.leaseSecs {
      client.Deconfigure(turn.net);
      phase, events := C.Negotiating, [Withdraw(boundAt + turn.head)];
    } else if elapsed >= T1(ack.leaseSecs) {
      phase, newBoundAt, events := RenewBinding(client, ack, boundAt, turn, s);
    }
  }

  /** The bound phase itself: configure, then a loop over the turns the environment plays. */
  method RunBoundPhase(client: C.Client, first: DhcpAck, net: C.Netlink, start: Time, turns: seq<Turn>)
    returns (phase: C.Phase, boundAt: Time, log: seq<Event>)
    requires LegalRun(Entered(C.State(C.Negotiating, client.lease, client.kernel), first, net, start), turns)
    modifies client
    ensures var unbound := C.State(C.Negotiating, old(client.lease), old(client.kernel));
      var s := After(Entered(unbound, first, net, start), turns);
      s.client == C.State(phase, client.lease, client.kernel) && s.boundAt == boundAt && s.log == log
  {
    ghost var s := Entered(C.State(C.Negotiating, client.lease, client.kernel), first, net, start);
    ghost var entered := s;
    phase, boundAt, log := C.Negotiating, start, [];
    var ok := client.ApplyLeaseConfig(first, net);
    if ok {
      phase, log := C.Bound(first), [Bind(Binding(first, boundAt))];
    }
    assert turns[0..] == turns;
    for i := 0 to |turns|
      invariant LegalRun(s, turns[i..]) && After(s, turns[i..]) == After(entered, turns)
      invariant s.client == C.State(phase, client.lease, client.kernel) && s.boundAt == boundAt && s.log == log
    {
      var events: seq<Event>;
      assert turns[i..][1..] == turns[i + 1..];
      phase, boundAt, events := PlayTurn(client, phase.ack, boundAt, turns[i], s);
      log := log + events;
      s := Next(s, turns[i]);
    }
    assert turns[|turns|..] == [];
  }
}
