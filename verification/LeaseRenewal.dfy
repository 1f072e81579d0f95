/**
 * The WAN client's renewal of a bound lease: the T1 and T2 timers, the halving retry
 * intervals, and the loop that asks, listens and gives up.
 *
 * Times count from the instant the lease was bound. The code reads them as whole
 * seconds cut to 32 bits, and so does the model.
 */
module LeaseRenewal {
  import opened Common

  const MIN_RETRY_SECS: nat := 60

  datatype DhcpAck = DhcpAck(
    ip: Ip,
    mask: u32,
    gateway: Option<Ip>,
    server: Option<Ip>,
    leaseSecs: u32,
    dns: seq<Ip>)

  // ----- Timers -----

  function T1(lease: u32): u32 {
    lease / 2
  }

  /** Seven eighths of the lease. */
  function T2(lease: u32): u32 {
    7 * lease / 8
  }

  /** The code multiplies by 0.875 and truncates; for 32-bit leases the product is exact. */
  lemma T2IsTruncatedProduct(lease: u32)
    ensures T2(lease) == (lease as real * 0.875).Floor
  {
  }

  /** Retry interval, destination, and whether the client is rebinding. */
  function RenewalParams(elapsed: u32, t2: u32, lease: u32, server: Option<Ip>): (nat, Ip, bool) {
    if elapsed >= t2 then
      var remaining := if lease >= elapsed then lease - elapsed else 0;
      (Max(remaining / 2, MIN_RETRY_SECS), BROADCAST_IP, true)
    else
      (Max((t2 - elapsed) / 2, MIN_RETRY_SECS), if server.Some? then server.value else BROADCAST_IP, false)
  }

  datatype Terms = Terms(lease: u32, server: Option<Ip>)

  function Params(t: Terms, elapsed: u32): (nat, Ip, bool) {
    RenewalParams(elapsed, T2(t.lease), t.lease, t.server)
  }

  function Interval(t: Terms, elapsed: u32): nat {
    Params(t, elapsed).0
  }

  /** A duration as the code reads it. */
  function Reading(d: Time): u32 {
    (d / NANOS_PER_SEC) % U32_SIZE
  }

  lemma ReadingBounds(d: Time, n: nat)
    ensures Secs(Reading(d)) <= d
    ensures Secs(n) <= d < Secs(U32_SIZE) ==> n <= Reading(d)
    ensures d < Secs(U32_SIZE) ==> d < Secs(Reading(d) + 1)
  {
  }

  /** Unwrapped, a reading is below a limit exactly when the time is. */
  lemma WindowReading(d: Time, limit: u32)
    requires d < Secs(U32_SIZE)
    ensures Reading(d) < limit <==> d < Secs(limit)
  {
    ReadingBounds(d, limit);
  }

  function Since(from: Time, to: Time): Time {
    if from <= to then to - from else 0
  }

  // ----- The renewal loop -----

  datatype Answer = Silence | GotAck(ack: DhcpAck) | GotNak | IoError

  /**
   * One turn of the loop, as the environment plays it: the clock at the head of the loop,
   * when the last request's age is checked, when a request has been sent, the answer, and
   * when listening ended.
   */
  datatype Round = Round(head: Time, check: Time, sent: Time, answer: Answer, end: Time)

  datatype Progress = Progress(lastSent: Option<Time>, now: Time)

  datatype RoundLog = RoundLog(head: Time, requested: bool, dest: Ip)

  datatype Outcome =
    | Running(progress: Progress)
    | Expired(at: Time)
    | Renewed(ack: DhcpAck, at: Time)
    | Refused(at: Time)
    | Failed(at: Time)

  /** Clock readings never decrease, and listening in vain lasts at least the retry interval. */
  predicate Legal(t: Terms, p: Progress, r: Round) {
    && p.now <= r.head <= r.check <= r.sent <= r.end
    && (r.answer.Silence? ==> r.sent + Secs(Interval(t, Reading(r.head))) <= r.end)
  }

  /** Any clock readings in order will do, any answer, and any silence that is long enough. */
  lemma RoundsAreLegal(t: Terms, p: Progress, r: Round)
    ensures Legal(t, p, r) <==>
            && p.now <= r.head && r.head <= r.check && r.check <= r.sent && r.sent <= r.end
            && (r.answer == Silence ==> Secs(Interval(t, Reading(r.head))) <= r.end - r.sent)
  {
  }

  predicate ShouldSend(t: Terms, p: Progress, r: Round) {
    p.lastSent.None? || Reading(Since(p.lastSent.value, r.check)) >= Interval(t, Reading(r.head))
  }

  function Played(t: Terms, p: Progress, r: Round): Progress {
    Progress(if ShouldSend(t, p, r) then Some(r.sent) else p.lastSent, r.end)
  }

  function Entry(t: Terms, p: Progress, r: Round): RoundLog {
    RoundLog(r.head, ShouldSend(t, p, r), Params(t, Reading(r.head)).1)
  }

  function Verdict(answer: Answer, at: Time): Outcome
    requires !answer.Silence?
  {
    match answer
    case GotAck(ack) => Renewed(ack, at)
    case GotNak => Refused(at)
    case IoError => Failed(at)
  }

  /** When the loop was left, or how far the run has come. */
  function Reached(o: Outcome): Time {
    if o.Running? then o.progress.now else o.at
  }

  /** What becomes of a renewal in these rounds, and the rounds it listened in. */
  function RunRounds(t: Terms, p: Progress, rs: seq<Round>): (Outcome, seq<RoundLog>)
    decreases |rs|
  {
    if rs == [] then (Running(p), [])
    else if Reading(rs[0].head) >= t.lease then (Expired(rs[0].head), [])
    else if !rs[0].answer.Silence? then (Verdict(rs[0].answer, rs[0].end), [Entry(t, p, rs[0])])
    else
      var (outcome, log) := RunRounds(t, Played(t, p, rs[0]), rs[1..]);
      (outcome, [Entry(t, p, rs[0])] + log)
  }

  ghost predicate LegalRounds(t: Terms, p: Progress, rs: seq<Round>)
    decreases |rs|
  {
    rs == [] || (Legal(t, p, rs[0]) && LegalRounds(t, Played(t, p, rs[0]), rs[1..]))
  }

  method RenewLease(t: Terms, start: Time, rounds: seq<Round>) returns (outcome: Outcome, log: seq<RoundLog>)
    ensures (outcome, log) == RunRounds(t, Progress(None, start), rounds)
  {
    var renewSent: Option<Time> := None;
    var now := start;
    log := [];
    ghost var all := RunRounds(t, Progress(None, start), rounds).1;
    assert rounds[0..] == rounds && [] + all == all;
    for i := 0 to |rounds|
      invariant var (o, rest) := RunRounds(t, Progress(renewSent, now), rounds[i..]);
        RunRounds(t, Progress(None, start), rounds) == (o, log + rest)
    {
      var r := rounds[i];
      ghost var p, before := Progress(renewSent, now), log;
      ghost var rest := RunRounds(t, Played(t, p, r), rounds[i + 1..]).1;
      assert rounds[i..][0] == r && rounds[i..][1..] == rounds[i + 1..];
      assert before + ([Entry(t, p, r)] + rest) == (before + [Entry(t, p, r)]) + rest;
      var currentElapsed := Reading(r.head);
      if currentElapsed >= t.lease {
        assert log + [] == log;
        return Expired(r.head), log;
      }
      var (interval, dest, _) := RenewalParams(currentElapsed, T2(t.lease), t.lease, t.server);
      var shouldSend := match renewSent
                        case None => true
                        case Some(sent) => Reading(Since(sent, r.check)) >= interval;
      if shouldSend {
        renewSent := Some(r.sent);
      }
      log := log + [RoundLog(r.head, shouldSend, dest)];
      now := r.end;
      match r.answer {
        case GotAck(ack) => return Renewed(ack, r.end), log;
        case GotNak => return Refused(r.end), log;
        case IoError => return Failed(r.end), log;
        case Silence =>
      }
    }
    assert rounds[|rounds|..] == [] && log + [] == log;
    outcome := Running(Progress(renewSent, now));
  }

  // ----- How a renewal ends -----

  /** The first `k` rounds find the lease running and hear nothing. */
  ghost predicate SilentUpTo(t: Terms, rs: seq<Round>, k: nat) {
    k <= |rs| && forall i | 0 <= i < k :: Reading(rs[i].head) < t.lease && rs[i].answer == Silence
  }

  /** Round `k` is the first to be answered, and the lease still ran at its head. */
  ghost predicate AnsweredAt(t: Terms, rs: seq<Round>, k: nat) {
    SilentUpTo(t, rs, k) && k < |rs| && Reading(rs[k].head) < t.lease && rs[k].answer != Silence
  }

  /** Round `k` finds the lease over before anything was heard. */
  ghost predicate LapsedAt(t: Terms, rs: seq<Round>, k: nat) {
    SilentUpTo(t, rs, k) && k < |rs| && t.lease <= Reading(rs[k].head)
  }

  lemma {:induction false} HowRoundsEnd(t: Terms, rs: seq<Round>) returns (k: nat)
    ensures k <= |rs| && SilentUpTo(t, rs, k)
    ensures k == |rs| || AnsweredAt(t, rs, k) || LapsedAt(t, rs, k)
  {
    k := 0;
    if rs != [] && Reading(rs[0].head) < t.lease && rs[0].answer == Silence {
      var rest := HowRoundsEnd(t, rs[1..]);
      k := rest + 1;
      assert forall i | 0 < i < k :: rs[i] == rs[1..][i - 1];
    }
  }

  /** An ACK renews, a NAK refuses and an error fails, each when listening ended in its round. */
  lemma {:induction false} AnswerEndsRun(t: Terms, p: Progress, rs: seq<Round>, k: nat)
    requires AnsweredAt(t, rs, k)
    ensures RunRounds(t, p, rs).0 == match rs[k].answer
                                      case GotAck(ack) => Renewed(ack, rs[k].end)
                                      case GotNak => Refused(rs[k].end)
                                      case _ => Failed(rs[k].end)
    ensures |RunRounds(t, p, rs).1| == k + 1
    decreases k
  {
    if k > 0 {
      assert AnsweredAt(t, rs[1..], k - 1);
      AnswerEndsRun(t, Played(t, p, rs[0]), rs[1..], k - 1);
    }
  }

  lemma {:induction false} LapseEndsRun(t: Terms, p: Progress, rs: seq<Round>, k: nat)
    requires LapsedAt(t, rs, k)
    ensures RunRounds(t, p, rs).0 == Expired(rs[k].head) && |RunRounds(t, p, rs).1| == k
    decreases k
  {
    if k > 0 {
      assert LapsedAt(t, rs[1..], k - 1);
      LapseEndsRun(t, Played(t, p, rs[0]), rs[1..], k - 1);
    }
  }

  lemma {:induction false} SilenceGoesOn(t: Terms, p: Progress, rs: seq<Round>)
    requires SilentUpTo(t, rs, |rs|)
    ensures RunRounds(t, p, rs).0.Running? && |RunRounds(t, p, rs).1| == |rs|
    ensures Reached(RunRounds(t, p, rs).0) == if rs == [] then p.now else rs[|rs| - 1].end
    decreases |rs|
  {
    if rs != [] {
      assert SilentUpTo(t, rs[1..], |rs[1..]|);
      SilenceGoesOn(t, Played(t, p, rs[0]), rs[1..]);
    }
  }

  /** The renewal's first answer, heard when listening ended at `at`. */
  ghost predicate Hears(t: Terms, rs: seq<Round>, answer: Answer, at: Time, k: nat) {
    AnsweredAt(t, rs, k) && rs[k].answer == answer && rs[k].end == at
  }

  ghost predicate Lapses(t: Terms, rs: seq<Round>, at: Time, k: nat) {
    LapsedAt(t, rs, k) && rs[k].head == at
  }

  lemma OneEnd(t: Terms, rs: seq<Round>, j: nat, k: nat)
    requires AnsweredAt(t, rs, j) || LapsedAt(t, rs, j)
    requires AnsweredAt(t, rs, k) || LapsedAt(t, rs, k)
    ensures j == k
  {
  }

  /** A renewal ends just as its first answer, or the end of the lease if that comes sooner, says. */
  lemma RenewalOutcome(t: Terms, p: Progress, rs: seq<Round>)
    ensures var o := RunRounds(t, p, rs).0;
      && (forall ack, at :: o == Renewed(ack, at) <==> exists k: nat :: Hears(t, rs, GotAck(ack), at, k))
      && (forall at :: o == Refused(at) <==> exists k: nat :: Hears(t, rs, GotNak, at, k))
      && (forall at :: o == Failed(at) <==> exists k: nat :: Hears(t, rs, IoError, at, k))
      && (forall at :: o == Expired(at) <==> exists k: nat :: Lapses(t, rs, at, k))
      && (o.Running? <==> SilentUpTo(t, rs, |rs|))
  {
    var k := HowRoundsEnd(t, rs);
    forall j: nat | AnsweredAt(t, rs, j) || LapsedAt(t, rs, j)
      ensures k < |rs| && j == k
    {
      if k < |rs| {
        OneEnd(t, rs, j, k);
      }
    }
    if AnsweredAt(t, rs, k) {
      AnswerEndsRun(t, p, rs, k);
      assert Hears(t, rs, rs[k].answer, rs[k].end, k);
    } else if LapsedAt(t, rs, k) {
      LapseEndsRun(t, p, rs, k);
      assert Lapses(t, rs, rs[k].head, k);
    } else {
      SilenceGoesOn(t, p, rs);
    }
  }

  /** The log has the head of every round listened in, and a client that has not asked yet asks first. */
  lemma {:induction false} LogIsOfRounds(t: Terms, p: Progress, rs: seq<Round>)
    ensures var log := RunRounds(t, p, rs).1;
      && |log| <= |rs| && (forall i | 0 <= i < |log| :: log[i].head == rs[i].head)
      && (|log| > 0 && p.lastSent.None? ==> log[0].requested)
    decreases |rs|
  {
    if rs != [] && Reading(rs[0].head) < t.lease && rs[0].answer.Silence? {
      LogIsOfRounds(t, Played(t, p, rs[0]), rs[1..]);
    }
  }

  // ----- When requests are sent, and to whom -----

  /**
   * The loop never listens before T1 once it starts from there. It listens before expiry
   * exactly while its 32-bit seconds have not wrapped, and till then asks the server, when
   * that is known, exactly before T2.
   */
  ghost predicate InWindow(t: Terms, l: RoundLog) {
    && Secs(T1(t.lease)) <= l.head
    && (l.head < Secs(t.lease) <==> l.head < Secs(U32_SIZE))
    && (l.head < Secs(U32_SIZE) ==>
          l.dest == if t.server.Some? && l.head < Secs(T2(t.lease)) then t.server.value else BROADCAST_IP)
  }

  lemma EntryInWindow(t: Terms, p: Progress, r: Round)
    requires Secs(T1(t.lease)) <= r.head && Reading(r.head) < t.lease
    ensures InWindow(t, Entry(t, p, r))
  {
    if r.head < Secs(U32_SIZE) {
      WindowReading(r.head, t.lease);
      WindowReading(r.head, T2(t.lease));
    }
  }

  lemma {:induction false} RoundsFallInWindow(t: Terms, p: Progress, rs: seq<Round>)
    requires LegalRounds(t, p, rs) && Secs(T1(t.lease)) <= p.now
    ensures forall l | l in RunRounds(t, p, rs).1 :: InWindow(t, l)
    decreases |rs|
  {
    if rs != [] && Reading(rs[0].head) < t.lease {
      EntryInWindow(t, p, rs[0]);
      if rs[0].answer.Silence? {
        RoundsFallInWindow(t, Played(t, p, rs[0]), rs[1..]);
      }
    }
  }

  // ----- At most one silent round -----

  lemma IntervalsShrink(t: Terms, a: u32, b: u32)
    requires a <= b && (b < T2(t.lease) || T2(t.lease) <= a)
    ensures Interval(t, b) <= Interval(t, a)
  {
  }

  /** The rounds played before the loop stops are all early enough for the seconds not to wrap. */
  ghost predicate NoWrap(t: Terms, p: Progress, rs: seq<Round>)
    decreases |rs|
  {
    rs != [] && Reading(rs[0].head) < t.lease ==>
         && rs[0].check < Secs(U32_SIZE)
         && (rs[0].answer.Silence? ==> NoWrap(t, Played(t, p, rs[0]), rs[1..]))
  }

  /** A request was sent at least one retry interval ago, that interval having been set at `last`. */
  ghost predicate Primed(t: Terms, p: Progress, last: u32) {
    && p.lastSent.Some? && p.lastSent.value + Secs(Interval(t, last)) <= p.now
    && Secs(last) <= p.now
  }

  /** Within a phase a primed client sends at once, and is primed again if nothing answers. */
  lemma PrimedClientSends(t: Terms, p: Progress, r: Round, last: u32)
    requires Legal(t, p, r) && r.check < Secs(U32_SIZE) && Primed(t, p, last)
    ensures last <= Reading(r.head)
    ensures Reading(r.head) < T2(t.lease) || T2(t.lease) <= last ==> ShouldSend(t, p, r)
    ensures r.answer.Silence? ==> Primed(t, Played(t, p, r), Reading(r.head))
  {
    var e, age := Reading(r.head), Since(p.lastSent.value, r.check);
    ReadingBounds(r.head, last);
    if e < T2(t.lease) || T2(t.lease) <= last {
      IntervalsShrink(t, last, e);
      ReadingBounds(age, Interval(t, last));
    }
  }

  lemma {:induction false} RebindingNeverSkips(t: Terms, p: Progress, rs: seq<Round>, last: u32)
    requires LegalRounds(t, p, rs) && NoWrap(t, p, rs) && Primed(t, p, last) && T2(t.lease) <= last
    ensures forall l | l in RunRounds(t, p, rs).1 :: l.requested
    decreases |rs|
  {
    if rs != [] && Reading(rs[0].head) < t.lease {
      PrimedClientSends(t, p, rs[0], last);
      if rs[0].answer.Silence? {
        RebindingNeverSkips(t, Played(t, p, rs[0]), rs[1..], Reading(rs[0].head));
      }
    }
  }

  /** After a round without a request, every later round has one. */
  ghost predicate SkipsOnce(log: seq<RoundLog>) {
    forall i, j | 0 <= i < j < |log| && !log[i].requested :: log[j].requested
  }

  lemma SkipsOnceWith(first: RoundLog, rest: seq<RoundLog>)
    requires SkipsOnce(rest)
    requires first.requested || forall l | l in rest :: l.requested
    ensures SkipsOnce([first] + rest)
  {
  }

  lemma {:induction false} RenewingSkipsOnce(t: Terms, p: Progress, rs: seq<Round>, last: u32)
    requires LegalRounds(t, p, rs) && NoWrap(t, p, rs)
    requires p.lastSent.None? || Primed(t, p, last)
    ensures SkipsOnce(RunRounds(t, p, rs).1)
    decreases |rs|
  {
    if rs != [] && Reading(rs[0].head) < t.lease && rs[0].answer.Silence? {
      var e, p' := Reading(rs[0].head), Played(t, p, rs[0]);
      if p.lastSent.Some? {
        PrimedClientSends(t, p, rs[0], last);
      } else {
        ReadingBounds(rs[0].head, 0);
      }
      RenewingSkipsOnce(t, p', rs[1..], e);
      if !ShouldSend(t, p, rs[0]) {
        RebindingNeverSkips(t, p', rs[1..], e);
      }
      SkipsOnceWith(Entry(t, p, rs[0]), RunRounds(t, p', rs[1..]).1);
    }
  }

  ghost predicate AtMostOneSilent(log: seq<RoundLog>) {
    forall i, j | 0 <= i < |log| && 0 <= j < |log| && !log[i].requested && !log[j].requested :: i == j
  }

  /** However late its timers fire, a renewal listens at most once without having just asked. */
  lemma AtMostOneSilentRound(t: Terms, start: Time, rs: seq<Round>)
    requires LegalRounds(t, Progress(None, start), rs) && NoWrap(t, Progress(None, start), rs)
    ensures AtMostOneSilent(RunRounds(t, Progress(None, start), rs).1)
  {
    RenewingSkipsOnce(t, Progress(None, start), rs, 0);
  }

  // ----- How many rounds -----

  /** The rounds in which `r` seconds run out, each taking half of what is left or a minute. */
  function PhaseRounds(r: int): nat
    decreases r
  {
    if r <= 0 then 0 else 1 + PhaseRounds(r - Max(r / 2, MIN_RETRY_SECS))
  }

  lemma {:induction false} PhaseRoundsAreLogarithmic(r: int, k: nat)
    requires r <= 60 * Pow2(k)
    ensures PhaseRounds(r) <= k + 1
    decreases k
  {
    if r > 0 {
      if k > 0 {
        PhaseRoundsAreLogarithmic(r - Max(r / 2, MIN_RETRY_SECS), k - 1);
      } else {
        assert r - Max(r / 2, MIN_RETRY_SECS) <= 0;
      }
    }
  }

  lemma {:induction false} FewerSecondsFewerRounds(a: int, b: int)
    requires a <= b
    ensures PhaseRounds(a) <= PhaseRounds(b)
    decreases b
  {
    if a > 0 {
      FewerSecondsFewerRounds(a - Max(a / 2, MIN_RETRY_SECS), b - Max(b / 2, MIN_RETRY_SECS));
    }
  }

  /** The most rounds a renewal can still make from second `e` on, phase by phase. */
  function RoundsLeft(t: Terms, e: nat): nat {
    if e < T2(t.lease)
    then PhaseRounds(T2(t.lease) - e) + PhaseRounds(t.lease - T2(t.lease))
    else PhaseRounds(t.lease - e)
  }

  lemma {:induction false} LaterFewerRounds(t: Terms, a: nat, b: nat)
    requires a <= b
    ensures RoundsLeft(t, b) <= RoundsLeft(t, a)
  {
    var t2 := T2(t.lease);
    if b < t2 {
      FewerSecondsFewerRounds(t2 - b, t2 - a);
    } else if a < t2 {
      FewerSecondsFewerRounds(t.lease - b, t.lease - t2);
    } else {
      FewerSecondsFewerRounds(t.lease - b, t.lease - a);
    }
  }

  /** Listening for a retry interval uses up a round. */
  lemma ListeningTakesRound(t: Terms, e: u32)
    requires e < t.lease
    ensures RoundsLeft(t, e + Interval(t, e)) + 1 <= RoundsLeft(t, e)
  {
    var t2, next := T2(t.lease), e + Interval(t, e);
    if e < t2 && t2 <= next {
      FewerSecondsFewerRounds(t.lease - next, t.lease - t2);
    }
  }

  lemma RoundTakesItsTime(t: Terms, p: Progress, r: Round, e: nat)
    requires Legal(t, p, r) && r.check < Secs(U32_SIZE) && Secs(e) <= p.now
    ensures e <= Reading(r.head)
    ensures r.answer.Silence? ==> Secs(Reading(r.head) + Interval(t, Reading(r.head))) <= r.end
  {
    ReadingBounds(r.head, e);
  }

  lemma {:induction false} RoundsWithin(t: Terms, p: Progress, rs: seq<Round>, e: nat)
    requires LegalRounds(t, p, rs) && NoWrap(t, p, rs) && Secs(e) <= p.now
    ensures |RunRounds(t, p, rs).1| <= RoundsLeft(t, e)
    decreases |rs|
  {
    if rs != [] && Reading(rs[0].head) < t.lease {
      var read := Reading(rs[0].head);
      RoundTakesItsTime(t, p, rs[0], e);
      LaterFewerRounds(t, e, read);
      ListeningTakesRound(t, read);
      if rs[0].answer.Silence? {
        RoundsWithin(t, Played(t, p, rs[0]), rs[1..], read + Interval(t, read));
      }
    }
  }

  lemma PhasesAreLogarithmic(t: Terms, k: nat)
    requires t.lease <= 60 * Pow2(k)
    ensures RoundsLeft(t, T1(t.lease)) <= 2 * k + 2
  {
    PhaseRoundsAreLogarithmic(T2(t.lease) - T1(t.lease), k);
    PhaseRoundsAreLogarithmic(t.lease - T2(t.lease), k);
  }

  lemma PowersInUse()
    ensures Pow2(23) == 0x80_0000 && Pow2(24) == 0x100_0000 && Pow2(25) == 0x200_0000
  {
    assert Pow2(7) == 128 && Pow2(8) == 256;
    Pow2Sum(8, 8);
    Pow2Sum(16, 7);
  }

  lemma PhasesAtMost51(t: Terms)
    ensures RoundsLeft(t, T1(t.lease)) <= 51
  {
    PowersInUse();
    PhaseRoundsAreLogarithmic(T2(t.lease) - T1(t.lease), 25);
    PhaseRoundsAreLogarithmic(t.lease - T2(t.lease), 24);
  }

  /**
   * However late its timers fire and whatever answers come, a renewal listens in a number of
   * rounds logarithmic in the lease, before the seconds wrap.
   */
  lemma {:induction false} RoundsAreLogarithmic(t: Terms, start: Time, rs: seq<Round>, k: nat)
    requires LegalRounds(t, Progress(None, start), rs) && NoWrap(t, Progress(None, start), rs)
    requires Secs(T1(t.lease)) <= start && t.lease <= 60 * Pow2(k)
    ensures |RunRounds(t, Progress(None, start), rs).1| <= 2 * k + 2
  {
    RoundsWithin(t, Progress(None, start), rs, T1(t.lease));
    PhasesAreLogarithmic(t, k);
  }

  /** For no 32-bit lease does it listen more than 51 times. */
  lemma {:induction false} RoundsAtMost51(t: Terms, start: Time, rs: seq<Round>)
    requires LegalRounds(t, Progress(None, start), rs) && NoWrap(t, Progress(None, start), rs)
    requires Secs(T1(t.lease)) <= start
    ensures |RunRounds(t, Progress(None, start), rs).1| <= 51
  {
    RoundsWithin(t, Progress(None, start), rs, T1(t.lease));
    PhasesAtMost51(t);
  }

  // ----- Timers that are late by a bounded time do not wrap -----

  /** In no round is more than `late` lost before the last request's age is checked, or besides listening. */
  ghost predicate LateByAtMost(t: Terms, p: Progress, rs: seq<Round>, late: Time)
    decreases |rs|
  {
    rs != [] && Reading(rs[0].head) < t.lease ==>
      var r := rs[0];
      && r.check <= p.now + late
      && (r.answer.Silence? ==>
            && r.end <= r.head + Secs(Interval(t, Reading(r.head))) + late
            && LateByAtMost(t, Played(t, p, r), rs[1..], late))
  }

  lemma LateRound(t: Terms, p: Progress, r: Round, late: Time)
    requires Legal(t, p, r) && r.check < Secs(U32_SIZE) && Reading(r.head) < t.lease
    requires r.end <= r.head + Secs(Interval(t, Reading(r.head))) + late
    ensures r.end < Secs(t.lease + 60) + late
  {
    ReadingBounds(r.head, 0);
  }

  lemma {:induction false} LateRunDoesNotWrap(t: Terms, p: Progress, rs: seq<Round>, late: Time)
    requires LegalRounds(t, p, rs) && LateByAtMost(t, p, rs, late)
    requires p.now < Secs(t.lease + 60) + late && Secs(t.lease + 60) + 2 * late <= Secs(U32_SIZE)
    ensures NoWrap(t, p, rs)
    decreases |rs|
  {
    if rs != [] && Reading(rs[0].head) < t.lease && rs[0].answer.Silence? {
      LateRound(t, p, rs[0], late);
      LateRunDoesNotWrap(t, Played(t, p, rs[0]), rs[1..], late);
    }
  }

  /**
   * A bound on the lateness of timers takes the place of not wrapping: whatever answers come,
   * when lease, a minute and twice the lateness fit in 2^32 seconds, a renewal listens at most
   * once without having just asked, and no more often than 51 times.
   */
  lemma {:induction false} LateRenewalIsBounded(t: Terms, start: Time, rs: seq<Round>, late: Time)
    requires LegalRounds(t, Progress(None, start), rs) && LateByAtMost(t, Progress(None, start), rs, late)
    requires Secs(T1(t.lease)) <= start <= Secs(T1(t.lease)) + late
    requires Secs(t.lease + 60) + 2 * late <= Secs(U32_SIZE)
    ensures AtMostOneSilent(RunRounds(t, Progress(None, start), rs).1)
    ensures |RunRounds(t, Progress(None, start), rs).1| <= 51
    ensures forall k: nat | t.lease <= 60 * Pow2(k) :: |RunRounds(t, Progress(None, start), rs).1| <= 2 * k + 2
  {
    LateRunDoesNotWrap(t, Progress(None, start), rs, late);
    AtMostOneSilentRound(t, start, rs);
    RoundsAtMost51(t, start, rs);
    forall k: nat | t.lease <= 60 * Pow2(k)
      ensures |RunRounds(t, Progress(None, start), rs).1| <= 2 * k + 2
    {
      RoundsAreLogarithmic(t, start, rs, k);
    }
  }
}
