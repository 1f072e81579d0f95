/**
 * The renewal nobody answers, with timers that fire exactly on time: when it gives up, how
 * often it listens, and the leases too long for either.
 */
module UnansweredRenewal {
  import opened Common
  import opened LeaseRenewal

  // ----- Where the rounds land -----

  /** The first whole second, in this succession of rounds, at which the lease is over. */
  function Landing(t: Terms, e: nat): nat
    decreases t.lease - e
  {
    if e >= t.lease then e else Landing(t, e + Interval(t, e))
  }

  lemma {:induction false} OverrunBelowAMinute(t: Terms, e: nat)
    requires e < t.lease + 60
    ensures t.lease <= Landing(t, e) < t.lease + 60
    decreases t.lease - e
  {
    if e < t.lease {
      OverrunBelowAMinute(t, e + Interval(t, e));
    }
  }

  /** How far past the end the last round of a phase with `r` seconds left goes. */
  function Overrun(r: int): nat
    decreases r
  {
    if r <= 0 then -r else Overrun(r - Max(r / 2, MIN_RETRY_SECS))
  }

  lemma {:induction false} OverrunOfHalvings(r: int, k: nat)
    requires 63 * Pow2(k) < r <= 64 * Pow2(k)
    ensures Overrun(r) == 56
    decreases k
  {
    if k > 0 {
      assert r > 126;
      OverrunOfHalvings(r - r / 2, k - 1);
    } else {
      assert Overrun(64) == Overrun(4) == Overrun(-56);
    }
  }

  lemma {:induction false} LandingWhileRebinding(t: Terms, e: nat)
    requires T2(t.lease) <= e
    ensures Landing(t, e) == t.lease + Overrun(t.lease - e)
    decreases t.lease - e
  {
    if e < t.lease {
      LandingWhileRebinding(t, e + Interval(t, e));
    }
  }

  /** Leases within a minute of 2^32 seconds all end 56 seconds late. */
  lemma {:induction false} LandingNearTheTop(t: Terms, e: nat)
    requires U32_SIZE - 60 < t.lease && e < T2(t.lease) + 60
    ensures Landing(t, e) == t.lease + 56
    decreases t.lease - e
  {
    if e < T2(t.lease) {
      LandingNearTheTop(t, e + Interval(t, e));
    } else {
      LandingWhileRebinding(t, e);
      PowersInUse();
      OverrunOfHalvings(t.lease - e, 23);
    }
  }

  // ----- The run -----

  /** A silent round with exact timers: it starts at once and lasts just its retry interval. */
  function IdealRound(t: Terms, p: Progress): Round {
    Round(p.now, p.now, p.now, Silence, p.now + Secs(Interval(t, Reading(p.now))))
  }

  function IdealRounds(t: Terms, p: Progress, n: nat): seq<Round>
    decreases n
  {
    if n == 0 then [] else [IdealRound(t, p)] + IdealRounds(t, Played(t, p, IdealRound(t, p)), n - 1)
  }

  function IdealRun(t: Terms, p: Progress, n: nat): (Outcome, seq<RoundLog>) {
    RunRounds(t, p, IdealRounds(t, p, n))
  }

  lemma {:induction false} IdealRoundsAreLegal(t: Terms, p: Progress, n: nat)
    ensures LegalRounds(t, p, IdealRounds(t, p, n))
    decreases n
  {
    if n > 0 {
      IdealRoundsAreLegal(t, Played(t, p, IdealRound(t, p)), n - 1);
      assert IdealRounds(t, p, n)[1..] == IdealRounds(t, Played(t, p, IdealRound(t, p)), n - 1);
    }
  }

  lemma Unwrapped(n: nat)
    requires n < U32_SIZE
    ensures n % U32_SIZE == n
  {
  }

  /** The same run in whole seconds: the second at which expiry is reported, and the rounds before it. */
  function SecondsRun(t: Terms, e: nat, n: nat): (Option<nat>, nat)
    decreases n
  {
    if n == 0 then (None, 0)
    else if e % U32_SIZE >= t.lease then (Some(e), 0)
    else
      var (at, rounds) := SecondsRun(t, e + Interval(t, e % U32_SIZE), n - 1);
      (at, rounds + 1)
  }

  lemma IdealRunUnfolds(t: Terms, p: Progress, next: Progress, n: nat)
    requires n > 0 && Reading(p.now) < t.lease && next == Played(t, p, IdealRound(t, p))
    ensures var (outcome, log) := IdealRun(t, next, n - 1);
      IdealRun(t, p, n) == (outcome, [Entry(t, p, IdealRound(t, p))] + log)
  {
    assert IdealRounds(t, p, n)[1..] == IdealRounds(t, next, n - 1);
  }

  /** An ideal round, in whole seconds. */
  lemma IdealSecond(t: Terms, p: Progress, e: nat)
    requires p.now == Secs(e)
    ensures Reading(p.now) == e % U32_SIZE
    ensures Played(t, p, IdealRound(t, p)).now == Secs(e + Interval(t, e % U32_SIZE))
  {
  }

  lemma {:induction false} IdealRunInSeconds(t: Terms, p: Progress, e: nat, n: nat, run: (Outcome, seq<RoundLog>))
    requires p.now == Secs(e) && run == IdealRun(t, p, n)
    ensures match SecondsRun(t, e, n).0
      case None => run.0.Running?
      case Some(at) => run.0 == Expired(Secs(at))
    ensures |run.1| == SecondsRun(t, e, n).1
    decreases n
  {
    IdealSecond(t, p, e);
    if n > 0 && e % U32_SIZE < t.lease {
      var next := Played(t, p, IdealRound(t, p));
      IdealRunUnfolds(t, p, next, n);
      IdealRunInSeconds(t, next, e + Interval(t, e % U32_SIZE), n - 1, IdealRun(t, next, n - 1));
    }
  }

  /** One round of each, from a second the reading shows unwrapped. */
  lemma RoundUnfolds(t: Terms, e: nat, next: nat)
    requires e < t.lease && next == e + Interval(t, e)
    ensures Landing(t, e) == Landing(t, next)
    ensures e + 60 <= next
  {
  }

  lemma {:induction false} LandingIsAhead(t: Terms, e: nat)
    ensures e <= Landing(t, e)
    decreases t.lease - e
  {
    if e < t.lease {
      LandingIsAhead(t, e + Interval(t, e));
    }
  }

  lemma RunUnfolds(t: Terms, e: nat, next: nat, n: nat)
    requires e % U32_SIZE < t.lease && next == e + Interval(t, e % U32_SIZE) && n > 0
    ensures SecondsRun(t, e, n) == (SecondsRun(t, next, n - 1).0, SecondsRun(t, next, n - 1).1 + 1)
  {
  }

  lemma RunReports(t: Terms, e: nat, n: nat)
    requires t.lease <= e < U32_SIZE
    ensures SecondsRun(t, e, n) == (if n == 0 then None else Some(e), 0)
  {
    Unwrapped(e);
  }

  /** While the landing does not wrap, the loop reports expiry there or is still listening. */
  lemma {:induction false} ReportsAtLanding(t: Terms, e: nat, n: nat, landing: nat)
    requires landing == Landing(t, e) < U32_SIZE
    ensures SecondsRun(t, e, n) == (None, n) || SecondsRun(t, e, n).0 == Some(landing)
    decreases n
  {
    LandingIsAhead(t, e);
    if t.lease <= e {
      RunReports(t, e, n);
    } else if n > 0 {
      var next := e + Interval(t, e);
      Unwrapped(e);
      RoundUnfolds(t, e, next);
      RunUnfolds(t, e, next, n);
      ReportsAtLanding(t, next, n - 1, landing);
    }
  }

  lemma LandsLater(t: Terms, r: nat)
    requires Landing(t, r) > r
    ensures r < t.lease
  {
  }

  /** A landing past 2^32 reads as the start of the lease, and the rounds begin again, for ever. */
  lemma {:induction false} WrappedRunNeverEnds(t: Terms, e: nat, n: nat)
    requires U32_SIZE - 56 <= t.lease && Landing(t, e % U32_SIZE) == t.lease + 56
    ensures SecondsRun(t, e, n) == (None, n)
    decreases n
  {
    var r := e % U32_SIZE;
    LandsLater(t, r);
    if n > 0 {
      var next := e + Interval(t, r);
      WrappedStep(t, e, r, next);
      RunUnfolds(t, e, next, n);
      WrappedRunNeverEnds(t, next, n - 1);
    }
  }

  lemma WrappedStep(t: Terms, e: nat, r: u32, next: nat)
    requires U32_SIZE - 56 <= t.lease && r == e % U32_SIZE < t.lease && Landing(t, r) == t.lease + 56
    requires next == e + Interval(t, r)
    ensures Landing(t, next % U32_SIZE) == t.lease + 56
  {
    var soonest := r + Interval(t, r);
    RoundUnfolds(t, r, soonest);
    WrappedSum(e, r, next - e);
    LandsAgain(t, soonest, next % U32_SIZE);
  }

  /** Wrapped or not, from the reading at `next` the rounds end where they do from `next`. */
  lemma LandsAgain(t: Terms, next: nat, r: nat)
    requires U32_SIZE - 56 <= t.lease && Landing(t, next) == t.lease + 56
    requires r == if next < U32_SIZE then next else next - U32_SIZE
    ensures Landing(t, r) == t.lease + 56
  {
    if U32_SIZE <= next {
      LandingNearTheTop(t, r);
    }
  }

  lemma WrappedSum(e: nat, r: u32, i: nat)
    requires r == e % U32_SIZE && r + i < 2 * U32_SIZE
    ensures (e + i) % U32_SIZE == if r + i < U32_SIZE then r + i else r + i - U32_SIZE
  {
    assert e == U32_SIZE * (e / U32_SIZE) + r;
  }

  /** The renewal as the bound phase starts it when its sleep ends exactly at T1. */
  function FromT1(t: Terms): Progress {
    Progress(None, Secs(T1(t.lease)))
  }

  lemma NoWrapUnfolds(t: Terms, p: Progress, next: Progress, rs: seq<Round>)
    requires rs != [] && rs[0] == IdealRound(t, p) && p.now < Secs(U32_SIZE)
    requires next == Played(t, p, IdealRound(t, p)) && NoWrap(t, next, rs[1..])
    ensures NoWrap(t, p, rs)
  {
  }

  lemma NoWrapAtEnd(t: Terms, p: Progress, rs: seq<Round>)
    requires rs == [] || (rs[0] == IdealRound(t, p) && t.lease <= Reading(p.now))
    ensures NoWrap(t, p, rs)
  {
  }

  lemma IdealSecondUnwrapped(t: Terms, p: Progress, e: u32)
    requires p.now == Secs(e)
    ensures p.now < Secs(U32_SIZE) && Reading(p.now) == e
    ensures Played(t, p, IdealRound(t, p)).now == Secs(e + Interval(t, e))
  {
    IdealSecond(t, p, e);
  }

  lemma {:induction false} IdealRunDoesNotWrap(t: Terms, p: Progress, e: nat, n: nat, rs: seq<Round>, landing: nat)
    requires p.now == Secs(e) && landing == Landing(t, e) < U32_SIZE && rs == IdealRounds(t, p, n)
    ensures NoWrap(t, p, rs)
    decreases n
  {
    if n == 0 {
      NoWrapAtEnd(t, p, rs);
    } else if t.lease <= e {
      IdealSecondUnwrapped(t, p, e);
      NoWrapAtEnd(t, p, rs);
    } else {
      var next, soonest := Played(t, p, IdealRound(t, p)), e + Interval(t, e);
      IdealSecondUnwrapped(t, p, e);
      RoundUnfolds(t, e, soonest);
      assert rs[1..] == IdealRounds(t, next, n - 1);
      IdealRunDoesNotWrap(t, next, soonest, n - 1, rs[1..], landing);
      NoWrapUnfolds(t, p, next, rs);
    }
  }

  /** Below the bound the landing is late by less than a minute, and does not wrap. */
  lemma LandsInTime(t: Terms)
    requires t.lease < U32_SIZE - 56
    ensures t.lease <= Landing(t, T1(t.lease)) < t.lease + 60 && Landing(t, T1(t.lease)) < U32_SIZE
  {
    OverrunBelowAMinute(t, T1(t.lease));
    if U32_SIZE - 60 < t.lease {
      LandingNearTheTop(t, T1(t.lease));
    }
  }

  /** Expiry is reported, after `n` rounds or fewer, less than a minute late. */
  ghost predicate ReportsExpiryInTime(t: Terms, n: nat) {
    var o := IdealRun(t, FromT1(t), n).0;
    o.Expired? && Secs(t.lease) <= o.at < Secs(t.lease + 60)
  }

  /**
   * Unanswered, with exact timers, a renewal reports expiry less than a minute after it,
   * within 51 rounds, for every lease below 2^32 - 56 seconds.
   */
  lemma UnansweredRenewalExpires(t: Terms, n: nat)
    requires t.lease < U32_SIZE - 56
    ensures |IdealRun(t, FromT1(t), n).1| <= 51
    ensures n > 51 ==> ReportsExpiryInTime(t, n)
  {
    var e := T1(t.lease);
    LandsInTime(t);
    IdealRoundsAreLegal(t, FromT1(t), n);
    IdealRunDoesNotWrap(t, FromT1(t), e, n, IdealRounds(t, FromT1(t), n), Landing(t, e));
    RoundsAtMost51(t, Secs(e), IdealRounds(t, FromT1(t), n));
    IdealRunInSeconds(t, FromT1(t), e, n, IdealRun(t, FromT1(t), n));
    ReportsAtLanding(t, e, n, Landing(t, e));
  }

  /** For longer leases, the infinite one included, the loop listens for ever. */
  lemma WrappedRenewalNeverEnds(t: Terms, n: nat)
    requires U32_SIZE - 56 <= t.lease
    ensures IdealRun(t, FromT1(t), n).0.Running? && |IdealRun(t, FromT1(t), n).1| == n
  {
    var e := T1(t.lease);
    Unwrapped(e);
    LandingNearTheTop(t, e);
    WrappedRunNeverEnds(t, e, n);
    IdealRunInSeconds(t, FromT1(t), e, n, IdealRun(t, FromT1(t), n));
  }

  /** The bound is exact, whether for expiry in time or for giving up at all. */
  lemma ExpiryInTimeIffBelowWrap(t: Terms)
    ensures (exists n :: ReportsExpiryInTime(t, n)) <==> t.lease < U32_SIZE - 56
    ensures (exists n: nat :: IdealRun(t, FromT1(t), n).0.Expired?) <==> t.lease < U32_SIZE - 56
  {
    if t.lease < U32_SIZE - 56 {
      UnansweredRenewalExpires(t, 52);
      assert ReportsExpiryInTime(t, 52);
    } else {
      forall n: nat
        ensures !IdealRun(t, FromT1(t), n).0.Expired?
      {
        WrappedRenewalNeverEnds(t, n);
      }
    }
  }

  /** And for listening at most 51 times, or at most any number of times. */
  lemma RoundsBoundedIffBelowWrap(t: Terms, bound: nat)
    requires 51 <= bound
    ensures (forall n: nat :: |IdealRun(t, FromT1(t), n).1| <= bound) <==> t.lease < U32_SIZE - 56
  {
    if t.lease < U32_SIZE - 56 {
      forall n: nat
        ensures |IdealRun(t, FromT1(t), n).1| <= bound
      {
        UnansweredRenewalExpires(t, n);
      }
    } else {
      WrappedRenewalNeverEnds(t, bound + 1);
    }
  }

  // ----- Silent rounds with exact timers -----

  /** Where an unanswered run stands, in whole seconds, and when it last asked. */
  datatype Beat = Beat(e: nat, last: Option<nat>)

  predicate Asks(t: Terms, b: Beat) {
    b.last.None? || Since(b.last.value, b.e) % U32_SIZE >= Interval(t, b.e % U32_SIZE)
  }

  function NextBeat(t: Terms, b: Beat): Beat {
    Beat(b.e + Interval(t, b.e % U32_SIZE), if Asks(t, b) then Some(b.e) else b.last)
  }

  function BeatAfter(t: Terms, b: Beat, k: nat): Beat
    decreases k
  {
    if k == 0 then b else BeatAfter(t, NextBeat(t, b), k - 1)
  }

  lemma {:induction false} BeatsAdd(t: Terms, b: Beat, i: nat, j: nat)
    ensures BeatAfter(t, b, i + j) == BeatAfter(t, BeatAfter(t, b, i), j)
    decreases i
  {
    if i > 0 {
      BeatsAdd(t, NextBeat(t, b), i - 1, j);
    }
  }

  /** The run listens in every round up to the `k`-th. */
  ghost predicate ListensThrough(t: Terms, b: Beat, k: nat)
    decreases k
  {
    b.e % U32_SIZE < t.lease && (k > 0 ==> ListensThrough(t, NextBeat(t, b), k - 1))
  }

  ghost predicate InStep(p: Progress, b: Beat) {
    && p.now == Secs(b.e)
    && match b.last
       case None => p.lastSent.None?
       case Some(l) => l <= b.e && p.lastSent == Some(Secs(l))
  }

  lemma BeatIsRound(t: Terms, p: Progress, b: Beat)
    requires InStep(p, b)
    ensures Reading(p.now) == b.e % U32_SIZE
    ensures ShouldSend(t, p, IdealRound(t, p)) == Asks(t, b)
    ensures InStep(Played(t, p, IdealRound(t, p)), NextBeat(t, b))
  {
  }

  lemma {:induction false} LogFollowsBeats(t: Terms, p: Progress, b: Beat, k: nat, n: nat, log: seq<RoundLog>)
    requires InStep(p, b) && ListensThrough(t, b, k) && k < n && log == IdealRun(t, p, n).1
    ensures k < |log| && log[k].requested == Asks(t, BeatAfter(t, b, k))
    decreases k
  {
    var next := Played(t, p, IdealRound(t, p));
    BeatIsRound(t, p, b);
    IdealRunUnfolds(t, p, next, n);
    if k > 0 {
      LogFollowsBeats(t, next, NextBeat(t, b), k - 1, n - 1, log[1..]);
    }
  }

  lemma {:induction false} ListensOn(t: Terms, b: Beat, i: nat, j: nat)
    requires ListensThrough(t, b, i) && ListensThrough(t, BeatAfter(t, b, i), j)
    ensures ListensThrough(t, b, i + j)
    decreases i
  {
    if i > 0 {
      ListensOn(t, NextBeat(t, b), i - 1, j);
    }
  }

  lemma FarFromT2(t: Terms, b: Beat)
    requires U32_SIZE - 60 < t.lease && T2(t.lease) <= b.e < T2(t.lease) + 60 && b.last == Some(b.e - 60)
    ensures b.e % U32_SIZE == b.e < t.lease && !Asks(t, b)
  {
  }

  /** Asking before T2: the next round asks again or, past T2, comes too soon to. */
  lemma RenewingBeat(t: Terms, b: Beat)
    requires U32_SIZE - 60 < t.lease && b.e < T2(t.lease) && Asks(t, b)
    ensures var next := NextBeat(t, b);
      && b.e % U32_SIZE == b.e < t.lease && b.e < next.e
      && (next.e < T2(t.lease) ==> Asks(t, next))
      && (T2(t.lease) <= next.e ==> next == Beat(b.e + 60, Some(b.e)))
  {
    var next := NextBeat(t, b);
    assert b.e % U32_SIZE == b.e;
    if next.e < T2(t.lease) {
      assert next.e % U32_SIZE == next.e;
      IntervalsShrink(t, b.e, next.e);
    }
  }

  /** The round that first reaches T2 comes a minute after a request, too soon for another. */
  lemma {:induction false} CrossingIsSilent(t: Terms, b: Beat) returns (k: nat, c: Beat)
    requires U32_SIZE - 60 < t.lease && b.e < T2(t.lease) && Asks(t, b)
    ensures ListensThrough(t, b, k) && BeatAfter(t, b, k) == c
    ensures T2(t.lease) <= c.e < T2(t.lease) + 60 && c.last == Some(c.e - 60) && !Asks(t, c)
    decreases T2(t.lease) - b.e
  {
    var next := NextBeat(t, b);
    RenewingBeat(t, b);
    if next.e < T2(t.lease) {
      k, c := CrossingIsSilent(t, next);
    } else {
      k, c := 0, next;
      FarFromT2(t, next);
    }
    OneMoreRound(t, b, k);
    k := k + 1;
  }

  lemma OneMoreRound(t: Terms, b: Beat, k: nat)
    requires b.e % U32_SIZE < t.lease && ListensThrough(t, NextBeat(t, b), k)
    ensures ListensThrough(t, b, k + 1) && BeatAfter(t, b, k + 1) == BeatAfter(t, NextBeat(t, b), k)
  {
  }

  /** Asking after T2: the next round asks again unless the lease is over, a minute later. */
  lemma RebindingBeat(t: Terms, b: Beat)
    requires T2(t.lease) <= b.e < t.lease && Asks(t, b)
    ensures var next := NextBeat(t, b);
      && b.e % U32_SIZE == b.e && b.e < next.e && next.e == b.e + Interval(t, b.e)
      && (next.e < t.lease ==> Asks(t, next))
      && (t.lease <= next.e ==> next == Beat(b.e + 60, Some(b.e)))
  {
    var next := b.e + Interval(t, b.e);
    Unwrapped(b.e);
    Unwrapped(Interval(t, b.e));
    if next < t.lease {
      Unwrapped(next);
      IntervalsShrink(t, b.e, next);
    }
  }

  lemma WrappedBeat(t: Terms, b: Beat)
    requires U32_SIZE - 56 <= t.lease && b.e == t.lease + 56 && b.last == Some(b.e - 60)
    ensures b.e % U32_SIZE < t.lease && !Asks(t, b)
  {
  }

  /** The round whose reading has wrapped comes too soon as well. */
  lemma {:induction false} WrappedRoundIsSilent(t: Terms, b: Beat) returns (k: nat)
    requires U32_SIZE - 56 <= t.lease && T2(t.lease) <= b.e < t.lease && Asks(t, b)
    requires Landing(t, b.e) == t.lease + 56
    ensures ListensThrough(t, b, k) && !Asks(t, BeatAfter(t, b, k))
    decreases t.lease - b.e
  {
    var next := NextBeat(t, b);
    RebindingBeat(t, b);
    RoundUnfolds(t, b.e, next.e);
    if next.e < t.lease {
      k := WrappedRoundIsSilent(t, next);
    } else {
      k := 0;
      WrappedBeat(t, next);
    }
    OneMoreRound(t, b, k);
    k := k + 1;
  }

  /** Past the crossing, the client asks again one round later. */
  lemma AsksAfterCrossing(t: Terms, c: Beat)
    requires U32_SIZE - 60 < t.lease && T2(t.lease) <= c.e < T2(t.lease) + 60
    requires c.last == Some(c.e - 60) && !Asks(t, c)
    ensures var d := NextBeat(t, c);
      T2(t.lease) <= d.e < t.lease && Asks(t, d) && Landing(t, d.e) == t.lease + 56 && c.e % U32_SIZE < t.lease
  {
    var d := NextBeat(t, c);
    FarFromT2(t, c);
    assert d.e < t.lease && d.e % U32_SIZE == d.e;
    IntervalsShrink(t, c.e, d.e);
    LandingNearTheTop(t, c.e);
    RoundUnfolds(t, c.e, d.e);
  }

  lemma TwoSilentRounds(log: seq<RoundLog>, i: nat, j: nat)
    requires i < j < |log| && !log[i].requested && !log[j].requested
    ensures !AtMostOneSilent(log)
  {
  }

  /** One silent round when T2 is crossed, another when the reading wraps. */
  lemma SilentBeatsNearTheTop(t: Terms, b: Beat) returns (i: nat, k: nat)
    requires U32_SIZE - 56 <= t.lease && b == Beat(T1(t.lease), None)
    ensures i < k && ListensThrough(t, b, i) && ListensThrough(t, b, k)
    ensures !Asks(t, BeatAfter(t, b, i)) && !Asks(t, BeatAfter(t, b, k))
  {
    var c: Beat;
    i, c := CrossingIsSilent(t, b);
    AsksAfterCrossing(t, c);
    var j := WrappedRoundIsSilent(t, NextBeat(t, c));
    OneMoreRound(t, c, j);
    k := i + (j + 1);
    ListensOn(t, b, i, j + 1);
    BeatsAdd(t, b, i, j + 1);
  }

  lemma TwoSilentRoundsNearTheTop(t: Terms) returns (n: nat)
    requires U32_SIZE - 56 <= t.lease
    ensures !AtMostOneSilent(IdealRun(t, FromT1(t), n).1)
  {
    var b := Beat(T1(t.lease), None);
    var i, k := SilentBeatsNearTheTop(t, b);
    n := k + 1;
    var log := IdealRun(t, FromT1(t), n).1;
    LogFollowsBeats(t, FromT1(t), b, i, n, log);
    LogFollowsBeats(t, FromT1(t), b, k, n, log);
    TwoSilentRounds(log, i, k);
  }

  /**
   * With exact timers and no answer, every renewal has at most one silent round exactly for
   * the leases below 2^32 - 56 seconds; longer ones get a second when the seconds wrap.
   */
  lemma OneSilentRoundIffBelowWrap(t: Terms)
    ensures (forall n: nat :: AtMostOneSilent(IdealRun(t, FromT1(t), n).1)) <==> t.lease < U32_SIZE - 56
  {
    var e := T1(t.lease);
    if t.lease < U32_SIZE - 56 {
      LandsInTime(t);
      forall n: nat
        ensures AtMostOneSilent(IdealRun(t, FromT1(t), n).1)
      {
        IdealRoundsAreLegal(t, FromT1(t), n);
        IdealRunDoesNotWrap(t, FromT1(t), e, n, IdealRounds(t, FromT1(t), n), Landing(t, e));
        AtMostOneSilentRound(t, Secs(e), IdealRounds(t, FromT1(t), n));
      }
    } else {
      var n := TwoSilentRoundsNearTheTop(t);
    }
  }
}
