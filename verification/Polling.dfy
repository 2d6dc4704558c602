/**
 * How often a running recheck is polled, and when it is given up (src/repair/policy.rs,
 * src/repair/application/verify.rs).
 */
module Polling {
  import opened Prelude
  import opened Lifecycle
  import opened JobModel
  import opened MatchModel
  import opened Policy
  import opened Steps

  method DelayFor(elapsed: nat, policy: SafetyPolicy) returns (delay: nat)
    ensures delay == RecheckPollDelay(elapsed, policy)
  {
    var base, cap := policy.recheckPollInterval, policy.recheckPollMaxInterval;
    if base == 0 {
      return cap;
    }
    delay := base;
    ghost var k := 0;
    DoubledOnce(base, 0);
    while delay <= elapsed && delay < cap
      invariant delay > 0 && delay == Doubled(base, k)
      invariant Doublings(base, cap, elapsed) == k + Doublings(delay, cap, elapsed)
      decreases cap - delay
    {
      delay := 2 * delay;
      k := k + 1;
    }
    delay := if delay < cap then delay else cap;
  }

  lemma {:induction false} DoubledOnce(base: nat, k: nat)
    ensures Doubled(2 * base, k) == Doubled(base, k + 1)
  {
    if k > 0 { DoubledOnce(base, k - 1); }
  }

  lemma {:induction false} DoubledGrows(base: nat, j: nat, k: nat)
    requires j <= k
    ensures Doubled(base, j) <= Doubled(base, k)
    decreases k
  {
    if j < k { DoubledGrows(base, j, k - 1); }
  }

  /** The doublings stop at the first delay that passes `elapsed` or reaches the cap. */
  lemma {:induction false} DoublingsLeast(base: nat, cap: nat, elapsed: nat)
    requires base > 0
    ensures var k := Doublings(base, cap, elapsed);
            && (Doubled(base, k) > elapsed || Doubled(base, k) >= cap)
            && forall j :: 0 <= j < k ==> Doubled(base, j) <= elapsed && Doubled(base, j) < cap
    decreases Doublings(base, cap, elapsed)
  {
    var k := Doublings(base, cap, elapsed);
    if base <= elapsed && base < cap {
      DoublingsLeast(2 * base, cap, elapsed);
      DoubledOnce(base, k - 1);
      forall j | 0 <= j < k ensures Doubled(base, j) <= elapsed && Doubled(base, j) < cap {
        if j > 0 { DoubledOnce(base, j - 1); }
      }
    }
  }

  /** The delay lies between base and cap, and never shortens as the check runs on. */
  lemma DelayBounds(elapsed: nat, later: nat, policy: SafetyPolicy)
    requires 0 < policy.recheckPollInterval <= policy.recheckPollMaxInterval && elapsed <= later
    ensures policy.recheckPollInterval <= RecheckPollDelay(elapsed, policy) <= policy.recheckPollMaxInterval
    ensures RecheckPollDelay(elapsed, policy) <= RecheckPollDelay(later, policy)
  {
    var base, cap := policy.recheckPollInterval, policy.recheckPollMaxInterval;
    var k, m := Doublings(base, cap, elapsed), Doublings(base, cap, later);
    DoubledGrows(base, 0, k);
    DoublingsLeast(base, cap, elapsed);
    DoublingsLeast(base, cap, later);
    if k <= m { DoubledGrows(base, k, m); }
  }

  /** A check that has run `(2^k - 1) * base` waits `2^k * base` more, up to the cap. */
  lemma DelayAfter(k: nat, elapsed: nat, policy: SafetyPolicy)
    requires policy.recheckPollInterval > 0
    requires elapsed + policy.recheckPollInterval >= Doubled(policy.recheckPollInterval, k)
    ensures RecheckPollDelay(elapsed, policy)
            >= Min(Doubled(policy.recheckPollInterval, k), policy.recheckPollMaxInterval)
  {
    var base, cap := policy.recheckPollInterval, policy.recheckPollMaxInterval;
    var m := Doublings(base, cap, elapsed);
    DoublingsLeast(base, cap, elapsed);
    if m < k {
      DoubledGrows(base, m + 1, k);
      DoubledGrows(base, 0, m);
    } else {
      DoubledGrows(base, k, m);
    }
  }

  /**
   * The elapsed times at which one check was polled and found still running: each poll comes after
   * the delay the one before it asked for, or later.
   */
  ghost predicate PollRun(polls: seq<nat>, policy: SafetyPolicy) {
    forall i :: 0 <= i < |polls| - 1 ==> polls[i + 1] >= polls[i] + RecheckPollDelay(polls[i], policy)
  }

  /** The `k`-th poll comes no earlier than `(2^k - 1) * base`, while doublings last. */
  lemma {:induction false} PollsBackOff(polls: seq<nat>, policy: SafetyPolicy, k: nat)
    requires PollRun(polls, policy) && k < |polls|
    requires 0 < policy.recheckPollInterval
    requires k > 0 ==> Doubled(policy.recheckPollInterval, k - 1) <= policy.recheckPollMaxInterval
    ensures polls[k] + policy.recheckPollInterval >= Doubled(policy.recheckPollInterval, k)
  {
    if k > 0 {
      if k > 1 { DoubledGrows(policy.recheckPollInterval, k - 2, k - 1); }
      PollsBackOff(polls, policy, k - 1);
      DelayAfter(k - 1, polls[k - 1], policy);
    }
  }

  /** How many doublings take the base to the cap: the logarithm of their ratio, rounded up. */
  function Ramp(policy: SafetyPolicy): nat
    requires policy.recheckPollInterval > 0
  {
    Doublings(policy.recheckPollInterval, policy.recheckPollMaxInterval, policy.recheckPollMaxInterval)
  }

  lemma RampIsLeast(policy: SafetyPolicy, k: nat)
    requires policy.recheckPollInterval > 0
    ensures Doubled(policy.recheckPollInterval, k) >= policy.recheckPollMaxInterval <==> k >= Ramp(policy)
  {
    var base, cap := policy.recheckPollInterval, policy.recheckPollMaxInterval;
    DoublingsLeast(base, cap, cap);
    if k >= Ramp(policy) { DoubledGrows(base, Ramp(policy), k); }
  }

  /** Once ramped up, every poll is a full cap after the one before. */
  lemma {:induction false} PollsAtCap(polls: seq<nat>, policy: SafetyPolicy, j: nat)
    requires PollRun(polls, policy) && 0 < policy.recheckPollInterval
    requires Ramp(policy) + j < |polls|
    ensures polls[Ramp(policy) + j] >= j * policy.recheckPollMaxInterval
    ensures RecheckPollDelay(polls[Ramp(policy) + j], policy) >= policy.recheckPollMaxInterval
  {
    var base, cap, ramp := policy.recheckPollInterval, policy.recheckPollMaxInterval, Ramp(policy);
    RampIsLeast(policy, ramp);
    if j == 0 {
      if ramp > 0 { RampIsLeast(policy, ramp - 1); }
      PollsBackOff(polls, policy, ramp);
      DelayAfter(ramp, polls[ramp], policy);
    } else {
      PollsAtCap(polls, policy, j - 1);
      var before, now := polls[ramp + j - 1], polls[ramp + j];
      assert now >= before + RecheckPollDelay(before, policy);
      assert (j - 1) * cap + cap == j * cap;
      Longer(before, now, policy);
    }
  }

  lemma Longer(elapsed: nat, later: nat, policy: SafetyPolicy)
    requires policy.recheckPollInterval > 0 && elapsed <= later
    ensures RecheckPollDelay(elapsed, policy) <= RecheckPollDelay(later, policy)
  {
    if policy.recheckPollInterval <= policy.recheckPollMaxInterval {
      DelayBounds(elapsed, later, policy);
    } else {
      var base, cap := policy.recheckPollInterval, policy.recheckPollMaxInterval;
      DoubledGrows(base, 0, Doublings(base, cap, elapsed));
      DoubledGrows(base, 0, Doublings(base, cap, later));
    }
  }

  function CeilDiv(a: nat, b: nat): nat
    requires b > 0
  {
    (a + b - 1) / b
  }

  lemma CeilCovers(a: nat, b: nat)
    requires b > 0
    ensures CeilDiv(a, b) * b >= a
  {
    assert a + b - 1 == b * CeilDiv(a, b) + (a + b - 1) % b;
  }

  lemma PollsAreFew(polls: seq<nat>, policy: SafetyPolicy)
    requires PollRun(polls, policy)
    requires policy.recheckPollInterval > 0 && policy.recheckPollMaxInterval > 0
    requires forall i :: 0 <= i < |polls| - 1 ==> polls[i] < policy.recheckTimeout
    ensures |polls| <= Ramp(policy) + CeilDiv(policy.recheckTimeout, policy.recheckPollMaxInterval) + 1
  {
    var cap := policy.recheckPollMaxInterval;
    var last := Ramp(policy) + CeilDiv(policy.recheckTimeout, cap);
    if |polls| > last + 1 {
      PollsAtCap(polls, policy, CeilDiv(policy.recheckTimeout, cap));
      CeilCovers(policy.recheckTimeout, cap);
    }
  }

  /**
   * What a poll of a check still running leads to: the job is parked exactly when the time is up,
   * and otherwise polled again after at least the scheduled delay.
   */
  lemma RunningCheckWaitsOrParks(job: Job, w: World)
    requires job.row.state in {Rechecking, Verified} && job.row.data.infoHash.Some?
    requires w.status.Answered? && w.status.value.Some? && w.status.value.value.state == Checking
    ensures var elapsed := RecheckElapsed(job.row.data.recheckingStartedAt, w.now);
            if elapsed >= w.policy.recheckTimeout then Step(job, w).outcome == ParkPlain(RecheckTimedOut)
            else
              && Step(job, w).outcome.Wait?
              && (w.policy.recheckPollInterval > 0 ==>
                    Step(job, w).outcome.after >= RecheckPollDelay(elapsed, w.policy))
    ensures forall call :: call in Step(job, w).calls ==> call.AskStatus?
  {
  }

  /** One poll of a job with a check started or passed: what the row held, and what the ports answered. */
  datatype Poll = Poll(job: Job, world: World) {
    predicate FindsRunning(policy: SafetyPolicy, startedAt: Option<Time>) {
      && job.row.state in {Rechecking, Verified} && job.row.data.infoHash.Some?
      && job.row.data.recheckingStartedAt == startedAt && world.policy == policy
      && world.status.Answered? && world.status.value.Some? && world.status.value.value.state == Checking
    }

    function Outcome(): StepOutcome { Step(job, world).outcome }

    function Elapsed(): nat { RecheckElapsed(job.row.data.recheckingStartedAt, world.now) }
  }

  /**
   * Polls of one check that is still running each time: all but the last wait, and none comes
   * before the wait of the one before is over.
   */
  ghost predicate EndlessCheck(polls: seq<Poll>, policy: SafetyPolicy, startedAt: Option<Time>) {
    && (forall i :: 0 <= i < |polls| ==> polls[i].FindsRunning(policy, startedAt))
    && forall i :: 0 <= i < |polls| - 1 ==>
         polls[i].Outcome().Wait? && polls[i + 1].world.now >= polls[i].world.now + polls[i].Outcome().after
  }

  /** A wait is at least the scheduled delay, counted from the recorded start. */
  lemma StepsMakePollRun(polls: seq<Poll>, policy: SafetyPolicy, startedAt: Time)
    requires EndlessCheck(polls, policy, Some(startedAt)) && policy.recheckPollInterval > 0
    requires polls != [] ==> startedAt <= polls[0].world.now
    ensures PollRun(seq(|polls|, i requires 0 <= i < |polls| => polls[i].Elapsed()), policy)
    ensures forall i :: 0 <= i < |polls| - 1 ==> polls[i].Elapsed() < policy.recheckTimeout
  {
    forall i | 0 <= i < |polls| - 1
      ensures polls[i + 1].Elapsed() >= polls[i].Elapsed() + RecheckPollDelay(polls[i].Elapsed(), policy)
      ensures polls[i].Elapsed() < policy.recheckTimeout
    {
      RunningCheckWaitsOrParks(polls[i].job, polls[i].world);
      StartIsPast(polls, policy, startedAt, i);
      hide RecheckPollDelay;
    }
  }

  lemma {:induction false} StartIsPast(polls: seq<Poll>, policy: SafetyPolicy, startedAt: Time, i: nat)
    requires EndlessCheck(polls, policy, Some(startedAt)) && i < |polls| && policy.recheckPollInterval > 0
    requires startedAt <= polls[0].world.now
    ensures startedAt <= polls[i].world.now
  {
    if i > 0 {
      StartIsPast(polls, policy, startedAt, i - 1);
      RunningCheckWaitsOrParks(polls[i - 1].job, polls[i - 1].world);
    }
  }

  /**
   * A check that never finishes is polled at most `ceil(log2(cap / base)) + ceil(timeout / cap) + 1`
   * times, however late the polls: the one with that number, if not an earlier one, parks the job.
   */
  lemma EndlessCheckIsGivenUp(polls: seq<Poll>, policy: SafetyPolicy, startedAt: Time)
    requires EndlessCheck(polls, policy, Some(startedAt))
    requires polls != [] ==> startedAt <= polls[0].world.now
    requires policy.recheckPollInterval > 0 && policy.recheckPollMaxInterval > 0
    ensures var most := Ramp(policy) + CeilDiv(policy.recheckTimeout, policy.recheckPollMaxInterval) + 1;
            |polls| <= most
  {
    StepsMakePollRun(polls, policy, startedAt);
    var elapsed := seq(|polls|, i requires 0 <= i < |polls| => polls[i].Elapsed());
    assert forall i :: 0 <= i < |elapsed| - 1 ==> elapsed[i] == polls[i].Elapsed() < policy.recheckTimeout;
    hide EndlessCheck, PollRun;
    PollsAreFew(elapsed, policy);
  }

  /** Without a recorded start a check is never overdue, however long it runs, unless no time is allowed at all. */
  lemma UnrecordedStartIsNeverOverdue(poll: Poll, policy: SafetyPolicy)
    requires poll.FindsRunning(policy, None)
    ensures if policy.recheckTimeout > 0 then poll.Outcome().Wait? && poll.Outcome().patch == NO_PATCH
            else poll.Outcome() == ParkPlain(RecheckTimedOut)
  {
  }

  /** Polls after which the start is still not on record go on for as long as anyone polls. */
  lemma UnrecordedStartWaitsForever(poll: Poll, policy: SafetyPolicy, n: nat) returns (polls: seq<Poll>)
    requires poll.FindsRunning(policy, None) && policy.recheckTimeout > 0
    ensures |polls| == n + 1 && polls[0] == poll && EndlessCheck(polls, policy, None)
    ensures forall i :: 0 <= i < |polls| ==> polls[i].job == poll.job && polls[i].Outcome().Wait?
    decreases n
  {
    UnrecordedStartIsNeverOverdue(poll, policy);
    if n == 0 {
      polls := [poll];
    } else {
      var later := poll.(world := poll.world.(now := poll.world.now + poll.Outcome().after));
      var rest := UnrecordedStartWaitsForever(later, policy, n - 1);
      polls := [poll] + rest;
      hide Step, Poll.FindsRunning;
      forall i | 0 <= i < |polls| - 1
        ensures polls[i].Outcome().Wait? && polls[i + 1].world.now >= polls[i].world.now + polls[i].Outcome().after
      {
        if i > 0 { assert rest[i - 1].Outcome().Wait? && rest[i] == polls[i + 1]; }
      }
    }
  }

  /** The delay is the cap, or the first doubling of the base that is longer than the check has run. */
  lemma DelayIsFirstLonger(elapsed: nat, policy: SafetyPolicy)
    requires policy.recheckPollInterval > 0
    ensures var base, cap := policy.recheckPollInterval, policy.recheckPollMaxInterval;
            var delay := RecheckPollDelay(elapsed, policy);
            delay <= cap
            && (delay == cap
                || exists k: nat ::
                     && delay == Doubled(base, k) > elapsed
                     && forall j :: 0 <= j < k ==> Doubled(base, j) <= elapsed)
    ensures forall k: nat :: Doubled(policy.recheckPollInterval, k) > elapsed ==>
              RecheckPollDelay(elapsed, policy) <= Doubled(policy.recheckPollInterval, k)
  {
    var base, cap := policy.recheckPollInterval, policy.recheckPollMaxInterval;
    var k := Doublings(base, cap, elapsed);
    DoublingsLeast(base, cap, elapsed);
    if Doubled(base, k) < cap { assert RecheckPollDelay(elapsed, policy) == Doubled(base, k) > elapsed; }
    forall j: nat | Doubled(base, j) > elapsed ensures RecheckPollDelay(elapsed, policy) <= Doubled(base, j) {
      if j >= k { DoubledGrows(base, k, j); }
    }
  }

  /** Doubling, as multiplication by powers of two. */
  lemma {:induction false} DoubledIs(base: nat, k: nat)
    ensures Doubled(base, 0) == base && Doubled(base, k + 1) == 2 * Doubled(base, k)
    ensures Doubled(base, k) == base * Doubled(1, k)
  {
    if k > 0 { DoubledIs(base, k - 1); }
  }
}
