/** The rules that decide when automation may act (src/repair/policy.rs). */
module Policy {
  import opened Prelude
  import opened Lifecycle
  import opened JobModel
  import opened MatchModel

  datatype AutoResume = Never | WhenVerifiedComplete

  datatype MaterializationPolicy =
    MaterializationPolicy(preferReflink: bool, allowHardlink: bool, allowCopy: bool)
  {
    /** Strategies to try, best first; a hardlink is the last resort. */
    function Preference(): seq<Strategy> {
      (if preferReflink then [Reflink] else [])
      + (if allowCopy then [Copy] else [])
      + (if allowHardlink then [Hardlink] else [])
    }
  }

  datatype SafetyPolicy = SafetyPolicy(
    autoResume: AutoResume, minMatchConfidence: Confidence, verificationPieces: nat,
    materialization: MaterializationPolicy, maxAttempts: nat,
    retryBaseDelay: nat, retryMaxDelay: nat,
    recheckPollInterval: nat, recheckPollMaxInterval: nat, recheckTimeout: nat,
    trackerPollInterval: nat, trackerPollMinInterval: nat, maxConsecutiveUnknown: nat)

  /** What the data gate or the resume gate answers. */
  datatype Verdict = Go | Hold(reason: ReviewReason)

  /** Incomplete data is held, as aliased whenever it might share inodes with the library. */
  function AssessData(completeness: DataCompleteness, materialization: Option<Strategy>): Verdict {
    if completeness.Complete? then Go
    else if materialization.None? || materialization.value.AliasesLibraryFile()
    then Hold(AliasedIncompleteData)
    else Hold(IncompleteData)
  }

  function DecideResume(
    completeness: DataCompleteness, materialization: Option<Strategy>, policy: SafetyPolicy,
    resumeApproved: bool
  ): Verdict {
    match AssessData(completeness, materialization)
    case Hold(reason) => Hold(reason)
    case Go =>
      match policy.autoResume
      case Never => if resumeApproved then Go else Hold(AutoResumeDisabled)
      case WhenVerifiedComplete => Go
  }

  /** `Ambiguous < Probable < Operator < Exact`. */
  function Strength(c: Confidence): nat {
    match c
    case Ambiguous => 0
    case Probable => 1
    case Operator => 2
    case Exact => 3
  }

  function LowestStrength(matched: seq<FileMatch>): nat
    requires matched != []
  {
    var first := Strength(matched[0].confidence);
    if |matched| == 1 then first
    else
      var rest := LowestStrength(matched[1..]);
      if first <= rest then first else rest
  }

  /** A repair needs every file, and is judged by its weakest one. */
  function DecideMatch(plan: MatchPlan, policy: SafetyPolicy): Verdict {
    if plan.unmatched != [] then
      Hold(if plan.unmatched[0].reason.NoCandidate? then NoCandidates else AmbiguousMatch)
    else if plan.matched == [] then Hold(NoCandidates)
    else if LowestStrength(plan.matched) < Strength(policy.minMatchConfidence)
    then Hold(ConfidenceBelowPolicy)
    else Go
  }

  /** A plan is accepted exactly when every file is matched, at or above the floor. */
  lemma {:induction false} AcceptsExactly(plan: MatchPlan, policy: SafetyPolicy)
    ensures DecideMatch(plan, policy) == Go <==>
      && plan.unmatched == [] && plan.matched != []
      && forall m :: m in plan.matched ==>
           Strength(policy.minMatchConfidence) <= Strength(m.confidence)
  {
    if plan.matched != [] { LowestIsLeast(plan.matched, Strength(policy.minMatchConfidence)); }
  }

  lemma {:induction false} LowestIsLeast(matched: seq<FileMatch>, floor: nat)
    requires matched != []
    ensures floor <= LowestStrength(matched) <==>
      forall m :: m in matched ==> floor <= Strength(m.confidence)
  {
    if |matched| > 1 {
      LowestIsLeast(matched[1..], floor);
      assert matched == [matched[0]] + matched[1..];
    }
  }

  /**
   * No policy and no approval ever resumes incomplete data; on complete data approval overrides
   * exactly `auto_resume = never`.
   */
  lemma ResumesOnlyComplete(
    completeness: DataCompleteness, materialization: Option<Strategy>, policy: SafetyPolicy, approved: bool)
    ensures DecideResume(completeness, materialization, policy, approved) == Go <==>
      completeness.Complete? && (approved || policy.autoResume == WhenVerifiedComplete)
    ensures completeness.Partial? && (materialization == None || materialization == Some(Hardlink)) ==>
      DecideResume(completeness, materialization, policy, approved) == Hold(AliasedIncompleteData)
  {
  }

  function QueuedRecheckPollDelay(policy: SafetyPolicy): nat { policy.recheckPollMaxInterval }

  /** A check with no recorded start counts as just started, and so does one from the future. */
  function RecheckElapsed(startedAt: Option<Time>, now: Time): nat {
    if startedAt.Some? && startedAt.value <= now then now - startedAt.value else 0
  }

  /** A tenth of what is left, between the floor and the plain interval. */
  function TrackerPollDelay(now: Time, deadline: Option<Time>, policy: SafetyPolicy): int {
    if deadline.None? || deadline.value < now then policy.trackerPollInterval
    else
      var tenth := (deadline.value - now) / 10;
      if tenth < policy.trackerPollMinInterval then policy.trackerPollMinInterval
      else if tenth > policy.trackerPollInterval then policy.trackerPollInterval
      else tenth
  }

  /** Doubled `k` times. */
  function Doubled(base: nat, k: nat): nat {
    if k == 0 then base else 2 * Doubled(base, k - 1)
  }

  /** How often `base` must double before it passes `elapsed` or reaches `cap`. */
  function Doublings(base: nat, cap: nat, elapsed: nat): (k: nat)
    requires base > 0
    decreases Max(0, Min(elapsed, cap) - base + 1)
  {
    if base <= elapsed && base < cap then 1 + Doublings(2 * base, cap, elapsed) else 0
  }

  /** The delay before polling a running recheck again. */
  function RecheckPollDelay(elapsed: nat, policy: SafetyPolicy): nat {
    var base, cap := policy.recheckPollInterval, policy.recheckPollMaxInterval;
    if base == 0 then cap
    else Min(Doubled(base, Doublings(base, cap, elapsed)), cap)
  }

  /** Exponential backoff, capped; `attempts` failures so far. */
  function RetryDelay(attempts: nat, policy: SafetyPolicy): nat {
    Min(Doubled(policy.retryBaseDelay, Min(Max(attempts - 1, 0), 16)), policy.retryMaxDelay)
  }

  /** Spread over `(0, RetryDelay]`, so a failing job neither spins nor moves in lockstep. */
  function RetryDelayWithJitter(attempts: nat, policy: SafetyPolicy, jitter: nat): nat {
    var delay := Max(RetryDelay(attempts, policy), 1);
    Min(jitter % delay + 1, delay)
  }

  /** Every jittered delay is positive and within the cap, and every such delay can come up. */
  lemma JitterSpreads(attempts: nat, policy: SafetyPolicy, delay: nat)
    ensures (exists jitter: nat :: RetryDelayWithJitter(attempts, policy, jitter) == delay) <==>
      0 < delay <= Max(RetryDelay(attempts, policy), 1)
  {
    var longest := Max(RetryDelay(attempts, policy), 1);
    if 0 < delay <= longest {
      assert (delay - 1) % longest == delay - 1;
      assert RetryDelayWithJitter(attempts, policy, delay - 1) == delay;
    }
  }

  // ---- Orders and delays, spelled out ---------------------------------------------------------------

  /** Exactly the permitted strategies are tried: a clone first, a copy before a link, a link last. */
  lemma PreferenceIs(p: MaterializationPolicy)
    ensures Reflink in p.Preference() <==> p.preferReflink
    ensures Copy in p.Preference() <==> p.allowCopy
    ensures Hardlink in p.Preference() <==> p.allowHardlink
    ensures forall i, j :: 0 <= i < j < |p.Preference()| ==>
              p.Preference()[i] != p.Preference()[j] && p.Preference()[i] != Hardlink && p.Preference()[j] != Reflink
  {
    assert p.preferReflink ==> p.Preference()[0] == Reflink;
    assert p.allowHardlink ==> p.Preference()[|p.Preference()| - 1] == Hardlink;
    assert p.allowCopy ==> p.Preference()[if p.preferReflink then 1 else 0] == Copy;
  }

  /** With no deadline ahead the plain interval, and otherwise a tenth of what is left within its bounds. */
  lemma TrackerDelayIs(now: Time, deadline: Option<Time>, policy: SafetyPolicy)
    requires policy.trackerPollMinInterval <= policy.trackerPollInterval
    ensures var delay, least, most :=
              TrackerPollDelay(now, deadline, policy), policy.trackerPollMinInterval, policy.trackerPollInterval;
            && least <= delay <= most
            && match deadline
               case None => delay == most
               case Some(at) =>
                 if at < now then delay == most
                 else if at - now < 10 * least then delay == least
                 else if at - now >= 10 * most then delay == most
                 else 10 * delay <= at - now < 10 * delay + 10
  {
  }

  /** The nearer the deadline, the sooner the tracker is asked again. */
  lemma TrackerDelayShrinks(now: Time, later: Time, deadline: Time, policy: SafetyPolicy)
    requires now <= later <= deadline && policy.trackerPollMinInterval <= policy.trackerPollInterval
    ensures TrackerPollDelay(later, Some(deadline), policy) <= TrackerPollDelay(now, Some(deadline), policy)
  {
  }

  /** The elapsed time of a check: nothing before it started or when its start is unknown. */
  lemma ElapsedIs(startedAt: Option<Time>, now: Time)
    ensures startedAt.None? ==> RecheckElapsed(startedAt, now) == 0
    ensures startedAt.Some? ==> RecheckElapsed(startedAt, now) == Max(0, now - startedAt.value)
  {
  }
}
