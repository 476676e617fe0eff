/**
  The retry loop of a relayed request: channel selection across groups (service/channel_select.go), the decision to
  retry and the loop of `Relay` and `RelayTask` (controller/relay.go). Everything the outside world decides about one
  round is a `Round`; a run is driven by one round after another.
*/
module RetryLoop {
  import opened Common

  // ----- failures and the decision to retry -----

  /** `Marked` errors carry the violation marker or its code, `Coded` ones another violation-fee code. */
  datatype Violation = Clean | Marked | Coded

  datatype Failure =
    | ApiError(status: int, channelError: bool, skipRetry: bool, skipCode: bool, violation: Violation)
    | TaskError(status: int, localError: bool)

  /** `NormalizeViolationFeeError`: a violation gets a code of its own, which is no channel error and not retried. */
  function Normalize(f: Failure): Failure {
    if f.ApiError? && !f.violation.Clean? then f.(channelError := false, skipRetry := true) else f
  }

  /** `locked` fixes the channel of a task; `specific` is a channel asked for by the caller. */
  datatype Config = Config(
    retryTimes: int,
    groups: Groups,
    locked: bool,
    specific: bool,
    retryable: int -> bool,
    alwaysSkip: int -> bool)

  datatype Groups = Fixed | Auto(count: nat, cross: bool)

  predicate ShouldRetry(cfg: Config, e: Failure, affinity: bool, left: int)
    requires e.ApiError?
  {
    if affinity then false
    else if e.channelError then true
    else if e.skipRetry || left <= 0 || cfg.specific || 200 <= e.status < 300 then false
    else if e.status < 100 || e.status > 599 then true
    else !e.skipCode && !cfg.alwaysSkip(e.status) && cfg.retryable(e.status)
  }

  predicate ShouldRetryTask(cfg: Config, e: Failure, affinity: bool, left: int)
    requires e.TaskError?
  {
    if affinity || left <= 0 || cfg.specific then false
    else if e.status == 429 || e.status == 307 then true
    else if 500 <= e.status < 600 then !cfg.alwaysSkip(e.status)
    else if e.status == 400 || e.status == 408 || e.localError || 200 <= e.status < 300 then false
    else true
  }

  predicate Again(cfg: Config, f: Failure, affinity: bool, left: int) {
    if f.ApiError? then ShouldRetry(cfg, f, affinity, left) else ShouldRetryTask(cfg, f, affinity, left)
  }

  // ----- selection -----

  /** The retry counter, whether the next increase is skipped, and the auto group to go on from. */
  datatype Retry = Retry(count: nat, resetNextTry: bool, group: nat)

  function IncreaseRetry(p: Retry): Retry {
    if p.resetNextTry then p.(resetNextTry := false) else p.(count := p.count + 1)
  }

  /** The priority at which group `i` is asked when the search starts at `p`. */
  function PriorityAt(p: Retry, i: nat): nat {
    if i == p.group then p.count else 0
  }

  ghost predicate NoneBefore(p: Retry, found: (nat, nat) -> bool, i: nat) {
    forall j: nat | p.group <= j < i :: !found(j, PriorityAt(p, j))
  }

  /** What the search leaves behind when group `i` gave the channel. */
  function Settled(cfg: Config, p: Retry, i: nat): Retry
    requires cfg.groups.Auto?
  {
    if cfg.groups.cross && PriorityAt(p, i) >= cfg.retryTimes then Retry(0, true, i + 1)
    else Retry(PriorityAt(p, i), p.resetNextTry, i)
  }

  /** The first group from `i` on that has a channel, or `n`. */
  function FirstGroup(p: Retry, found: (nat, nat) -> bool, i: nat, n: nat): (r: nat)
    requires p.group <= i <= n && NoneBefore(p, found, i)
    ensures i <= r <= n && NoneBefore(p, found, r)
    ensures r < n ==> found(r, PriorityAt(p, r))
    decreases n - i
  {
    if i == n || found(i, PriorityAt(p, i)) then i else FirstGroup(p, found, i + 1, n)
  }

  function Select(cfg: Config, p: Retry, found: (nat, nat) -> bool): (r: (Retry, bool)) {
    if cfg.groups.Fixed? then (p, found(0, p.count))
    else if p.group >= cfg.groups.count then (p, false)
    else
      var i := FirstGroup(p, found, p.group, cfg.groups.count);
      if i == cfg.groups.count then (Retry(0, p.resetNextTry, i), false) else (Settled(cfg, p, i), true)
  }

  /** `CacheGetRandomSatisfiedChannel`. */
  method SelectChannel(cfg: Config, p: Retry, found: (nat, nat) -> bool) returns (p': Retry, ok: bool)
    ensures (p', ok) == Select(cfg, p, found)
  {
    p' := p;
    if cfg.groups.Fixed? {
      return p', found(0, p.count);
    }
    var i, n := p.group, cfg.groups.count;
    while i < n
      invariant p.group <= i && (i <= n || i == p.group) && NoneBefore(p, found, i)
      invariant p' == if i == p.group then p else Retry(0, p.resetNextTry, i)
      invariant i <= n ==> FirstGroup(p, found, i, n) == FirstGroup(p, found, p.group, n)
    {
      var priority := if i > p.group then 0 else p'.count;
      if !found(i, priority) {
        p' := Retry(0, p'.resetNextTry, i + 1);
        i := i + 1;
      } else {
        if cfg.groups.cross && priority >= cfg.retryTimes {
          p' := Retry(0, true, i + 1);
        } else {
          p' := p'.(group := i);
        }
        return p', true;
      }
    }
    ok := false;
  }

  // ----- one round -----

  datatype Outcome = Succeeds | Fails(failure: Failure)

  datatype Round = Round(
    found: (nat, nat) -> bool,
    channel: int,
    setup: Option<Failure>,
    body: Option<Failure>,
    affinity: bool,
    outcome: Outcome,
    missing: Failure)

  /** The channel of round `k`: the one the request came with, the locked one, or a selected one. */
  function GetChannel(cfg: Config, p: Retry, k: nat, r: Round): (Retry, Option<Failure>) {
    if cfg.locked then (p, if p.count > 0 then r.setup else None)
    else if k == 0 then (p, None)
    else
      var (p', ok) := Select(cfg, p, r.found);
      (p', if !ok then Some(r.missing) else r.setup)
  }

  /** How a round ends: before the channel is noted, before the attempt, or after it. */
  datatype Next =
    | NoChannel(failure: Failure) | NoBody(failure: Failure)
    | Done | Stop(failure: Failure) | Continue(failure: Failure, retry: Retry)

  function Step(cfg: Config, p: Retry, k: nat, r: Round): Next {
    var (p', halted) := GetChannel(cfg, p, k, r);
    if halted.Some? then NoChannel(halted.value)
    else if r.body.Some? then NoBody(r.body.value)
    else if r.outcome.Succeeds? then Done
    else
      var f := Normalize(r.outcome.failure);
      if Again(cfg, f, r.affinity, cfg.retryTimes - p'.count) then Continue(f, IncreaseRetry(p')) else Stop(f)
  }

  // ----- whole runs -----

  /** How many attempts can still follow with `groups` groups left and the current one tried `count` times: the last
      try of a group is lost on moving on unless cross-group retry is on. */
  ghost function LeftInGroups(retryTimes: nat, groups: int, cross: bool, count: nat): nat
    requires count <= retryTimes
    decreases groups
  {
    if groups <= 0 then 0
    else if groups == 1 then retryTimes + 1 - count
    else (if cross then retryTimes + 1 else retryTimes) - count + LeftInGroups(retryTimes, groups - 1, cross, 0)
  }

  ghost function LeftAuto(retryTimes: int, n: nat, cross: bool, p: Retry): nat {
    if p.count > retryTimes then 0 else LeftInGroups(retryTimes, n - p.group, cross, p.count)
  }

  ghost function Left(cfg: Config, p: Retry, k: nat): nat {
    if p.count > cfg.retryTimes then 0
    else if cfg.locked || cfg.groups.Fixed? then cfg.retryTimes + 1 - p.count
    else if k == 0 && (cfg.retryTimes == 0 || p.group >= cfg.groups.count) then 1
    else LeftAuto(cfg.retryTimes, cfg.groups.count, cfg.groups.cross, p)
  }

  /** The states a run goes through. */
  ghost predicate Proper(p: Retry, k: nat) {
    !p.resetNextTry && (k == 0 ==> p.count == 0)
  }

  lemma {:induction false} FewerGroups(retryTimes: nat, groups: nat, fewer: nat, cross: bool, count: nat)
    requires count <= retryTimes && fewer < groups
    ensures LeftInGroups(retryTimes, fewer, cross, 0) <= LeftInGroups(retryTimes, groups, cross, count)
    ensures cross ==> LeftInGroups(retryTimes, fewer, cross, 0) < LeftInGroups(retryTimes, groups, cross, count)
    decreases groups
  {
    if fewer < groups - 1 {
      FewerGroups(retryTimes, groups - 1, fewer, cross, 0);
    }
  }

  lemma SettledUsesOne(cfg: Config, p: Retry, i: nat)
    requires cfg.groups.Auto? && !p.resetNextTry && p.count <= cfg.retryTimes && p.group <= i < cfg.groups.count
    ensures var p' := IncreaseRetry(Settled(cfg, p, i));
      && !p'.resetNextTry
      && LeftAuto(cfg.retryTimes, cfg.groups.count, cfg.groups.cross, p') <
         LeftAuto(cfg.retryTimes, cfg.groups.count, cfg.groups.cross, p)
  {
    var n, cross := cfg.groups.count, cfg.groups.cross;
    SomeLeft(cfg.retryTimes, n - p.group, cross, p.count);
    var p' := IncreaseRetry(Settled(cfg, p, i));
    if p'.count <= cfg.retryTimes && p'.group > p.group {
      FewerGroups(cfg.retryTimes, n - p.group, n - p'.group, cross, p.count);
      SomeLeft(cfg.retryTimes, n - i, cross, 0);
    }
  }

  lemma SomeLeft(retryTimes: nat, groups: nat, cross: bool, count: nat)
    requires count <= retryTimes && 0 < groups
    ensures LeftInGroups(retryTimes, groups, cross, count) > 0
    ensures count < retryTimes ==>
      LeftInGroups(retryTimes, groups, cross, count + 1) == LeftInGroups(retryTimes, groups, cross, count) - 1
  {
    if groups > 1 {
      SomeLeft(retryTimes, groups - 1, cross, 0);
    }
  }

  lemma StepUsesOne(cfg: Config, p: Retry, k: nat, r: Round)
    requires Proper(p, k) && p.count <= cfg.retryTimes && Step(cfg, p, k, r).Continue?
    ensures var p' := Step(cfg, p, k, r).retry; Proper(p', k + 1) && Left(cfg, p', k + 1) < Left(cfg, p, k)
  {
    if !cfg.locked && cfg.groups.Auto? && k > 0 {
      SettledUsesOne(cfg, p, FirstGroup(p, r.found, p.group, cfg.groups.count));
    }
  }

  /** A run: how many attempts were made, how many channels were noted as used, and the error it ends with. */
  datatype End = End(attempts: nat, noted: nat, error: Option<Failure>)

  /** The end of a run whose round `k` lets no other follow. */
  function EndOf(next: Next, k: nat): End
    requires !next.Continue?
  {
    match next
    case NoChannel(f) => End(k, k, Some(f))
    case NoBody(f) => End(k, k + 1, Some(f))
    case Done => End(k + 1, k + 1, None)
    case Stop(f) => End(k + 1, k + 1, Some(f))
  }

  /** The loop from round `k` on; `last` is the error of the round before. */
  function Drive(cfg: Config, p: Retry, rounds: nat -> Round, k: nat, last: Option<Failure>): End
    requires Proper(p, k)
    decreases Left(cfg, p, k)
  {
    if p.count > cfg.retryTimes then End(k, k, last)
    else
      var next := Step(cfg, p, k, rounds(k));
      if next.Continue? then
        StepUsesOne(cfg, p, k, rounds(k));
        Drive(cfg, next.retry, rounds, k + 1, Some(next.failure))
      else EndOf(next, k)
  }

  /** `getChannel`, or the locked channel of a task. */
  method ObtainChannel(cfg: Config, p: Retry, k: nat, r: Round) returns (p': Retry, failure: Option<Failure>)
    ensures (p', failure) == GetChannel(cfg, p, k, r)
  {
    p', failure := p, None;
    if cfg.locked {
      if p.count > 0 {
        failure := r.setup;
      }
    } else if k > 0 {
      var ok;
      p', ok := SelectChannel(cfg, p, r.found);
      failure := if ok then r.setup else Some(r.missing);
    }
  }

  /** One turn of the loop: it ends the run, or the run goes on as that of the next round. */
  method TakeRound(cfg: Config, p: Retry, rounds: nat -> Round, k: nat, ghost last: Option<Failure>)
      returns (next: Next)
    requires Proper(p, k) && p.count <= cfg.retryTimes
    ensures !next.Continue? ==> Drive(cfg, p, rounds, k, last) == EndOf(next, k)
    ensures next.Continue? ==>
      && Proper(next.retry, k + 1) && Left(cfg, next.retry, k + 1) < Left(cfg, p, k)
      && Drive(cfg, p, rounds, k, last) == Drive(cfg, next.retry, rounds, k + 1, Some(next.failure))
  {
    var r := rounds(k);
    ghost var step := Step(cfg, p, k, r);
    if step.Continue? {
      StepUsesOne(cfg, p, k, r);
    }
    var p', failure := ObtainChannel(cfg, p, k, r);
    if failure.Some? {
      return NoChannel(failure.value);
    }
    if r.body.Some? {
      return NoBody(r.body.value);
    }
    if r.outcome.Succeeds? {
      return Done;
    }
    var f := Normalize(r.outcome.failure);
    if !Again(cfg, f, r.affinity, cfg.retryTimes - p'.count) {
      return Stop(f);
    }
    next := Continue(f, IncreaseRetry(p'));
  }

  function Start(group: nat): Retry {
    Retry(0, false, group)
  }

  function Relayed(cfg: Config, group: nat, rounds: nat -> Round): End {
    Drive(cfg, Start(group), rounds, 0, None)
  }

  // ----- how many attempts -----

  lemma {:induction false} AttemptsLeft(cfg: Config, p: Retry, rounds: nat -> Round, k: nat, last: Option<Failure>)
    requires Proper(p, k)
    ensures k <= Drive(cfg, p, rounds, k, last).attempts <= k + Left(cfg, p, k)
    decreases Left(cfg, p, k)
  {
    if p.count <= cfg.retryTimes {
      var next := Step(cfg, p, k, rounds(k));
      if next.Continue? {
        StepUsesOne(cfg, p, k, rounds(k));
        AttemptsLeft(cfg, next.retry, rounds, k + 1, Some(next.failure));
      } else if next.Done? || next.Stop? {
        AttemptNeedsOneLeft(cfg, p, k, rounds(k));
      }
    }
  }

  lemma AttemptNeedsOneLeft(cfg: Config, p: Retry, k: nat, r: Round)
    requires p.count <= cfg.retryTimes && (Step(cfg, p, k, r).Done? || Step(cfg, p, k, r).Stop?)
    ensures Left(cfg, p, k) > 0
  {
    if cfg.groups.Auto? && p.group < cfg.groups.count {
      SomeLeft(cfg.retryTimes, cfg.groups.count - p.group, cfg.groups.cross, p.count);
    }
  }

  /** The most attempts a request can make. */
  ghost function MaxAttempts(cfg: Config, group: nat): nat {
    Left(cfg, Start(group), 0)
  }

  /** In closed form. */
  lemma MaxAttemptsInGroups(retryTimes: nat, groups: nat, cross: bool)
    requires groups > 0
    ensures LeftInGroups(retryTimes, groups, cross, 0) == if cross then groups * (retryTimes + 1)
      else groups * retryTimes + 1
    decreases groups
  {
    if groups > 1 {
      MaxAttemptsInGroups(retryTimes, groups - 1, cross);
    }
  }

  /** No request makes more attempts than that. */
  lemma AttemptsBound(cfg: Config, group: nat, rounds: nat -> Round)
    ensures Relayed(cfg, group, rounds).attempts <= MaxAttempts(cfg, group)
  {
    AttemptsLeft(cfg, Start(group), rounds, 0, None);
  }

  /** A world in which every attempt fails with `f`. Without cross-group retry the channels of a group are disabled one
      group after the other, each after `RetryTimes` more rounds; the last group keeps its own. */
  function Busy(cfg: Config, f: Failure, group: nat): nat -> Round {
    (k: nat) =>
      Round((g: nat, _: nat) =>
              || cfg.groups.Fixed? || cfg.groups.cross || g + 1 == cfg.groups.count
              || k < (g + 1 - group) * cfg.retryTimes,
            0, None, None, false, Fails(f), f)
  }

  ghost predicate Retryable(cfg: Config, f: Failure) {
    Again(cfg, Normalize(f), false, 1)
  }

  /** Where such a run stands: without cross-group retry every group before took `RetryTimes` rounds. */
  ghost predicate InStep(cfg: Config, p: Retry, group: nat, k: nat) {
    !cfg.locked && cfg.groups.Auto? && !cfg.groups.cross && p.group < cfg.groups.count ==>
      group <= p.group && k == (p.group - group) * cfg.retryTimes + p.count
  }

  predicate Dry(cfg: Config, p: Retry)
    requires cfg.groups.Auto?
  {
    !cfg.groups.cross && p.count == cfg.retryTimes && p.group + 1 < cfg.groups.count
  }

  function BusyGroup(cfg: Config, p: Retry): nat
    requires cfg.groups.Auto?
  {
    if Dry(cfg, p) then p.group + 1 else p.group
  }

  lemma BusyFound(cfg: Config, p: Retry, f: Failure, group: nat, k: nat)
    requires cfg.groups.Auto? && !cfg.locked && p.count <= cfg.retryTimes && cfg.retryTimes >= 1 &&
      p.group < cfg.groups.count
    requires InStep(cfg, p, group, k)
    ensures var found := Busy(cfg, f, group)(k).found;
      forall c: nat :: (found(p.group, c) <==> !Dry(cfg, p)) && (Dry(cfg, p) ==> found(p.group + 1, c))
  {
    if !cfg.groups.cross {
      var i := p.group - group;
      assert (i + 1) * cfg.retryTimes == i * cfg.retryTimes + cfg.retryTimes;
      assert (i + 2) * cfg.retryTimes == i * cfg.retryTimes + 2 * cfg.retryTimes;
      assert p.group + 1 - group == i + 1 && p.group + 2 - group == i + 2;
    }
  }

  lemma BusySelect(cfg: Config, p: Retry, f: Failure, group: nat, k: nat)
    requires cfg.groups.Auto? && !cfg.locked && p.count <= cfg.retryTimes && cfg.retryTimes >= 1 &&
      p.group < cfg.groups.count
    requires InStep(cfg, p, group, k)
    ensures Select(cfg, p, Busy(cfg, f, group)(k).found) == (Settled(cfg, p, BusyGroup(cfg, p)), true)
  {
    var found := Busy(cfg, f, group)(k).found;
    BusyFound(cfg, p, f, group, k);
    assert found(p.group, PriorityAt(p, p.group)) || found(p.group + 1, PriorityAt(p, p.group + 1));
  }

  lemma BusySettled(cfg: Config, p: Retry)
    requires cfg.groups.Auto? && p.count <= cfg.retryTimes && cfg.retryTimes >= 1 && p.group < cfg.groups.count &&
      !p.resetNextTry
    ensures var p' := Settled(cfg, p, BusyGroup(cfg, p));
      var n := cfg.groups.count;
      && !IncreaseRetry(p').resetNextTry
      && LeftAuto(cfg.retryTimes, n, cfg.groups.cross, p) ==
        LeftAuto(cfg.retryTimes, n, cfg.groups.cross, IncreaseRetry(p')) + 1
      && (p'.count < cfg.retryTimes || LeftAuto(cfg.retryTimes, n, cfg.groups.cross, p) == 1)
  {
    SomeLeft(cfg.retryTimes, cfg.groups.count - p.group, cfg.groups.cross, p.count);
    if p.group + 1 < cfg.groups.count {
      SomeLeft(cfg.retryTimes, cfg.groups.count - p.group - 1, cfg.groups.cross, 0);
    }
  }

  lemma BusyInStep(cfg: Config, p: Retry, group: nat, k: nat)
    requires cfg.groups.Auto? && !cfg.locked && p.group < cfg.groups.count && p.count <= cfg.retryTimes &&
      !p.resetNextTry
    requires InStep(cfg, p, group, k)
    ensures InStep(cfg, IncreaseRetry(Settled(cfg, p, BusyGroup(cfg, p))), group, k + 1)
  {
    if !cfg.groups.cross {
      var i := p.group - group;
      assert (i + 1) * cfg.retryTimes == i * cfg.retryTimes + cfg.retryTimes;
      assert p.group + 1 - group == i + 1;
    }
  }

  lemma BusyStep(cfg: Config, p: Retry, k: nat, f: Failure, group: nat)
    requires Proper(p, k) && p.count <= cfg.retryTimes && (k > 0 ==> cfg.retryTimes >= 1) && Retryable(cfg, f) &&
      InStep(cfg, p, group, k)
    ensures match Step(cfg, p, k, Busy(cfg, f, group)(k))
      case Continue(_, p') => Proper(p', k + 1) && Left(cfg, p, k) == Left(cfg, p', k + 1) + 1 &&
        InStep(cfg, p', group, k + 1)
      case Stop(_) => Left(cfg, p, k) == 1
      case NoChannel(_) => Left(cfg, p, k) == 0
      case _ => false
  {
    if !cfg.locked && cfg.groups.Auto? && p.group < cfg.groups.count && cfg.retryTimes >= 1 {
      if k > 0 {
        BusySelect(cfg, p, f, group, k);
        BusySettled(cfg, p);
        BusyInStep(cfg, p, group, k);
      } else {
        SomeLeft(cfg.retryTimes, cfg.groups.count - p.group, cfg.groups.cross, 0);
      }
    }
  }

  lemma {:induction false} BusyRun(cfg: Config, p: Retry, f: Failure, group: nat, k: nat, last: Option<Failure>)
    requires Proper(p, k) && (k > 0 && p.count <= cfg.retryTimes ==> cfg.retryTimes >= 1) && Retryable(cfg, f) &&
      InStep(cfg, p, group, k)
    ensures Drive(cfg, p, Busy(cfg, f, group), k, last).attempts == k + Left(cfg, p, k)
    decreases Left(cfg, p, k)
  {
    if p.count <= cfg.retryTimes {
      BusyStep(cfg, p, k, f, group);
      var next := Step(cfg, p, k, Busy(cfg, f, group)(k));
      if next.Continue? {
        BusyRun(cfg, next.retry, f, group, k + 1, Some(next.failure));
      }
    }
  }

  /** The bound is exact: for every failure that may be retried there is a run that reaches it. */
  lemma BoundReached(cfg: Config, group: nat, f: Failure)
    requires Retryable(cfg, f)
    ensures Relayed(cfg, group, Busy(cfg, f, group)).attempts == MaxAttempts(cfg, group)
  {
    BusyRun(cfg, Start(group), f, group, 0, None);
  }

  /** Whether the configured number of retries bounds every run. */
  ghost predicate WithinRetryTimes(cfg: Config, group: nat) {
    forall rounds: nat -> Round :: Relayed(cfg, group, rounds).attempts <= cfg.retryTimes + 1
  }

  /** A channel error, which is retried under every configuration. */
  const CHANNEL_ERROR := ApiError(500, true, false, false, Clean)

  /** It does exactly when the request cannot wander through several auto groups. */
  lemma WithinRetryTimesIff(cfg: Config, group: nat)
    requires cfg.retryTimes >= 0
    ensures WithinRetryTimes(cfg, group) <==>
      cfg.locked || cfg.groups.Fixed? || cfg.retryTimes == 0 || cfg.groups.count <= group + 1
  {
    BoundReached(cfg, group, CHANNEL_ERROR);
    forall rounds: nat -> Round
      ensures Relayed(cfg, group, rounds).attempts <= MaxAttempts(cfg, group)
    {
      AttemptsBound(cfg, group, rounds);
    }
    if !cfg.locked && cfg.groups.Auto? && cfg.retryTimes > 0 && group + 1 < cfg.groups.count {
      if group + 2 < cfg.groups.count {
        FewerGroups(cfg.retryTimes, cfg.groups.count - group, 2, cfg.groups.cross, 0);
      }
      assert LeftInGroups(cfg.retryTimes, 2, cfg.groups.cross, 0) > cfg.retryTimes + 1;
    }
  }

  // ----- how a run ends -----

  /** Round `i` was an attempt that failed in a way that may be retried. */
  ghost predicate FailedAndRetried(cfg: Config, r: Round) {
    r.body.None? && r.outcome.Fails? && Again(cfg, Normalize(r.outcome.failure), r.affinity, 1)
  }

  ghost predicate EndsWell(cfg: Config, rounds: nat -> Round, k: nat, e: End) {
    && e.attempts >= k
    && (forall i: nat | k <= i < e.attempts - 1 :: FailedAndRetried(cfg, rounds(i)))
    && (e.attempts > k ==> rounds(e.attempts - 1).body.None?)
    && (e.error.None? <==> e.attempts > k && rounds(e.attempts - 1).outcome.Succeeds?)
    && (e.noted == e.attempts || (e.noted == e.attempts + 1 && rounds(e.attempts).body == e.error))
  }

  lemma {:induction false} RunEndsWell(cfg: Config, p: Retry, rounds: nat -> Round, k: nat, last: Option<Failure>)
    requires Proper(p, k) && (last.Some? || p.count <= cfg.retryTimes)
    ensures EndsWell(cfg, rounds, k, Drive(cfg, p, rounds, k, last))
    decreases Left(cfg, p, k)
  {
    if p.count <= cfg.retryTimes {
      var next := Step(cfg, p, k, rounds(k));
      if next.Continue? {
        StepUsesOne(cfg, p, k, rounds(k));
        RunEndsWell(cfg, next.retry, rounds, k + 1, Some(next.failure));
        assert FailedAndRetried(cfg, rounds(k));
      }
    }
  }

  // ----- the loop itself -----

  /** The channels noted as used in the first `n` rounds. */
  function Channels(rounds: nat -> Round, n: nat): seq<int> {
    if n == 0 then [] else Channels(rounds, n - 1) + [rounds(n - 1).channel]
  }

  lemma {:induction false} ChannelsInOrder(rounds: nat -> Round, n: nat)
    ensures |Channels(rounds, n)| == n && forall i: nat | i < n :: Channels(rounds, n)[i] == rounds(i).channel
  {
    if n > 0 {
      ChannelsInOrder(rounds, n - 1);
    }
  }

  /** What the first `n` attempts make of `a`. */
  function Fold<A>(attempt: (A, nat) -> A, a: A, n: nat): A {
    if n == 0 then a else attempt(Fold(attempt, a, n - 1), n - 1)
  }

  /** What a run leaves behind: the channels it noted, and what its attempts made of something. */
  datatype Trail<A> = Trail(used: seq<int>, made: A)

  ghost predicate LeftBy<A>(t: Trail<A>, rounds: nat -> Round, attempt: (A, nat) -> A, a: A, noted: nat,
      attempts: nat) {
    t == Trail(Channels(rounds, noted), Fold(attempt, a, attempts))
  }

  /** A round notes its channel once it has one; `attempt` is what an attempt does besides failing or not. */
  method Note<A>(next: Next, rounds: nat -> Round, attempt: (A, nat) -> A, ghost a: A, k: nat, t: Trail<A>)
      returns (t': Trail<A>)
    requires LeftBy(t, rounds, attempt, a, k, k)
    ensures next.Continue? ==> LeftBy(t', rounds, attempt, a, k + 1, k + 1)
    ensures !next.Continue? ==> LeftBy(t', rounds, attempt, a, EndOf(next, k).noted, EndOf(next, k).attempts)
  {
    t' := t;
    if !next.NoChannel? {
      t' := t'.(used := t'.used + [rounds(k).channel]);
      if !next.NoBody? {
        t' := t'.(made := attempt(t'.made, k));
      }
    }
  }

  /** One turn with all it leaves behind: the run is over with `e`, or goes on from `p'`. */
  method Turn<A>(cfg: Config, p: Retry, rounds: nat -> Round, k: nat, ghost last: Option<Failure>,
      attempt: (A, nat) -> A, ghost a: A, t: Trail<A>)
    returns (over: bool, e: End, p': Retry, error: Option<Failure>, t': Trail<A>)
    requires Proper(p, k) && p.count <= cfg.retryTimes && LeftBy(t, rounds, attempt, a, k, k)
    ensures over ==> Drive(cfg, p, rounds, k, last) == e && LeftBy(t', rounds, attempt, a, e.noted, e.attempts)
    ensures !over ==>
      Proper(p', k + 1) && Left(cfg, p', k + 1) < Left(cfg, p, k) && LeftBy(t', rounds, attempt, a, k + 1, k + 1)
    ensures !over ==> Drive(cfg, p, rounds, k, last) == Drive(cfg, p', rounds, k + 1, error)
  {
    e, p', error := End(k, k, None), p, None;
    var next := TakeRound(cfg, p, rounds, k, last);
    t' := Note(next, rounds, attempt, a, k, t);
    over := !next.Continue?;
    if over {
      e := EndOf(next, k);
    } else {
      p', error := next.retry, Some(next.failure);
    }
  }

  /** The rest of the loop from round `k` on. */
  method TryFrom<A>(cfg: Config, start: Retry, rounds: nat -> Round, from: nat, last: Option<Failure>,
      attempt: (A, nat) -> A, ghost a: A, trail: Trail<A>, ghost goal: End)
    returns (e: End, t: Trail<A>)
    requires Proper(start, from) && Drive(cfg, start, rounds, from, last) == goal &&
      LeftBy(trail, rounds, attempt, a, from, from)
    ensures e == goal && LeftBy(t, rounds, attempt, a, e.noted, e.attempts)
  {
    var p, k, error := start, from, last;
    t := trail;
    while p.count <= cfg.retryTimes
      invariant Proper(p, k) && Drive(cfg, p, rounds, k, error) == goal
      invariant LeftBy(t, rounds, attempt, a, k, k)
      decreases Left(cfg, p, k)
    {
      var over;
      over, e, p, error, t := Turn(cfg, p, rounds, k, error, attempt, a, t);
      if over {
        return;
      }
      k := k + 1;
    }
    e := End(k, k, error);
  }

  /** The loop `Relay` and `RelayTask` share: attempts on one channel after another until one succeeds or no more may
      follow. */
  method TryChannels<A>(cfg: Config, group: nat, rounds: nat -> Round, attempt: (A, nat) -> A, a: A)
      returns (e: End, t: Trail<A>)
    ensures e == Relayed(cfg, group, rounds)
    ensures LeftBy(t, rounds, attempt, a, e.noted, e.attempts)
  {
    e, t := TryFrom(cfg, Start(group), rounds, 0, None, attempt, a, Trail([], a), Relayed(cfg, group, rounds));
  }
}
