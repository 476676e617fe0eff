/**
  When a relayed request or task goes on after an attempt, and what it ends with (controller/relay.go), written in the
  configuration and the fields of the failure.
*/
module RetryLaws {
  import opened Common
  import opened Relay
  import opened RetryLoop

  // ----- failures -----

  /** A status outside 100 to 599 is no HTTP status. */
  predicate IsHttpStatus(status: int) {
    100 <= status <= 599
  }

  /** A clean failure of an API attempt whose status may be tried again: no success, and no HTTP status or one in the
      configured ranges that no skip rule covers. */
  predicate StatusRetried(cfg: Config, status: int, skipCode: bool) {
    && !(200 <= status <= 299)
    && (IsHttpStatus(status) ==> cfg.retryable(status) && !cfg.alwaysSkip(status) && !skipCode)
  }

  /** A violation is never retried; a channel error always, even without retries left; other API failures by status. */
  predicate ApiRetried(cfg: Config, f: Failure, left: int)
    requires f.ApiError?
  {
    && f.violation.Clean?
    && (f.channelError || (left > 0 && !cfg.specific && !f.skipRetry && StatusRetried(cfg, f.status, f.skipCode)))
  }

  /** Tasks go by fixed rules: 429 and 307 are retried, 5xx unless skipped, and of the rest what is neither local nor
      400, 408 or a success. */
  predicate TaskRetried(cfg: Config, f: Failure, left: int)
    requires f.TaskError?
  {
    && left > 0 && !cfg.specific
    && (|| f.status in {307, 429}
        || (f.status / 100 == 5 && !cfg.alwaysSkip(f.status))
        || (f.status / 100 !in {2, 5} && f.status !in {400, 408} && !f.localError))
  }

  /** The status code ranges that are retried by default. */
  const RETRY_RANGES := [(100, 199), (300, 399), (401, 407), (409, 499), (500, 503), (505, 523), (525, 599)]

  const ALWAYS_SKIPPED := {504, 524}

  predicate Matches(ranges: seq<(int, int)>, code: int) {
    exists i | 0 <= i < |ranges| :: ranges[i].0 <= code <= ranges[i].1
  }

  /** By default every HTTP status but a success, 400, 408, 504 and 524 is retried. */
  lemma DefaultRanges(code: int)
    requires IsHttpStatus(code)
    ensures Matches(RETRY_RANGES, code) && code !in ALWAYS_SKIPPED <==> code / 100 != 2 && code !in {400, 408, 504, 524}
  {
    var r := RETRY_RANGES;
    assert |r| == 7 && r[0] == (100, 199) && r[1] == (300, 399) && r[2] == (401, 407) && r[3] == (409, 499);
    assert r[4] == (500, 503) && r[5] == (505, 523) && r[6] == (525, 599);
  }

  predicate Retried(cfg: Config, r: Round, left: int)
    requires r.outcome.Fails?
  {
    var f := r.outcome.failure;
    !r.affinity && if f.ApiError? then ApiRetried(cfg, f, left) else TaskRetried(cfg, f, left)
  }

  /** The decision of the loop is this one. */
  lemma AgainIff(cfg: Config, r: Round, left: int)
    requires r.outcome.Fails?
    ensures Again(cfg, Normalize(r.outcome.failure), r.affinity, left) <==> Retried(cfg, r, left)
  {
  }

  /** What a failure is reported as: a violation loses its channel error and is marked as not to be retried. */
  lemma NormalizedFields(f: Failure)
    ensures Normalize(f) ==
      if f.TaskError? || f.violation.Clean? then f
      else ApiError(f.status, false, true, f.skipCode, f.violation)
  {
  }

  // ----- channels -----

  /** Some auto group from the current one on has a channel, the current one at the priority of the counter and the
      others at their first. */
  ghost predicate SomeGroup(cfg: Config, p: Retry, found: (nat, nat) -> bool)
    requires cfg.groups.Auto?
  {
    || (p.group < cfg.groups.count && found(p.group, p.count))
    || exists i: nat | p.group < i < cfg.groups.count :: found(i, 0)
  }

  /** The error that leaves a round without a channel: none in the first round, the set-up of a locked channel in later
      ones, and otherwise that there is no channel or its set-up. */
  ghost function NoChannelError(cfg: Config, p: Retry, k: nat, r: Round): Option<Failure> {
    if cfg.locked then if p.count == 0 then None else r.setup
    else if k == 0 then None
    else if cfg.groups.Fixed? && !r.found(0, p.count) then Some(r.missing)
    else if cfg.groups.Auto? && !SomeGroup(cfg, p, r.found) then Some(r.missing)
    else r.setup
  }

  lemma ChannelLaw(cfg: Config, p: Retry, k: nat, r: Round)
    ensures GetChannel(cfg, p, k, r).1 == NoChannelError(cfg, p, k, r)
  {
    if !cfg.locked && k > 0 && cfg.groups.Auto? && p.group < cfg.groups.count {
      var i := FirstGroup(p, r.found, p.group, cfg.groups.count);
      assert i < cfg.groups.count ==> r.found(i, PriorityAt(p, i));
      if !r.found(p.group, p.count) && SomeGroup(cfg, p, r.found) {
        var j: nat :| p.group < j < cfg.groups.count && r.found(j, 0);
        assert r.found(j, PriorityAt(p, j));
        assert i <= j;
      }
    }
  }

  // ----- rounds of a run -----

  /** The retry state with which a run enters round `k`, if it does. */
  function Entering(cfg: Config, group: nat, rounds: nat -> Round, k: nat): Option<Retry> {
    if k == 0 then if cfg.retryTimes >= 0 then Some(Start(group)) else None
    else
      var before := Entering(cfg, group, rounds, k - 1);
      if before.None? then None
      else
        var next := Step(cfg, before.value, k - 1, rounds(k - 1));
        if next.Continue? && next.retry.count <= cfg.retryTimes then Some(next.retry) else None
  }

  lemma {:induction false} EnteredProper(cfg: Config, group: nat, rounds: nat -> Round, k: nat)
    requires Entering(cfg, group, rounds, k).Some?
    ensures var p := Entering(cfg, group, rounds, k).value; Proper(p, k) && p.count <= cfg.retryTimes
  {
    if k > 0 {
      EnteredProper(cfg, group, rounds, k - 1);
      StepUsesOne(cfg, Entering(cfg, group, rounds, k - 1).value, k - 1, rounds(k - 1));
    }
  }

  /** The run is that of any round it enters. */
  lemma {:induction false} RunFromRound(cfg: Config, group: nat, rounds: nat -> Round, k: nat)
      returns (last: Option<Failure>)
    requires Entering(cfg, group, rounds, k).Some?
    ensures var p := Entering(cfg, group, rounds, k).value;
      Proper(p, k) && Relayed(cfg, group, rounds) == Drive(cfg, p, rounds, k, last)
  {
    last := None;
    EnteredProper(cfg, group, rounds, k);
    if k > 0 {
      var before := RunFromRound(cfg, group, rounds, k - 1);
      var p := Entering(cfg, group, rounds, k - 1).value;
      EnteredProper(cfg, group, rounds, k - 1);
      last := Some(Step(cfg, p, k - 1, rounds(k - 1)).failure);
    }
  }

  /** Round `k` gets as far as an attempt. */
  ghost predicate Attempted(cfg: Config, p: Retry, k: nat, r: Round) {
    NoChannelError(cfg, p, k, r).None? && r.body.None?
  }

  /** Retries the counter leaves once round `k` has its channel. */
  function LeftAt(cfg: Config, p: Retry, k: nat, r: Round): int {
    cfg.retryTimes - GetChannel(cfg, p, k, r).0.count
  }

  /** The counter starts again with the next round, because the search went on to a new group. */
  predicate StartsAgain(cfg: Config, p: Retry, k: nat, r: Round) {
    GetChannel(cfg, p, k, r).0.resetNextTry
  }

  /** In every run another round follows if and only if the attempt failed in a way that is retried and the counter
      allows one more, or starts again. */
  lemma GoesOnIff(cfg: Config, group: nat, rounds: nat -> Round, k: nat)
    requires Entering(cfg, group, rounds, k).Some?
    ensures var p, r := Entering(cfg, group, rounds, k).value, rounds(k);
      Entering(cfg, group, rounds, k + 1).Some? <==>
      && Attempted(cfg, p, k, r) && r.outcome.Fails? && Retried(cfg, r, LeftAt(cfg, p, k, r))
      && (LeftAt(cfg, p, k, r) > 0 || StartsAgain(cfg, p, k, r))
  {
    var p, r := Entering(cfg, group, rounds, k).value, rounds(k);
    EnteredProper(cfg, group, rounds, k);
    ChannelLaw(cfg, p, k, r);
    if r.outcome.Fails? {
      AgainIff(cfg, r, LeftAt(cfg, p, k, r));
    }
  }

  /** How a run ends: with the last round it enters. Without a channel or a body that is its error; otherwise its
      attempt was the last one, and its failure, if it failed, is what is reported. */
  lemma EndsWith(cfg: Config, group: nat, rounds: nat -> Round, k: nat)
    requires Entering(cfg, group, rounds, k).Some? && Entering(cfg, group, rounds, k + 1).None?
    ensures var p, r := Entering(cfg, group, rounds, k).value, rounds(k);
      var missing := NoChannelError(cfg, p, k, r);
      Relayed(cfg, group, rounds) ==
      if missing.Some? then End(k, k, missing)
      else if r.body.Some? then End(k, k + 1, r.body)
      else End(k + 1, k + 1, if r.outcome.Succeeds? then None else Some(Normalize(r.outcome.failure)))
  {
    var p, r := Entering(cfg, group, rounds, k).value, rounds(k);
    EnteredProper(cfg, group, rounds, k);
    var last := RunFromRound(cfg, group, rounds, k);
    ChannelLaw(cfg, p, k, r);
    var next := Step(cfg, p, k, r);
    if next.Continue? {
      StepUsesOne(cfg, p, k, r);
    }
  }

  lemma RoundUsesOne(cfg: Config, group: nat, rounds: nat -> Round, k: nat)
    requires Entering(cfg, group, rounds, k + 1).Some?
    ensures Entering(cfg, group, rounds, k).Some?
    ensures Left(cfg, Entering(cfg, group, rounds, k + 1).value, k + 1) <
            Left(cfg, Entering(cfg, group, rounds, k).value, k)
  {
    EnteredProper(cfg, group, rounds, k);
    StepUsesOne(cfg, Entering(cfg, group, rounds, k).value, k, rounds(k));
  }

  /** Which rounds a run enters: all before its end, which is at one of them unless none may be made. */
  lemma {:induction false} LastRound(cfg: Config, group: nat, rounds: nat -> Round, k: nat) returns (n: nat)
    requires Entering(cfg, group, rounds, k).Some?
    ensures k <= n && Entering(cfg, group, rounds, n).Some? && Entering(cfg, group, rounds, n + 1).None?
    decreases Left(cfg, Entering(cfg, group, rounds, k).value, k)
  {
    n := k;
    if Entering(cfg, group, rounds, k + 1).Some? {
      RoundUsesOne(cfg, group, rounds, k);
      n := LastRound(cfg, group, rounds, k + 1);
    }
  }

  /** With a fixed group or a locked channel the counter is the round. */
  lemma {:induction false} FixedCount(cfg: Config, group: nat, rounds: nat -> Round, k: nat)
    requires (cfg.locked || cfg.groups.Fixed?) && Entering(cfg, group, rounds, k).Some?
    ensures Entering(cfg, group, rounds, k).value == Retry(k, false, group)
    ensures LeftAt(cfg, Retry(k, false, group), k, rounds(k)) == cfg.retryTimes - k
  {
    if k > 0 {
      FixedCount(cfg, group, rounds, k - 1);
    }
  }

  /** So there another round follows exactly if the attempt failed in a way that is retried with the retries that are
      left, and some are. */
  lemma FixedGoesOnIff(cfg: Config, group: nat, rounds: nat -> Round, k: nat)
    requires (cfg.locked || cfg.groups.Fixed?) && Entering(cfg, group, rounds, k).Some?
    ensures Entering(cfg, group, rounds, k + 1).Some? <==>
      && Attempted(cfg, Retry(k, false, group), k, rounds(k)) && rounds(k).outcome.Fails?
      && k < cfg.retryTimes && Retried(cfg, rounds(k), cfg.retryTimes - k)
  {
    FixedCount(cfg, group, rounds, k);
    GoesOnIff(cfg, group, rounds, k);
  }

  // ----- the violation fee -----

  /** The error of a round that is the last. */
  ghost function LastError(cfg: Config, p: Retry, k: nat, r: Round): Option<Failure> {
    if NoChannelError(cfg, p, k, r).Some? then NoChannelError(cfg, p, k, r)
    else if r.body.Some? then r.body
    else if r.outcome.Fails? then Some(r.outcome.failure)
    else None
  }

  /** A request pays the fee exactly if its last round ends in the violation that is fined. */
  lemma FinedIff(req: Request, rounds: nat -> Round, settles: Settles, k: nat)
    requires Admitted(req) && Entering(req.cfg, req.group, rounds, k).Some?
    requires Entering(req.cfg, req.group, rounds, k + 1).None?
    ensures var f := LastError(req.cfg, Entering(req.cfg, req.group, rounds, k).value, k, rounds(k));
      Relay.Outcome(req, rounds, settles).fee ==
      if f.Some? && f.value.ApiError? && f.value.violation == Marked then req.fee else 0
  {
    EndsWith(req.cfg, req.group, rounds, k);
  }
}
