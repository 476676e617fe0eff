/**
  A relayed task (`RelayTask` of controller/relay.go with `RelayTaskSubmit` of relay/relay_task.go). The advance is
  taken inside the first attempt that gets that far and kept for the later ones; a success settles it and records the
  task, an error gives it back.
*/
module TaskRelay {
  import opened Billing
  import opened Common
  import opened Relay
  import opened RetryLoop

  /** One round: what the outside world decides, the advance the attempt asks for (`Free` when it is a free model or
      fails before asking), the error of a refused advance, and the settlement a success leads to. */
  datatype TaskRound = TaskRound(round: Round, bill: Bill, refusal: Failure, result: Settlement)

  /** Tasks are never trusted without an advance. */
  function OpenTask(b: Bill): Opening {
    if b.Free? then Open(b) else Open(b.(trusted := false))
  }

  /** The account, and the token quota lost to refused advances whose rollback failed. */
  datatype Advance = Advance(account: Account, lost: int)

  /** An attempt opens the account only when there is none yet. */
  function OpenAttempt(tasks: nat -> TaskRound): (Advance, nat) -> Advance {
    (a: Advance, k: nat) =>
      if a.account.Account? then a
      else
        var o := OpenTask(tasks(k).bill);
        Advance(AccountOf(o), if o.Refused? then a.lost + o.ledger.tokens else a.lost)
  }

  function AdvanceAt(tasks: nat -> TaskRound, k: nat): Advance {
    Fold(OpenAttempt(tasks), Advance(NoAccount, 0), k)
  }

  /** The account after the first `k` attempts. */
  function AccountAt(tasks: nat -> TaskRound, k: nat): Account {
    AdvanceAt(tasks, k).account
  }

  predicate RefusedAt(tasks: nat -> TaskRound, k: nat) {
    AccountAt(tasks, k).NoAccount? && tasks(k).bill.Bill? && OpenTask(tasks(k).bill).Refused?
  }

  /** The rounds as the retry loop sees them: an attempt whose advance is refused fails. */
  function Rounds(tasks: nat -> TaskRound): nat -> Round {
    (k: nat) => if RefusedAt(tasks, k) then tasks(k).round.(outcome := Fails(tasks(k).refusal)) else tasks(k).round
  }

  datatype TaskResult = Failed(failure: Failure) | Recorded(quota: nat) | Crashed

  datatype TaskReport = TaskReport(attempts: nat, used: seq<int>, result: TaskResult, ledger: Ledger, lost: int)

  /** The session was opened by attempt `i`, whose advance is due even of a trusted user. */
  predicate OpenedBy(s: Session, tasks: nat -> TaskRound, i: nat) {
    var b := tasks(i).bill;
    b.Bill? && s.source == b.source && s.playground == b.playground &&
      s.preConsumed == AdvanceDue(b.source, b.quota, false)
  }

  /** An account is opened by one of the attempts with its advance paid, and nothing touches it while attempts are made.
      Refused advances lose nothing if their rollbacks work. */
  lemma {:induction false} AccountUntouched(tasks: nat -> TaskRound, k: nat)
    ensures var a := AdvanceAt(tasks, k);
      && (a.account.Account? ==>
            && Started(a.account.session, a.account.ledger)
            && exists i: nat | i < k :: OpenedBy(a.account.session, tasks, i))
      && a.lost >= 0
      && ((forall i: nat | i < k && tasks(i).bill.Bill? :: tasks(i).bill.rollback) ==> a.lost == 0)
  {
    if k > 0 {
      AccountUntouched(tasks, k - 1);
      var b := tasks(k - 1).bill;
      if b.Bill? {
        OpeningIsFair(b.source, b.playground, b.quota, false, b.calls, b.rollback);
      }
      if AccountAt(tasks, k - 1).Account? {
        var i: nat :| i < k - 1 && OpenedBy(AccountAt(tasks, k - 1).session, tasks, i);
        assert OpenedBy(AccountAt(tasks, k).session, tasks, i);
      } else if AccountAt(tasks, k).Account? {
        assert OpenedBy(AccountAt(tasks, k).session, tasks, k - 1);
      }
    }
  }

  /** What a task that opened an account is charged on top of that. A failure gives back each side whose refund works. A
      recorded task pays its quota if the settlement goes through, and otherwise its advance; a team member is counted
      either way. */
  ghost predicate FairlyCharged(s: Session, report: TaskReport, settlement: Settlement, refund: Calls) {
    match report.result
    case Failed(_) => report.ledger == ChargeOf(s, None, 0, refund)
    case Recorded(quota) =>
      && quota == settlement.actual
      && report.ledger ==
        ChargeOf(s, if Accepted(s.preConsumed, Charge(settlement)) then Some(settlement) else None, quota, NO_REFUND)
    case Crashed => false
  }

  /** `RelayTask`: exactly one of an error and a recorded task, each with its charge; with a negative number of retries
      neither, because the missing result of an attempt that was never made is used. */
  method RelayTaskRequest(cfg: Config, group: nat, early: Option<Failure>, tasks: nat -> TaskRound, refund: Calls)
      returns (report: TaskReport)
    ensures early.Some? ==> report == TaskReport(0, [], Failed(early.value), NOTHING, 0)
    ensures early.None? ==>
      var e := Relayed(cfg, group, Rounds(tasks));
      && report.attempts == e.attempts && report.attempts <= MaxAttempts(cfg, group)
      && report.used == Channels(Rounds(tasks), e.noted)
      && (report.result.Crashed? <==> cfg.retryTimes < 0)
      && (report.result.Failed? <==> e.error.Some?)
      && (report.result.Failed? ==> report.result.failure == e.error.value)
      && (report.result.Recorded? ==>
        report.attempts > 0 && report.result.quota == tasks(report.attempts - 1).result.actual)
      && report.lost == AdvanceAt(tasks, report.attempts).lost
      && var a := AccountAt(tasks, report.attempts);
         if a.Account?
         then report.attempts > 0 && FairlyCharged(a.session, report, tasks(report.attempts - 1).result, refund)
         else report.ledger == NOTHING
  {
    if early.Some? {
      return TaskReport(0, [], Failed(early.value), NOTHING, 0);
    }
    var e, t := TryChannels(cfg, group, Rounds(tasks), OpenAttempt(tasks), Advance(NoAccount, 0));
    var a, lost := t.made.account, t.made.lost;
    AccountUntouched(tasks, e.attempts);
    EndsOneWay(cfg, group, tasks);
    AttemptsBound(cfg, group, Rounds(tasks));
    if e.error.Some? {
      report := TaskReport(e.attempts, t.used, Failed(e.error.value), Cost(Do(a, Refunding(refund))), lost);
    } else if e.attempts == 0 {
      report := TaskReport(0, t.used, Crashed, NOTHING, lost);
    } else {
      var x := tasks(e.attempts - 1).result;
      report := TaskReport(e.attempts, t.used, Recorded(x.actual), Cost(Do(a, Charge(x))), lost);
    }
  }

  /** A run of attempts ends in an error or with a success, unless none may be made. */
  lemma EndsOneWay(cfg: Config, group: nat, tasks: nat -> TaskRound)
    ensures var e := Relayed(cfg, group, Rounds(tasks));
      && (cfg.retryTimes < 0 ==> e == End(0, 0, None))
      && (cfg.retryTimes >= 0 ==>
        (e.error.None? <==> e.attempts > 0 && Rounds(tasks)(e.attempts - 1).outcome.Succeeds?))
  {
    if cfg.retryTimes >= 0 {
      RunEndsWell(cfg, Start(group), Rounds(tasks), 0, None);
    }
  }

  /** A recorded task that asked for an advance has paid one: a refused advance cannot succeed. */
  lemma {:induction false} SuccessHasAccount(tasks: nat -> TaskRound, k: nat)
    requires Rounds(tasks)(k).outcome.Succeeds? && tasks(k).bill.Bill?
    ensures AccountAt(tasks, k + 1).Account?
  {
    assert !RefusedAt(tasks, k);
  }

  /** The account that is opened first stays. */
  lemma {:induction false} AccountStays(tasks: nat -> TaskRound, k: nat, n: nat)
    requires k <= n && AccountAt(tasks, k).Account?
    ensures AdvanceAt(tasks, n) == AdvanceAt(tasks, k)
  {
    if k < n {
      AccountStays(tasks, k, n - 1);
    }
  }

  /** The attempt asks for an advance, because there is no account yet, and a call for it fails. */
  predicate AdvanceFails(tasks: nat -> TaskRound, k: nat) {
    var b := tasks(k).bill;
    && AccountAt(tasks, k).NoAccount? && b.Bill? && AdvanceDue(b.source, b.quota, false) > 0
    && (!b.calls.fund || (!b.calls.token && !b.playground))
  }

  /** An attempt goes as the upstream has it, except that one whose advance fails fails with that. */
  lemma AttemptGoes(tasks: nat -> TaskRound, k: nat)
    ensures Rounds(tasks)(k) ==
      if AdvanceFails(tasks, k) then tasks(k).round.(outcome := Fails(tasks(k).refusal)) else tasks(k).round
    ensures AccountAt(tasks, k).NoAccount? && tasks(k).bill.Bill? && !AdvanceFails(tasks, k) ==>
      AccountAt(tasks, k + 1).Account?
  {
    var b := tasks(k).bill;
    if b.Bill? {
      OpeningIsFair(b.source, b.playground, b.quota, false, b.calls, b.rollback);
    }
  }

  /** The token quota that refused advances keep: each that took it, failed on the funding source and was not rolled
      back. */
  function Kept(tasks: nat -> TaskRound, k: nat): int {
    if k == 0 then 0
    else
      var b := tasks(k - 1).bill;
      Kept(tasks, k - 1) +
      if AdvanceFails(tasks, k - 1) && b.calls.token && !b.playground && !b.rollback
        then AdvanceDue(b.source, b.quota, false)
      else 0
  }

  lemma {:induction false} LostIsKept(tasks: nat -> TaskRound, k: nat)
    ensures AdvanceAt(tasks, k).lost == Kept(tasks, k)
  {
    if k > 0 {
      LostIsKept(tasks, k - 1);
      var b := tasks(k - 1).bill;
      if b.Bill? {
        OpeningIsFair(b.source, b.playground, b.quota, false, b.calls, b.rollback);
      }
    }
  }
}
