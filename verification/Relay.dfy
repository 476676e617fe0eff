/**
  A relayed request from admission to the final charge: `Relay` and `RelayTask` of controller/relay.go over the retry
  loop and the billing session. Every database call that moves money may fail.
*/
module Relay {
  import opened Billing
  import opened Common
  import opened RetryLoop

  /** What a request is billed for in advance; a free model is not. */
  datatype Bill = Free | Bill(source: Source, playground: bool, quota: nat, trusted: bool, calls: Calls, rollback: bool)

  const NOTHING := Ledger(0, 0, 0)

  function Open(b: Bill): Opening {
    if b.Free? then Refused(NOTHING) else PreConsume(b.source, b.playground, b.quota, b.trusted, b.calls, b.rollback)
  }

  /** `early` is an error found before billing, `refusal` the one a refused advance gives, `refund` which calls of a
      final refund succeed, `fee` the violation fee. */
  datatype Request = Request(cfg: Config, group: nat, early: Option<Failure>, bill: Bill, refusal: Failure,
      refund: Calls, fee: nat)

  /** A settlement a handler asks for, and which of its calls succeed. */
  datatype Settlement = Settlement(actual: nat, calls: Calls)

  type Settles = nat -> Option<Settlement>

  datatype Report = Report(attempts: nat, used: seq<int>, error: Option<Failure>, ledger: Ledger, fee: nat)

  /** The session of a request, if it has one, with what it has cost. */
  datatype Account = NoAccount | Account(session: Session, ledger: Ledger)

  function AccountOf(o: Opening): Account {
    if o.Opened? then Account(o.session, o.ledger) else NoAccount
  }

  function Cost(a: Account): Ledger {
    if a.Account? then a.ledger else NOTHING
  }

  function After(a: Account, todo: seq<Call>): Account {
    if a.NoAccount? then a
    else
      var (s, l) := Run(a.session, a.ledger, todo);
      Account(s, l)
  }

  function Do(a: Account, call: Call): Account {
    if a.NoAccount? then a
    else
      var (s, l) := Apply(a.session, a.ledger, call);
      Account(s, l)
  }

  lemma AfterAppend(a: Account, todo: seq<Call>, last: Call)
    ensures After(a, todo + [last]) == Do(After(a, todo), last)
  {
    if a.Account? {
      RunAppend(a.session, a.ledger, todo, last);
    }
  }

  function Charge(x: Settlement): Call {
    Settling(x.actual, x.calls)
  }

  /** The settlements the handlers ask for in the first `k` attempts. */
  function Settlements(settles: Settles, k: nat): seq<Call> {
    if k == 0 then []
    else Settlements(settles, k - 1) + if settles(k - 1).Some? then [Charge(settles(k - 1).value)] else []
  }

  /** An attempt settles what its handler asks for. */
  function SettleAttempt(settles: Settles): (Account, nat) -> Account {
    (a: Account, k: nat) => if settles(k).Some? then Do(a, Charge(settles(k).value)) else a
  }

  lemma {:induction false} AttemptsSettle(a: Account, settles: Settles, k: nat)
    ensures Fold(SettleAttempt(settles), a, k) == After(a, Settlements(settles, k))
  {
    if k > 0 {
      AttemptsSettle(a, settles, k - 1);
      if settles(k - 1).Some? {
        AfterAppend(a, Settlements(settles, k - 1), Charge(settles(k - 1).value));
      } else {
        assert Settlements(settles, k) == Settlements(settles, k - 1);
      }
    }
  }

  function FinalError(e: End): Option<Failure> {
    if e.error.Some? then Some(Normalize(e.error.value)) else None
  }

  function FeeFor(req: Request, error: Option<Failure>): nat {
    if error.Some? && error.value.ApiError? && error.value.violation.Marked? then req.fee else 0
  }

  /** Everything billing is asked to do for the request. */
  function BillingCalls(settles: Settles, e: End, refund: Calls): seq<Call> {
    Settlements(settles, e.attempts) + if e.error.Some? then [Refunding(refund)] else []
  }

  predicate Admitted(req: Request) {
    req.early.None? && (req.bill.Free? || Open(req.bill).Opened?)
  }

  /** A request is let in exactly if there is no early error and it is free or no call for what is due in advance fails;
      its account then has paid that. */
  lemma AdmittedIff(req: Request)
    ensures var b := req.bill;
      Admitted(req) <==>
      && req.early.None?
      && (b.Bill? && AdvanceDue(b.source, b.quota, b.trusted) > 0 ==> b.calls.fund && (b.calls.token || b.playground))
    ensures Admitted(req) && req.bill.Bill? ==>
      var a := AccountOf(Open(req.bill));
      a.Account? && a.session.preConsumed == AdvanceDue(req.bill.source, req.bill.quota, req.bill.trusted)
  {
    var b := req.bill;
    if b.Bill? {
      OpeningIsFair(b.source, b.playground, b.quota, b.trusted, b.calls, b.rollback);
    }
  }

  function Outcome(req: Request, rounds: nat -> Round, settles: Settles): Report
    requires Admitted(req)
  {
    var e := Relayed(req.cfg, req.group, rounds);
    Report(e.attempts, Channels(rounds, e.noted), FinalError(e),
           Cost(After(AccountOf(Open(req.bill)), BillingCalls(settles, e, req.refund))), FeeFor(req, FinalError(e)))
  }

  /** `Relay`: nothing is owed before the advance is paid, and an error after it gives the advance back. */
  method RelayRequest(req: Request, rounds: nat -> Round, settles: Settles) returns (report: Report)
    ensures req.early.Some? ==> report == Report(0, [], req.early, NOTHING, 0)
    ensures req.early.None? && !Admitted(req) ==> report == Report(0, [], Some(req.refusal), Open(req.bill).ledger, 0)
    ensures Admitted(req) ==> report == Outcome(req, rounds, settles)
  {
    if req.early.Some? {
      return Report(0, [], req.early, NOTHING, 0);
    }
    var o := Open(req.bill);
    if req.bill.Bill? && o.Refused? {
      return Report(0, [], Some(req.refusal), o.ledger, 0);
    }
    var e, t := TryChannels(req.cfg, req.group, rounds, SettleAttempt(settles), AccountOf(o));
    AttemptsSettle(AccountOf(o), settles, e.attempts);
    var error, a := e.error, t.made;
    if error.Some? {
      AfterAppend(AccountOf(o), Settlements(settles, e.attempts), Refunding(req.refund));
      error := Some(Normalize(error.value));
      a := Do(a, Refunding(req.refund));
    } else {
      assert BillingCalls(settles, e, req.refund) == Settlements(settles, e.attempts);
    }
    report := Report(e.attempts, t.used, error, Cost(a), FeeFor(req, error));
  }

  // ----- what a request costs -----

  /** The first settlement that goes through in the first `k` attempts: later ones are ignored. */
  function FirstAccepted(preConsumed: nat, settles: Settles, k: nat): Option<Settlement> {
    if k == 0 then None
    else if FirstAccepted(preConsumed, settles, k - 1).Some? then FirstAccepted(preConsumed, settles, k - 1)
    else if settles(k - 1).Some? && Accepted(preConsumed, Charge(settles(k - 1).value)) then settles(k - 1)
    else None
  }

  /** What the settlements up to that one count against a team member. */
  function UseCounted(preConsumed: nat, settles: Settles, k: nat): nat {
    if k == 0 then 0
    else
      var before := UseCounted(preConsumed, settles, k - 1);
      if settles(k - 1).Some? && FirstAccepted(preConsumed, settles, k - 1).None?
      then before + settles(k - 1).value.actual
      else before
  }

  /** One side of the charge: the settled amount if the side could be adjusted, nothing if there was no settlement and
      the refund of the side worked, and otherwise the advance. */
  function Side(preConsumed: nat, first: Option<Settlement>, adjusted: bool, refunded: bool): nat {
    if first.Some? then if adjusted then first.value.actual else preConsumed
    else if refunded then 0
    else preConsumed
  }

  /** The whole charge; `back` is which sides are refunded. */
  function ChargeOf(s: Session, first: Option<Settlement>, used: nat, back: Calls): Ledger {
    Ledger(Side(s.preConsumed, first, true, back.fund),
           if s.playground then 0 else Side(s.preConsumed, first, first.Some? && first.value.calls.token, back.token),
           if s.source.Team? && !s.playground then used else 0)
  }

  const NO_REFUND := Calls(false, false)

  ghost predicate SettledSoFar(start: Session, a: Account, first: Option<Settlement>, used: nat) {
    && a.Account? && a.ledger == ChargeOf(start, first, used, NO_REFUND)
    && if first.Some? then a.session.settled else a.session == start
  }

  lemma {:induction false} AttemptsCost(a: Account, settles: Settles, k: nat)
    requires a.Account? && Started(a.session, a.ledger)
    ensures var pre := a.session.preConsumed;
      SettledSoFar(a.session, Fold(SettleAttempt(settles), a, k), FirstAccepted(pre, settles, k),
        UseCounted(pre, settles, k))
  {
    if k > 0 {
      AttemptsCost(a, settles, k - 1);
    }
  }

  /** What a billed request costs, whichever database calls fail: on each side the first settlement that goes through,
      without one nothing if the run ends in an error and the refund works, and otherwise the advance. */
  lemma RequestCost(req: Request, rounds: nat -> Round, settles: Settles)
    requires Admitted(req) && req.bill.Bill?
    ensures var report, s := Outcome(req, rounds, settles), Open(req.bill).session;
      report.ledger == ChargeOf(s, FirstAccepted(s.preConsumed, settles, report.attempts),
                                UseCounted(s.preConsumed, settles, report.attempts),
                                if report.error.Some? then req.refund else NO_REFUND)
  {
    var b, a, e := req.bill, AccountOf(Open(req.bill)), Relayed(req.cfg, req.group, rounds);
    OpeningIsFair(b.source, b.playground, b.quota, b.trusted, b.calls, b.rollback);
    AttemptsCost(a, settles, e.attempts);
    AttemptsSettle(a, settles, e.attempts);
    if e.error.Some? {
      AfterAppend(a, Settlements(settles, e.attempts), Refunding(req.refund));
    } else {
      assert BillingCalls(settles, e, req.refund) == Settlements(settles, e.attempts);
    }
  }

  /** Without failures: the same amount on both sides, and a team member is counted once. */
  lemma RequestCostWithoutFailures(req: Request, rounds: nat -> Round, settles: Settles)
    requires Admitted(req) && req.bill.Bill? && req.refund == ALL_OK
    requires forall k: nat | settles(k).Some? :: settles(k).value.calls == ALL_OK
    ensures var report, s := Outcome(req, rounds, settles), Open(req.bill).session;
      var first := FirstAccepted(s.preConsumed, settles, report.attempts);
      Costs(s, report.ledger,
            if first.Some? then first.value.actual else if report.error.Some? then 0 else s.preConsumed,
            if first.Some? then first.value.actual else 0)
  {
    RequestCost(req, rounds, settles);
    UseWithoutFailures(Open(req.bill).session.preConsumed, settles, Outcome(req, rounds, settles).attempts);
  }

  lemma {:induction false} UseWithoutFailures(preConsumed: nat, settles: Settles, k: nat)
    requires forall k: nat | settles(k).Some? :: settles(k).value.calls == ALL_OK
    ensures var first := FirstAccepted(preConsumed, settles, k);
      && (first.Some? ==> first.value.calls == ALL_OK)
      && UseCounted(preConsumed, settles, k) == if first.Some? then first.value.actual else 0
  {
    if k > 0 {
      UseWithoutFailures(preConsumed, settles, k - 1);
    }
  }

  /** An admitted request is answered: with the one attempt that succeeded, after attempts that all failed and might be
      retried, or with an error. */
  lemma RequestAnswered(req: Request, rounds: nat -> Round, settles: Settles)
    requires Admitted(req) && req.cfg.retryTimes >= 0
    ensures var report := Outcome(req, rounds, settles);
      && report.attempts <= MaxAttempts(req.cfg, req.group)
      && (forall i: nat | i + 1 < report.attempts :: FailedAndRetried(req.cfg, rounds(i)))
      && (report.error.None? <==> report.attempts > 0 && rounds(report.attempts - 1).outcome.Succeeds?)
      && report.attempts <= |report.used| <= report.attempts + 1
      && forall i: nat | i < |report.used| :: report.used[i] == rounds(i).channel
  {
    var e := Relayed(req.cfg, req.group, rounds);
    AttemptsBound(req.cfg, req.group, rounds);
    RunEndsWell(req.cfg, Start(req.group), rounds, 0, None);
    ChannelsInOrder(rounds, e.noted);
  }

  /** With a negative number of retries an admitted request is never tried, gets no error and keeps its advance. */
  lemma NeverTriedIff(req: Request, rounds: nat -> Round, settles: Settles)
    requires Admitted(req)
    ensures var report := Outcome(req, rounds, settles);
      report.attempts == 0 && report.error.None? <==> req.cfg.retryTimes < 0
  {
    if req.cfg.retryTimes >= 0 {
      RequestAnswered(req, rounds, settles);
    }
  }

  /** A violation is never retried, whatever the error was, and pays the fee when it is the marked one. */
  lemma ViolationEndsRun(req: Request, rounds: nat -> Round, settles: Settles, i: nat)
    requires Admitted(req) && req.cfg.retryTimes >= 0 && i < Outcome(req, rounds, settles).attempts
    requires rounds(i).outcome.Fails? && rounds(i).outcome.failure.ApiError? &&
      !rounds(i).outcome.failure.violation.Clean?
    ensures i + 1 == Outcome(req, rounds, settles).attempts
  {
    RequestAnswered(req, rounds, settles);
    assert !FailedAndRetried(req.cfg, rounds(i));
  }
}
