/**
  The billing session of one request (service/billing_session.go with service/funding_source.go): quota is taken
  in advance, and later either settled at the actual amount or refunded.
*/
module Billing {

  datatype Source = Wallet | Subscription | Team

  /** `funded` is what a refund of the funding source gives back; `preConsumed` what settling is measured against. */
  datatype Session = Session(
    source: Source,
    playground: bool,
    preConsumed: nat,
    tokenConsumed: nat,
    funded: nat,
    fundingSettled: bool,
    settled: bool,
    refunded: bool)

  /** What the request has cost so far: the funding source, the token, and what a team member's cap was charged. */
  datatype Ledger = Ledger(funds: int, tokens: int, member: nat)

  /** Which of the two database calls of a step succeed. */
  datatype Calls = Calls(fund: bool, token: bool)

  const ALL_OK := Calls(true, true)

  datatype Opening = Opened(session: Session, ledger: Ledger) | Refused(ledger: Ledger)

  function Amount(source: Source, quota: nat): nat {
    if source.Wallet? || quota > 0 then quota else 1
  }

  /** `preConsume`: the token first, then the funding source; when the second fails the first is rolled back
      (`rollback` is whether that works). Only a wallet user can be trusted and then pays nothing in advance. */
  function PreConsume(source: Source, playground: bool, quota: nat, trusted: bool, calls: Calls,
      rollback: bool): Opening {
    var effective := if trusted && source.Wallet? then 0 else Amount(source, quota);
    var token := if playground then 0 else effective;
    if token > 0 && !calls.token then Refused(Ledger(0, 0, 0))
    else if effective > 0 && !calls.fund then Refused(Ledger(0, if rollback then 0 else token, 0))
    else
      Opened(Session(source, playground, effective, effective, effective, false, false, false),
        Ledger(effective, token, 0))
  }

  /** A team member's use is counted before anything else is tried. */
  function CountMember(s: Session, l: Ledger, actual: nat): Ledger {
    if s.source.Team? && !s.playground then l.(member := l.member + actual) else l
  }

  function Settle(s: Session, l: Ledger, actual: nat, calls: Calls): (Session, Ledger) {
    if s.settled then (s, l)
    else
      var l := CountMember(s, l, actual);
      var delta := actual - s.preConsumed;
      if delta == 0 then (s.(settled := true), l)
      else if !s.fundingSettled && !calls.fund then (s, l)
      else
        (s.(fundingSettled := true, settled := true),
         l.(funds := if s.fundingSettled then l.funds else l.funds + delta,
            tokens := if !s.playground && calls.token then l.tokens + delta else l.tokens))
  }

  predicate NeedsRefund(s: Session) {
    && !s.settled && !s.refunded && !s.fundingSettled
    && (s.tokenConsumed > 0 || (s.source.Subscription? && s.funded > 0))
  }

  function Refund(s: Session, l: Ledger, calls: Calls): (Session, Ledger) {
    if !NeedsRefund(s) then (s, l)
    else
      (s.(refunded := true),
       l.(funds := l.funds - if calls.fund then s.funded else 0,
          tokens := l.tokens - if calls.token && s.tokenConsumed > 0 && !s.playground then s.tokenConsumed else 0))
  }

  // ----- whole sessions -----

  datatype Call = Settling(actual: nat, calls: Calls) | Refunding(calls: Calls)

  function Apply(s: Session, l: Ledger, call: Call): (Session, Ledger) {
    match call case Settling(actual, calls) => Settle(s, l, actual, calls) case Refunding(calls) => Refund(s, l, calls)
  }

  function Run(s: Session, l: Ledger, todo: seq<Call>): (Session, Ledger)
    decreases |todo|
  {
    if todo == [] then (s, l)
    else
      var (s', l') := Apply(s, l, todo[0]);
      Run(s', l', todo[1..])
  }

  /** The request costs `amount` on both sides, and a team member is counted `used`. */
  predicate Costs(s: Session, l: Ledger, amount: int, used: nat) {
    l == Ledger(amount, if s.playground then 0 else amount, if s.source.Team? && !s.playground then used else 0)
  }

  ghost predicate Started(s: Session, l: Ledger) {
    && !s.settled && !s.refunded && !s.fundingSettled
    && s.tokenConsumed == s.funded == s.preConsumed && Costs(s, l, s.preConsumed, 0)
  }

  /** What is taken in advance: nothing of a trusted wallet user, else the quota, but at least one of a subscription or
      a team. */
  function AdvanceDue(source: Source, quota: nat, trusted: bool): nat {
    match source
    case Wallet => if trusted then 0 else quota
    case _ => if quota == 0 then 1 else quota
  }

  /** A request that is let in has paid its advance on both sides, which is what is due. It is refused exactly if a call
      for it fails, and has then paid nothing, unless the rollback itself fails. */
  lemma OpeningIsFair(source: Source, playground: bool, quota: nat, trusted: bool, calls: Calls, rollback: bool)
    ensures var o := PreConsume(source, playground, quota, trusted, calls, rollback);
      var due := AdvanceDue(source, quota, trusted);
      && (o.Opened? ==>
            && Started(o.session, o.ledger)
            && o.session.source == source && o.session.playground == playground && o.session.preConsumed == due)
      && (o.Refused? <==> due > 0 && (!calls.fund || (!calls.token && !playground)))
      && (o.Refused? ==>
            o.ledger == Ledger(0, if !rollback && !playground && calls.token then due else 0, 0))
  {
  }

  /** Once settled, refunded or with nothing to give back, a session no longer moves money on a refund. */
  lemma {:induction false} NothingMoves(s: Session, l: Ledger, todo: seq<Call>)
    requires s.settled || ((forall i | 0 <= i < |todo| :: todo[i].Refunding?) && !NeedsRefund(s))
    ensures Run(s, l, todo) == (s, l)
    decreases |todo|
  {
    if todo != [] {
      NothingMoves(s, l, todo[1..]);
    }
  }

  // ----- what any sequence of calls costs, whichever database calls fail -----

  /** A settlement that goes through: there is nothing to adjust, or the funding source accepts. */
  predicate Accepted(preConsumed: nat, call: Call) {
    call.Settling? && (call.actual == preConsumed || call.calls.fund)
  }

  /** The first accepted settlement, or `|todo|`. */
  function Decider(preConsumed: nat, todo: seq<Call>): (d: nat)
    ensures d <= |todo|
    ensures d < |todo| ==> Accepted(preConsumed, todo[d])
    ensures forall i | 0 <= i < d :: !Accepted(preConsumed, todo[i])
  {
    if todo == [] || Accepted(preConsumed, todo[0]) then 0 else 1 + Decider(preConsumed, todo[1..])
  }

  /** The first refund, or `|todo|`. */
  function FirstRefund(todo: seq<Call>): (r: nat)
    ensures r <= |todo|
    ensures r < |todo| ==> todo[r].Refunding?
    ensures forall i | 0 <= i < r :: todo[i].Settling?
  {
    if todo == [] || todo[0].Refunding? then 0 else 1 + FirstRefund(todo[1..])
  }

  /** What settlements up to the deciding one count against a team member. */
  function Counted(preConsumed: nat, todo: seq<Call>): nat {
    if todo == [] then 0
    else if todo[0].Refunding? then Counted(preConsumed, todo[1..])
    else todo[0].actual + if Accepted(preConsumed, todo[0]) then 0 else Counted(preConsumed, todo[1..])
  }

  /** A refund counts only if it comes before the deciding settlement. */
  predicate GivesBack(preConsumed: nat, todo: seq<Call>) {
    FirstRefund(todo) < |todo| && FirstRefund(todo) < Decider(preConsumed, todo)
  }

  function Returned(preConsumed: nat, todo: seq<Call>): Calls {
    if GivesBack(preConsumed, todo) then todo[FirstRefund(todo)].calls else Calls(false, false)
  }

  function Adjusted(preConsumed: nat, todo: seq<Call>): Calls {
    var d := Decider(preConsumed, todo);
    if d < |todo| then Calls(true, todo[d].calls.token) else Calls(false, false)
  }

  /** The difference the deciding settlement makes. */
  function Delta(preConsumed: nat, todo: seq<Call>): int {
    var d := Decider(preConsumed, todo);
    if d < |todo| then todo[d].actual - preConsumed else 0
  }

  /** How a side changes over a run: the advance comes back if the refund of this side works, and the difference is
      taken if the adjustment of this side works. */
  function Change(preConsumed: int, returned: bool, adjusted: bool, delta: int): int {
    (if returned then -preConsumed else 0) + if adjusted then delta else 0
  }

  /** `l'` is what the calls `todo` make of the ledger `l` of an unsettled session. */
  ghost predicate ChangedBy(s: Session, l: Ledger, l': Ledger, todo: seq<Call>) {
    var pre := s.preConsumed;
    var back, adjusted, delta := Returned(pre, todo), Adjusted(pre, todo), Delta(pre, todo);
    && l'.funds == l.funds + Change(pre, back.fund && !s.refunded, adjusted.fund, delta)
    && l'.tokens ==
      l.tokens + (if s.playground then 0 else Change(pre, back.token && !s.refunded, adjusted.token, delta))
    && l'.member == l.member + if s.source.Team? && !s.playground then Counted(pre, todo) else 0
  }

  ghost predicate Unsettled(s: Session) {
    !s.settled && !s.fundingSettled && s.tokenConsumed == s.funded == s.preConsumed
  }

  lemma AcceptedFirst(s: Session, l: Ledger, todo: seq<Call>)
    requires Unsettled(s) && todo != [] && Accepted(s.preConsumed, todo[0])
    ensures Apply(s, l, todo[0]).0.settled && ChangedBy(s, l, Apply(s, l, todo[0]).1, todo)
  {
    assert Decider(s.preConsumed, todo) == 0;
  }

  /** A settlement that is turned down leaves the decision to the calls after it. */
  lemma TurnedDownFirst(s: Session, l: Ledger, todo: seq<Call>, end: Ledger)
    requires Unsettled(s) && todo != [] && todo[0].Settling? && !Accepted(s.preConsumed, todo[0])
    requires ChangedBy(s, Apply(s, l, todo[0]).1, end, todo[1..])
    ensures Apply(s, l, todo[0]).0 == s && ChangedBy(s, l, end, todo)
  {
    var pre, rest := s.preConsumed, todo[1..];
    assert Decider(pre, todo) == 1 + Decider(pre, rest) && FirstRefund(todo) == 1 + FirstRefund(rest);
  }

  /** The first refund is the one that counts. */
  lemma RefundFirst(s: Session, l: Ledger, todo: seq<Call>, end: Ledger)
    requires Unsettled(s) && todo != [] && todo[0].Refunding?
    requires ChangedBy(Apply(s, l, todo[0]).0, Apply(s, l, todo[0]).1, end, todo[1..])
    ensures Unsettled(Apply(s, l, todo[0]).0) && ChangedBy(s, l, end, todo)
  {
    var pre, rest := s.preConsumed, todo[1..];
    assert Decider(pre, todo) == 1 + Decider(pre, rest) && FirstRefund(todo) == 0;
  }

  lemma {:induction false} RunChanges(s: Session, l: Ledger, todo: seq<Call>)
    requires Unsettled(s)
    ensures ChangedBy(s, l, Run(s, l, todo).1, todo)
    decreases |todo|
  {
    if todo != [] {
      var (s', l') := Apply(s, l, todo[0]);
      if Accepted(s.preConsumed, todo[0]) {
        AcceptedFirst(s, l, todo);
        NothingMoves(s', l', todo[1..]);
      } else {
        RunChanges(s', l', todo[1..]);
        if todo[0].Settling? {
          TurnedDownFirst(s, l, todo, Run(s, l, todo).1);
        } else {
          RefundFirst(s, l, todo, Run(s, l, todo).1);
        }
      }
    }
  }

  /** What any sequence of settle and refund calls costs, whichever database calls fail: the advance, less what the
      first refund before the deciding settlement gives back, plus the difference of that settlement, each side by its
      own calls. A team member is counted for every settlement up to the deciding one. */
  lemma CostOfRun(s: Session, l: Ledger, todo: seq<Call>)
    requires Started(s, l)
    ensures var l', pre := Run(s, l, todo).1, s.preConsumed;
      var back, adjusted, delta := Returned(pre, todo), Adjusted(pre, todo), Delta(pre, todo);
      && l'.funds == pre + Change(pre, back.fund, adjusted.fund, delta)
      && l'.tokens == (if s.playground then 0 else pre + Change(pre, back.token, adjusted.token, delta))
      && l'.member == if s.source.Team? && !s.playground then Counted(pre, todo) else 0
  {
    RunChanges(s, l, todo);
  }

  /** What the funding source should be charged: the settled amount, nothing once refunded, the advance before
      either. */
  function Due(preConsumed: nat, todo: seq<Call>): nat {
    var d := Decider(preConsumed, todo);
    if d < |todo| then todo[d].actual else if FirstRefund(todo) < |todo| then 0 else preConsumed
  }

  /** It is charged that exactly when there was no advance, or no working refund came before the settlement, or, without
      a settlement, the refund if any works. */
  lemma FundsDueIff(s: Session, l: Ledger, todo: seq<Call>)
    requires Started(s, l)
    ensures var pre, d, r := s.preConsumed, Decider(s.preConsumed, todo), FirstRefund(todo);
      Run(s, l, todo).1.funds == Due(pre, todo) <==>
      pre == 0 || (if d < |todo| then d < r || !todo[r].calls.fund else r < |todo| ==> todo[r].calls.fund)
  {
    CostOfRun(s, l, todo);
  }

  /** Without failures and with nothing settled after a refund, the first call decides for both sides. */
  lemma FirstCallDecides(s: Session, l: Ledger, todo: seq<Call>)
    requires Started(s, l) && forall i | 0 <= i < |todo| :: todo[i].calls == ALL_OK
    requires todo != [] && todo[0].Refunding? ==> forall i | 0 <= i < |todo| :: todo[i].Refunding?
    ensures if todo == [] then Costs(s, Run(s, l, todo).1, s.preConsumed, 0)
            else if todo[0].Refunding? then Costs(s, Run(s, l, todo).1, 0, 0)
            else Costs(s, Run(s, l, todo).1, todo[0].actual, todo[0].actual)
  {
    if todo != [] {
      var (s', l') := Apply(s, l, todo[0]);
      NothingMoves(s', l', todo[1..]);
    }
  }

  /** Settling after a refund charges the difference to the returned advance, so it is right exactly when there was
      none. */
  lemma SettleAfterRefund(s: Session, l: Ledger, actual: nat)
    requires Started(s, l)
    ensures Costs(s, Run(s, l, [Refunding(ALL_OK), Settling(actual, ALL_OK)]).1, actual, actual) <==> s.preConsumed == 0
  {
    var todo, last := [Refunding(ALL_OK), Settling(actual, ALL_OK)], [Settling(actual, ALL_OK)];
    assert todo[1..] == last && last[1..] == [];
    CostOfRun(s, l, todo);
    assert Decider(s.preConsumed, todo) == 1 && FirstRefund(todo) == 0;
  }

  /** `failures` attempts to settle that the funding source turns down, then one that it accepts. */
  function Retried(actual: nat, failures: nat): seq<Call> {
    if failures == 0 then [Settling(actual, ALL_OK)]
    else [Settling(actual, Calls(false, true))] + Retried(actual, failures - 1)
  }

  /** How often such a settlement counts a team member: at every try, but an amount equal to the advance needs only
      one. */
  function Tries(s: Session, actual: nat, failures: nat): nat {
    if actual == s.preConsumed then 1 else failures + 1
  }

  /** The money is right however often settling has to be retried, but a team member is counted at every try. */
  lemma {:induction false} RetriedSettlement(s: Session, l: Ledger, actual: nat, failures: nat)
    requires !s.settled && !s.fundingSettled
    ensures var l' := Run(s, l, Retried(actual, failures)).1;
      && l'.funds == l.funds + actual - s.preConsumed
      && l'.tokens == (if s.playground then l.tokens else l.tokens + actual - s.preConsumed)
      && l'.member ==
        (if s.source.Team? && !s.playground then l.member + Tries(s, actual, failures) * actual else l.member)
    decreases failures
  {
    if failures == 0 || actual == s.preConsumed {
      var (s1, l1) := Apply(s, l, Retried(actual, failures)[0]);
      NothingMoves(s1, l1, Retried(actual, failures)[1..]);
    } else {
      var l1 := CountMember(s, l, actual);
      assert Retried(actual, failures)[1..] == Retried(actual, failures - 1);
      RetriedSettlement(s, l1, actual, failures - 1);
      assert (failures + 1) * actual == failures * actual + actual;
    }
  }

  /** So a member's use is counted once exactly when the first attempt is accepted (or nothing was used). */
  lemma CountedOnceIff(s: Session, l: Ledger, actual: nat, failures: nat)
    requires !s.settled && !s.fundingSettled && s.source.Team? && !s.playground
    ensures Run(s, l, Retried(actual, failures)).1.member == l.member + actual <==>
      failures == 0 || actual == 0 || actual == s.preConsumed
  {
    RetriedSettlement(s, l, actual, failures);
    if failures > 0 && actual > 0 {
      assert (failures + 1) * actual == failures * actual + actual;
    }
  }

  lemma {:induction false} RunAppend(s: Session, l: Ledger, todo: seq<Call>, last: Call)
    ensures var (s', l') := Run(s, l, todo);
      Run(s, l, todo + [last]) == Apply(s', l', last)
    decreases |todo|
  {
    if todo == [] {
      var (s', l') := Apply(s, l, last);
      assert Run(s', l', []) == (s', l') && [last][1..] == [] && [] + [last] == [last];
    } else {
      var (s', l') := Apply(s, l, todo[0]);
      assert (todo + [last])[1..] == todo[1..] + [last];
      RunAppend(s', l', todo[1..], last);
    }
  }

  class BillingSession {
    const source: Source
    const playground: bool
    const preConsumedQuota: nat
    const tokenConsumed: nat
    const funded: nat
    var fundingSettled: bool
    var settled: bool
    var refunded: bool
    /** What has been taken so far. */
    var funds: int
    var tokens: int
    var member: nat

    constructor (opening: Opening)
      requires opening.Opened?
      ensures Value() == opening.session && Cost() == opening.ledger
    {
      var s := opening.session;
      source, playground, preConsumedQuota, tokenConsumed, funded :=
        s.source, s.playground, s.preConsumed, s.tokenConsumed, s.funded;
      fundingSettled, settled, refunded := s.fundingSettled, s.settled, s.refunded;
      funds, tokens, member := opening.ledger.funds, opening.ledger.tokens, opening.ledger.member;
    }

    ghost function Value(): Session
      reads this
    {
      Session(source, playground, preConsumedQuota, tokenConsumed, funded, fundingSettled, settled, refunded)
    }

    ghost function Cost(): Ledger
      reads this
    {
      Ledger(funds, tokens, member)
    }

    method SettleAt(actualQuota: nat, calls: Calls) returns (ok: bool)
      modifies this
      ensures (Value(), Cost()) == Settle(old(Value()), old(Cost()), actualQuota, calls)
      ensures ok ==> settled
      ensures ok <==>
        || old(settled) || actualQuota == preConsumedQuota
        || ((old(fundingSettled) || calls.fund) && (playground || calls.token))
    {
      if settled {
        return true;
      }
      if source.Team? && actualQuota > 0 && !playground {
        member := member + actualQuota;
      }
      var delta := actualQuota - preConsumedQuota;
      if delta == 0 {
        settled := true;
        return true;
      }
      if !fundingSettled {
        if !calls.fund {
          return false;
        }
        funds := funds + delta;
        fundingSettled := true;
      }
      ok := true;
      if !playground {
        if calls.token {
          tokens := tokens + delta;
        } else {
          ok := false;
        }
      }
      settled := true;
    }

    method GiveBack(calls: Calls)
      modifies this
      ensures (Value(), Cost()) == Refund(old(Value()), old(Cost()), calls)
    {
      if settled || refunded || fundingSettled || !(tokenConsumed > 0 || (source.Subscription? && funded > 0)) {
        return;
      }
      refunded := true;
      if calls.fund {
        funds := funds - funded;
      }
      if tokenConsumed > 0 && !playground && calls.token {
        tokens := tokens - tokenConsumed;
      }
    }
  }
}
