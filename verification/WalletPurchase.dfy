/**
  Wallet-funded subscription purchases of one user (controller/subscription_payment_wallet.go): an atomic
  conditional deduction together with the order row, then activation, then a compensating refund.

  Each database call is one step that may fail, and any number of purchases interleave. As documented for
  `CompleteSubscriptionOrder`, activation either succeeds or leaves the order pending.
*/
module WalletPurchase {
  import opened Common

  /** How far the handler of a purchase has come. */
  datatype Phase = Requested | Rejected | Deducted | Unactivated | Completed | Refunded | RefundLost

  datatype OrderRow = NoRow | Pending | Success | Expired

  datatype Purchase = Purchase(cost: int, phase: Phase, row: OrderRow)

  datatype State = State(quota: int, deposits: int, purchases: seq<Purchase>)

  /** `ok` is whether the database call succeeds. */
  datatype Action =
    | Deposit(amount: nat)
    | Request(cost: int)
    | Deduct(i: nat, ok: bool)
    | Activate(i: nat, ok: bool)
    | Refund(i: nat, ok: bool)
    | Expire(i: nat, ok: bool)

  function Put(s: State, i: nat, p: Purchase): State
    requires i < |s.purchases|
  {
    s.(purchases := s.purchases[i := p])
  }

  /** One call of the handler of purchase `i`. The deduction is `quota - cost WHERE quota >= cost`, in one
      transaction with the insertion of the order. */
  function Call(s: State, a: Action): State
    requires !a.Deposit? && !a.Request? && a.i < |s.purchases|
  {
    var p := s.purchases[a.i];
    match a
    case Deduct(i, ok) =>
      if !p.phase.Requested? then s
      else if ok && s.quota >= p.cost then Put(s.(quota := s.quota - p.cost), i, p.(phase := Deducted, row := Pending))
      else Put(s, i, p.(phase := Rejected))
    case Activate(i, ok) =>
      if !p.phase.Deducted? then s
      else if ok then Put(s, i, p.(phase := Completed, row := Success))
      else Put(s, i, p.(phase := Unactivated))
    case Refund(i, ok) =>
      if !p.phase.Unactivated? then s
      else if ok then Put(s.(quota := s.quota + p.cost), i, p.(phase := Refunded))
      else Put(s, i, p.(phase := RefundLost))
    case Expire(i, ok) =>
      if (p.phase.Refunded? || p.phase.RefundLost?) && ok && p.row.Pending? then Put(s, i, p.(row := Expired)) else s
  }

  function Do(s: State, a: Action): State {
    match a
    case Deposit(amount) => s.(quota := s.quota + amount, deposits := s.deposits + amount)
    case Request(cost) => if cost <= 0 then s else s.(purchases := s.purchases + [Purchase(cost, Requested, NoRow)])
    case _ => if a.i < |s.purchases| then Call(s, a) else s
  }

  function Run(initial: nat, actions: seq<Action>): State {
    if actions == [] then State(initial, 0, []) else Do(Run(initial, actions[..|actions| - 1]), actions[|actions| - 1])
  }

  /** The money of a purchase, by where it is. */
  datatype Place = WithUser | InFlight | Spent | Gone

  function PlaceOf(p: Purchase): Place {
    match p.phase
    case Requested => WithUser
    case Rejected => WithUser
    case Refunded => WithUser
    case Deducted => InFlight
    case Unactivated => InFlight
    case Completed => Spent
    case RefundLost => Gone
  }

  function Total(ps: seq<Purchase>, place: Place): int {
    if ps == [] then 0 else (if PlaceOf(ps[0]) == place then ps[0].cost else 0) + Total(ps[1..], place)
  }

  lemma {:induction false} TotalAfterPut(ps: seq<Purchase>, i: nat, p: Purchase, place: Place)
    requires i < |ps|
    ensures Total(ps[i := p], place) == Total(ps, place)
      - (if PlaceOf(ps[i]) == place then ps[i].cost else 0) + (if PlaceOf(p) == place then p.cost else 0)
  {
    if i == 0 {
      assert ps[i := p][1..] == ps[1..];
    } else {
      TotalAfterPut(ps[1..], i - 1, p, place);
      assert ps[i := p][1..] == ps[1..][i - 1 := p];
    }
  }

  lemma {:induction false} TotalAfterAppend(ps: seq<Purchase>, p: Purchase, place: Place)
    ensures Total(ps + [p], place) == Total(ps, place) + if PlaceOf(p) == place then p.cost else 0
  {
    if ps == [] {
      assert [p][1..] == [];
    } else {
      TotalAfterAppend(ps[1..], p, place);
      assert (ps + [p])[1..] == ps[1..] + [p];
    }
  }

  ghost predicate Conserved(s: State, initial: int) {
    initial + s.deposits ==
      s.quota + Total(s.purchases, Spent) + Total(s.purchases, InFlight) + Total(s.purchases, Gone)
  }

  /** An order row exists exactly for money that was taken, and it is a success exactly for money that is spent. */
  predicate RowSound(p: Purchase) {
    && p.cost > 0
    && (p.row.NoRow? <==> p.phase.Requested? || p.phase.Rejected?)
    && (p.row.Success? <==> PlaceOf(p) == Spent)
    && (p.row.Expired? ==> p.phase.Refunded? || p.phase.RefundLost?)
  }

  ghost predicate RowsSound(s: State) {
    forall i | 0 <= i < |s.purchases| :: RowSound(s.purchases[i])
  }

  lemma CallKeeps(s: State, a: Action, initial: int)
    requires !a.Deposit? && !a.Request? && a.i < |s.purchases|
    requires Conserved(s, initial) && s.quota >= 0 && RowsSound(s)
    ensures Conserved(Call(s, a), initial) && Call(s, a).quota >= 0 && RowsSound(Call(s, a))
  {
    var p' := Call(s, a).purchases[a.i];
    assert Call(s, a).purchases == s.purchases[a.i := p'];
    TotalAfterPut(s.purchases, a.i, p', Spent);
    TotalAfterPut(s.purchases, a.i, p', InFlight);
    TotalAfterPut(s.purchases, a.i, p', Gone);
    assert RowSound(s.purchases[a.i]);
    match a
    case Deduct(_, _) => assert RowSound(p');
    case Activate(_, _) => assert RowSound(p');
    case Refund(_, _) => assert RowSound(p');
    case Expire(_, _) => assert RowSound(p');
  }

  /** Over every interleaving: the quota never goes negative, and the initial quota and the deposits equal the
      quota plus the costs of completed orders, of deductions in flight and of refunds that failed. */
  lemma {:induction false} MoneyConserved(initial: nat, actions: seq<Action>)
    ensures var s := Run(initial, actions); s.quota >= 0 && Conserved(s, initial) && RowsSound(s)
  {
    if actions != [] {
      var before, a := Run(initial, actions[..|actions| - 1]), actions[|actions| - 1];
      MoneyConserved(initial, actions[..|actions| - 1]);
      match a
      case Deposit(_) =>
      case Request(cost) =>
        var p := Purchase(cost, Requested, NoRow);
        TotalAfterAppend(before.purchases, p, Spent);
        TotalAfterAppend(before.purchases, p, InFlight);
        TotalAfterAppend(before.purchases, p, Gone);
      case _ => if a.i < |before.purchases| { CallKeeps(before, a, initial); }
    }
  }

  /** Once no handler is between its calls and no refund failed, the user has paid exactly for the
      subscriptions that were activated. */
  lemma QuietUserPaidForActivePlans(initial: nat, actions: seq<Action>)
    requires forall p | p in Run(initial, actions).purchases :: PlaceOf(p) != InFlight && PlaceOf(p) != Gone
    ensures var s := Run(initial, actions);
      && s.quota == initial + s.deposits - Total(s.purchases, Spent)
      && forall p | p in s.purchases :: p.row.Success? <==> PlaceOf(p) == Spent
  {
    var ps := Run(initial, actions).purchases;
    MoneyConserved(initial, actions);
    NoneThere(ps, InFlight);
    NoneThere(ps, Gone);
  }

  lemma {:induction false} NoneThere(ps: seq<Purchase>, place: Place)
    requires forall p | p in ps :: PlaceOf(p) != place
    ensures Total(ps, place) == 0
  {
    if ps != [] {
      NoneThere(ps[1..], place);
    }
  }

  // ----- what becomes of one purchase -----

  /** What the calls of a purchase came to: whether the money was taken, the plan activated, the money returned and the
      order expired. */
  datatype Course = Course(taken: Option<bool>, activated: Option<bool>, returned: Option<bool>, expired: bool)

  const NO_CALLS := Course(None, None, None, false)

  /** Each call counts once, and only after those it follows in the handler. */
  function NextCourse(c: Course, a: Action, enough: bool): Course {
    match a
    case Deduct(_, ok) => if c.taken.None? then c.(taken := Some(ok && enough)) else c
    case Activate(_, ok) => if c.taken == Some(true) && c.activated.None? then c.(activated := Some(ok)) else c
    case Refund(_, ok) => if c.activated == Some(false) && c.returned.None? then c.(returned := Some(ok)) else c
    case Expire(_, ok) => if c.returned.Some? && ok then c.(expired := true) else c
    case _ => c
  }

  predicate Calls(a: Action, i: nat) {
    !a.Deposit? && !a.Request? && a.i == i
  }

  function CourseOf(initial: nat, actions: seq<Action>, i: nat): Course {
    if actions == [] then NO_CALLS
    else
      var before, a := actions[..|actions| - 1], actions[|actions| - 1];
      var s, c := Run(initial, before), CourseOf(initial, before, i);
      if i < |s.purchases| && Calls(a, i) then NextCourse(c, a, s.quota >= s.purchases[i].cost) else c
  }

  /** How far a purchase is, told from what its calls came to. */
  function PhaseOf(c: Course): Phase {
    if c.taken.None? then Requested
    else if !c.taken.value then Rejected
    else if c.activated.None? then Deducted
    else if c.activated.value then Completed
    else if c.returned.None? then Unactivated
    else if c.returned.value then Refunded
    else RefundLost
  }

  /** And what its order says. */
  function RowOf(c: Course): OrderRow {
    if c.taken != Some(true) then NoRow
    else if c.activated == Some(true) then Success
    else if c.expired then Expired
    else Pending
  }

  ghost predicate Sensible(c: Course) {
    && (c.activated.Some? ==> c.taken == Some(true)) && (c.returned.Some? ==> c.activated == Some(false))
    && (c.expired ==> c.returned.Some?)
  }

  ghost predicate Follows(p: Purchase, c: Course) {
    p.phase == PhaseOf(c) && p.row == RowOf(c) && Sensible(c)
  }

  lemma CourseStep(s: State, a: Action, i: nat, c: Course)
    requires i < |s.purchases| && Follows(s.purchases[i], c)
    ensures var s' := Do(s, a);
      var c' := if Calls(a, i) then NextCourse(c, a, s.quota >= s.purchases[i].cost) else c;
      i < |s'.purchases| && Follows(s'.purchases[i], c') && s'.purchases[i].cost == s.purchases[i].cost
  {
  }

  /** Over every interleaving a purchase is exactly where its own calls brought it: the user keeps the money, or has it
      back, unless it was taken, which needs a successful call and enough quota; it is spent exactly if the activation
      succeeded, and gone exactly if activation and refund failed. Its order says the same. */
  lemma {:induction false} PurchaseFollowsCalls(initial: nat, actions: seq<Action>, i: nat)
    ensures var s, c := Run(initial, actions), CourseOf(initial, actions, i);
      if i < |s.purchases| then Follows(s.purchases[i], c) else c == NO_CALLS
  {
    if actions != [] {
      var before, a := actions[..|actions| - 1], actions[|actions| - 1];
      PurchaseFollowsCalls(initial, before, i);
      var s := Run(initial, before);
      if i < |s.purchases| {
        CourseStep(s, a, i, CourseOf(initial, before, i));
      }
    }
  }

  /** In terms of the money. */
  lemma MoneyFollowsCalls(initial: nat, actions: seq<Action>, i: nat)
    requires i < |Run(initial, actions).purchases|
    ensures var p, c := Run(initial, actions).purchases[i], CourseOf(initial, actions, i);
      && (PlaceOf(p) == WithUser <==> c.taken != Some(true) || c.returned == Some(true))
      && (PlaceOf(p) == Spent <==> c.activated == Some(true))
      && (PlaceOf(p) == Gone <==> c.returned == Some(false))
  {
    PurchaseFollowsCalls(initial, actions, i);
  }

  /** The costs asked for that can be asked for. */
  function Asked(actions: seq<Action>): seq<int> {
    if actions == [] then []
    else
      var before, a := Asked(actions[..|actions| - 1]), actions[|actions| - 1];
      if a.Request? && a.cost > 0 then before + [a.cost] else before
  }

  function Costs(ps: seq<Purchase>): (costs: seq<int>)
    ensures |costs| == |ps| && forall i | 0 <= i < |ps| :: costs[i] == ps[i].cost
  {
    seq(|ps|, i requires 0 <= i < |ps| => ps[i].cost)
  }

  /** A call changes no cost. */
  lemma CallKeepsCosts(s: State, a: Action)
    requires !a.Deposit? && !a.Request? && a.i < |s.purchases|
    ensures Costs(Call(s, a).purchases) == Costs(s.purchases)
  {
    var p' := Call(s, a).purchases[a.i];
    assert p'.cost == s.purchases[a.i].cost && Call(s, a).purchases == s.purchases[a.i := p'];
  }

  lemma DoAddsCosts(s: State, a: Action)
    ensures Costs(Do(s, a).purchases) == Costs(s.purchases) + if a.Request? && a.cost > 0 then [a.cost] else []
  {
    if !a.Deposit? && !a.Request? && a.i < |s.purchases| {
      CallKeepsCosts(s, a);
    }
  }

  /** Every request for a positive cost becomes a purchase at that cost, in order, and no other does. */
  lemma {:induction false} PurchasesAreAsked(initial: nat, actions: seq<Action>)
    ensures Costs(Run(initial, actions).purchases) == Asked(actions)
  {
    if actions != [] {
      PurchasesAreAsked(initial, actions[..|actions| - 1]);
      DoAddsCosts(Run(initial, actions[..|actions| - 1]), actions[|actions| - 1]);
    }
  }

  function Deposited(actions: seq<Action>): nat {
    if actions == [] then 0
    else
      var a := actions[|actions| - 1];
      Deposited(actions[..|actions| - 1]) + if a.Deposit? then a.amount else 0
  }

  /** The deposits of the balance are those made. */
  lemma {:induction false} DepositsAreMade(initial: nat, actions: seq<Action>)
    ensures Run(initial, actions).deposits == Deposited(actions)
  {
    if actions != [] {
      DepositsAreMade(initial, actions[..|actions| - 1]);
    }
  }
}
