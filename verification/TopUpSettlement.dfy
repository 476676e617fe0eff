/**
  Settlement of top-up orders under the order lock: the payment callback `EpayNotify` and the manual completion
  `AdminCompleteTopUp` (controller/topup.go) with `ManualCompleteTopUp` (model/topup.go), both followed by the invite
  reward of the buyer's first top-up (`MaybeGrantInviteRewardOnFirstTopUp` of model/user.go).

  A handler thread takes the order lock, runs its database statements one at a time, and releases the lock. Every
  statement may fail. Any number of handlers for any orders interleave. Nothing but a conditional update protects the
  reward, because the orders of one user have different locks.
*/
module TopUpSettlement {
  import L = OrderLock

  type Order = L.Order

  datatype Status = Pending | Success

  /** A top-up row. `stripe` is PaymentMethod == "stripe", whose value in dollars is `money`. */
  datatype TopUp = TopUp(user: nat, amount: int, money: real, stripe: bool, status: Status)

  /** One increase of a user's quota on behalf of an order; `manual` is whether an administrator completed it. */
  datatype Credit = Credit(order: Order, user: nat, amount: int, manual: bool)

  /** What a handler does next: `Read` and `Complete` are the first statement of the two handlers. From `Claim` on it is
      the reward: claiming and granting that of `user`, then reading the row of the inviter `user` and writing it
      back. */
  datatype Job =
    | Read | Save(row: TopUp) | Increase(row: TopUp) | Complete
    | Claim(user: nat) | Grant(user: nat) | ReadInviter(user: nat) | SaveInviter(user: nat, snapshot: int, flag: bool)
    | Done

  /** A change of a user's quota that is no credit. */
  datatype Change = Change(user: nat, amount: int)

  /** `settled` are the users with `aff_reward_settled`. The rest are histories no statement reads: the users whose
      claimed reward is still to be granted with the thread that claimed it, the rewards granted, the users whose
      claimed reward added nothing, and what writing an inviter's row back took from a quota. */
  datatype Invites = Invites(settled: set<nat>, due: map<nat, nat>, rewards: seq<Change>, missed: set<nat>,
      overwrites: seq<Change>)

  /** `ledger`, `owing` and `lost` are histories no statement reads: the credits given, the orders marked paid
      with the thread that has yet to raise the quota, and those whose increase failed. */
  datatype Sys = Sys(
    lock: L.State,
    jobs: map<nat, Job>,
    db: map<Order, TopUp>,
    quota: map<nat, int>,
    ledger: seq<Credit>,
    owing: map<Order, nat>,
    lost: set<Order>,
    invites: Invites)

  datatype Action =
    | Insert(order: Order, row: TopUp)
    | Notify(th: nat, order: Order)
    | AdminComplete(th: nat, order: Order)
    | Lock(th: nat)
    | Work(th: nat, ok: bool)
    | Finish(th: nat)

  function Init(quota: map<nat, int>, rules: Rules): Sys {
    Sys(L.INIT, map[], map[], quota, [], map[], {}, Invites(rules.settled, map[], [], {}, []))
  }

  function QuotaOf(quota: map<nat, int>, user: nat): int {
    if user in quota then quota[user] else 0
  }

  /** `IntPart` of a decimal: truncation toward zero. */
  function IntPart(x: real): int {
    if x >= 0.0 then x.Floor else -(-x).Floor
  }

  /** The quota an amount of units, and a sum of money, is worth; who invited a user (0 is nobody); the rewards of both
      sides; and the users whose reward was settled before. */
  datatype Rules = Rules(
    ofAmount: int -> int,
    ofMoney: real -> int,
    inviterOf: nat -> nat,
    forInvitee: int,
    forInviter: int,
    settled: set<nat>)

  predicate Invited(rules: Rules, user: nat) {
    user > 0 && rules.inviterOf(user) != 0 && rules.inviterOf(user) != user
  }

  function Times(units: real, quotaPerUnit: real): int {
    IntPart(units * quotaPerUnit)
  }

  /** The rules with the worth that `common.QuotaPerUnit` gives. */
  function PerUnit(rules: Rules, quotaPerUnit: real): Rules {
    rules.(ofAmount := (amount: int) => Times(amount as real, quotaPerUnit),
           ofMoney := (money: real) => Times(money, quotaPerUnit))
  }

  function AdminQuota(row: TopUp, rules: Rules): int {
    if row.stripe then rules.ofMoney(row.money) else rules.ofAmount(row.amount)
  }

  function WithJob(s: Sys, th: nat, job: Job): Sys {
    s.(jobs := s.jobs[th := job])
  }

  function AddCredit(s: Sys, c: Credit): Sys {
    s.(quota := s.quota[c.user := QuotaOf(s.quota, c.user) + c.amount], ledger := s.ledger + [c])
  }

  /** The next database statement for the order itself; `ok` is whether the database accepts it.
      `IncreaseUserQuota` refuses a negative amount. */
  function OrderStatement(s: Sys, th: nat, order: Order, ok: bool, rules: Rules): Sys
    requires th in s.jobs
  {
    match s.jobs[th]
    case Read =>
      if ok && order in s.db && s.db[order].status.Pending? then WithJob(s, th, Save(s.db[order]))
      else WithJob(s, th, Done)
    case Save(row) =>
      if ok then
        WithJob(s.(db := s.db[order := row.(status := Success)], owing := s.owing[order := th]), th, Increase(row))
      else WithJob(s, th, Done)
    case Increase(row) =>
      var amount := rules.ofAmount(row.amount);
      if ok && amount >= 0 then
        WithJob(AddCredit(s, Credit(order, row.user, amount, false)).(owing := s.owing - {order}), th, Claim(row.user))
      else WithJob(s.(owing := s.owing - {order}, lost := s.lost + {order}), th, Done)
    case Complete =>
      if ok && order in s.db && s.db[order].status.Pending? && AdminQuota(s.db[order], rules) > 0 then
        var row := s.db[order];
        WithJob(AddCredit(s.(db := s.db[order := row.(status := Success)]),
          Credit(order, row.user, AdminQuota(row, rules), true)), th, Claim(row.user))
      else WithJob(s, th, Done)
    case _ => s
  }

  predicate IsReward(job: Job) {
    job.Claim? || job.Grant? || job.ReadInviter? || job.SaveInviter?
  }

  /** What follows the buyer's own reward. */
  function AfterGrant(user: nat, rules: Rules): Job {
    if rules.forInviter > 0 then ReadInviter(rules.inviterOf(user)) else Done
  }

  /** The conditional update of `aff_reward_settled`, which one caller wins. */
  function ClaimReward(s: Sys, th: nat, user: nat, ok: bool, rules: Rules): Sys {
    var v := s.invites;
    if ok && Invited(rules, user) && user !in v.settled then
      WithJob(s.(invites := v.(settled := v.settled + {user}, due := v.due[user := th])), th, Grant(user))
    else WithJob(s, th, Done)
  }

  /** The increase of the buyer's quota. Its failure is ignored. */
  function GrantReward(s: Sys, th: nat, user: nat, ok: bool, rules: Rules): Sys {
    var v := s.invites.(due := s.invites.due - {user});
    if ok && rules.forInvitee > 0 then
      WithJob(s.(quota := s.quota[user := QuotaOf(s.quota, user) + rules.forInvitee],
                 invites := v.(rewards := v.rewards + [Change(user, rules.forInvitee)])), th, AfterGrant(user, rules))
    else WithJob(s.(invites := v.(missed := v.missed + {user})), th, AfterGrant(user, rules))
  }

  /** The inviter's row is written back whole, with the quota and the flag it was read with. */
  function SaveRow(s: Sys, th: nat, user: nat, snapshot: int, flag: bool, ok: bool): Sys {
    var v := s.invites;
    if ok then
      var lost := Change(user, QuotaOf(s.quota, user) - snapshot);
      WithJob(s.(quota := s.quota[user := snapshot],
                 invites := v.(settled := if flag then v.settled + {user} else v.settled - {user},
                               overwrites := v.overwrites + [lost])), th, Done)
    else WithJob(s, th, Done)
  }

  /** The next database statement for the reward. */
  function RewardStatement(s: Sys, th: nat, ok: bool, rules: Rules): Sys
    requires th in s.jobs
  {
    match s.jobs[th]
    case Claim(user) => ClaimReward(s, th, user, ok, rules)
    case Grant(user) => GrantReward(s, th, user, ok, rules)
    case ReadInviter(user) =>
      WithJob(s, th, if ok then SaveInviter(user, QuotaOf(s.quota, user), user in s.invites.settled) else Done)
    case SaveInviter(user, snapshot, flag) => SaveRow(s, th, user, snapshot, flag, ok)
    case _ => s
  }

  function Statement(s: Sys, th: nat, order: Order, ok: bool, rules: Rules): Sys
    requires th in s.jobs
  {
    if IsReward(s.jobs[th]) then RewardStatement(s, th, ok, rules) else OrderStatement(s, th, order, ok, rules)
  }

  function Do(s: Sys, a: Action, rules: Rules): Sys {
    match a
    case Insert(order, row) => if order in s.db then s else s.(db := s.db[order := row.(status := Pending)])
    case Notify(th, order) =>
      if L.PcOf(s.lock, th).stage.Idle? then WithJob(s.(lock := L.Do(s.lock, L.CallLock(th, order))), th, Read) else s
    case AdminComplete(th, order) =>
      if L.PcOf(s.lock, th).stage.Idle? then WithJob(s.(lock := L.Do(s.lock, L.CallLock(th, order))), th, Complete)
      else s
    case Lock(th) => s.(lock := L.Do(s.lock, L.Advance(th)))
    case Work(th, ok) =>
      var p := L.PcOf(s.lock, th);
      if p.stage.Holding? && th in s.jobs then Statement(s, th, p.order, ok, rules) else s
    case Finish(th) =>
      if L.PcOf(s.lock, th).stage.Holding? && th in s.jobs && s.jobs[th].Done? then
        s.(lock := L.Do(s.lock, L.CallUnlock(th)), jobs := s.jobs - {th})
      else s
  }

  function Run(quota: map<nat, int>, actions: seq<Action>, rules: Rules): Sys {
    if actions == [] then Init(quota, rules)
    else Do(Run(quota, actions[..|actions| - 1], rules), actions[|actions| - 1], rules)
  }

  // ----- what the steps keep -----

  /** The orders credited so far. */
  function Paid(ledger: seq<Credit>): set<Order> {
    set c | c in ledger :: c.order
  }

  function Sum(ledger: seq<Credit>, user: nat): int {
    if ledger == [] then 0
    else
      var last := ledger[|ledger| - 1];
      Sum(ledger[..|ledger| - 1], user) + if last.user == user then last.amount else 0
  }

  function Total(changes: seq<Change>, user: nat): int {
    if changes == [] then 0
    else
      var last := changes[|changes| - 1];
      Total(changes[..|changes| - 1], user) + if last.user == user then last.amount else 0
  }

  /** A handler past its first statement holds the lock, and the row it read is still the stored one. */
  ghost predicate JobSane(job: Job, th: nat, p: L.Pc, db: map<Order, TopUp>, owing: map<Order, nat>) {
    && (!job.Read? && !job.Complete? ==> p.stage.Holding?)
    && (job.Save? ==> p.order in db && db[p.order] == job.row && job.row.status.Pending?)
    && (job.Increase? ==>
          p.order in db && db[p.order] == job.row.(status := Success) && p.order in owing && owing[p.order] == th)
  }

  ghost predicate JobsSane(s: Sys) {
    forall th | th in s.jobs :: JobSane(s.jobs[th], th, L.PcOf(s.lock, th), s.db, s.owing)
  }

  ghost predicate OwedBy(order: Order, th: nat, jobs: map<nat, Job>, lock: L.State) {
    th in jobs && jobs[th].Increase? && L.PcOf(lock, th).order == order
  }

  ghost predicate OwingSane(s: Sys) {
    forall o | o in s.owing :: OwedBy(o, s.owing[o], s.jobs, s.lock)
  }

  /** An order is paid exactly when it is credited, owing or lost, and it is only one of these. */
  ghost predicate Accounted(db: map<Order, TopUp>, paid: set<Order>, owing: set<Order>, lost: set<Order>) {
    && (forall o :: o in db && db[o].status.Success? <==> o in paid || o in owing || o in lost)
    && paid !! owing && paid !! lost && owing !! lost
  }

  /** What an order is credited: the worth of its amount, or, if a Stripe order is completed by hand, of its money. */
  function Worth(row: TopUp, manual: bool, rules: Rules): int {
    if manual then AdminQuota(row, rules) else rules.ofAmount(row.amount)
  }

  ghost predicate EntrySound(c: Credit, db: map<Order, TopUp>, rules: Rules) {
    c.order in db && c.user == db[c.order].user && c.amount == Worth(db[c.order], c.manual, rules)
  }

  ghost predicate LedgerSound(ledger: seq<Credit>, db: map<Order, TopUp>, rules: Rules) {
    && (forall i | 0 <= i < |ledger| :: EntrySound(ledger[i], db, rules))
    && (forall i, j | 0 <= i < j < |ledger| :: ledger[i].order != ledger[j].order)
  }

  /** The quota of `u` is its initial value plus credits and rewards, less what was overwritten. */
  predicate BalancedFor(now: int, initial: int, ledger: seq<Credit>, rewards: seq<Change>, overwrites: seq<Change>,
      u: nat) {
    now == initial + Sum(ledger, u) + Total(rewards, u) - Total(overwrites, u)
  }

  ghost predicate InBalance(s: Sys, quota: map<nat, int>) {
    forall u ::
      BalancedFor(QuotaOf(s.quota, u), QuotaOf(quota, u), s.ledger, s.invites.rewards, s.invites.overwrites, u)
  }

  ghost predicate Books(s: Sys, quota: map<nat, int>, rules: Rules) {
    && Accounted(s.db, Paid(s.ledger), s.owing.Keys, s.lost)
    && LedgerSound(s.ledger, s.db, rules) && InBalance(s, quota)
  }

  ghost predicate Inv(s: Sys, quota: map<nat, int>, rules: Rules) {
    L.Reachable(s.lock) && JobsSane(s) && OwingSane(s) && Books(s, quota, rules)
  }

  /** No other handler holds the order of `th`. */
  ghost predicate Alone(s: Sys, th: nat) {
    forall c | c in s.jobs && c != th && L.PcOf(s.lock, c).stage.Holding? ::
      L.PcOf(s.lock, c).order != L.PcOf(s.lock, th).order
  }

  lemma HolderIsAlone(s: Sys, th: nat)
    requires L.Reachable(s.lock) && L.PcOf(s.lock, th).stage.Holding?
    ensures Alone(s, th)
  {
    forall c | c in s.jobs && c != th && L.PcOf(s.lock, c).stage.Holding?
      ensures L.PcOf(s.lock, c).order != L.PcOf(s.lock, th).order
    {
      if L.PcOf(s.lock, c).order == L.PcOf(s.lock, th).order { L.MutualExclusion(s.lock, c, th); }
    }
  }

  /** A step of one thread inside the lock does not move the others, nor a thread that holds its order. */
  lemma LockFrame(lock: L.State, th: nat, c: nat)
    requires c != th || L.PcOf(lock, c).stage.Holding?
    ensures L.PcOf(L.Do(lock, L.Advance(th)), c) == L.PcOf(lock, c)
  {
  }

  lemma SumOfLast(ledger: seq<Credit>, c: Credit, user: nat)
    ensures Sum(ledger + [c], user) == Sum(ledger, user) + if c.user == user then c.amount else 0
  {
    assert (ledger + [c])[..|ledger|] == ledger;
  }

  lemma TotalOfLast(changes: seq<Change>, c: Change, user: nat)
    ensures Total(changes + [c], user) == Total(changes, user) + if c.user == user then c.amount else 0
  {
    assert (changes + [c])[..|changes|] == changes;
  }

  lemma CreditBalance(s: Sys, c: Credit, quota: map<nat, int>)
    requires InBalance(s, quota)
    ensures InBalance(AddCredit(s, c), quota)
  {
    forall u { SumOfLast(s.ledger, c, u); }
  }

  /** The new entry is one for an order that had none. */
  lemma CreditLedger(ledger: seq<Credit>, c: Credit, db: map<Order, TopUp>, rules: Rules)
    requires LedgerSound(ledger, db, rules) && c.order !in Paid(ledger) && EntrySound(c, db, rules)
    ensures LedgerSound(ledger + [c], db, rules) && Paid(ledger + [c]) == Paid(ledger) + {c.order}
  {
    assert (ledger + [c])[|ledger|] in ledger + [c];
    assert forall i | 0 <= i < |ledger| :: ledger[i].order in Paid(ledger);
  }

  /** The reward touches no order and no handler but its own. */
  ghost predicate OnlyRewards(s: Sys, th: nat, s': Sys) {
    && s'.lock == s.lock && s'.db == s.db && s'.ledger == s.ledger && s'.owing == s.owing && s'.lost == s.lost
    && th in s'.jobs && s'.jobs == s.jobs[th := s'.jobs[th]] && (IsReward(s'.jobs[th]) || s'.jobs[th].Done?)
  }

  lemma RewardFrame(s: Sys, th: nat, ok: bool, rules: Rules)
    requires th in s.jobs && IsReward(s.jobs[th])
    ensures OnlyRewards(s, th, RewardStatement(s, th, ok, rules))
  {
    match s.jobs[th]
    case Claim(user) => assert OnlyRewards(s, th, ClaimReward(s, th, user, ok, rules));
    case Grant(user) => assert OnlyRewards(s, th, GrantReward(s, th, user, ok, rules));
    case ReadInviter(user) =>
    case SaveInviter(user, snapshot, flag) => assert OnlyRewards(s, th, SaveRow(s, th, user, snapshot, flag, ok));
  }

  lemma OrderJobs(s: Sys, th: nat, ok: bool, rules: Rules)
    requires JobsSane(s) && Alone(s, th) && th in s.jobs && L.PcOf(s.lock, th).stage.Holding?
    ensures JobsSane(OrderStatement(s, th, L.PcOf(s.lock, th).order, ok, rules))
  {
    var s' := OrderStatement(s, th, L.PcOf(s.lock, th).order, ok, rules);
    assert JobSane(s.jobs[th], th, L.PcOf(s.lock, th), s.db, s.owing);
    forall c | c in s'.jobs && c != th ensures JobSane(s'.jobs[c], c, L.PcOf(s.lock, c), s'.db, s'.owing) {
      assert JobSane(s.jobs[c], c, L.PcOf(s.lock, c), s.db, s.owing);
    }
  }

  lemma OrderOwing(s: Sys, th: nat, ok: bool, rules: Rules)
    requires OwingSane(s) && th in s.jobs && !IsReward(s.jobs[th])
    ensures OwingSane(OrderStatement(s, th, L.PcOf(s.lock, th).order, ok, rules))
  {
    var s' := OrderStatement(s, th, L.PcOf(s.lock, th).order, ok, rules);
    match s.jobs[th]
    case Read => assert OwingSane(s');
    case Save(_) => assert OwingSane(s');
    case Increase(_) => assert OwingSane(s');
    case Complete => assert OwingSane(s');
    case Done =>
  }

  lemma SaveBooks(s: Sys, th: nat, order: Order, ok: bool, quota: map<nat, int>, rules: Rules)
    requires Books(s, quota, rules) && th in s.jobs && s.jobs[th].Save?
    requires order in s.db && s.db[order] == s.jobs[th].row && s.jobs[th].row.status.Pending?
    ensures Books(OrderStatement(s, th, order, ok, rules), quota, rules)
  {
  }

  lemma IncreaseBooks(s: Sys, th: nat, order: Order, ok: bool, quota: map<nat, int>, rules: Rules)
    requires Books(s, quota, rules) && th in s.jobs && s.jobs[th].Increase? && order in s.owing
    requires order in s.db && s.db[order] == s.jobs[th].row.(status := Success)
    ensures Books(OrderStatement(s, th, order, ok, rules), quota, rules)
  {
    var row := s.jobs[th].row;
    var amount := rules.ofAmount(row.amount);
    if ok && amount >= 0 {
      CreditBalance(s, Credit(order, row.user, amount, false), quota);
      CreditLedger(s.ledger, Credit(order, row.user, amount, false), s.db, rules);
    }
  }

  /** The ledger does not care about a row it has no entry for. */
  lemma LedgerAfterSave(ledger: seq<Credit>, db: map<Order, TopUp>, order: Order, row: TopUp, rules: Rules)
    requires LedgerSound(ledger, db, rules) && order !in Paid(ledger)
    ensures LedgerSound(ledger, db[order := row], rules)
  {
    forall i | 0 <= i < |ledger| ensures EntrySound(ledger[i], db[order := row], rules) {
      assert ledger[i].order in Paid(ledger);
    }
  }

  /** A pending order that becomes paid and credited is accounted for. */
  lemma AccountedAfter(db: map<Order, TopUp>, paid: set<Order>, owing: set<Order>, lost: set<Order>, order: Order,
      row: TopUp)
    requires Accounted(db, paid, owing, lost) && order in db && db[order].status.Pending? && row.status.Success?
    ensures order !in paid && Accounted(db[order := row], paid + {order}, owing, lost)
  {
  }

  lemma CompletedBooks(s: Sys, order: Order, quota: map<nat, int>, rules: Rules)
    requires Books(s, quota, rules) && order in s.db && s.db[order].status.Pending?
    ensures var row := s.db[order];
      Books(AddCredit(s.(db := s.db[order := row.(status := Success)]),
        Credit(order, row.user, AdminQuota(row, rules), true)), quota, rules)
  {
    var row, paid := s.db[order], s.db[order].(status := Success);
    var c := Credit(order, row.user, AdminQuota(row, rules), true);
    var db := s.db[order := paid];
    AccountedAfter(s.db, Paid(s.ledger), s.owing.Keys, s.lost, order, paid);
    LedgerAfterSave(s.ledger, s.db, order, paid, rules);
    assert EntrySound(c, db, rules);
    CreditLedger(s.ledger, c, db, rules);
    CreditBalance(s.(db := db), c, quota);
  }

  lemma CompleteBooks(s: Sys, th: nat, order: Order, ok: bool, quota: map<nat, int>, rules: Rules)
    requires Books(s, quota, rules) && th in s.jobs && s.jobs[th].Complete?
    ensures Books(OrderStatement(s, th, order, ok, rules), quota, rules)
  {
    if order in s.db && s.db[order].status.Pending? {
      CompletedBooks(s, order, quota, rules);
    }
  }

  lemma OrderKeepsInv(s: Sys, th: nat, ok: bool, quota: map<nat, int>, rules: Rules)
    requires Inv(s, quota, rules) && th in s.jobs && L.PcOf(s.lock, th).stage.Holding? && !IsReward(s.jobs[th])
    ensures Inv(OrderStatement(s, th, L.PcOf(s.lock, th).order, ok, rules), quota, rules)
  {
    var order := L.PcOf(s.lock, th).order;
    assert JobSane(s.jobs[th], th, L.PcOf(s.lock, th), s.db, s.owing);
    HolderIsAlone(s, th);
    OrderJobs(s, th, ok, rules);
    OrderOwing(s, th, ok, rules);
    match s.jobs[th]
    case Save(_) => SaveBooks(s, th, order, ok, quota, rules);
    case Increase(_) => IncreaseBooks(s, th, order, ok, quota, rules);
    case Complete => CompleteBooks(s, th, order, ok, quota, rules);
    case _ =>
  }

  lemma GrantBalance(s: Sys, th: nat, user: nat, ok: bool, quota: map<nat, int>, rules: Rules)
    requires InBalance(s, quota)
    ensures InBalance(GrantReward(s, th, user, ok, rules), quota)
  {
    forall u { TotalOfLast(s.invites.rewards, Change(user, rules.forInvitee), u); }
  }

  lemma SaveBalance(s: Sys, th: nat, user: nat, snapshot: int, flag: bool, ok: bool, quota: map<nat, int>)
    requires InBalance(s, quota)
    ensures InBalance(SaveRow(s, th, user, snapshot, flag, ok), quota)
  {
    forall u { TotalOfLast(s.invites.overwrites, Change(user, QuotaOf(s.quota, user) - snapshot), u); }
  }

  lemma RewardBalance(s: Sys, th: nat, ok: bool, quota: map<nat, int>, rules: Rules)
    requires InBalance(s, quota) && th in s.jobs
    ensures InBalance(RewardStatement(s, th, ok, rules), quota)
  {
    match s.jobs[th]
    case Claim(user) => assert InBalance(ClaimReward(s, th, user, ok, rules), quota);
    case Grant(user) => GrantBalance(s, th, user, ok, quota, rules);
    case SaveInviter(user, snapshot, flag) => SaveBalance(s, th, user, snapshot, flag, ok, quota);
    case _ =>
  }

  lemma RewardJobs(s: Sys, th: nat, s': Sys)
    requires JobsSane(s) && OwingSane(s) && OnlyRewards(s, th, s')
    requires th in s.jobs && L.PcOf(s.lock, th).stage.Holding? && IsReward(s.jobs[th])
    ensures JobsSane(s') && OwingSane(s')
  {
  }

  lemma RewardKeepsInv(s: Sys, th: nat, ok: bool, quota: map<nat, int>, rules: Rules)
    requires Inv(s, quota, rules) && th in s.jobs && L.PcOf(s.lock, th).stage.Holding? && IsReward(s.jobs[th])
    ensures Inv(RewardStatement(s, th, ok, rules), quota, rules)
  {
    var s' := RewardStatement(s, th, ok, rules);
    RewardFrame(s, th, ok, rules);
    RewardJobs(s, th, s');
    RewardBalance(s, th, ok, quota, rules);
  }

  /** Calls and steps of the lock leave every handler that is past its first statement where it was. */
  lemma LockKeepsJobs(s: Sys, a: L.Action)
    requires JobsSane(s) && OwingSane(s)
    requires a.CallUnlock? ==> a.th !in s.jobs
    ensures var s' := s.(lock := L.Do(s.lock, a)); JobsSane(s') && OwingSane(s')
  {
    forall c | L.PcOf(s.lock, c).stage.Holding? && (a.CallUnlock? ==> c != a.th)
      ensures L.PcOf(L.Do(s.lock, a), c) == L.PcOf(s.lock, c)
    {
      if a.Advance? { LockFrame(s.lock, a.th, c); }
    }
  }

  lemma StartKeepsInv(s: Sys, th: nat, order: Order, job: Job, quota: map<nat, int>, rules: Rules)
    requires Inv(s, quota, rules) && L.PcOf(s.lock, th).stage.Idle? && (job.Read? || job.Complete?)
    ensures Inv(WithJob(s.(lock := L.Do(s.lock, L.CallLock(th, order))), th, job), quota, rules)
  {
    L.ReachableStep(s.lock, L.CallLock(th, order));
    LockKeepsJobs(s, L.CallLock(th, order));
  }

  lemma FinishKeepsInv(s: Sys, th: nat, quota: map<nat, int>, rules: Rules)
    requires Inv(s, quota, rules) && th in s.jobs && s.jobs[th].Done?
    ensures Inv(s.(lock := L.Do(s.lock, L.CallUnlock(th)), jobs := s.jobs - {th}), quota, rules)
  {
    L.ReachableStep(s.lock, L.CallUnlock(th));
    LockKeepsJobs(s.(jobs := s.jobs - {th}), L.CallUnlock(th));
  }

  lemma InsertKeepsInv(s: Sys, order: Order, row: TopUp, quota: map<nat, int>, rules: Rules)
    requires Inv(s, quota, rules) && order !in s.db && row.status.Pending?
    ensures Inv(s.(db := s.db[order := row]), quota, rules)
  {
  }

  lemma DoKeepsInv(s: Sys, a: Action, quota: map<nat, int>, rules: Rules)
    requires Inv(s, quota, rules)
    ensures Inv(Do(s, a, rules), quota, rules)
  {
    var p := if a.Insert? then L.IDLE else L.PcOf(s.lock, a.th);
    match a
    case Insert(order, row) => if order !in s.db { InsertKeepsInv(s, order, row.(status := Pending), quota, rules); }
    case Notify(th, order) => if p.stage.Idle? { StartKeepsInv(s, th, order, Read, quota, rules); }
    case AdminComplete(th, order) => if p.stage.Idle? { StartKeepsInv(s, th, order, Complete, quota, rules); }
    case Lock(th) =>
      L.ReachableStep(s.lock, L.Advance(th));
      LockKeepsJobs(s, L.Advance(th));
    case Work(th, ok) => if p.stage.Holding? && th in s.jobs {
      if IsReward(s.jobs[th]) {
        RewardKeepsInv(s, th, ok, quota, rules);
      } else {
        OrderKeepsInv(s, th, ok, quota, rules);
      }
    }
    case Finish(th) => if p.stage.Holding? && th in s.jobs && s.jobs[th].Done? { FinishKeepsInv(s, th, quota, rules); }
  }

  lemma {:induction false} RunKeepsInv(quota: map<nat, int>, actions: seq<Action>, rules: Rules)
    ensures Inv(Run(quota, actions, rules), quota, rules)
  {
    if actions == [] {
      assert L.INIT == L.Run(L.INIT, []);
    } else {
      var before := actions[..|actions| - 1];
      RunKeepsInv(quota, before, rules);
      DoKeepsInv(Run(quota, before, rules), actions[|actions| - 1], quota, rules);
    }
  }

  // ----- what users get, over every run -----

  /** The times `order` has been credited. */
  function Credits(ledger: seq<Credit>, order: Order): seq<Credit> {
    if ledger == [] then []
    else
      var last := ledger[|ledger| - 1];
      Credits(ledger[..|ledger| - 1], order) + if last.order == order then [last] else []
  }

  lemma {:induction false} CreditsOfDistinct(ledger: seq<Credit>, order: Order)
    requires forall i, j | 0 <= i < j < |ledger| :: ledger[i].order != ledger[j].order
    ensures |Credits(ledger, order)| == if order in Paid(ledger) then 1 else 0
    ensures forall c | c in Credits(ledger, order) :: c in ledger && c.order == order
  {
    if ledger != [] {
      var before, last := ledger[..|ledger| - 1], ledger[|ledger| - 1];
      CreditsOfDistinct(before, order);
      assert ledger == before + [last];
      assert Paid(ledger) == Paid(before) + {last.order} by {
        assert last in ledger;
        assert forall c :: c in ledger <==> c in before || c == last;
      }
      assert last.order !in Paid(before);
    }
  }

  /** However callbacks and manual completions interleave, an order is credited at most once, only after it was marked
      paid, to the buyer, and with what it is worth to the handler that credited it. */
  lemma CreditedAtMostOnce(quota: map<nat, int>, actions: seq<Action>, rules: Rules, order: Order)
    ensures var s := Run(quota, actions, rules);
      && |Credits(s.ledger, order)| <= 1
      && forall c | c in Credits(s.ledger, order) ::
           && order in s.db && s.db[order].status.Success? && c.user == s.db[order].user
           && c.amount == Worth(s.db[order], c.manual, rules)
  {
    var s := Run(quota, actions, rules);
    RunKeepsInv(quota, actions, rules);
    CreditsOfDistinct(s.ledger, order);
    forall c | c in Credits(s.ledger, order) ensures EntrySound(c, s.db, rules) && order in Paid(s.ledger) {
    }
  }

  /** `n` is `x` without its fraction: nearest to it on the side of zero. */
  predicate Truncates(n: int, x: real) {
    if x >= 0.0 then n as real <= x < n as real + 1.0 else n as real - 1.0 < x <= n as real
  }

  lemma IntPartTruncates(x: real)
    ensures Truncates(IntPart(x), x)
  {
    if x < 0.0 {
      var n := (-x).Floor;
      assert (-n) as real == -(n as real);
    }
  }

  lemma IntPartOfWhole(n: int)
    ensures IntPart(n as real) == n
  {
    assert -(n as real) == (-n) as real;
  }

  /** The worth of an amount is its product with QuotaPerUnit, and of money likewise, without the fraction; for a whole
      QuotaPerUnit an amount is worth the product itself. */
  lemma WorthPerUnit(row: TopUp, manual: bool, rules: Rules, quotaPerUnit: real)
    ensures var worth := Worth(row, manual, PerUnit(rules, quotaPerUnit));
      Truncates(worth, (if manual && row.stripe then row.money else row.amount as real) * quotaPerUnit)
  {
    IntPartTruncates((if manual && row.stripe then row.money else row.amount as real) * quotaPerUnit);
  }

  lemma WorthPerWholeUnit(row: TopUp, manual: bool, rules: Rules, quotaPerUnit: int)
    requires !manual || !row.stripe
    ensures Worth(row, manual, PerUnit(rules, quotaPerUnit as real)) == row.amount * quotaPerUnit
  {
    var q := quotaPerUnit as real;
    assert Worth(row, manual, PerUnit(rules, q)) == Times(row.amount as real, q);
    assert row.amount as real * q == (row.amount * quotaPerUnit) as real;
    IntPartOfWhole(row.amount * quotaPerUnit);
  }

  /** Once an order is marked paid and its handler is past the quota increase, it has been credited exactly
      once unless that increase failed, in which case it never is. */
  lemma PaidOrderCreditedOnce(quota: map<nat, int>, actions: seq<Action>, rules: Rules, order: Order)
    requires var s := Run(quota, actions, rules);
      && order in s.db && s.db[order].status.Success?
      && forall th | th in s.jobs && s.jobs[th].Increase? :: L.PcOf(s.lock, th).order != order
    ensures var s := Run(quota, actions, rules); |Credits(s.ledger, order)| == if order in s.lost then 0 else 1
  {
    var s := Run(quota, actions, rules);
    RunKeepsInv(quota, actions, rules);
    CreditsOfDistinct(s.ledger, order);
  }

  /** Every quota is its initial value plus the credits and the rewards, less what saving inviters took. */
  lemma QuotaIsInitialPlusCredits(quota: map<nat, int>, actions: seq<Action>, rules: Rules, user: nat)
    ensures var s := Run(quota, actions, rules);
      QuotaOf(s.quota, user) ==
      QuotaOf(quota, user) + Sum(s.ledger, user) + Total(s.invites.rewards, user) - Total(s.invites.overwrites, user)
  {
    RunKeepsInv(quota, actions, rules);
  }
}
