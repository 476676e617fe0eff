/**
  The invite reward of the first top-up, over every run of the settlement handlers: who gets it, how often, and what
  writing the inviter's row back does to the inviter (`MaybeGrantInviteRewardOnFirstTopUp` and `inviteUser` of
  model/user.go).
*/
module InviteReward {
  import L = OrderLock
  import opened TopUpSettlement

  /** Somebody else invited the user. */
  predicate HasInviter(rules: Rules, user: nat) {
    user > 0 && rules.inviterOf(user) !in {0, user}
  }

  /** The first top-up of `invitee` makes a handler write back the row of `user`. */
  predicate Opens(rules: Rules, invitee: nat, user: nat) {
    HasInviter(rules, invitee) && invitee !in rules.settled && rules.inviterOf(invitee) == user
  }

  /** The row of `user` may still be written back. */
  ghost predicate Reopens(rules: Rules, user: nat) {
    rules.forInviter > 0 && exists invitee :: Opens(rules, invitee, user)
  }

  predicate Rewardable(rules: Rules, user: nat) {
    rules.forInvitee > 0 && HasInviter(rules, user) && user !in rules.settled
  }

  /** How often `user` was rewarded. */
  function Grants(rewards: seq<Change>, user: nat): nat {
    if rewards == [] then 0
    else Grants(rewards[..|rewards| - 1], user) + if rewards[|rewards| - 1].user == user then 1 else 0
  }

  predicate HasCredit(ledger: seq<Credit>, user: nat) {
    exists i :: 0 <= i < |ledger| && ledger[i].user == user
  }

  lemma GrantsOfLast(rewards: seq<Change>, c: Change, user: nat)
    ensures Grants(rewards + [c], user) == Grants(rewards, user) + if c.user == user then 1 else 0
  {
    assert (rewards + [c])[..|rewards|] == rewards;
  }

  // ----- what every step keeps, for all users -----

  ghost predicate JobRight(job: Job, ledger: seq<Credit>, rules: Rules) {
    match job
    case Claim(user) => HasCredit(ledger, user)
    case Grant(user) => HasInviter(rules, user) && user !in rules.settled && HasCredit(ledger, user)
    case ReadInviter(user) => Reopens(rules, user)
    case SaveInviter(user, _, flag) => Reopens(rules, user) && (user in rules.settled ==> flag)
    case _ => true
  }

  predicate RewardRight(r: Change, ledger: seq<Credit>, rules: Rules) {
    Rewardable(rules, r.user) && r.amount == rules.forInvitee && HasCredit(ledger, r.user)
  }

  ghost predicate JobsRight(s: Sys, rules: Rules) {
    forall th | th in s.jobs :: JobRight(s.jobs[th], s.ledger, rules)
  }

  ghost predicate InvitesRight(v: Invites, ledger: seq<Credit>, rules: Rules) {
    && rules.settled <= v.settled
    && (forall i | 0 <= i < |v.rewards| :: RewardRight(v.rewards[i], ledger, rules))
    && (forall i | 0 <= i < |v.overwrites| :: Reopens(rules, v.overwrites[i].user))
  }

  ghost predicate Right(s: Sys, rules: Rules) {
    JobsRight(s, rules) && InvitesRight(s.invites, s.ledger, rules)
  }

  lemma RightAfterReward(s: Sys, th: nat, ok: bool, rules: Rules)
    requires Right(s, rules) && th in s.jobs && IsReward(s.jobs[th])
    ensures Right(RewardStatement(s, th, ok, rules), rules)
  {
    var s' := RewardStatement(s, th, ok, rules);
    RewardFrame(s, th, ok, rules);
    assert JobRight(s.jobs[th], s.ledger, rules);
    match s.jobs[th]
    case Claim(user) =>
    case Grant(user) => assert rules.forInviter > 0 ==> Opens(rules, user, rules.inviterOf(user));
    case ReadInviter(user) =>
    case SaveInviter(user, _, _) =>
  }

  lemma CreditStays(ledger: seq<Credit>, c: Credit, user: nat)
    ensures HasCredit(ledger + [c], c.user) && (HasCredit(ledger, user) ==> HasCredit(ledger + [c], user))
  {
    assert (ledger + [c])[|ledger|] == c;
    if HasCredit(ledger, user) {
      var i :| 0 <= i < |ledger| && ledger[i].user == user;
      assert (ledger + [c])[i].user == user;
    }
  }

  lemma InvitesWithCredit(v: Invites, ledger: seq<Credit>, c: Credit, rules: Rules)
    requires InvitesRight(v, ledger, rules)
    ensures InvitesRight(v, ledger + [c], rules)
  {
    forall i | 0 <= i < |v.rewards| ensures RewardRight(v.rewards[i], ledger + [c], rules) {
      CreditStays(ledger, c, v.rewards[i].user);
    }
  }

  lemma JobWithCredit(job: Job, ledger: seq<Credit>, c: Credit, rules: Rules)
    requires JobRight(job, ledger, rules)
    ensures JobRight(job, ledger + [c], rules)
  {
    if job.Claim? || job.Grant? { CreditStays(ledger, c, job.user); }
  }

  lemma RightWithCredit(s: Sys, c: Credit, th: nat, s': Sys, rules: Rules)
    requires Right(s, rules)
    requires s'.ledger == s.ledger + [c] && s'.invites == s.invites && s'.jobs == s.jobs[th := Claim(c.user)]
    ensures Right(s', rules)
  {
    InvitesWithCredit(s.invites, s.ledger, c, rules);
    CreditStays(s.ledger, c, c.user);
    forall t | t in s.jobs
      ensures JobRight(s.jobs[t], s'.ledger, rules) { JobWithCredit(s.jobs[t], s.ledger, c, rules); }
  }

  /** A statement for the order adds a credit and goes on to the claim, or leaves ledger and rewards alone. */
  lemma OrderFrame(s: Sys, th: nat, order: Order, ok: bool, rules: Rules) returns (c: Credit)
    requires th in s.jobs && !IsReward(s.jobs[th])
    ensures var s' := OrderStatement(s, th, order, ok, rules);
      && s'.invites == s.invites && th in s'.jobs && s'.jobs == s.jobs[th := s'.jobs[th]]
      && if s'.ledger == s.ledger then !IsReward(s'.jobs[th])
        else s'.ledger == s.ledger + [c] && s'.jobs[th] == Claim(c.user)
  {
    var s' := OrderStatement(s, th, order, ok, rules);
    c := Credit(order, 0, 0, true);
    match s.jobs[th]
    case Increase(row) => c := Credit(order, row.user, rules.ofAmount(row.amount), false);
    case Complete => if order in s.db { c := Credit(order, s.db[order].user, AdminQuota(s.db[order], rules), true); }
    case _ =>
  }

  lemma RightAfterOrder(s: Sys, th: nat, order: Order, ok: bool, rules: Rules)
    requires Right(s, rules) && th in s.jobs && !IsReward(s.jobs[th])
    ensures Right(OrderStatement(s, th, order, ok, rules), rules)
  {
    var s' := OrderStatement(s, th, order, ok, rules);
    var c := OrderFrame(s, th, order, ok, rules);
    if s'.ledger != s.ledger { RightWithCredit(s, c, th, s', rules); }
  }

  lemma DoKeepsRight(s: Sys, a: Action, rules: Rules)
    requires Right(s, rules)
    ensures Right(Do(s, a, rules), rules)
  {
    if a.Work? && L.PcOf(s.lock, a.th).stage.Holding? && a.th in s.jobs {
      if IsReward(s.jobs[a.th]) { RightAfterReward(s, a.th, a.ok, rules); }
      else { RightAfterOrder(s, a.th, L.PcOf(s.lock, a.th).order, a.ok, rules); }
    }
  }

  lemma {:induction false} RunKeepsRight(quota: map<nat, int>, actions: seq<Action>, rules: Rules)
    ensures Right(Run(quota, actions, rules), rules)
  {
    if actions != [] {
      var before := actions[..|actions| - 1];
      RunKeepsRight(quota, before, rules);
      DoKeepsRight(Run(quota, before, rules), actions[|actions| - 1], rules);
    }
  }

  /** However the handlers of all orders interleave, a reward is of the fixed amount and goes to an invited user with a
      credited order whose reward was not settled before. */
  lemma RewardIsDeserved(quota: map<nat, int>, actions: seq<Action>, rules: Rules, i: nat)
    requires i < |Run(quota, actions, rules).invites.rewards|
    ensures var s := Run(quota, actions, rules); var r := s.invites.rewards[i];
      && r.amount == rules.forInvitee > 0
      && HasInviter(rules, r.user) && r.user !in rules.settled
      && exists c | c in s.ledger :: c.user == r.user
  {
    var s := Run(quota, actions, rules);
    RunKeepsRight(quota, actions, rules);
    assert RewardRight(s.invites.rewards[i], s.ledger, rules);
  }

  // ----- what every step keeps, for a user whose row is never written back -----

  function One(b: bool): nat {
    if b then 1 else 0
  }

  /** A settled user was so before, is about to be rewarded, is rewarded or missed the reward: exactly one of these,
      once. */
  ghost predicate Tally(v: Invites, rules: Rules, user: nat) {
    One(user in rules.settled) + One(user in v.due) + Grants(v.rewards, user) + One(user in v.missed) ==
      One(user in v.settled)
  }

  /** The thread that claimed the reward is the one that grants it. */
  ghost predicate DueJob(jobs: map<nat, Job>, due: map<nat, nat>, user: nat) {
    && (forall th | th in jobs && jobs[th] == Grant(user) :: user in due && due[user] == th)
    && (user in due ==> due[user] in jobs && jobs[due[user]] == Grant(user))
  }

  ghost predicate Once(s: Sys, rules: Rules, user: nat) {
    Tally(s.invites, rules, user) && DueJob(s.jobs, s.invites.due, user)
  }

  lemma TallyAfterGrant(s: Sys, th: nat, ok: bool, rules: Rules, granted: nat, user: nat)
    requires Tally(s.invites, rules, user) && (granted == user ==> user in s.invites.due)
    ensures Tally(GrantReward(s, th, granted, ok, rules).invites, rules, user)
  {
    GrantsOfLast(s.invites.rewards, Change(granted, rules.forInvitee), user);
  }

  lemma OnceAfterClaim(s: Sys, th: nat, ok: bool, rules: Rules, claimed: nat, user: nat)
    requires Once(s, rules, user) && th in s.jobs && s.jobs[th] == Claim(claimed)
    ensures Once(ClaimReward(s, th, claimed, ok, rules), rules, user)
  {
  }

  lemma DueAfterGrant(jobs: map<nat, Job>, due: map<nat, nat>, th: nat, granted: nat, job: Job, user: nat)
    requires DueJob(jobs, due, user) && th in jobs && jobs[th] == Grant(granted) && !job.Grant?
    ensures DueJob(jobs[th := job], due - {granted}, user)
  {
  }

  lemma OnceAfterGrant(s: Sys, th: nat, ok: bool, rules: Rules, granted: nat, user: nat)
    requires Once(s, rules, user) && th in s.jobs && s.jobs[th] == Grant(granted)
    ensures Once(GrantReward(s, th, granted, ok, rules), rules, user)
  {
    var s' := GrantReward(s, th, granted, ok, rules);
    assert Tally(s'.invites, rules, user) by { TallyAfterGrant(s, th, ok, rules, granted, user); }
    assert DueJob(s'.jobs, s'.invites.due, user) by {
      DueAfterGrant(s.jobs, s.invites.due, th, granted, AfterGrant(granted, rules), user);
    }
  }

  lemma OnceAfterReward(s: Sys, th: nat, ok: bool, rules: Rules, user: nat)
    requires Once(s, rules, user) && Right(s, rules) && !Reopens(rules, user) && th in s.jobs && IsReward(s.jobs[th])
    ensures Once(RewardStatement(s, th, ok, rules), rules, user)
  {
    assert JobRight(s.jobs[th], s.ledger, rules);
    match s.jobs[th]
    case Claim(claimed) => OnceAfterClaim(s, th, ok, rules, claimed, user);
    case Grant(granted) => OnceAfterGrant(s, th, ok, rules, granted, user);
    case ReadInviter(_) =>
    case SaveInviter(_, _, _) =>
  }

  lemma OnceAfterOrder(s: Sys, th: nat, order: Order, ok: bool, rules: Rules, user: nat)
    requires Once(s, rules, user) && th in s.jobs && !IsReward(s.jobs[th])
    ensures Once(OrderStatement(s, th, order, ok, rules), rules, user)
  {
    var c := OrderFrame(s, th, order, ok, rules);
  }

  /** Starting and finishing a handler moves no job that grants. */
  lemma DueAfterStart(s: Sys, th: nat, job: Job, user: nat)
    requires DueJob(s.jobs, s.invites.due, user) && JobsSane(s) && !job.Grant?
    requires L.PcOf(s.lock, th).stage.Idle?
    ensures DueJob(s.jobs[th := job], s.invites.due, user)
  {
    assert th in s.jobs ==> JobSane(s.jobs[th], th, L.PcOf(s.lock, th), s.db, s.owing);
  }

  lemma DueAfterFinish(jobs: map<nat, Job>, due: map<nat, nat>, th: nat, user: nat)
    requires DueJob(jobs, due, user) && th in jobs && jobs[th].Done?
    ensures DueJob(jobs - {th}, due, user)
  {
  }

  lemma WorkKeepsOnce(s: Sys, th: nat, ok: bool, rules: Rules, user: nat)
    requires Once(s, rules, user) && Right(s, rules) && !Reopens(rules, user) && th in s.jobs
    ensures Once(Statement(s, th, L.PcOf(s.lock, th).order, ok, rules), rules, user)
  {
    if IsReward(s.jobs[th]) { OnceAfterReward(s, th, ok, rules, user); }
    else { OnceAfterOrder(s, th, L.PcOf(s.lock, th).order, ok, rules, user); }
  }

  lemma DoKeepsOnce(s: Sys, a: Action, rules: Rules, user: nat)
    requires Once(s, rules, user) && Right(s, rules) && JobsSane(s) && !Reopens(rules, user)
    ensures Once(Do(s, a, rules), rules, user)
  {
    match a
    case Work(th, ok) => if th in s.jobs { WorkKeepsOnce(s, th, ok, rules, user); }
    case Insert(_, _) =>
    case Lock(_) =>
    case Finish(th) => if th in s.jobs && s.jobs[th].Done? { DueAfterFinish(s.jobs, s.invites.due, th, user); }
    case Notify(th, _) => if L.PcOf(s.lock, th).stage.Idle? { DueAfterStart(s, th, Read, user); }
    case AdminComplete(th, _) => if L.PcOf(s.lock, th).stage.Idle? { DueAfterStart(s, th, Complete, user); }
  }

  lemma {:induction false} RunKeepsOnce(quota: map<nat, int>, actions: seq<Action>, rules: Rules, user: nat)
    requires !Reopens(rules, user)
    ensures Once(Run(quota, actions, rules), rules, user)
  {
    if actions != [] {
      var before := actions[..|actions| - 1];
      RunKeepsOnce(quota, before, rules, user);
      RunKeepsInv(quota, before, rules);
      RunKeepsRight(quota, before, rules);
      DoKeepsOnce(Run(quota, before, rules), actions[|actions| - 1], rules, user);
    }
  }

  /** Once the reward of a user is claimed and its handler is past the increase, the user has been rewarded exactly once
      unless that increase failed or adds nothing, or the reward was settled before. */
  lemma SettledUserRewardedOnce(quota: map<nat, int>, actions: seq<Action>, rules: Rules, user: nat)
    requires !Reopens(rules, user)
    requires var s := Run(quota, actions, rules);
      user in s.invites.settled && forall th | th in s.jobs :: s.jobs[th] != Grant(user)
    ensures var s := Run(quota, actions, rules);
      Grants(s.invites.rewards, user) == if user in rules.settled || user in s.invites.missed then 0 else 1
  {
    RunKeepsOnce(quota, actions, rules, user);
  }

  lemma {:induction false} NoGrants(rewards: seq<Change>, user: nat)
    requires forall i | 0 <= i < |rewards| :: rewards[i].user != user
    ensures Grants(rewards, user) == 0
  {
    if rewards != [] { NoGrants(rewards[..|rewards| - 1], user); }
  }

  lemma AtMostOnce(quota: map<nat, int>, actions: seq<Action>, rules: Rules, user: nat)
    requires !Rewardable(rules, user) || !Reopens(rules, user)
    ensures Grants(Run(quota, actions, rules).invites.rewards, user) <= 1
  {
    var s := Run(quota, actions, rules);
    if Rewardable(rules, user) {
      RunKeepsOnce(quota, actions, rules, user);
    } else {
      RunKeepsRight(quota, actions, rules);
      forall i | 0 <= i < |s.invites.rewards| ensures s.invites.rewards[i].user != user {
        assert RewardRight(s.invites.rewards[i], s.ledger, rules);
      }
      NoGrants(s.invites.rewards, user);
    }
  }

  lemma {:induction false} NoTotal(changes: seq<Change>, user: nat)
    requires forall i | 0 <= i < |changes| :: changes[i].user != user
    ensures Total(changes, user) == 0
  {
    if changes != [] { NoTotal(changes[..|changes| - 1], user); }
  }

  lemma NothingOverwritten(quota: map<nat, int>, actions: seq<Action>, rules: Rules, user: nat)
    requires !Reopens(rules, user)
    ensures Total(Run(quota, actions, rules).invites.overwrites, user) == 0
  {
    RunKeepsRight(quota, actions, rules);
    NoTotal(Run(quota, actions, rules).invites.overwrites, user);
  }

  // ----- a run in which the row of an inviter is written back too late -----

  /** A property of states that every step keeps. */
  ghost predicate Kept(p: Sys -> bool, rules: Rules) {
    forall s, a :: p(s) ==> p(Do(s, a, rules))
  }

  function Next(lock: L.State, th: nat): L.State {
    L.Do(lock, L.Advance(th))
  }

  lemma LocksThrice(p: Sys -> bool, s: Sys, rules: Rules, th: nat)
    requires Kept(p, rules) && p(s)
    ensures p(s.(lock := Next(Next(Next(s.lock, th), th), th)))
  {
    var a := Do(s, Lock(th), rules);
    var b := Do(a, Lock(th), rules);
    assert p(Do(b, Lock(th), rules));
  }

  /** `th` has come to hold `order`, and nothing else has changed for the others. */
  ghost predicate Entered(lock: L.State, th: nat, order: Order, lock': L.State) {
    && lock'.create.Free? && lock'.locks.Keys == lock.locks.Keys + {order}
    && th in lock'.pc && lock'.pc == lock.pc[th := lock'.pc[th]]
    && lock'.pc[th].stage.Holding? && lock'.pc[th].order == order
  }

  /** Halfway: the thread is in `createLock` and holds a mutex object no other has seen. */
  lemma CreatesMutex(lock: L.State, th: nat, order: Order)
    requires lock.create.Free? && order !in lock.locks && L.PcOf(lock, th) == L.Pc(L.EnterLock, order, 0)
    ensures var m := Next(Next(Next(lock, th), th), th);
      && m.locks == lock.locks[order := lock.next] && L.MutexOf(m, lock.next) == L.Mutex(false, 0)
      && m.pc == lock.pc[th := L.Pc(L.Retain, order, lock.next)]
  {
    var a := Next(lock, th);
    assert a == L.Move(lock.(create := L.Held(th)), th, L.Pc(L.Lookup, order, 0));
    var b := Next(a, th);
    assert b == L.Move(L.SetMutex(a, a.next, L.Mutex(false, 0)).(next := a.next + 1), th, L.Pc(L.Store, order, a.next));
  }

  lemma TakesMutex(lock: L.State, th: nat, order: Order, obj: nat)
    requires L.PcOf(lock, th) == L.Pc(L.Retain, order, obj) && L.MutexOf(lock, obj) == L.Mutex(false, 0)
    ensures var m := Next(Next(Next(lock, th), th), th);
      m.create.Free? && m.locks == lock.locks && m.pc == lock.pc[th := L.Pc(L.Holding, order, obj)]
  {
    var a := Next(lock, th);
    assert a == L.Move(L.SetMutex(lock, obj, L.Mutex(false, 1)), th, L.Pc(L.LeaveLock, order, obj));
    var b := Next(a, th);
    assert b == L.Move(a.(create := L.Free), th, L.Pc(L.Wait, order, obj));
  }

  /** Nobody is inside the lock and `order` is pending and untouched. */
  ghost predicate Waiting(s: Sys, th: nat, order: Order) {
    && s.lock.create.Free? && order !in s.lock.locks && L.PcOf(s.lock, th).stage.Idle?
    && order in s.db && s.db[order].status.Pending?
  }

  /** The lock after the six statements of an undisturbed LockOrder. */
  function Taken(lock: L.State, th: nat): L.State {
    var m := Next(Next(Next(lock, th), th), th);
    Next(Next(Next(m, th), th), th)
  }

  lemma LockIsTaken(lock: L.State, th: nat, order: Order)
    requires lock.create.Free? && order !in lock.locks && L.PcOf(lock, th) == L.Pc(L.EnterLock, order, 0)
    ensures Entered(lock, th, order, Taken(lock, th))
  {
    CreatesMutex(lock, th, order);
    TakesMutex(Next(Next(Next(lock, th), th), th), th, order, lock.next);
  }

  lemma TakesLock(p: Sys -> bool, s: Sys, rules: Rules, th: nat)
    requires Kept(p, rules) && p(s)
    ensures p(s.(lock := Taken(s.lock, th)))
  {
    LocksThrice(p, s, rules, th);
    LocksThrice(p, s.(lock := Next(Next(Next(s.lock, th), th), th)), rules, th);
  }

  lemma Enters(p: Sys -> bool, s: Sys, rules: Rules, th: nat, order: Order) returns (lock: L.State)
    requires Kept(p, rules) && p(s) && Waiting(s, th, order)
    ensures p(WithJob(s.(lock := lock), th, Read)) && Entered(s.lock, th, order, lock)
  {
    var calling := L.Move(s.lock, th, L.Pc(L.EnterLock, order, 0));
    var called := WithJob(s.(lock := calling), th, Read);
    assert Do(s, Notify(th, order), rules) == called;
    TakesLock(p, called, rules, th);
    LockIsTaken(calling, th, order);
    lock := Taken(calling, th);
  }

  /** `th` holds `order` and has a next statement. */
  ghost predicate Working(s: Sys, th: nat, order: Order) {
    L.PcOf(s.lock, th).stage.Holding? && L.PcOf(s.lock, th).order == order && th in s.jobs
  }

  lemma Works(p: Sys -> bool, s: Sys, rules: Rules, th: nat, order: Order)
    requires Kept(p, rules) && p(s) && Working(s, th, order)
    ensures p(Statement(s, th, order, true, rules))
  {
    assert p(Do(s, Work(th, true), rules));
  }

  /** `s'` is `s` after a callback for `order` whose thread is about to claim the reward. */
  ghost predicate Settles(s: Sys, th: nat, order: Order, s': Sys, rules: Rules)
    requires order in s.db
  {
    Entered(s.lock, th, order, s'.lock) && Raised(s.(lock := s'.lock), th, order, s', rules)
  }

  /** `order` is marked paid and its thread is about to raise the quota. */
  function Marked(s: Sys, th: nat, order: Order): Sys
    requires order in s.db
  {
    WithJob(s.(db := s.db[order := s.db[order].(status := Success)], owing := s.owing[order := th]), th,
      Increase(s.db[order]))
  }

  ghost predicate Raised(s: Sys, th: nat, order: Order, s': Sys, rules: Rules)
    requires order in s.db
  {
    var row := s.db[order];
    && s'.lock == s.lock && s'.jobs == s.jobs[th := Claim(row.user)]
    && s'.db == s.db[order := row.(status := Success)] && s'.invites == s.invites
    && s'.quota == s.quota[row.user := QuotaOf(s.quota, row.user) + rules.ofAmount(row.amount)]
  }

  lemma Reads(p: Sys -> bool, s: Sys, rules: Rules, th: nat, order: Order)
    requires Kept(p, rules) && p(s) && Working(s, th, order) && s.jobs[th].Read?
    requires order in s.db && s.db[order].status.Pending?
    ensures p(WithJob(s, th, Save(s.db[order])))
  {
    Works(p, s, rules, th, order);
  }

  lemma Marks(p: Sys -> bool, s: Sys, rules: Rules, th: nat, order: Order)
    requires Kept(p, rules) && Working(s, th, order) && order in s.db && p(WithJob(s, th, Save(s.db[order])))
    ensures p(Marked(s, th, order))
  {
    var saving := WithJob(s, th, Save(s.db[order]));
    Works(p, saving, rules, th, order);
    assert Statement(saving, th, order, true, rules).jobs == Marked(s, th, order).jobs;
  }

  lemma Raises(p: Sys -> bool, s: Sys, rules: Rules, th: nat, order: Order) returns (s': Sys)
    requires Kept(p, rules) && Working(s, th, order) && order in s.db && p(Marked(s, th, order))
    requires rules.ofAmount(s.db[order].amount) >= 0
    ensures p(s') && Raised(s, th, order, s', rules)
  {
    var m := Marked(s, th, order);
    Works(p, m, rules, th, order);
    s' := Statement(m, th, order, true, rules);
    assert s'.jobs == s.jobs[th := Claim(s.db[order].user)];
  }

  lemma Charges(p: Sys -> bool, s: Sys, rules: Rules, th: nat, order: Order) returns (s': Sys)
    requires Kept(p, rules) && p(s) && Working(s, th, order) && s.jobs[th].Read?
    requires order in s.db && s.db[order].status.Pending? && rules.ofAmount(s.db[order].amount) >= 0
    ensures p(s') && Raised(s, th, order, s', rules)
  {
    Reads(p, s, rules, th, order);
    Marks(p, s, rules, th, order);
    s' := Raises(p, s, rules, th, order);
  }

  /** A callback that nothing disturbs reaches the claim. */
  lemma SettlesRun(p: Sys -> bool, s: Sys, rules: Rules, th: nat, order: Order) returns (s': Sys)
    requires Kept(p, rules) && p(s) && Waiting(s, th, order) && rules.ofAmount(s.db[order].amount) >= 0
    ensures p(s') && Settles(s, th, order, s', rules)
  {
    var lock := Enters(p, s, rules, th, order);
    var a := WithJob(s.(lock := lock), th, Read);
    s' := Charges(p, a, rules, th, order);
    assert s'.jobs == s.jobs[th := Claim(s.db[order].user)];
  }

  /** The others wait and work on as before. */
  lemma OthersStay(s: Sys, th: nat, order: Order, s': Sys, rules: Rules, c: nat, o: Order)
    requires order in s.db && Settles(s, th, order, s', rules) && c != th && o != order
    ensures Waiting(s, c, o) ==> Waiting(s', c, o) && s'.db[o] == s.db[o]
    ensures Working(s, c, o) ==> Working(s', c, o) && s'.jobs[c] == s.jobs[c]
  {
  }

  /** Only the job of `th` and what concerns users differ. */
  predicate Aside(s: Sys, s': Sys, th: nat, job: Job) {
    s'.lock == s.lock && s'.db == s.db && s'.jobs == s.jobs[th := job]
  }

  lemma ClaimsRun(p: Sys -> bool, s: Sys, rules: Rules, th: nat, order: Order, user: nat) returns (s': Sys)
    requires Kept(p, rules) && p(s) && Working(s, th, order) && s.jobs[th] == Claim(user)
    requires HasInviter(rules, user) && user !in s.invites.settled
    ensures p(s') && Aside(s, s', th, Grant(user)) && s'.quota == s.quota &&
      s'.invites.settled == s.invites.settled + {user}
    ensures s'.invites.rewards == s.invites.rewards && s'.invites.overwrites == s.invites.overwrites
  {
    Works(p, s, rules, th, order);
    s' := ClaimReward(s, th, user, true, rules);
  }

  lemma GrantsRun(p: Sys -> bool, s: Sys, rules: Rules, th: nat, order: Order, user: nat) returns (s': Sys)
    requires Kept(p, rules) && p(s) && Working(s, th, order) && s.jobs[th] == Grant(user)
    ensures p(s') && Aside(s, s', th, AfterGrant(user, rules)) && s'.invites.settled == s.invites.settled
    ensures s'.invites.overwrites == s.invites.overwrites
    ensures s'.invites.rewards == s.invites.rewards + if rules.forInvitee > 0 then [Change(user, rules.forInvitee)]
      else []
  {
    Works(p, s, rules, th, order);
    s' := GrantReward(s, th, user, true, rules);
  }

  /** `s'` is `s` after a callback for `order` whose thread has claimed the reward of its buyer. */
  ghost predicate Claimed(s: Sys, th: nat, order: Order, s': Sys) {
    && Entered(s.lock, th, order, s'.lock) && order in s.db && s'.jobs == s.jobs[th := Grant(s.db[order].user)]
    && s'.db == s.db[order := s.db[order].(status := Success)] &&
      s'.invites.settled == s.invites.settled + {s.db[order].user}
    && s'.invites.rewards == s.invites.rewards && s'.invites.overwrites == s.invites.overwrites
  }

  lemma ClaimedRun(p: Sys -> bool, s: Sys, rules: Rules, th: nat, order: Order) returns (s': Sys)
    requires Kept(p, rules) && p(s) && Waiting(s, th, order) && rules.ofAmount(s.db[order].amount) >= 0
    requires HasInviter(rules, s.db[order].user) && s.db[order].user !in s.invites.settled
    ensures p(s') && Claimed(s, th, order, s')
  {
    var a := SettlesRun(p, s, rules, th, order);
    s' := ClaimsRun(p, a, rules, th, order, s.db[order].user);
  }

  lemma ReadsRun(p: Sys -> bool, s: Sys, rules: Rules, th: nat, order: Order, user: nat) returns (s': Sys)
    requires Kept(p, rules) && p(s) && Working(s, th, order) && s.jobs[th] == ReadInviter(user)
    ensures p(s') && Aside(s, s', th, SaveInviter(user, QuotaOf(s.quota, user), user in s.invites.settled))
    ensures s'.quota == s.quota && s'.invites == s.invites
  {
    Works(p, s, rules, th, order);
    s' := WithJob(s, th, SaveInviter(user, QuotaOf(s.quota, user), user in s.invites.settled));
  }

  lemma SavesRun(p: Sys -> bool, s: Sys, rules: Rules, th: nat, order: Order, user: nat, snapshot: int, flag: bool)
      returns (s': Sys)
    requires Kept(p, rules) && p(s) && Working(s, th, order) && s.jobs[th] == SaveInviter(user, snapshot, flag)
    ensures p(s') && Aside(s, s', th, Done) && s'.invites.rewards == s.invites.rewards
    ensures s'.invites.settled == if flag then s.invites.settled + {user} else s.invites.settled - {user}
    ensures s'.invites.overwrites == s.invites.overwrites + [Change(user, QuotaOf(s.quota, user) - snapshot)]
  {
    Works(p, s, rules, th, order);
    s' := SaveRow(s, th, user, snapshot, flag, true);
  }

  /** `s'` is `s` after the handler of `order` has read the row of `user` to write it back later. */
  ghost predicate HasRead(s: Sys, th: nat, order: Order, s': Sys, user: nat) {
    && Entered(s.lock, th, order, s'.lock) && s'.invites.overwrites == s.invites.overwrites
    && s'.jobs == s.jobs[th := SaveInviter(user, QuotaOf(s'.quota, user), user in s.invites.settled)]
    && (forall o | o in s.db && o != order :: o in s'.db && s'.db[o] == s.db[o])
    && (user in s'.invites.settled <==> user in s.invites.settled)
  }

  lemma HasReadRun(p: Sys -> bool, s: Sys, rules: Rules, th: nat, order: Order, invitee: nat, user: nat)
      returns (s': Sys)
    requires Kept(p, rules) && p(s) && Waiting(s, th, order) && rules.ofAmount(s.db[order].amount) >= 0
    requires s.db[order].user == invitee && invitee !in s.invites.settled && Opens(rules, invitee, user) &&
      rules.forInviter > 0
    ensures p(s') && HasRead(s, th, order, s', user)
  {
    var a := ClaimedRun(p, s, rules, th, order);
    var b := GrantsRun(p, a, rules, th, order, invitee);
    s' := ReadsRun(p, b, rules, th, order, user);
  }

  lemma AfterHasRead(s: Sys, th: nat, order: Order, s': Sys, user: nat, c: nat, o: Order)
    requires HasRead(s, th, order, s', user) && Waiting(s, c, o) && c != th && o != order
    ensures Waiting(s', c, o) && s'.db[o] == s.db[o]
  {
  }

  /** The inviter's row is read, an order of the inviter is credited, and the row is written back. */
  lemma LosesCredit(p: Sys -> bool, s: Sys, rules: Rules, o: Order, o': Order, invitee: nat, user: nat)
      returns (s': Sys)
    requires Kept(p, rules) && p(s) && Waiting(s, 1, o) && Waiting(s, 2, o') && o != o' && s.invites.overwrites == []
    requires s.db[o].user == invitee && invitee !in s.invites.settled && Opens(rules, invitee, user) &&
      rules.forInviter > 0
    requires s.db[o'].user == user && rules.ofAmount(s.db[o].amount) >= 0 && rules.ofAmount(s.db[o'].amount) > 0
    ensures p(s') && Total(s'.invites.overwrites, user) > 0
  {
    var a := HasReadRun(p, s, rules, 1, o, invitee, user);
    AfterHasRead(s, 1, o, a, user, 2, o');
    var b := SettlesRun(p, a, rules, 2, o');
    assert Working(a, 1, o);
    OthersStay(a, 2, o', b, rules, 1, o);
    s' := SavesRun(p, b, rules, 1, o, user, QuotaOf(a.quota, user), user in s.invites.settled);
    TotalOfLast([], Change(user, QuotaOf(b.quota, user) - QuotaOf(a.quota, user)), user);
  }

  /** A first top-up of `user` that is not settled is rewarded. */
  lemma RewardsRun(p: Sys -> bool, s: Sys, rules: Rules, th: nat, order: Order, user: nat) returns (s': Sys)
    requires Kept(p, rules) && p(s) && Waiting(s, th, order) && rules.ofAmount(s.db[order].amount) >= 0
    requires s.db[order].user == user && user !in s.invites.settled && Rewardable(rules, user)
    ensures p(s') && Grants(s'.invites.rewards, user) == Grants(s.invites.rewards, user) + 1
    ensures forall c, o | c != th && o != order && Waiting(s, c, o) :: Waiting(s', c, o) && s'.db[o] == s.db[o]
    ensures forall c, o | c != th && o != order && Working(s, c, o) :: Working(s', c, o) && s'.jobs[c] == s.jobs[c]
  {
    var a := ClaimedRun(p, s, rules, th, order);
    s' := GrantsRun(p, a, rules, th, order, user);
    GrantsOfLast(s.invites.rewards, Change(user, rules.forInvitee), user);
  }

  /** The row written back says that the inviter's own reward, granted meanwhile, is not settled. */
  lemma RewardsTwice(p: Sys -> bool, s: Sys, rules: Rules, o: Order, o': Order, o'': Order, invitee: nat, user: nat)
      returns (s': Sys)
    requires Kept(p, rules) && p(s) && o != o' && o != o'' && o' != o''
    requires Waiting(s, 1, o) && Waiting(s, 2, o') && Waiting(s, 3, o'')
    requires s.db[o].user == invitee && invitee !in s.invites.settled && Opens(rules, invitee, user) &&
      rules.forInviter > 0
    requires s.db[o'].user == user && s.db[o''].user == user && user !in s.invites.settled && Rewardable(rules, user)
    requires rules.ofAmount(s.db[o].amount) >= 0 && rules.ofAmount(s.db[o'].amount) >= 0 &&
      rules.ofAmount(s.db[o''].amount) >= 0
    ensures p(s') && Grants(s'.invites.rewards, user) >= 2
  {
    var a := HasReadRun(p, s, rules, 1, o, invitee, user);
    AfterHasRead(s, 1, o, a, user, 2, o');
    AfterHasRead(s, 1, o, a, user, 3, o'');
    assert Working(a, 1, o);
    var b := RewardsRun(p, a, rules, 2, o', user);
    var c := SavesRun(p, b, rules, 1, o, user, QuotaOf(a.quota, user), false);
    assert Waiting(c, 3, o'');
    s' := RewardsRun(p, c, rules, 3, o'', user);
  }

  /** Three pending orders, the first of the invitee and the others of the user. */
  predicate Placed(s: Sys, rules: Rules, first: TopUp, later: TopUp) {
    && s.lock == L.INIT && s.invites == Invites(rules.settled, map[], [], {}, [])
    && s.db == map["1" := first, "2" := later, "3" := later]
  }

  lemma Places(p: Sys -> bool, quota: map<nat, int>, rules: Rules, first: TopUp, later: TopUp) returns (s: Sys)
    requires Kept(p, rules) && p(Init(quota, rules)) && first.status.Pending? && later.status.Pending?
    ensures p(s) && Placed(s, rules, first, later)
    ensures Waiting(s, 1, "1") && Waiting(s, 2, "2") && Waiting(s, 3, "3")
  {
    var a := Do(Init(quota, rules), Insert("1", first), rules);
    var b := Do(a, Insert("2", later), rules);
    s := Do(b, Insert("3", later), rules);
  }

  ghost predicate Reached(quota: map<nat, int>, rules: Rules, s: Sys) {
    exists actions :: Run(quota, actions, rules) == s
  }

  lemma ReachedIsKept(quota: map<nat, int>, rules: Rules, s: Sys, a: Action)
    requires Reached(quota, rules, s)
    ensures Reached(quota, rules, Do(s, a, rules))
  {
    var actions :| Run(quota, actions, rules) == s;
    assert (actions + [a])[..|actions|] == actions;
    assert Run(quota, actions + [a], rules) == Do(s, a, rules);
  }

  lemma RunsAreKept(quota: map<nat, int>, rules: Rules) returns (p: Sys -> bool)
    ensures forall s | p(s) :: Reached(quota, rules, s)
    ensures Kept(p, rules) && p(Init(quota, rules))
  {
    p := (s: Sys) => Reached(quota, rules, s);
    forall s, a | p(s) ensures p(Do(s, a, rules)) { ReachedIsKept(quota, rules, s, a); }
    assert Run(quota, [], rules) == Init(quota, rules);
  }

  lemma RewardedTwice(quota: map<nat, int>, rules: Rules, user: nat, amount: int) returns (actions: seq<Action>)
    requires rules.ofAmount(amount) >= 0 && Rewardable(rules, user) && Reopens(rules, user)
    ensures Grants(Run(quota, actions, rules).invites.rewards, user) >= 2
  {
    var invitee :| Opens(rules, invitee, user);
    var p := RunsAreKept(quota, rules);
    var s := Places(p, quota, rules, TopUp(invitee, amount, 0.0, false, Pending),
      TopUp(user, amount, 0.0, false, Pending));
    var s' := RewardsTwice(p, s, rules, "1", "2", "3", invitee, user);
    actions :| Run(quota, actions, rules) == s';
  }

  lemma CreditLost(quota: map<nat, int>, rules: Rules, user: nat, amount: int) returns (actions: seq<Action>)
    requires rules.ofAmount(amount) > 0 && Reopens(rules, user)
    ensures Total(Run(quota, actions, rules).invites.overwrites, user) > 0
  {
    var invitee :| Opens(rules, invitee, user);
    var p := RunsAreKept(quota, rules);
    var s := Places(p, quota, rules, TopUp(invitee, amount, 0.0, false, Pending),
      TopUp(user, amount, 0.0, false, Pending));
    var s' := LosesCredit(p, s, rules, "1", "2", invitee, user);
    actions :| Run(quota, actions, rules) == s';
  }

  // ----- what users get, over every run -----

  ghost predicate NeverTwice(quota: map<nat, int>, rules: Rules, user: nat) {
    forall actions :: Grants(Run(quota, actions, rules).invites.rewards, user) <= 1
  }

  /** The promised at-most-once holds of a user over every run exactly if the user has no reward to get or nobody's
      first top-up can make a handler write back the user's row. `amount` is any the callback can credit. */
  lemma RewardedAtMostOnceIff(quota: map<nat, int>, rules: Rules, user: nat, amount: int)
    requires rules.ofAmount(amount) >= 0
    ensures NeverTwice(quota, rules, user) <==> !Rewardable(rules, user) || !Reopens(rules, user)
  {
    if Rewardable(rules, user) && Reopens(rules, user) {
      var actions := RewardedTwice(quota, rules, user, amount);
      assert !NeverTwice(quota, rules, user);
    } else {
      forall actions ensures Grants(Run(quota, actions, rules).invites.rewards, user) <= 1 {
        AtMostOnce(quota, actions, rules, user);
      }
    }
  }

  ghost predicate AddsUp(quota: map<nat, int>, rules: Rules, user: nat) {
    forall actions :: var s := Run(quota, actions, rules);
      QuotaOf(s.quota, user) == QuotaOf(quota, user) + Sum(s.ledger, user) + Total(s.invites.rewards, user)
  }

  /** A user's quota is the initial one plus credits and rewards over every run exactly if no handler can write back the
      user's row. `amount` is any that is worth something. */
  lemma QuotaAddsUpIff(quota: map<nat, int>, rules: Rules, user: nat, amount: int)
    requires rules.ofAmount(amount) > 0
    ensures AddsUp(quota, rules, user) <==> !Reopens(rules, user)
  {
    if Reopens(rules, user) {
      var actions := CreditLost(quota, rules, user, amount);
      QuotaIsInitialPlusCredits(quota, actions, rules, user);
      assert !AddsUp(quota, rules, user);
    } else {
      forall actions ensures var s := Run(quota, actions, rules);
        QuotaOf(s.quota, user) == QuotaOf(quota, user) + Sum(s.ledger, user) + Total(s.invites.rewards, user)
      {
        NothingOverwritten(quota, actions, rules, user);
        QuotaIsInitialPlusCredits(quota, actions, rules, user);
      }
    }
  }
}
