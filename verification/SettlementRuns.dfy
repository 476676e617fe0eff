/**
  What becomes of a settlement handler, over every run (controller/topup.go, model/topup.go): it stays with its order
  until it is done, its statements come to an end, and it has settled the order exactly if nothing failed and the order
  is worth something to it.
*/
module SettlementRuns {
  import L = OrderLock
  import opened TopUpSettlement

  // ----- a handler and the lock -----

  /** A thread has a job exactly while it waits for its order or holds it. */
  ghost predicate JobsHeld(s: Sys) {
    forall th :: th in s.jobs <==> L.Locking(L.PcOf(s.lock, th)) || L.PcOf(s.lock, th).stage.Holding?
  }

  /** Where a thread is after one step of the lock. */
  lemma LockStage(lock: L.State, a: L.Action, th: nat)
    requires L.Reachable(lock) && (a.CallLock? ==> L.PcOf(lock, a.th).stage.Idle?)
    requires a.CallUnlock? ==> L.PcOf(lock, a.th).stage.Holding?
    ensures var p, p' := L.PcOf(lock, th), L.PcOf(L.Do(lock, a), th);
      (L.Locking(p') || p'.stage.Holding?) <==>
      ((L.Locking(p) || p.stage.Holding?) && a != L.CallUnlock(th)) || (a.CallLock? && a.th == th)
  {
    var p := L.PcOf(lock, th);
    if th in lock.pc {
      L.UnlockNeverMisses(lock, th);
    }
    if L.Locking(p) {
      L.LeftOnlyByHolding(lock, a, th);
    } else if p.stage.Holding? {
      L.HeldUntilUnlock(lock, a, th);
    } else if L.Unlocking(p) {
      L.LeftOnlyByReturning(lock, a, th);
    } else {
      L.EnteredOnlyByCalling(lock, a, th);
    }
  }

  /** A statement for the order moves its own handler only. */
  ghost predicate MovesOnly(s: Sys, th: nat, s': Sys) {
    s'.lock == s.lock && th in s'.jobs && s'.jobs == s.jobs[th := s'.jobs[th]]
  }

  lemma OrderMovesOnly(s: Sys, th: nat, order: Order, ok: bool, rules: Rules)
    requires th in s.jobs
    ensures MovesOnly(s, th, OrderStatement(s, th, order, ok, rules))
  {
    var s' := OrderStatement(s, th, order, ok, rules);
    match s.jobs[th]
    case Read => assert MovesOnly(s, th, s');
    case Save(_) => assert MovesOnly(s, th, s');
    case Increase(_) => assert MovesOnly(s, th, s');
    case Complete => assert MovesOnly(s, th, s');
    case _ =>
  }

  lemma StatementKeepsThreads(s: Sys, th: nat, order: Order, ok: bool, rules: Rules)
    requires th in s.jobs
    ensures var s' := Statement(s, th, order, ok, rules); s'.lock == s.lock && s'.jobs.Keys == s.jobs.Keys
  {
    if IsReward(s.jobs[th]) {
      RewardFrame(s, th, ok, rules);
    } else {
      OrderMovesOnly(s, th, order, ok, rules);
    }
  }

  lemma DoKeepsJobsHeld(s: Sys, a: Action, rules: Rules)
    requires JobsHeld(s) && L.Reachable(s.lock)
    ensures JobsHeld(Do(s, a, rules))
  {
    match a
    case Insert(_, _) =>
    case Notify(th, order) => CallKeepsJobsHeld(s, th, order, Read);
    case AdminComplete(th, order) => CallKeepsJobsHeld(s, th, order, Complete);
    case Lock(th) => forall c { LockStage(s.lock, L.Advance(th), c); }
    case Work(th, ok) =>
      if th in s.jobs {
        StatementKeepsThreads(s, th, L.PcOf(s.lock, th).order, ok, rules);
      }
    case Finish(th) =>
      if L.PcOf(s.lock, th).stage.Holding? {
        forall c { LockStage(s.lock, L.CallUnlock(th), c); }
      }
  }

  lemma CallKeepsJobsHeld(s: Sys, th: nat, order: Order, job: Job)
    requires JobsHeld(s) && L.Reachable(s.lock)
    ensures L.PcOf(s.lock, th).stage.Idle? ==>
      JobsHeld(WithJob(s.(lock := L.Do(s.lock, L.CallLock(th, order))), th, job))
  {
    if L.PcOf(s.lock, th).stage.Idle? {
      forall c { LockStage(s.lock, L.CallLock(th, order), c); }
    }
  }

  lemma {:induction false} RunKeepsJobsHeld(quota: map<nat, int>, actions: seq<Action>, rules: Rules)
    ensures JobsHeld(Run(quota, actions, rules))
  {
    if actions != [] {
      var before := actions[..|actions| - 1];
      RunKeepsJobsHeld(quota, before, rules);
      RunKeepsInv(quota, before, rules);
      DoKeepsJobsHeld(Run(quota, before, rules), actions[|actions| - 1], rules);
    }
  }

  /** Over every run a handler that was started is waiting for its order or holds it until it is finished, and it has
      not done anything while it waits. */
  lemma HandlerStays(quota: map<nat, int>, actions: seq<Action>, rules: Rules, th: nat)
    ensures var s := Run(quota, actions, rules); var p := L.PcOf(s.lock, th);
      && (th in s.jobs <==> L.Locking(p) || p.stage.Holding?)
      && (th in s.jobs && L.Locking(p) ==> s.jobs[th].Read? || s.jobs[th].Complete?)
  {
    var s := Run(quota, actions, rules);
    RunKeepsJobsHeld(quota, actions, rules);
    RunKeepsInv(quota, actions, rules);
    if th in s.jobs {
      assert JobSane(s.jobs[th], th, L.PcOf(s.lock, th), s.db, s.owing);
    }
  }

  /** A callback or a manual completion that reaches an idle thread starts a handler for its order. */
  lemma HandlerStarts(s: Sys, th: nat, order: Order, manual: bool, rules: Rules)
    requires L.PcOf(s.lock, th).stage.Idle?
    ensures var s' := Do(s, if manual then AdminComplete(th, order) else Notify(th, order), rules);
      var p := L.PcOf(s'.lock, th);
      && th in s'.jobs && s'.jobs[th] == (if manual then Complete else Read) && L.Locking(p) && p.order == order
      && s'.db == s.db && s'.quota == s.quota && s'.ledger == s.ledger && s'.invites == s.invites
  {
  }

  /** A handler that is done gives its order back, and only then. */
  lemma HandlerFinishes(s: Sys, th: nat, rules: Rules)
    requires th in s.jobs && L.PcOf(s.lock, th).stage.Holding?
    ensures var s' := Do(s, Finish(th), rules);
      if s.jobs[th].Done? then th !in s'.jobs && L.Unlocking(L.PcOf(s'.lock, th)) else s' == s
  {
  }

  /** A statement that fails writes nothing, and ends the handler unless it is the grant, after which the inviter's row
      is still to be read. */
  lemma FailureWritesNothing(s: Sys, th: nat, order: Order, rules: Rules)
    requires th in s.jobs
    ensures var s' := Statement(s, th, order, false, rules);
      && s'.db == s.db && s'.quota == s.quota && s'.ledger == s.ledger && s'.invites.settled == s.invites.settled
      && s'.invites.rewards == s.invites.rewards && s'.invites.overwrites == s.invites.overwrites
      && th in s'.jobs && (s.jobs[th].Grant? || s'.jobs[th].Done?)
  {
    if IsReward(s.jobs[th]) {
      RewardFailure(s, th, rules);
    }
  }

  lemma RewardFailure(s: Sys, th: nat, rules: Rules)
    requires th in s.jobs && IsReward(s.jobs[th])
    ensures var s' := RewardStatement(s, th, false, rules);
      && s'.db == s.db && s'.quota == s.quota && s'.ledger == s.ledger && s'.invites.settled == s.invites.settled
      && s'.invites.rewards == s.invites.rewards && s'.invites.overwrites == s.invites.overwrites
      && th in s'.jobs && (s.jobs[th].Grant? || s'.jobs[th].Done?)
  {
  }

  /** How many statements a handler has left at most. */
  function StatementsLeft(job: Job): nat {
    match job
    case Read => 7 case Save(_) => 6 case Increase(_) => 5 case Complete => 5
    case Claim(_) => 4 case Grant(_) => 3 case ReadInviter(_) => 2 case SaveInviter(_, _, _) => 1
    case Done => 0
  }

  /** Every statement, failing or not, brings a handler nearer to its end. */
  lemma StatementsEnd(s: Sys, th: nat, ok: bool, rules: Rules)
    requires th in s.jobs && L.PcOf(s.lock, th).stage.Holding? && !s.jobs[th].Done?
    ensures Nearer(s.jobs[th], Do(s, Work(th, ok), rules), th)
  {
    var order := L.PcOf(s.lock, th).order;
    if IsReward(s.jobs[th]) {
      RewardNearer(s, th, ok, rules);
    } else {
      OrderNearer(s, th, order, ok, rules);
    }
  }

  ghost predicate Nearer(job: Job, s': Sys, th: nat) {
    th in s'.jobs && StatementsLeft(s'.jobs[th]) < StatementsLeft(job)
  }

  lemma RewardNearer(s: Sys, th: nat, ok: bool, rules: Rules)
    requires th in s.jobs && IsReward(s.jobs[th])
    ensures Nearer(s.jobs[th], RewardStatement(s, th, ok, rules), th)
  {
    match s.jobs[th]
    case Claim(user) => assert Nearer(Claim(user), ClaimReward(s, th, user, ok, rules), th);
    case Grant(user) => assert Nearer(Grant(user), GrantReward(s, th, user, ok, rules), th);
    case ReadInviter(user) =>
    case SaveInviter(user, snapshot, flag) =>
      assert Nearer(SaveInviter(user, snapshot, flag), SaveRow(s, th, user, snapshot, flag, ok), th);
  }

  lemma OrderNearer(s: Sys, th: nat, order: Order, ok: bool, rules: Rules)
    requires th in s.jobs && !IsReward(s.jobs[th]) && !s.jobs[th].Done?
    ensures Nearer(s.jobs[th], OrderStatement(s, th, order, ok, rules), th)
  {
  }

  // ----- what a handler achieves -----

  /** What can be told of a handler's own statements: whether an administrator started it, whether the order was pending
      when it looked, and whether a statement for the order failed. */
  datatype Course = Course(manual: bool, pending: bool, failed: bool)

  function NextCourse(job: Job, c: Course, pending: bool, ok: bool): Course {
    match job
    case Read => Course(false, pending, !ok)
    case Complete => Course(true, pending, !ok)
    case Save(_) => c.(failed := c.failed || !ok)
    case Increase(_) => c.(failed := c.failed || !ok)
    case _ => c
  }

  predicate PendingIn(db: map<Order, TopUp>, order: Order) {
    order in db && db[order].status.Pending?
  }

  function CourseOf(quota: map<nat, int>, actions: seq<Action>, rules: Rules, th: nat): Course {
    if actions == [] then Course(false, false, false)
    else
      var before, a := actions[..|actions| - 1], actions[|actions| - 1];
      var s, c := Run(quota, before, rules), CourseOf(quota, before, rules, th);
      var p := L.PcOf(s.lock, th);
      if a.Work? && a.th == th && p.stage.Holding? && th in s.jobs
      then NextCourse(s.jobs[th], c, PendingIn(s.db, p.order), a.ok)
      else c
  }

  /** Worth something to the handler: an administrator completes what is worth more than nothing, a callback credits
      what is not worth less. */
  predicate Accepts(row: TopUp, manual: bool, rules: Rules) {
    if !manual then rules.ofAmount(row.amount) >= 0
    else if row.stripe then rules.ofMoney(row.money) > 0
    else rules.ofAmount(row.amount) > 0
  }

  /** What the course of a handler says about its order. */
  ghost predicate Told(job: Job, order: Order, c: Course, db: map<Order, TopUp>, paid: set<Order>, lost: set<Order>,
      rules: Rules) {
    match job
    case Read => true
    case Complete => true
    case Save(_) => c == Course(false, true, false)
    case Increase(_) => c == Course(false, true, false)
    case _ =>
      c.pending ==>
        && order in db && (order in paid <==> !c.failed && Accepts(db[order], c.manual, rules))
        && (c.manual ==> order !in lost)
  }

  ghost predicate ToldOf(s: Sys, th: nat, c: Course, rules: Rules) {
    th in s.jobs ==> Told(s.jobs[th], L.PcOf(s.lock, th).order, c, s.db, Paid(s.ledger), s.lost, rules)
  }

  lemma PaidWith(ledger: seq<Credit>, c: Credit)
    ensures Paid(ledger + [c]) == Paid(ledger) + {c.order}
  {
    assert (ledger + [c])[|ledger|] in ledger + [c];
  }

  /** A statement for one order says nothing about another. */
  lemma OtherOrder(s: Sys, th: nat, order: Order, ok: bool, rules: Rules, o: Order)
    requires th in s.jobs && o != order
    ensures var s' := OrderStatement(s, th, order, ok, rules);
      && (o in s'.db <==> o in s.db) && (o in s.db ==> s'.db[o] == s.db[o])
      && (o in Paid(s'.ledger) <==> o in Paid(s.ledger)) && (o in s'.lost <==> o in s.lost)
  {
    match s.jobs[th]
    case Increase(row) => PaidWith(s.ledger, Credit(order, row.user, rules.ofAmount(row.amount), false));
    case Complete =>
      if order in s.db {
        PaidWith(s.ledger, Credit(order, s.db[order].user, AdminQuota(s.db[order], rules), true));
      }
    case _ =>
  }

  lemma ReadTold(s: Sys, th: nat, order: Order, ok: bool, rules: Rules)
    requires th in s.jobs && s.jobs[th].Read? && Accounted(s.db, Paid(s.ledger), s.owing.Keys, s.lost)
    ensures var s' := OrderStatement(s, th, order, ok, rules);
      Told(s'.jobs[th], order, Course(false, PendingIn(s.db, order), !ok), s'.db, Paid(s'.ledger), s'.lost, rules)
  {
  }

  lemma SaveTold(s: Sys, th: nat, order: Order, ok: bool, c: Course, rules: Rules)
    requires th in s.jobs && s.jobs[th].Save? && c == Course(false, true, false)
    requires Accounted(s.db, Paid(s.ledger), s.owing.Keys, s.lost) && PendingIn(s.db, order)
    ensures var s' := OrderStatement(s, th, order, ok, rules);
      Told(s'.jobs[th], order, c.(failed := !ok), s'.db, Paid(s'.ledger), s'.lost, rules)
  {
  }

  lemma IncreaseTold(s: Sys, th: nat, order: Order, ok: bool, c: Course, rules: Rules)
    requires th in s.jobs && s.jobs[th].Increase? && c == Course(false, true, false)
    requires Accounted(s.db, Paid(s.ledger), s.owing.Keys, s.lost) && order in s.owing
    requires order in s.db && s.db[order] == s.jobs[th].row.(status := Success)
    ensures var s' := OrderStatement(s, th, order, ok, rules);
      Told(s'.jobs[th], order, c.(failed := !ok), s'.db, Paid(s'.ledger), s'.lost, rules)
  {
    var row := s.jobs[th].row;
    PaidWith(s.ledger, Credit(order, row.user, rules.ofAmount(row.amount), false));
  }

  lemma CompleteTold(s: Sys, th: nat, order: Order, ok: bool, rules: Rules)
    requires th in s.jobs && s.jobs[th].Complete? && Accounted(s.db, Paid(s.ledger), s.owing.Keys, s.lost)
    ensures var s' := OrderStatement(s, th, order, ok, rules);
      Told(s'.jobs[th], order, Course(true, PendingIn(s.db, order), !ok), s'.db, Paid(s'.ledger), s'.lost, rules)
  {
    if PendingIn(s.db, order) {
      PaidWith(s.ledger, Credit(order, s.db[order].user, AdminQuota(s.db[order], rules), true));
    }
  }

  lemma OwnOrderTold(s: Sys, th: nat, ok: bool, c: Course, rules: Rules)
    requires ToldOf(s, th, c, rules) && JobsSane(s) && Accounted(s.db, Paid(s.ledger), s.owing.Keys, s.lost)
    requires th in s.jobs && !IsReward(s.jobs[th]) && L.PcOf(s.lock, th).stage.Holding?
    ensures var order := L.PcOf(s.lock, th).order;
      ToldOf(OrderStatement(s, th, order, ok, rules), th, NextCourse(s.jobs[th], c, PendingIn(s.db, order), ok), rules)
  {
    var order := L.PcOf(s.lock, th).order;
    assert JobSane(s.jobs[th], th, L.PcOf(s.lock, th), s.db, s.owing);
    match s.jobs[th]
    case Read => ReadTold(s, th, order, ok, rules);
    case Save(_) => SaveTold(s, th, order, ok, c, rules);
    case Increase(_) => IncreaseTold(s, th, order, ok, c, rules);
    case Complete => CompleteTold(s, th, order, ok, rules);
    case Done =>
  }

  lemma RewardTold(s: Sys, th: nat, ok: bool, c: Course, rules: Rules, w: nat)
    requires ToldOf(s, th, c, rules) && w in s.jobs && IsReward(s.jobs[w])
    ensures ToldOf(RewardStatement(s, w, ok, rules), th, c, rules)
  {
    RewardFrame(s, w, ok, rules);
  }

  lemma OtherTold(s: Sys, th: nat, ok: bool, c: Course, rules: Rules, w: nat)
    requires ToldOf(s, th, c, rules) && JobsSane(s) && L.Reachable(s.lock) && w != th
    requires w in s.jobs && L.PcOf(s.lock, w).stage.Holding?
    ensures ToldOf(OrderStatement(s, w, L.PcOf(s.lock, w).order, ok, rules), th, c, rules)
  {
    var order := L.PcOf(s.lock, w).order;
    OrderMovesOnly(s, w, order, ok, rules);
    if th in s.jobs && !s.jobs[th].Read? && !s.jobs[th].Complete? {
      HolderIsAlone(s, w);
      assert JobSane(s.jobs[th], th, L.PcOf(s.lock, th), s.db, s.owing);
      OtherOrder(s, w, order, ok, rules, L.PcOf(s.lock, th).order);
    }
  }

  lemma WorkTold(s: Sys, th: nat, c: Course, w: nat, ok: bool, rules: Rules)
    requires ToldOf(s, th, c, rules) && JobsSane(s) && L.Reachable(s.lock)
    requires Accounted(s.db, Paid(s.ledger), s.owing.Keys, s.lost) && w in s.jobs && L.PcOf(s.lock, w).stage.Holding?
    ensures var order := L.PcOf(s.lock, w).order;
      ToldOf(Statement(s, w, order, ok, rules), th,
             if w == th then NextCourse(s.jobs[th], c, PendingIn(s.db, order), ok) else c, rules)
  {
    if IsReward(s.jobs[w]) {
      RewardTold(s, th, ok, c, rules, w);
    } else if w == th {
      OwnOrderTold(s, th, ok, c, rules);
    } else {
      OtherTold(s, th, ok, c, rules, w);
    }
  }

  /** A step of the lock moves no handler that is past its first statement. */
  lemma LockTold(s: Sys, a: L.Action, th: nat, c: Course, rules: Rules)
    requires ToldOf(s, th, c, rules) && JobsSane(s) && (a.CallUnlock? ==> a.th !in s.jobs)
    ensures ToldOf(s.(lock := L.Do(s.lock, a)), th, c, rules)
  {
    if th in s.jobs && !s.jobs[th].Read? && !s.jobs[th].Complete? {
      assert JobSane(s.jobs[th], th, L.PcOf(s.lock, th), s.db, s.owing);
      L.HeldUntilUnlock(s.lock, a, th);
    }
  }

  lemma DoTold(s: Sys, a: Action, th: nat, c: Course, rules: Rules)
    requires ToldOf(s, th, c, rules) && JobsSane(s) && L.Reachable(s.lock)
    requires Accounted(s.db, Paid(s.ledger), s.owing.Keys, s.lost)
    ensures var p := L.PcOf(s.lock, th);
      ToldOf(Do(s, a, rules), th,
             if a.Work? && a.th == th && p.stage.Holding? && th in s.jobs
             then NextCourse(s.jobs[th], c, PendingIn(s.db, p.order), a.ok)
             else c, rules)
  {
    match a
    case Insert(_, _) =>
    case Notify(w, order) => LockTold(s, L.CallLock(w, order), th, c, rules);
    case AdminComplete(w, order) => LockTold(s, L.CallLock(w, order), th, c, rules);
    case Lock(w) => LockTold(s, L.Advance(w), th, c, rules);
    case Work(w, ok) =>
      if L.PcOf(s.lock, w).stage.Holding? && w in s.jobs {
        WorkTold(s, th, c, w, ok, rules);
      }
    case Finish(w) =>
      if w in s.jobs && s.jobs[w].Done? {
        LockTold(s.(jobs := s.jobs - {w}), L.CallUnlock(w), th, c, rules);
      }
  }

  lemma {:induction false} RunTold(quota: map<nat, int>, actions: seq<Action>, rules: Rules, th: nat)
    ensures ToldOf(Run(quota, actions, rules), th, CourseOf(quota, actions, rules, th), rules)
  {
    if actions != [] {
      var before := actions[..|actions| - 1];
      RunTold(quota, before, rules, th);
      RunKeepsInv(quota, before, rules);
      DoTold(Run(quota, before, rules), actions[|actions| - 1], th, CourseOf(quota, before, rules, th), rules);
    }
  }

  /** Over every run, a handler that found its order pending and is through with it has credited it, once, if and only
      if none of its statements for the order failed and the order is worth something to it. The order is marked paid
      exactly if it is credited or its increase failed, which only happens to a callback. */
  lemma HandlerSettlesIff(quota: map<nat, int>, actions: seq<Action>, rules: Rules, th: nat)
    requires var s := Run(quota, actions, rules);
      th in s.jobs && (s.jobs[th].Done? || IsReward(s.jobs[th])) && CourseOf(quota, actions, rules, th).pending
    ensures var s, c := Run(quota, actions, rules), CourseOf(quota, actions, rules, th);
      var order := L.PcOf(s.lock, th).order;
      && order in s.db
      && |Credits(s.ledger, order)| == (if !c.failed && Accepts(s.db[order], c.manual, rules) then 1 else 0)
      && (s.db[order].status.Success? <==> |Credits(s.ledger, order)| == 1 || order in s.lost)
      && (c.manual ==> order !in s.lost)
  {
    var s := Run(quota, actions, rules);
    RunTold(quota, actions, rules, th);
    RunKeepsInv(quota, actions, rules);
    CreditsOfDistinct(s.ledger, L.PcOf(s.lock, th).order);
    NotOwing(s, th);
  }

  /** The increase of an order is not outstanding once its handler is through with it. */
  lemma NotOwing(s: Sys, th: nat)
    requires L.Reachable(s.lock) && JobsSane(s) && OwingSane(s)
    requires th in s.jobs && (s.jobs[th].Done? || IsReward(s.jobs[th]))
    ensures L.PcOf(s.lock, th).order !in s.owing
  {
    var order := L.PcOf(s.lock, th).order;
    assert JobSane(s.jobs[th], th, L.PcOf(s.lock, th), s.db, s.owing);
    HolderIsAlone(s, th);
    assert order in s.owing ==> OwedBy(order, s.owing[order], s.jobs, s.lock);
    assert forall w | w in s.jobs && s.jobs[w].Increase? :: JobSane(s.jobs[w], w, L.PcOf(s.lock, w), s.db, s.owing);
  }
}
