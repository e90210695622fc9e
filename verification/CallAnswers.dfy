/** What the calls of an interleaved run are told: the status a payer was seen with, the balances on a receipt, and how
    a commit step or a call left alone ends. */
module CallAnswers {
  import opened Wrappers
  import opened Monetary
  import opened Ledger
  import opened Concurrency
  import opened SerialEquivalence
  import opened CallsAlone
  import opened SerialForm

  // ---- A payer's account was ACTIVE when it was read ----

  /** A transfer or withdrawal that has a plan saw its payer ACTIVE. */
  predicate SawActive(t: Thread) {
    !t.call.Deposit? ==>
      match t.phase
      case HasPlan(m) => m.seen == Active
      case HasDebit(m, _) => m.seen == Active
      case HasBoth(m, _, _) => m.seen == Active
      case _ => true
  }

  ghost predicate AllSawActive(b: Bank) {
    && (forall id :: id in b.threads ==> SawActive(b.threads[id]))
    && (forall i :: 0 <= i < |b.log| && b.log[i].Committed? && !b.log[i].m.call.Deposit? ==> b.log[i].m.seen == Active)
  }

  /** The first read sees the account as it is at that moment, and a call stops there if its payer is not ACTIVE and it
      is a withdrawal, and at the next read if it is a transfer. */
  lemma ReadsCurrentStatus(b: Bank, t: Thread, newId: AccountId)
    requires t.phase.Begin? || t.phase.HasFirst?
    ensures
      var next := StepThread(b, t, newId).phase;
      && (t.phase.Begin? && next.HasFirst? ==>
            FirstAccount(t.call) in b.db.accounts && next.first == b.db.accounts[FirstAccount(t.call)]
            && (t.call.Withdraw? ==> next.first.status == Active))
      && (t.phase.HasFirst? && next.HasPlan? ==>
            next.m.seen == t.phase.first.status && (t.call.Transfer? ==> next.m.seen == Active))
  {
  }

  lemma StepSawActive(b: Bank, t: Thread, newId: AccountId)
    requires t.attemptSince <= |b.log| && PhaseHolds(b, t) && Running(t) && SawActive(t)
    ensures SawActive(StepThread(b, t, newId))
  {
    if t.phase.HasFirst? {
      ReadsCurrentStatus(b, t, newId);
    }
  }

  lemma NextSawActive(start: Bank, b: Bank, e: Event)
    requires Reachable(start, b) && AllSawActive(b)
    ensures AllSawActive(Next(b, e))
  {
    var b' := Next(b, e);
    StepShape(b, e);
    forall id | id in b'.threads ensures SawActive(b'.threads[id]) {
      if id in b.threads && e.Step? && e.id == id && Running(b.threads[id]) {
        StepSawActive(b, b.threads[id], e.newId);
      }
    }
    forall i | 0 <= i < |b'.log| && b'.log[i].Committed? && !b'.log[i].m.call.Deposit?
        ensures b'.log[i].m.seen == Active {
      ItemCases(b, e, i);
      if i == |b.log| {
        LogShape(b, e);
      }
    }
  }

  /** In every run, each committed transfer and withdrawal saw its paying account ACTIVE. */
  lemma {:induction false} PayersWereActive(start: Bank, events: seq<Event>)
    requires Initial(start)
    ensures AllSawActive(Run(start, events))
  {
    if events != [] {
      var before := events[..|events| - 1];
      PayersWereActive(start, before);
      RunReachable(start, before);
      NextSawActive(start, Run(start, before), events[|events| - 1]);
    }
  }

  // ---- Receipts ----

  /** The balance of an account's row. */
  function BalanceOf(db: Db, id: AccountId): Option<Money> {
    if id in db.rows then Some(db.rows[id].balance) else None
  }

  lemma CommitSerially(b: Bank, e: Event)
    requires Sound(b.db) && ThreadsHold(b) && Commit(b, e) &&
             b.threads[e.id].phase.m.debit != b.threads[e.id].phase.m.credit
    ensures var b', m := Next(b, e), b.threads[e.id].phase.m;
            && |b'.log| > |b.log| && b'.log[|b.log|].Committed? && b'.log[|b.log|].m == m
            && b.threads[e.id].call == m.call
            && b'.threads[e.id].phase == Returned(b'.log[|b.log|].receipt)
            && Serial(b.threshold, b.db, m.call, m.seen, NewId(m)) == Success((b'.db, b'.log[|b.log|].receipt))
  {
    LogShape(b, e);
    CommitIsSerial(b, e.id, e.newId);
  }

  /** At every commit between two rows: what the caller is returned names its transaction and its accounts, with the
      balances their rows have right after the commit. */
  lemma ReceiptsAreCurrent(start: Bank, b: Bank, e: Event)
    requires Reachable(start, b) && Commit(b, e)
    requires b.threads[e.id].phase.m.debit != b.threads[e.id].phase.m.credit
    ensures
      var b' := Next(b, e);
      b'.threads[e.id].phase.Returned? &&
      var receipt := b'.threads[e.id].phase.receipt;
      receipt.txn == b.db.txns && b'.db.txns == b.db.txns + 1 &&
      match b.threads[e.id].call
      case Transfer(source, destination, _, _) =>
        && receipt.TransferReceipt? && receipt.source == source && receipt.destination == destination
        && BalanceOf(b'.db, source) == Some(receipt.sourceBalance)
        && BalanceOf(b'.db, destination) == Some(receipt.destinationBalance)
      case Deposit(account, _) =>
        && receipt.MovementReceipt? && receipt.account == account
        && BalanceOf(b'.db, account) == Some(receipt.balance)
      case Withdraw(account, _) =>
        && receipt.MovementReceipt? && receipt.account == account
        && BalanceOf(b'.db, account) == Some(receipt.balance)
  {
    var m := b.threads[e.id].phase.m;
    CommitSerially(b, e);
    ReceiptShowsBalances(b.threshold, b.db, m.call, m.seen, NewId(m));
    if m.call.Withdraw? {
      CommitLands(b, b.threads[e.id]);
    }
  }

  // ---- How a commit step ends ----

  /** The row was changed by the attempt, and its version is not the one that was loaded. */
  predicate Overtook(db: Db, id: AccountId, leg: Leg) {
    leg.version.Some? && leg.before != leg.after && (id !in db.rows || db.rows[id].version != leg.version.value)
  }

  /** A commit step throws if the clearing account it would create has been created meanwhile, begins the call again or
      gives up after 50 attempts if one of its rows has been overtaken, and returns otherwise. */
  lemma CommitEnds(b: Bank, t: Thread, newId: AccountId)
    requires t.phase.HasBoth?
    ensures
      var HasBoth(m, d, c) := t.phase;
      var t' := StepThread(b, t, newId);
      if m.opens.Some? && (m.opens.value.currency in b.db.clearing || m.opens.value.id in b.db.accounts) then
        t' == t.(phase := Threw(DuplicateClearing))
      else if (m.debit != m.credit && Overtook(b.db, m.debit, d)) || Overtook(b.db, m.credit, c) then
        && t'.failures == t.failures + 1 && t'.call == t.call
        && t'.phase == if t.failures + 1 < 50 then Begin else Threw(OptimisticLock)
      else t'.phase.Returned? && t'.failures == t.failures
  {
  }

  // ---- A call left alone that fails ----

  /** It throws what its serial form fails with, within five steps, and nothing is changed. */
  ghost predicate ThrowsAlone(b: Bank, id: CallId, newId: AccountId, error: Failure)
    requires id in b.threads
  {
    exists n: nat :: n <= 5 && Run(b, Steps(id, newId, n)) == WithPhase(b, id, Threw(error))
  }

  lemma FailsAtStep(b: Bank, id: CallId, newId: AccountId, n: nat, p: Phase, error: Failure)
    requires id in b.threads && n <= 4 && (p.Begin? || p.HasFirst? || p.HasPlan? || p.HasDebit?)
    requires Run(b, Steps(id, newId, n)) == WithPhase(b, id, p)
    requires Read(b.threshold, b.db, b.threads[id].(phase := p), newId) == Threw(error)
    ensures ThrowsAlone(b, id, newId, error)
  {
    ReadStep(b, id, newId, n, p);
    assert n + 1 <= 5 && Run(b, Steps(id, newId, n + 1)) == WithPhase(b, id, Threw(error));
  }

  lemma PlanFailsAlone(b: Bank, id: CallId, newId: AccountId)
    requires id in b.threads && b.threads[id].phase == Begin && FirstAccount(b.threads[id].call) in b.db.accounts
    requires Plan(b.threshold, b.db, b.threads[id].call, FirstNow(b, b.threads[id].call).status, newId).Failure?
    ensures ThrowsAlone(b, id, newId,
            Plan(b.threshold, b.db, b.threads[id].call, FirstNow(b, b.threads[id].call).status, newId).error)
  {
    var t := b.threads[id];
    var first := FirstNow(b, t.call);
    var error := Plan(b.threshold, b.db, t.call, first.status, newId).error;
    StartsAtBegin(b, id, newId);
    assert first.(status := first.status) == first;
    if CheckCommand(b.threshold, t.call).Failure? || ReadFirst(b.db, t.call).Failure? {
      FailsAtStep(b, id, newId, 0, Begin, error);
    } else {
      ReadStep(b, id, newId, 0, Begin);
      FailsAtStep(b, id, newId, 1, HasFirst(first), error);
    }
  }

  lemma MoveFailsAlone(b: Bank, id: CallId, newId: AccountId, m: Movement, error: Failure)
    requires id in b.threads && b.threads[id].phase == Begin && FirstAccount(b.threads[id].call) in b.db.accounts
    requires Plan(b.threshold, b.db, b.threads[id].call, FirstNow(b, b.threads[id].call).status, newId) == Success(m)
    requires m.call.amount.minorUnits > 0 && MoveMoney(b.db, m) == Failure(error)
    ensures ThrowsAlone(b, id, newId, error)
  {
    var t := b.threads[id];
    PlanReads(b, t, newId, m);
    StartsAtBegin(b, id, newId);
    ReadStep(b, id, newId, 0, Begin);
    ReadStep(b, id, newId, 1, HasFirst(FirstNow(b, t.call)));
    if Debit(b.db, m).Failure? {
      FailsAtStep(b, id, newId, 2, HasPlan(m), error);
    } else {
      var d := Debit(b.db, m).value;
      ReadStep(b, id, newId, 2, HasPlan(m));
      if Credit(b.db, m, d).Failure? {
        FailsAtStep(b, id, newId, 3, HasDebit(m, d), error);
      } else {
        CommitFailsAlone(b, id, newId, m, d, Credit(b.db, m, d).value, error);
      }
    }
  }

  lemma CommitFailsAlone(b: Bank, id: CallId, newId: AccountId, m: Movement, d: Leg, c: Leg, error: Failure)
    requires id in b.threads && b.threads[id].phase == Begin && FirstAccount(b.threads[id].call) in b.db.accounts
    requires Plan(b.threshold, b.db, b.threads[id].call, FirstNow(b, b.threads[id].call).status, newId) == Success(m)
    requires Debit(b.db, m) == Success(d) && Credit(b.db, m, d) == Success(c)
    requires CommitCheck(b.db, m, d, c) == Failure(error)
    ensures ThrowsAlone(b, id, newId, error)
  {
    ReadsAlone(b, id, newId, m, d, c);
    StepsSnoc(b, id, newId, 4);
    var held := WithPhase(b, id, HasBoth(m, d, c));
    assert StepThread(held, held.threads[id], newId) == b.threads[id].(phase := Threw(error));
    assert Next(held, Step(id, newId)).threads == WithPhase(b, id, Threw(error)).threads;
    assert Run(b, Steps(id, newId, 5)) == WithPhase(b, id, Threw(error));
  }

  /** Left alone from its first read, a call that its serial form refuses throws that error and leaves no trace. */
  lemma AloneFailsAsSerial(b: Bank, id: CallId, newId: AccountId)
    requires id in b.threads && b.threads[id].phase == Begin && FirstAccount(b.threads[id].call) in b.db.accounts
    requires Serial(b.threshold, b.db, b.threads[id].call, FirstNow(b, b.threads[id].call).status, newId).Failure?
    ensures ThrowsAlone(b, id, newId,
            Serial(b.threshold, b.db, b.threads[id].call, FirstNow(b, b.threads[id].call).status, newId).error)
  {
    var call, seen := b.threads[id].call, FirstNow(b, b.threads[id].call).status;
    var plan := Plan(b.threshold, b.db, call, seen, newId);
    PlanKeepsCall(b.threshold, b.db, call, seen, newId);
    if plan.Failure? {
      PlanFailsAlone(b, id, newId);
    } else {
      MoveFailsAlone(b, id, newId, plan.value, Serial(b.threshold, b.db, call, seen, newId).error);
    }
  }

  /** A call on an account that is not there throws at its first read. */
  lemma MissingFailsAlone(b: Bank, id: CallId, newId: AccountId, status: AccountStatus)
    requires id in b.threads && b.threads[id].phase == Begin && FirstAccount(b.threads[id].call) !in b.db.accounts
    ensures Serial(b.threshold, b.db, b.threads[id].call, status, newId).Failure?
    ensures ThrowsAlone(b, id, newId, Serial(b.threshold, b.db, b.threads[id].call, status, newId).error)
  {
    StartsAtBegin(b, id, newId);
    FailsAtStep(b, id, newId, 0, Begin, Serial(b.threshold, b.db, b.threads[id].call, status, newId).error);
  }

  // ---- Operators ----

  /** Opening an account gives it an empty row and makes it ACTIVE, unless its id is taken or its currency has a
      clearing account already; a change of status changes that and nothing else. Neither touches a posted entry. */
  lemma OperatorsAnswer(db: Db, id: AccountId, kind: AccountKind, currency: Currency, status: AccountStatus)
    ensures
      var made, changed := OpenAccount(db, id, kind, currency), ChangeStatus(db, id, status);
      && (if id in db.accounts || (kind == System && currency in db.clearing) then made == db
          else
            && made.accounts == db.accounts[id := Account(kind, currency, Active)]
            && made.rows == db.rows[id := Row(Money(0, currency), 0)]
            && made.clearing == (if kind == System then db.clearing[currency := id] else db.clearing)
            && made.entries == db.entries && made.txns == db.txns)
      && (if id !in db.accounts then changed == db
          else
            && changed == db.(accounts := changed.accounts)
            && changed.accounts == db.accounts[id := Account(db.accounts[id].kind, db.accounts[id].currency, status)])
  {
  }
}
