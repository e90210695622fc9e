/** Deposits to and withdrawals from a clearing account itself. Both sides are then one row, its balance
    ends as it began, so the row is not written and its version is not checked. Such a withdrawal never commits;
    such a deposit can, and is the only way a run can differ from its serial replay. */
module Aliasing {
  import opened Wrappers
  import opened Monetary
  import opened Ledger
  import opened Concurrency
  import opened SerialEquivalence

  predicate OnClearing(db: Db, call: Call) {
    !call.Transfer? && call.account in db.accounts && db.accounts[call.account].kind == System
  }

  // ---- The clearing account never rises above zero ----

  function TotalOver(entries: seq<Entry>, ids: set<AccountId>): int {
    if entries == [] then 0
    else
      var last := entries[|entries| - 1];
      TotalOver(entries[..|entries| - 1], ids) + if last.account in ids then last.amount.minorUnits else 0
  }

  lemma {:induction false} TotalOverAdd(entries: seq<Entry>, ids: set<AccountId>, id: AccountId)
    requires id !in ids
    ensures TotalOver(entries, ids + {id}) == TotalOver(entries, ids) + TotalOf(entries, id)
  {
    if entries != [] {
      TotalOverAdd(entries[..|entries| - 1], ids, id);
    }
  }

  lemma {:induction false} TotalOverNone(entries: seq<Entry>)
    ensures TotalOver(entries, {}) == 0
  {
    if entries != [] {
      TotalOverNone(entries[..|entries| - 1]);
    }
  }

  lemma {:induction false} TotalOverCustomers(db: Db, ids: set<AccountId>)
    requires Sound(db)
    requires forall id :: id in ids ==> id in db.rows && db.accounts[id].kind != System
    ensures TotalOver(db.entries, ids) >= 0
  {
    if ids == {} {
      TotalOverNone(db.entries);
    } else {
      var id :| id in ids;
      TotalOverCustomers(db, ids - {id});
      TotalOverAdd(db.entries, ids - {id}, id);
      assert ids - {id} + {id} == ids;
    }
  }

  lemma {:induction false} TotalInIsOver(db: Db, entries: seq<Entry>, ids: set<AccountId>, currency: Currency)
    requires forall e :: e in entries ==> (e.account in ids <==> e.amount.currency == currency)
    ensures TotalIn(entries, currency) == TotalOver(entries, ids)
  {
    if entries != [] {
      TotalInIsOver(db, entries[..|entries| - 1], ids, currency);
    }
  }

  /** What customers hold in a currency, its clearing account owes. */
  lemma ClearingNeverPositive(db: Db, currency: Currency)
    requires Sound(db) && currency in db.clearing && db.clearing[currency] in db.rows
    ensures db.rows[db.clearing[currency]].balance.minorUnits <= 0
  {
    var clearing := db.clearing[currency];
    var customers := set id | id in db.rows && db.accounts[id].currency == currency && id != clearing;
    TotalOverCustomers(db, customers);
    TotalOverAdd(db.entries, customers, clearing);
    TotalInIsOver(db, db.entries, customers + {clearing}, currency);
    CurrencyTotalsZero(db, db.txns, currency);
    assert db.entries[..2 * db.txns] == db.entries;
  }

  /** Hence a withdrawal from a clearing account never gets past its funds check. */
  lemma WithdrawalFromClearingRefused(b: Bank, t: Thread)
    requires Sound(b.db) && t.attemptSince <= |b.log| && t.phase.HasPlan? && PhaseHolds(b, t)
    requires t.call.Withdraw? && OnClearing(b.db, t.call)
    ensures Debit(b.db, t.phase.m).Failure?
  {
    var currency := b.db.accounts[t.call.account].currency;
    if t.call.account in b.db.rows {
      ClearingNeverPositive(b.db, currency);
    }
  }

  // ---- Which committed calls pay an account from itself ----

  /** The only calls that can pay an account from itself and commit. */
  predicate DepositsToClearing(db: Db, call: Call) {
    call.Deposit? && OnClearing(db, call)
  }

  /** A withdrawal that has debited its row has another row to credit. */
  predicate PaysApart(t: Thread) {
    t.call.Withdraw? ==>
      match t.phase
      case HasDebit(m, _) => m.debit != m.credit
      case HasBoth(m, _, _) => m.debit != m.credit
      case _ => true
  }

  ghost predicate AllPayApart(b: Bank) {
    forall id :: id in b.threads ==> PaysApart(b.threads[id])
  }

  /** A withdrawal with one account on both sides stops at its funds check. */
  lemma AliasedWithdrawalRefused(b: Bank, t: Thread)
    requires Sound(b.db) && t.attemptSince <= |b.log| && t.phase.HasPlan? && PhaseHolds(b, t)
    requires t.call.Withdraw? && t.phase.m.debit == t.phase.m.credit
    ensures Debit(b.db, t.phase.m).Failure?
  {
    if t.phase.m.opens.None? {
      WithdrawalFromClearingRefused(b, t);
    }
  }

  lemma StepPaysApart(b: Bank, t: Thread, newId: AccountId)
    requires Sound(b.db) && t.attemptSince <= |b.log| && PhaseHolds(b, t) && Running(t) && PaysApart(t)
    ensures PaysApart(StepThread(b, t, newId))
  {
    if t.phase.HasPlan? && t.call.Withdraw? && t.phase.m.debit == t.phase.m.credit {
      AliasedWithdrawalRefused(b, t);
    }
  }

  lemma NextPaysApart(b: Bank, e: Event)
    requires Sound(b.db) && ThreadsHold(b) && AllPayApart(b)
    ensures AllPayApart(Next(b, e))
  {
    StepShape(b, e);
    forall id | id in Next(b, e).threads ensures PaysApart(Next(b, e).threads[id]) {
      if id in b.threads && e.Step? && e.id == id && Running(b.threads[id]) {
        StepPaysApart(b, b.threads[id], e.newId);
      }
    }
  }

  lemma {:induction false} RunPaysApart(start: Bank, events: seq<Event>)
    requires Initial(start)
    ensures AllPayApart(Run(start, events))
  {
    if events != [] {
      var before := events[..|events| - 1];
      RunPaysApart(start, before);
      RunReachable(start, before);
      NextPaysApart(Run(start, before), events[|events| - 1]);
    }
  }

  ghost predicate KnownAliasing(db: Db, item: LogItem) {
    item.Committed? ==>
      && FirstAccount(item.m.call) in db.accounts
      && (Aliased(item) <==> OnClearing(db, item.m.call))
      && (Aliased(item) ==> item.m.call.Deposit?)
  }

  ghost predicate AliasingKnown(b: Bank) {
    forall i :: 0 <= i < |b.log| ==> KnownAliasing(b.db, b.log[i])
  }

  /** Accounts keep their kind, so what was known stays known. */
  lemma KnownStays(b: Bank, b': Bank, item: LogItem)
    requires Grows(b, b') && KnownAliasing(b.db, item)
    ensures KnownAliasing(b'.db, item)
  {
  }

  lemma CommitKnown(b: Bank, t: Thread)
    requires Sound(b.db) && t.attemptSince <= |b.log| && PhaseHolds(b, t) && Commits(b, t) && PaysApart(t)
    ensures var m := t.phase.m;
            && FirstAccount(m.call) in b.db.accounts && (m.debit == m.credit <==> OnClearing(b.db, m.call))
            && (m.debit == m.credit ==> m.call.Deposit?)
  {
    CommitLands(b, t);
  }

  lemma AliasingStep(start: Bank, b: Bank, e: Event)
    requires Reachable(start, b) && AliasingKnown(b) && AllPayApart(b)
    ensures AliasingKnown(Next(b, e))
  {
    var b' := Next(b, e);
    NextGrows(b, e);
    forall i | 0 <= i < |b'.log| && b'.log[i].Committed? ensures KnownAliasing(b'.db, b'.log[i]) {
      ItemCases(b, e, i);
      if i < |b.log| {
        KnownStays(b, b', b.log[i]);
      } else {
        CommitKnown(b, b.threads[e.id]);
        LogShape(b, e);
        assert b'.log[i].m == b.threads[e.id].phase.m;
        KnownStays(b, b', b'.log[i]);
      }
    }
  }

  /** A committed call paid an account from itself exactly when it named a SYSTEM account, and then it was a deposit. */
  lemma {:induction false} AliasedExactly(start: Bank, events: seq<Event>)
    requires Initial(start)
    ensures AliasingKnown(Run(start, events))
  {
    if events != [] {
      var before := events[..|events| - 1];
      AliasedExactly(start, before);
      RunReachable(start, before);
      RunPaysApart(start, before);
      AliasingStep(start, Run(start, before), events[|events| - 1]);
    }
  }

  predicate NoneDepositsToClearing(b: Bank) {
    forall id :: id in b.threads ==> !DepositsToClearing(b.db, b.threads[id].call)
  }

  /** Serial equivalence, with a condition the caller can check: no call deposits to a SYSTEM account. */
  lemma SerialUnlessOnClearing(start: Bank, events: seq<Event>)
    requires Initial(start)
    requires NoneDepositsToClearing(Run(start, events))
    ensures Replay(start.threshold, start.db, Run(start, events).log) == Some(Run(start, events).db)
  {
    var b := Run(start, events);
    AliasedExactly(start, events);
    RunReachable(start, events);
    forall i | 0 <= i < |b.log| ensures !Aliased(b.log[i]) {
      if b.log[i].Committed? {
        var caller := b.log[i].caller;
        assert KnownAliasing(b.db, b.log[i]);
        assert caller in b.threads && b.threads[caller].call == b.log[i].m.call;
        assert !DepositsToClearing(b.db, b.threads[caller].call);
      }
    }
    UnaliasedIsCurrent(start, events);
    RunReplays(start, events);
  }
}
