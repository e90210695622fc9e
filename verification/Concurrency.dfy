/** Any number of calls running at once. One event is one step of one call: a read, or the
    commit that checks row versions. Quantifying over event lists covers every interleaving. */
module Concurrency {
  import opened Wrappers
  import opened Monetary
  import opened Ledger

  /** Attempts of one call before the last version conflict is thrown to the caller. */
  const MAX_ATTEMPTS: nat := 50

  type CallId = nat

  datatype Phase =
    | Begin
    | HasFirst(first: Account)
    | HasPlan(m: Movement)
    | HasDebit(m: Movement, d: Leg)
    | HasBoth(m: Movement, d: Leg, c: Leg)
    | Returned(receipt: Receipt)
    | Threw(error: Failure)

  /** `since` and `attemptSince` are the log lengths when the call and its current attempt began. */
  datatype Thread = Thread(call: Call, phase: Phase, failures: nat, since: nat, attemptSince: nat)

  datatype LogItem =
    | Committed(caller: CallId, m: Movement, receipt: Receipt)
    | Opened(id: AccountId, kind: AccountKind, currency: Currency)
    | StatusChanged(id: AccountId, status: AccountStatus)

  datatype Bank = Bank(threshold: int, db: Db, threads: map<CallId, Thread>, log: seq<LogItem>)

  datatype Event =
    | Submit(id: CallId, call: Call)
    | Step(id: CallId, newId: AccountId)
    | Open(account: AccountId, kind: AccountKind, currency: Currency)
    | SetStatus(account: AccountId, status: AccountStatus)

  // ---- Transitions ----

  /** Opening an account inserts its zero balance row; a duplicate id or SYSTEM currency is refused. */
  function OpenAccount(db: Db, id: AccountId, kind: AccountKind, currency: Currency): Db {
    if id in db.accounts || (kind == System && currency in db.clearing) then db
    else db.(accounts := db.accounts[id := Account(kind, currency, Active)],
             clearing := if kind == System then db.clearing[currency := id] else db.clearing,
             rows := db.rows[id := Row(Zero(currency), 0)])
  }

  function ChangeStatus(db: Db, id: AccountId, status: AccountStatus): Db {
    if id !in db.accounts then db
    else db.(accounts := db.accounts[id := db.accounts[id].(status := status)])
  }

  /** A version conflict starts a new attempt, until the attempts run out. */
  function Retry(t: Thread, now: nat): Thread {
    t.(failures := t.failures + 1,
       attemptSince := now,
       phase := if t.failures + 1 < MAX_ATTEMPTS then Begin else Threw(OptimisticLock))
  }

  function Read(threshold: int, db: Db, t: Thread, newId: AccountId): Phase
    requires t.phase.Begin? || t.phase.HasFirst? || t.phase.HasPlan? || t.phase.HasDebit?
  {
    match t.phase
    case Begin =>
      (match CheckCommand(threshold, t.call)
       case Failure(e) => Threw(e)
       case Success(_) =>
         match ReadFirst(db, t.call)
         case Failure(e) => Threw(e)
         case Success(first) => HasFirst(first))
    case HasFirst(first) =>
      (match ReadSecond(db, t.call, first, newId) case Failure(e) => Threw(e) case Success(m) => HasPlan(m))
    case HasPlan(m) =>
      (match Debit(db, m) case Failure(e) => Threw(e) case Success(d) => HasDebit(m, d))
    case HasDebit(m, d) =>
      (match Credit(db, m, d) case Failure(e) => Threw(e) case Success(c) => HasBoth(m, d, c))
  }

  predicate Running(t: Thread) {
    !t.phase.Returned? && !t.phase.Threw?
  }

  /** The calling side of one step. */
  function StepThread(b: Bank, t: Thread, newId: AccountId): Thread
    requires Running(t)
  {
    if !t.phase.HasBoth? then t.(phase := Read(b.threshold, b.db, t, newId))
    else
      var HasBoth(m, d, c) := t.phase;
      match CommitCheck(b.db, m, d, c)
      case Success(_) => t.(phase := Returned(ReceiptOf(b.db.txns, m, d, c)))
      case Failure(e) => if e == OptimisticLock then Retry(t, |b.log|) else t.(phase := Threw(e))
  }

  /** The amount was found positive when the attempt began, so the middle conjunct never decides. */
  predicate Commits(b: Bank, t: Thread) {
    t.phase.HasBoth? && t.phase.m.call.amount.minorUnits > 0 &&
        CommitCheck(b.db, t.phase.m, t.phase.d, t.phase.c).Success?
  }

  function Advance(b: Bank, id: CallId, newId: AccountId): Bank
    requires id in b.threads && Running(b.threads[id])
  {
    var t := b.threads[id];
    var b1 := b.(threads := b.threads[id := StepThread(b, t, newId)]);
    if !Commits(b, t) then b1
    else
      var HasBoth(m, d, c) := t.phase;
      b1.(db := Apply(b.db, m, d, c), log := b.log + [Committed(id, m, ReceiptOf(b.db.txns, m, d, c))])
  }

  function Next(b: Bank, e: Event): Bank {
    match e
    case Submit(id, call) =>
      if id in b.threads then b else b.(threads := b.threads[id := Thread(call, Begin, 0, |b.log|, |b.log|)])
    case Step(id, newId) =>
      if id in b.threads && Running(b.threads[id]) then Advance(b, id, newId) else b
    case Open(id, kind, currency) =>
      b.(db := OpenAccount(b.db, id, kind, currency), log := b.log + [Opened(id, kind, currency)])
    case SetStatus(id, status) =>
      b.(db := ChangeStatus(b.db, id, status), log := b.log + [StatusChanged(id, status)])
  }

  function Run(b: Bank, events: seq<Event>): Bank {
    if events == [] then b else Next(Run(b, events[..|events| - 1]), events[|events| - 1])
  }

  ghost predicate Initial(b: Bank) {
    Sound(b.db) && b.threads == map[] && b.log == []
  }

  // ---- What the rest of the bank may do to a running call ----

  predicate Writes(item: LogItem, id: AccountId) {
    item.Committed? && item.m.debit != item.m.credit && (id == item.m.debit || id == item.m.credit)
  }

  /** Accounts keep kind and currency, versions only grow, and a grown version has a logged commit behind it. */
  ghost predicate Grows(b: Bank, b': Bank) {
    && b'.threshold == b.threshold
    && |b.log| <= |b'.log| && b'.log[..|b.log|] == b.log
    && (forall a :: a in b.db.accounts ==>
        a in b'.db.accounts && b'.db.accounts[a].kind == b.db.accounts[a].kind &&
        b'.db.accounts[a].currency == b.db.accounts[a].currency)
    && (forall c :: c in b.db.clearing ==> c in b'.db.clearing && b'.db.clearing[c] == b.db.clearing[c])
    && (forall a :: a in b.db.rows ==> a in b'.db.rows && RowGrows(b.db.rows[a], b'.db.rows[a], b'.log[|b.log|..], a))
  }

  ghost predicate RowGrows(r: Row, r': Row, log: seq<LogItem>, a: AccountId) {
    && r'.balance.currency == r.balance.currency
    && r.version <= r'.version
    && (r'.version == r.version ==> r' == r)
    && (r.version < r'.version ==> Wrote(log, a))
  }

  ghost predicate Wrote(log: seq<LogItem>, a: AccountId) {
    exists i :: 0 <= i < |log| && Writes(log[i], a)
  }

  /** The id the attempt would give a new clearing account. */
  function NewId(m: Movement): AccountId {
    if m.opens.Some? then m.opens.value.id else 0
  }

  ghost predicate Taken(db: Db, m: Movement) {
    m.opens.Some? && (m.opens.value.currency in db.clearing || m.opens.value.id in db.accounts)
  }

  /** The plan is what planning now would give, unless its clearing account was created meanwhile. */
  ghost predicate PlanHolds(b: Bank, call: Call, m: Movement) {
    && m.call == call && Planned(b.db, m)
    && (Taken(b.db, m) || Plan(b.threshold, b.db, call, m.seen, NewId(m)) == Success(m))
  }

  /** A loaded row is still current, or a commit logged since the attempt began wrote it. */
  ghost predicate Held(b: Bank, from: nat, m: Movement, id: AccountId, leg: Leg)
    requires from <= |b.log|
  {
    if m.opens.Some? && m.opens.value.id == id then
      leg.version.None? && leg.before == Zero(m.opens.value.currency)
    else
      && leg.version.Some? && id in b.db.rows
      && RowGrows(Row(leg.before, leg.version.value), b.db.rows[id], b.log[from..], id)
  }

  ghost predicate DebitDone(m: Movement, d: Leg) {
    && d.before.currency == d.after.currency == m.call.amount.currency
    && d.after.minorUnits == d.before.minorUnits - m.call.amount.minorUnits
    && (!m.call.Deposit? ==> d.after.minorUnits >= 0)
  }

  ghost predicate PhaseHolds(b: Bank, t: Thread)
    requires t.attemptSince <= |b.log|
  {
    match t.phase
    case HasFirst(first) =>
      && CheckCommand(b.threshold, t.call).Success?
      && FirstAccount(t.call) in b.db.accounts
      && var now := b.db.accounts[FirstAccount(t.call)];
      now.kind == first.kind && now.currency == first.currency && (t.call.Withdraw? ==> first.status == Active)
    case HasPlan(m) => PlanHolds(b, t.call, m)
    case HasDebit(m, d) => PlanHolds(b, t.call, m) && DebitDone(m, d) && Held(b, t.attemptSince, m, m.debit, d)
    case HasBoth(m, d, c) =>
      PlanHolds(b, t.call, m) && Legs(m, d, c) && Held(b, t.attemptSince, m, m.debit, d) &&
          Held(b, t.attemptSince, m, m.credit, c)
    case _ => true
  }

  lemma WroteLater(log: seq<LogItem>, log': seq<LogItem>, from: nat, a: AccountId)
    requires from <= |log| <= |log'| && log'[..|log|] == log
    ensures Wrote(log[from..], a) || Wrote(log'[|log|..], a) ==> Wrote(log'[from..], a)
  {
    if Wrote(log[from..], a) {
      var i :| 0 <= i < |log[from..]| && Writes(log[from..][i], a);
      assert log'[..|log|][from + i] == log'[from..][i];
    } else if Wrote(log'[|log|..], a) {
      var i :| 0 <= i < |log'[|log|..]| && Writes(log'[|log|..][i], a);
      assert log'[from..][|log| - from + i] == log'[|log|..][i];
    }
  }

  lemma HeldGrows(b: Bank, b': Bank, from: nat, m: Movement, id: AccountId, leg: Leg)
    requires Grows(b, b') && from <= |b.log| && Held(b, from, m, id, leg)
    ensures Held(b', from, m, id, leg)
  {
    WroteLater(b.log, b'.log, from, id);
  }

  lemma PlanGrows(b: Bank, b': Bank, call: Call, m: Movement)
    requires Grows(b, b') && PlanHolds(b, call, m)
    ensures PlanHolds(b', call, m)
  {
    if !Taken(b'.db, m) {
      assert !Taken(b.db, m);
    }
  }

  /** Nothing another call or an operator does breaks what a running call relies on. */
  lemma PhaseGrows(b: Bank, b': Bank, t: Thread)
    requires Grows(b, b') && t.attemptSince <= |b.log| && PhaseHolds(b, t)
    ensures PhaseHolds(b', t)
  {
    match t.phase
    case HasPlan(m) => PlanGrows(b, b', t.call, m);
    case HasDebit(m, d) =>
      PlanGrows(b, b', t.call, m);
      HeldGrows(b, b', t.attemptSince, m, m.debit, d);
    case HasBoth(m, d, c) =>
      PlanGrows(b, b', t.call, m);
      HeldGrows(b, b', t.attemptSince, m, m.debit, d);
      HeldGrows(b, b', t.attemptSince, m, m.credit, c);
    case _ =>
  }

  // ---- One step ----

  /** A commit that passes its version check lands on the very rows the attempt read. */
  lemma CommitLands(b: Bank, t: Thread)
    requires Sound(b.db) && t.attemptSince <= |b.log| && t.phase.HasBoth? && PhaseHolds(b, t)
    requires CommitCheck(b.db, t.phase.m, t.phase.d, t.phase.c).Success?
    ensures Lands(b.db, t.phase.m, t.phase.d, t.phase.c)
  {
    assert !Taken(b.db, t.phase.m);
  }

  /** One row across a commit: written and one version up, or as it was. */
  lemma CommitRowGrows(b: Bank, t: Thread, log: seq<LogItem>, a: AccountId)
    requires Sound(b.db) && t.phase.HasBoth? && Lands(b.db, t.phase.m, t.phase.d, t.phase.c) && a in b.db.rows
    requires |log| == 1 && log[0].Committed? && log[0].m == t.phase.m
    ensures var rows := Apply(b.db, t.phase.m, t.phase.d, t.phase.c).rows;
            a in rows && RowGrows(b.db.rows[a], rows[a], log, a)
  {
    var HasBoth(m, d, c) := t.phase;
    ApplyEffect(b.db, m, d, c, a);
    ApplyVersions(b.db, m, d, c, a);
    assert Writes(log[0], a) <==> Apply(b.db, m, d, c).rows[a].version > b.db.rows[a].version;
  }

  /** A commit only adds accounts, clearing entries and one log item. */
  lemma CommitShape(b: Bank, id: CallId, newId: AccountId)
    requires id in b.threads && Running(b.threads[id]) && Commits(b, b.threads[id])
    ensures var b' := Advance(b, id, newId);
            var HasBoth(m, d, c) := b.threads[id].phase;
            && b'.threshold == b.threshold && b'.db == Apply(b.db, m, d, c)
            && |b'.log| == |b.log| + 1 && b'.log[..|b.log|] == b.log
            && b'.log[|b.log|..] == [Committed(id, m, ReceiptOf(b.db.txns, m, d, c))]
  {
  }

  lemma CommitGrows(b: Bank, id: CallId, newId: AccountId)
    requires Sound(b.db) && id in b.threads && b.threads[id].attemptSince <= |b.log|
    requires Running(b.threads[id]) && PhaseHolds(b, b.threads[id]) && Commits(b, b.threads[id])
    ensures Grows(b, Advance(b, id, newId))
  {
    var b' := Advance(b, id, newId);
    CommitShape(b, id, newId);
    CommitLands(b, b.threads[id]);
    forall a | a in b.db.rows
      ensures a in b'.db.rows && RowGrows(b.db.rows[a], b'.db.rows[a], b'.log[|b.log|..], a)
    {
      CommitRowGrows(b, b.threads[id], b'.log[|b.log|..], a);
    }
  }

  /** What does not touch the database or the log grows trivially. */
  lemma SameGrows(b: Bank, b': Bank)
    requires b'.threshold == b.threshold && b'.db == b.db && b'.log == b.log
    ensures Grows(b, b')
  {
  }

  lemma AdvanceGrows(b: Bank, id: CallId, newId: AccountId)
    requires Sound(b.db) && id in b.threads && b.threads[id].attemptSince <= |b.log|
    requires Running(b.threads[id]) && PhaseHolds(b, b.threads[id])
    ensures Grows(b, Advance(b, id, newId))
  {
    if Commits(b, b.threads[id]) {
      CommitGrows(b, id, newId);
    } else {
      SameGrows(b, Advance(b, id, newId));
    }
  }

  lemma OpenGrows(b: Bank, id: AccountId, kind: AccountKind, currency: Currency)
    requires Sound(b.db)
    ensures Grows(b, Next(b, Open(id, kind, currency)))
  {
  }

  lemma StatusGrows(b: Bank, id: AccountId, status: AccountStatus)
    ensures Grows(b, Next(b, SetStatus(id, status)))
  {
  }

  lemma NextGrows(b: Bank, e: Event)
    requires Sound(b.db)
    requires forall id :: id in b.threads ==> b.threads[id].attemptSince <= |b.log| && PhaseHolds(b, b.threads[id])
    ensures Grows(b, Next(b, e))
  {
    match e
    case Submit(_, _) => SameGrows(b, Next(b, e));
    case Step(id, newId) =>
      if id in b.threads && Running(b.threads[id]) { AdvanceGrows(b, id, newId); } else { SameGrows(b, Next(b, e)); }
    case Open(id, kind, currency) => OpenGrows(b, id, kind, currency);
    case SetStatus(id, status) => StatusGrows(b, id, status);
  }

  lemma OpenSound(db: Db, id: AccountId, kind: AccountKind, currency: Currency)
    requires Sound(db)
    ensures Sound(OpenAccount(db, id, kind, currency))
  {
    if OpenAccount(db, id, kind, currency) != db {
      TotalOfUnknown(db.entries, id);
    }
    var next := OpenAccount(db, id, kind, currency);
    forall t: nat | t < next.txns ensures Pair(next.entries, t) { assert Pair(db.entries, t); }
  }

  lemma StatusSound(db: Db, id: AccountId, status: AccountStatus)
    requires Sound(db)
    ensures Sound(ChangeStatus(db, id, status))
  {
    var next := ChangeStatus(db, id, status);
    forall t: nat | t < next.txns ensures Pair(next.entries, t) { assert Pair(db.entries, t); }
  }

  /** Every step keeps the ledger invariants, whatever else is running. */
  lemma NextSound(b: Bank, e: Event)
    requires Sound(b.db)
    requires forall id :: id in b.threads ==> b.threads[id].attemptSince <= |b.log| && PhaseHolds(b, b.threads[id])
    ensures Sound(Next(b, e).db)
  {
    match e
    case Submit(_, _) =>
    case Open(id, kind, currency) => OpenSound(b.db, id, kind, currency);
    case SetStatus(id, status) => StatusSound(b.db, id, status);
    case Step(id, _) =>
      if id in b.threads && Commits(b, b.threads[id]) {
        CommitLands(b, b.threads[id]);
        ApplySound(b.db, b.threads[id].phase.m, b.threads[id].phase.d, b.threads[id].phase.c);
      }
  }

  // ---- The call that steps finds its own facts again, read by read ----

  lemma BeginHolds(b: Bank, t: Thread, newId: AccountId)
    requires t.phase.Begin? && t.attemptSince <= |b.log|
    ensures PhaseHolds(b, t.(phase := Read(b.threshold, b.db, t, newId)))
  {
  }

  lemma FirstHolds(b: Bank, t: Thread, newId: AccountId)
    requires t.phase.HasFirst? && t.attemptSince <= |b.log| && PhaseHolds(b, t)
    ensures PhaseHolds(b, t.(phase := Read(b.threshold, b.db, t, newId)))
  {
    var read := Read(b.threshold, b.db, t, newId);
    if read.HasPlan? {
      var m := read.m;
      assert b.db.accounts[FirstAccount(t.call)].(status := t.phase.first.status) == t.phase.first;
      assert m.opens.None? || NewId(m) == newId;
      assert Plan(b.threshold, b.db, t.call, m.seen, NewId(m)) == Success(m);
      PlanStands(b.threshold, b.db, t.call, m.seen, NewId(m));
    }
  }

  lemma PlanHeld(b: Bank, t: Thread, newId: AccountId)
    requires Sound(b.db) && t.phase.HasPlan? && t.attemptSince <= |b.log| && PhaseHolds(b, t)
    ensures PhaseHolds(b, t.(phase := Read(b.threshold, b.db, t, newId)))
  {
  }

  lemma DebitHeld(b: Bank, t: Thread, newId: AccountId)
    requires Sound(b.db) && t.phase.HasDebit? && t.attemptSince <= |b.log| && PhaseHolds(b, t)
    ensures PhaseHolds(b, t.(phase := Read(b.threshold, b.db, t, newId)))
  {
  }

  lemma ReadHolds(b: Bank, t: Thread, newId: AccountId)
    requires Sound(b.db) && t.attemptSince <= |b.log| && PhaseHolds(b, t) && Running(t) && !t.phase.HasBoth?
    ensures PhaseHolds(b, t.(phase := Read(b.threshold, b.db, t, newId)))
  {
    match t.phase
    case Begin => BeginHolds(b, t, newId);
    case HasFirst(_) => FirstHolds(b, t, newId);
    case HasPlan(_) => PlanHeld(b, t, newId);
    case HasDebit(_, _) => DebitHeld(b, t, newId);
  }

  lemma ReadShape(b: Bank, id: CallId, newId: AccountId)
    requires id in b.threads && Running(b.threads[id]) && !b.threads[id].phase.HasBoth?
    ensures Advance(b, id, newId) ==
            b.(threads := b.threads[id := b.threads[id].(phase := Read(b.threshold, b.db, b.threads[id], newId))])
  {
  }

  lemma OwnStep(b: Bank, id: CallId, newId: AccountId)
    requires Sound(b.db) && id in b.threads && b.threads[id].attemptSince <= |b.log| && PhaseHolds(b, b.threads[id])
    requires Running(b.threads[id]) && !b.threads[id].phase.HasBoth?
    ensures var t := Advance(b, id, newId).threads[id];
            t.attemptSince == b.threads[id].attemptSince && PhaseHolds(Advance(b, id, newId), t)
  {
    var b' := Advance(b, id, newId);
    ReadShape(b, id, newId);
    ReadHolds(b, b.threads[id], newId);
    SameGrows(b, b');
    PhaseGrows(b, b', b'.threads[id]);
  }
}
