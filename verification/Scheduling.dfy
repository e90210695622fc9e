/** Scheduled transfers: a batch runner with bounded retries that drives transfers through the guard. */
module Scheduling {
  import opened Wrappers
  import opened Monetary
  import opened Ledger
  import opened Idempotency
  import opened OptimisticRetry
  import opened SerialForm
  import Concurrency

  const MAX_ATTEMPTS: nat := 3
  const KEY_PREFIX: string := "scheduled-transfer-"

  type ScheduledId = string

  datatype Status = Pending | Executed | Failed

  datatype Scheduled = Scheduled(
    source: AccountId, destination: AccountId, amount: Money, description: string, dueAt: Instant, createdBy: UserId,
    status: Status, executedAt: Option<Instant>, failure: Option<GuardFailure<Ledger.Failure>>, attempts: nat)

  /** The service method called, and the description that goes with it. */
  datatype Command = Command(call: Ledger.Call, description: string)

  /** What the guard compares. It is the request record, and deposits and withdrawals share one. */
  datatype Payload =
    | TransferCommand(source: AccountId, destination: AccountId, amount: Money, description: string, user: UserId,
        key: string, stepUpVerified: bool)
    | DepositWithdrawCommand(account: AccountId, amount: Money, description: string, user: UserId, key: string)

  /** `journal[i]` says which request posted the i-th ledger transaction since the start. */
  datatype Posting = Posting(key: Key, call: Ledger.Call)
  datatype Books = Books(db: Db, journal: seq<Posting>)

  type Ledgers = Store<Books, Payload, Receipt>

  /** Circumstances of one attempt: how many of its optimistic retries lose their version check, and the clock readings
      it takes. */
  datatype Moment = Moment(lost: nat, asked: Instant, saved: Instant, marked: Instant)

  datatype Branch = Branch(threshold: int, store: Ledgers, scheduled: map<ScheduledId, Scheduled>)

  datatype Event =
    | Batch(asOf: Instant, order: seq<ScheduledId>, moments: seq<Moment>)
    | Client(q: Request<Command>, newId: AccountId, lost: nat)
    | Schedule(id: ScheduledId, item: Scheduled)
    | Open(account: AccountId, kind: AccountKind, currency: Currency)
    | SetStatus(account: AccountId, accountStatus: AccountStatus)

  // ---- Posting one movement ----

  /** The call run alone at this moment. */
  function SerialNow(threshold: int, db: Db, call: Ledger.Call,
      newId: AccountId): Result<(Db, Receipt), Ledger.Failure> {
    var seen := if FirstAccount(call) in db.accounts then db.accounts[FirstAccount(call)].status else Active;
    Serial(threshold, db, call, seen, newId)
  }

  /** The attempts of one call: `lost` of them are overtaken by others, the next one is not. */
  function Attempts(threshold: int, db: Db, call: Ledger.Call, newId: AccountId,
      lost: nat): nat -> Result<(Db, Receipt), Ledger.Failure> {
    i => if i < lost then Failure(OptimisticLock) else SerialNow(threshold, db, call, newId)
  }

  /** The guarded operation: the executor under optimistic retry. A failure of any kind has been rolled back. */
  function Post(threshold: int, books: Books, key: Key, call: Ledger.Call, newId: AccountId,
      lost: nat): (Books, Result<Receipt, Ledger.Failure>) {
    match Retried<(Db, Receipt)>(Attempts(threshold, books.db, call, newId, lost), 0)
    case Failure(e) => (books, Failure(e))
    case Success((db, receipt)) => (Books(db, books.journal + [Posting(key, call)]), Success(receipt))
  }

  /** A call posts what it does alone, unless all its attempts are lost. */
  lemma PostIs(threshold: int, books: Books, key: Key, call: Ledger.Call, newId: AccountId, lost: nat)
    ensures Post(threshold, books, key, call, newId, lost) ==
            (match if lost < 50 then SerialNow(threshold, books.db, call, newId)
                   else Failure(OptimisticLock)
             case Failure(e) => (books, Failure(e))
             case Success((db, receipt)) => (Books(db, books.journal + [Posting(key, call)]), Success(receipt)))
  {
    RetriedAfterLosses(Attempts(threshold, books.db, call, newId, lost), lost,
        SerialNow(threshold, books.db, call, newId), 0);
  }

  function PayloadOf(key: Key, c: Command): Payload {
    match c.call
    case Transfer(source, destination, amount, verified) =>
      TransferCommand(source, destination, amount, c.description, key.user, key.name, verified)
    case Deposit(account, amount) => DepositWithdrawCommand(account, amount, c.description, key.user, key.name)
    case Withdraw(account, amount) => DepositWithdrawCommand(account, amount, c.description, key.user, key.name)
  }

  /** The request as the guard sees it. */
  function Recorded(q: Request<Command>): Request<Payload> {
    Request(q.key, PayloadOf(q.key, q.payload), q.asked, q.saved)
  }

  function Serve(threshold: int, store: Ledgers, q: Request<Command>, newId: AccountId, lost: nat)
    : (Ledgers, Result<Receipt, GuardFailure<Ledger.Failure>>)
  {
    Guarded(store, Recorded(q), books => Post(threshold, books, q.key, q.payload.call, newId, lost))
  }

  /** Two requests look the same to the guard exactly when they are the same, or one deposits what the
      other withdraws. */
  predicate Alike(c: Command, c': Command) {
    c == c' || (!c.call.Transfer? && !c'.call.Transfer? && c.call.account == c'.call.account &&
        c.call.amount == c'.call.amount && c.description == c'.description)
  }

  /** A second request under a key that has been used gets the first receipt and moves nothing if it looks like the
      first, a withdrawal after a deposit included, and is a conflict otherwise. */
  lemma SecondRequest(threshold: int, store: Ledgers, first: Request<Command>, second: Request<Command>,
      newId: AccountId, newId': AccountId, lost: nat, lost': nat)
    requires first.key == second.key && first.key !in store.records && second.asked < first.saved + 86_400_000
    requires Serve(threshold, store, first, newId, lost).1.Success?
    ensures var (after, answer) := Serve(threshold, store, first, newId, lost);
            Serve(threshold, after, second, newId', lost') ==
            (after, if Alike(first.payload, second.payload) then answer else Failure(Conflict))
  {
    assert PayloadOf(first.key, first.payload) == PayloadOf(first.key, second.payload) <==>
        Alike(first.payload, second.payload);
  }

  // ---- One scheduled transfer ----

  function Origin(id: ScheduledId, s: Scheduled): Key {
    Key(s.createdBy, KEY_PREFIX + id)
  }

  function CallOf(s: Scheduled): Ledger.Call {
    Transfer(s.source, s.destination, s.amount, false)
  }

  function RequestOf(id: ScheduledId, s: Scheduled, at: Moment): Request<Command> {
    Request(Origin(id, s), Command(CallOf(s), s.description), at.asked, at.saved)
  }

  function MarkExecuted(s: Scheduled, now: Instant): Scheduled {
    s.(status := Executed, executedAt := Some(now))
  }

  function RecordFailure(s: Scheduled, reason: GuardFailure<Ledger.Failure>, now: Instant): Scheduled {
    var failed := s.(attempts := s.attempts + 1, failure := Some(reason));
    if failed.attempts >= MAX_ATTEMPTS then failed.(status := Failed, executedAt := Some(now)) else failed
  }

  function TryOne(threshold: int, store: Ledgers, id: ScheduledId, s: Scheduled, at: Moment): (Ledgers, Scheduled) {
    var (store', result) := Serve(threshold, store, RequestOf(id, s, at), 0, at.lost);
    (store',
     match result
     case Success(_) => MarkExecuted(s, at.marked)
     case Failure(e) => RecordFailure(s, e, at.marked))
  }

  /** The status a serial run sees: the account's own. */
  function StatusOf(db: Db, id: AccountId): AccountStatus {
    if id in db.accounts then db.accounts[id].status else Active
  }

  /** What the guard compares for a scheduled transfer. */
  function PayloadOfTransfer(id: ScheduledId, s: Scheduled): Payload {
    TransferCommand(s.source, s.destination, s.amount, s.description, s.createdBy, "scheduled-transfer-" + id, false)
  }

  /** One more attempt has failed, for this reason; the third one ends the transfer. */
  predicate FailedBy(s: Scheduled, s': Scheduled, reason: GuardFailure<Ledger.Failure>, now: Instant) {
    var counted := s.(attempts := s.attempts + 1, failure := Some(reason));
    s' == if s.attempts + 1 < 3 then counted else counted.(status := Failed, executedAt := Some(now))
  }

  /** One attempt under a key that has no record, in terms of the transfer alone. It is executed exactly when a
      transfer of its amount from its source to its destination, without step-up, succeeds on the books as they are and
      fewer than 50 attempts lose their version check. Otherwise the attempt and the error are recorded, and a third
      one fails it. */
  lemma TryOutcome(threshold: int, store: Ledgers, id: ScheduledId, s: Scheduled, at: Moment)
    requires Key(s.createdBy, "scheduled-transfer-" + id) !in store.records
    ensures
      var (store', s') := TryOne(threshold, store, id, s, at);
      var call := Transfer(s.source, s.destination, s.amount, false);
      var answer := if at.lost < 50 then Serial(threshold, store.world.db, call, StatusOf(store.world.db, s.source), 0)
                    else Failure(OptimisticLock);
      match answer
      case Success((db, receipt)) =>
        && s' == s.(status := Executed, executedAt := Some(at.marked))
        && store'.world ==
            Books(db, store.world.journal + [Posting(Key(s.createdBy, "scheduled-transfer-" + id), call)])
        && store'.records == store.records[Key(s.createdBy, "scheduled-transfer-" + id) :=
             Record(PayloadOfTransfer(id, s), receipt, at.saved + 86_400_000)]
        && s.amount.minorUnits < threshold
      case Failure(e) =>
        && store' == store
        && FailedBy(s, s', OperationFailed(e), at.marked)
  {
    PostIs(threshold, store.world, Origin(id, s), CallOf(s), 0, at.lost);
    TransferAnswer(threshold, store.world.db, s.source, s.destination, s.amount, false,
                   StatusOf(store.world.db, s.source), 0);
  }

  /** An attempt that finds a live record under its key moves nothing: it is executed if the record is of this very
      transfer, and otherwise a conflict is recorded. */
  lemma TryRecorded(threshold: int, store: Ledgers, id: ScheduledId, s: Scheduled, at: Moment)
    requires Key(s.createdBy, "scheduled-transfer-" + id) in store.records
    requires at.asked < store.records[Key(s.createdBy, "scheduled-transfer-" + id)].expiresAt
    ensures
      var (store', s') := TryOne(threshold, store, id, s, at);
      store' == store &&
      if store.records[Key(s.createdBy, "scheduled-transfer-" + id)].payload == PayloadOfTransfer(id, s)
      then s' == s.(status := Executed, executedAt := Some(at.marked))
      else FailedBy(s, s', Conflict, at.marked)
  {
  }

  // ---- Batches ----

  predicate IsDue(s: Scheduled, asOf: Instant) {
    s.status == Pending && s.dueAt <= asOf
  }

  function Try(b: Branch, id: ScheduledId, at: Moment): Branch
    requires id in b.scheduled
  {
    var (store, s) := TryOne(b.threshold, b.store, id, b.scheduled[id], at);
    b.(store := store, scheduled := b.scheduled[id := s])
  }

  function RunBatch(b: Branch, order: seq<ScheduledId>, moments: seq<Moment>): (r: Branch)
    requires |moments| == |order| && forall id :: id in order ==> id in b.scheduled
    ensures r.scheduled.Keys == b.scheduled.Keys
  {
    if order == [] then b
    else
      var n := |order| - 1;
      Try(RunBatch(b, order[..n], moments[..n]), order[n], moments[n])
  }

  /** The list the runner's query returns: every due transfer once, in some order, handled no earlier than `asOf`. */
  ghost predicate DueList(b: Branch, asOf: Instant, order: seq<ScheduledId>, moments: seq<Moment>) {
    && |moments| == |order|
    && (forall i, j :: 0 <= i < j < |order| ==> order[i] != order[j])
    && (forall id :: id in order <==> id in b.scheduled && IsDue(b.scheduled[id], asOf))
    && (forall i :: 0 <= i < |moments| ==> asOf <= moments[i].marked)
  }

  ghost function Next(b: Branch, e: Event): Branch {
    match e
    case Batch(asOf, order, moments) => if DueList(b, asOf, order, moments) then RunBatch(b, order, moments) else b
    case Client(q, newId, lost) => b.(store := Serve(b.threshold, b.store, q, newId, lost).0)
    case Schedule(id, s) =>
      if id in b.scheduled || s.status != Pending || s.attempts != 0 then b else b.(scheduled := b.scheduled[id := s])
    case Open(id, kind, currency) => InBooks(b, Concurrency.OpenAccount(b.store.world.db, id, kind, currency))
    case SetStatus(id, status) => InBooks(b, Concurrency.ChangeStatus(b.store.world.db, id, status))
  }

  function InBooks(b: Branch, db: Db): Branch {
    b.(store := b.store.(world := b.store.world.(db := db)))
  }

  ghost function Run(b: Branch, events: seq<Event>): Branch {
    if events == [] then b else Next(Run(b, events[..|events| - 1]), events[|events| - 1])
  }

  // ---- The status machine ----

  /** FAILED holds exactly when three attempts have failed. */
  predicate Counted(s: Scheduled) {
    s.attempts <= 3 && (s.status == Failed <==> s.attempts == 3)
  }

  /** A batch leaves transfers outside its list alone and tries each one in it once, from the state it had. */
  lemma {:induction false} BatchEach(b: Branch, order: seq<ScheduledId>, moments: seq<Moment>, id: ScheduledId)
    requires |moments| == |order| && (forall x :: x in order ==> x in b.scheduled) && id in b.scheduled
    requires forall i, j :: 0 <= i < j < |order| ==> order[i] != order[j]
    ensures var s' := RunBatch(b, order, moments).scheduled[id];
            if id in order then
              exists store: Ledgers, at: Moment :: at in moments &&
                  s' == TryOne(b.threshold, store, id, b.scheduled[id], at).1
            else s' == b.scheduled[id]
  {
    if order != [] {
      var n := |order| - 1;
      BatchEach(b, order[..n], moments[..n], id);
      var mid := RunBatch(b, order[..n], moments[..n]);
      RunBatchThreshold(b, order[..n], moments[..n]);
      if id == order[n] {
        assert id !in order[..n];
        assert RunBatch(b, order, moments).scheduled[id] == TryOne(b.threshold, mid.store, id, b.scheduled[id],
            moments[n]).1;
      } else if id in order {
        assert id in order[..n];
      }
    }
  }

  lemma {:induction false} RunBatchThreshold(b: Branch, order: seq<ScheduledId>, moments: seq<Moment>)
    requires |moments| == |order| && forall x :: x in order ==> x in b.scheduled
    ensures RunBatch(b, order, moments).threshold == b.threshold
  {
    if order != [] {
      RunBatchThreshold(b, order[..|order| - 1], moments[..|order| - 1]);
    }
  }

  /** What one event can do to a scheduled transfer: nothing, or one attempt in a batch it is due in. */
  lemma EventEach(b: Branch, e: Event, id: ScheduledId)
    requires id in b.scheduled
    ensures id in Next(b, e).scheduled
    ensures var s, s' := b.scheduled[id], Next(b, e).scheduled[id];
            if e.Batch? && DueList(b, e.asOf, e.order, e.moments) && IsDue(s, e.asOf) then
              exists store: Ledgers, at: Moment :: e.asOf <= at.marked && s' == TryOne(b.threshold, store, id, s, at).1
            else s' == s
  {
    if e.Batch? && DueList(b, e.asOf, e.order, e.moments) {
      BatchEach(b, e.order, e.moments, id);
      if id in e.order {
        var store: Ledgers, at: Moment :| at in e.moments &&
            Next(b, e).scheduled[id] == TryOne(b.threshold, store, id, b.scheduled[id], at).1;
        assert e.asOf <= at.marked;
      }
    }
  }

  /** EXECUTED and FAILED are final: nothing about such a transfer changes again. */
  lemma {:induction false} TerminalStays(b: Branch, events: seq<Event>, id: ScheduledId)
    requires id in b.scheduled && b.scheduled[id].status != Pending
    ensures id in Run(b, events).scheduled && Run(b, events).scheduled[id] == b.scheduled[id]
  {
    if events != [] {
      var before := events[..|events| - 1];
      TerminalStays(b, before, id);
      EventEach(Run(b, before), events[|events| - 1], id);
    }
  }

  /** Batches that found the transfer's due time reached. */
  ghost function DueBatches(b: Branch, events: seq<Event>, dueAt: Instant): nat {
    if events == [] then 0
    else
      var before, e := events[..|events| - 1], events[|events| - 1];
      DueBatches(b, before, dueAt) +
        if e.Batch? && DueList(Run(b, before), e.asOf, e.order, e.moments) && dueAt <= e.asOf then 1 else 0
  }

  /** Each due batch uses up an attempt or ends the transfer, and never marks it executed before its due time. */
  lemma {:induction false} AttemptsCount(b: Branch, events: seq<Event>, id: ScheduledId)
    requires id in b.scheduled && b.scheduled[id].status == Pending && Counted(b.scheduled[id])
    ensures id in Run(b, events).scheduled
    ensures var s, s' := b.scheduled[id], Run(b, events).scheduled[id];
            && Counted(s') && s'.dueAt == s.dueAt && CallOf(s') == CallOf(s) && s'.createdBy == s.createdBy
            && (s'.status == Pending ==> s'.attempts == s.attempts + DueBatches(b, events, s.dueAt))
            && (s'.status == Executed ==> s'.executedAt.Some? && s'.executedAt.value >= s.dueAt)
  {
    if events != [] {
      var before, e := events[..|events| - 1], events[|events| - 1];
      AttemptsCount(b, before, id);
      EventEach(Run(b, before), e, id);
    }
  }

  /** Every due transfer is EXECUTED or FAILED after three batches. */
  lemma TerminalWithinThree(b: Branch, events: seq<Event>, id: ScheduledId)
    requires id in b.scheduled && b.scheduled[id].status == Pending && Counted(b.scheduled[id])
    requires DueBatches(b, events, b.scheduled[id].dueAt) >= 3
    ensures id in Run(b, events).scheduled && Run(b, events).scheduled[id].status != Pending
  {
    AttemptsCount(b, events, id);
  }
}
