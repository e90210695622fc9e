/** The scheduled-transfer entity and its runner as they run, proved to do what the batch functions say. */
module ScheduledRunner {
  import opened Wrappers
  import opened Monetary
  import opened Ledger
  import opened Idempotency
  import opened Scheduling
  import OptimisticRetry

  class ScheduledTransfer {
    const id: ScheduledId
    const source: AccountId
    const destination: AccountId
    const amount: Money
    const description: string
    const scheduledFor: Instant
    const createdByUserId: UserId
    var status: Status
    var executedAt: Option<Instant>
    var failureReason: Option<GuardFailure<Ledger.Failure>>
    var attemptCount: nat

    constructor (id: ScheduledId, source: AccountId, destination: AccountId, amount: Money, description: string,
        scheduledFor: Instant, createdByUserId: UserId)
      ensures this.id == id
      ensures View() == Scheduled(source, destination, amount, description, scheduledFor, createdByUserId, Pending,
              None, None, 0)
    {
      this.id := id;
      this.source, this.destination, this.amount := source, destination, amount;
      this.description, this.scheduledFor, this.createdByUserId := description, scheduledFor, createdByUserId;
      status, executedAt, failureReason, attemptCount := Pending, None, None, 0;
    }

    function View(): Scheduled
      reads this
    {
      Scheduled(source, destination, amount, description, scheduledFor, createdByUserId, status, executedAt,
          failureReason, attemptCount)
    }

    method MarkExecuted(now: Instant)
      modifies this
      ensures View() == Scheduling.MarkExecuted(old(View()), now)
    {
      status := Executed;
      executedAt := Some(now);
    }

    method RecordFailedAttempt(reason: GuardFailure<Ledger.Failure>)
      modifies this
      ensures View() == old(View()).(attempts := old(attemptCount) + 1, failure := Some(reason))
    {
      attemptCount := attemptCount + 1;
      failureReason := Some(reason);
    }

    method MarkFailed(reason: GuardFailure<Ledger.Failure>, now: Instant)
      modifies this
      ensures View() == old(View()).(status := Failed, executedAt := Some(now), failure := Some(reason))
    {
      status := Failed;
      executedAt := Some(now);
      failureReason := Some(reason);
    }
  }

  /** The guard around the retried executor: look the key up, retry the attempts, save the result. */
  class TransferService {
    const guard: IdempotencyGuard<Books, Payload, Receipt>
    const stepUpThreshold: int

    constructor (guard: IdempotencyGuard<Books, Payload, Receipt>, stepUpThreshold: int)
      ensures this.guard == guard && this.stepUpThreshold == stepUpThreshold
    {
      this.guard := guard;
      this.stepUpThreshold := stepUpThreshold;
    }

    method Transfer(q: Request<Command>, lost: nat) returns (r: Result<Receipt, GuardFailure<Ledger.Failure>>)
      modifies guard
      ensures (guard.Table(), r) == Serve(stepUpThreshold, old(guard.Table()), q, 0, lost)
    {
      var answer: Option<Result<Receipt, GuardFailure<Ledger.Failure>>> := guard.LookUp(Recorded(q));
      ghost var operation := (books: Books) => Post(stepUpThreshold, books, q.key, q.payload.call, 0, lost);
      if answer.Some? {
        assert Guarded(guard.Table(), Recorded(q), operation) == (guard.Table(), answer.value);
        return answer.value;
      }
      var books := guard.world;
      var done, _ := OptimisticRetry.Execute(Attempts(stepUpThreshold, books.db, q.payload.call, 0, lost));
      match done {
        case Failure(e) => r := guard.Save(Recorded(q), books, Failure(e));
        case Success(posted) =>
          r := guard.Save(Recorded(q), Books(posted.0, books.journal + [Posting(q.key, q.payload.call)]),
              Success(posted.1));
      }
    }
  }

  /** The circumstances of the first `n` attempts. */
  function Moments(clock: nat -> Moment, n: nat): (moments: seq<Moment>)
    ensures |moments| == n && forall i: nat :: i < n ==> moments[i] == clock(i)
  {
    seq(n, i requires 0 <= i => clock(i))
  }

  class ScheduledTransferRunner {
    const service: TransferService
    const repository: map<ScheduledId, ScheduledTransfer>

    constructor (service: TransferService, repository: map<ScheduledId, ScheduledTransfer>)
      ensures this.service == service && this.repository == repository
    {
      this.service := service;
      this.repository := repository;
    }

    ghost predicate Valid()
    {
      forall id :: id in repository ==> repository[id].id == id
    }

    ghost function View(): Branch
      reads service.guard, repository.Values
    {
      Branch(service.stepUpThreshold, service.guard.Table(), map id | id in repository :: repository[id].View())
    }

    /** The pending transfers whose time has come, each once. */
    method FindDue(asOf: Instant) returns (due: seq<ScheduledId>)
      ensures forall id :: id in due <==> id in repository && IsDue(repository[id].View(), asOf)
      ensures forall i, j :: 0 <= i < j < |due| ==> due[i] != due[j]
    {
      due := [];
      var todo := repository.Keys;
      while todo != {}
        invariant todo <= repository.Keys
        invariant forall id :: id in due <==> id in repository && id !in todo && IsDue(repository[id].View(), asOf)
        invariant forall i, j :: 0 <= i < j < |due| ==> due[i] != due[j]
      {
        var id :| id in todo;
        if IsDue(repository[id].View(), asOf) {
          due := due + [id];
        }
        todo := todo - {id};
      }
    }

    /** Tries one transfer and records how it went. */
    method Attempt(scheduled: ScheduledTransfer, at: Moment)
      modifies service.guard, scheduled
      ensures (service.guard.Table(), scheduled.View()) ==
              TryOne(service.stepUpThreshold, old(service.guard.Table()), scheduled.id, old(scheduled.View()), at)
    {
      var result := service.Transfer(RequestOf(scheduled.id, scheduled.View(), at), at.lost);
      if result.Success? {
        scheduled.MarkExecuted(at.marked);
      } else {
        scheduled.RecordFailedAttempt(result.error);
        if scheduled.attemptCount >= MAX_ATTEMPTS {
          scheduled.MarkFailed(result.error, at.marked);
        }
      }
    }

    method AttemptStored(id: ScheduledId, at: Moment)
      requires Valid() && id in repository
      modifies service.guard, repository[id]
      ensures View() == Try(old(View()), id, at)
    {
      ghost var before := View();
      Attempt(repository[id], at);
      forall x | x in repository && x != id ensures repository[x].View() == before.scheduled[x] {
        assert repository[x] != repository[id];
      }
      assert View().scheduled == before.scheduled[id := repository[id].View()];
    }

    /** `clock(i)` gives the circumstances of the i-th attempt; `due` is the order the query returned. */
    method ExecuteDueTransfers(asOf: Instant, clock: nat -> Moment) returns (due: seq<ScheduledId>)
      requires Valid()
      modifies service.guard, repository.Values
      ensures (forall i: nat :: asOf <= clock(i).marked) ==> DueList(old(View()), asOf, due, Moments(clock, |due|))
      ensures (forall id :: id in due ==> id in old(View()).scheduled) &&
              View() == RunBatch(old(View()), due, Moments(clock, |due|))
    {
      due := FindDue(asOf);
      ghost var start, moments := View(), Moments(clock, |due|);
      assert due[..0] == [] && moments[..0] == [];
      QueryIsDueList(start, asOf, due, clock);
      for i := 0 to |due|
        invariant View() == RunBatch(start, due[..i], moments[..i])
      {
        RunBatchSnoc(start, due, moments, i);
        AttemptStored(due[i], clock(i));
      }
      assert due[..|due|] == due && moments[..|due|] == moments;
    }
  }

  lemma QueryIsDueList(b: Branch, asOf: Instant, due: seq<ScheduledId>, clock: nat -> Moment)
    requires forall id :: id in due <==> id in b.scheduled && IsDue(b.scheduled[id], asOf)
    requires forall i, j :: 0 <= i < j < |due| ==> due[i] != due[j]
    ensures (forall i: nat :: asOf <= clock(i).marked) ==> DueList(b, asOf, due, Moments(clock, |due|))
  {
  }

  lemma RunBatchSnoc(b: Branch, order: seq<ScheduledId>, moments: seq<Moment>, i: nat)
    requires i < |order| == |moments| && forall id :: id in order ==> id in b.scheduled
    ensures RunBatch(b, order[..i + 1], moments[..i + 1]) == Try(RunBatch(b, order[..i], moments[..i]), order[i],
            moments[i])
  {
    assert order[..i + 1][..i] == order[..i] && moments[..i + 1][..i] == moments[..i];
  }
}
