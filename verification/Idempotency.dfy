/** The keyed guard that replays, refuses or runs an operation. Payload hashes are taken to be injective,
    so a record keeps the payload itself. */
module Idempotency {
  import opened Wrappers

  type UserId = nat

  /** Milliseconds. */
  type Instant = int

  const RECORD_TTL: int := 24 * 60 * 60 * 1000

  datatype Key = Key(user: UserId, name: string)

  datatype Record<+P, +R> = Record(payload: P, response: R, expiresAt: Instant)

  /** Saving a second record under a key violates the unique constraint, after the operation has run. */
  datatype GuardFailure<+E> = Conflict | DuplicateRecord | OperationFailed(error: E)

  /** The record table and whatever the guarded operations change. */
  datatype Store<+W, P, R> = Store(world: W, records: map<Key, Record<P, R>>)

  /** `asked` is when the guard looks the key up, `saved` when it stamps the new record. */
  datatype Request<+P> = Request(key: Key, payload: P, asked: Instant, saved: Instant)

  predicate Live<P, R>(records: map<Key, Record<P, R>>, key: Key, now: Instant) {
    key in records && records[key].expiresAt > now
  }

  function Guarded<W, P(==), R, E>(s: Store<W, P, R>, q: Request<P>, operation: W -> (W, Result<R, E>))
    : (Store<W, P, R>, Result<R, GuardFailure<E>>)
  {
    if Live(s.records, q.key, q.asked) then
      (s, if s.records[q.key].payload == q.payload then Success(s.records[q.key].response) else Failure(Conflict))
    else
      var (world, result) := operation(s.world);
      Finished(s, q, world, result)
  }

  /** What is kept and answered once the operation has left `world` and `result`. */
  function Finished<W, P, R, E>(s: Store<W, P, R>, q: Request<P>, world: W, result: Result<R, E>)
    : (Store<W, P, R>, Result<R, GuardFailure<E>>)
  {
    match result
    case Failure(e) => (s.(world := world), Failure(OperationFailed(e)))
    case Success(r) =>
      if q.key in s.records then (s.(world := world), Failure(DuplicateRecord))
      else (Store(world, s.records[q.key := Record(q.payload, r, q.saved + RECORD_TTL)]), Success(r))
  }

  class IdempotencyGuard<W, P(==), R> {
    var world: W
    var records: map<Key, Record<P, R>>

    constructor (world: W)
      ensures Table() == Store(world, map[])
    {
      this.world := world;
      records := map[];
    }

    function Table(): Store<W, P, R>
      reads this
    {
      Store(world, records)
    }

    method Execute<E>(q: Request<P>, operation: W -> (W, Result<R, E>)) returns (r: Result<R, GuardFailure<E>>)
      modifies this
      ensures (Table(), r) == Guarded(old(Table()), q, operation)
    {
      var answer: Option<Result<R, GuardFailure<E>>> := LookUp(q);
      if answer.Some? {
        return answer.value;
      }
      var (after, result) := operation(world);
      r := Save(q, after, result);
    }

    /** The answer kept for a live key: the first result, or a conflict. */
    method LookUp<E>(q: Request<P>) returns (answer: Option<Result<R, GuardFailure<E>>>)
      ensures answer.Some? <==> Live(records, q.key, q.asked)
      ensures forall operation: W -> (W, Result<R, E>) :: answer.Some? ==>
                Guarded(Table(), q, operation) == (Table(), answer.value)
    {
      if q.key !in records || records[q.key].expiresAt <= q.asked {
        return None;
      }
      var record := records[q.key];
      if record.payload != q.payload {
        return Some(Failure(Conflict));
      }
      return Some(Success(record.response));
    }

    /** Keeps what the operation did, and its result under the key unless the key has a record already. */
    method Save<E>(q: Request<P>, after: W, result: Result<R, E>) returns (r: Result<R, GuardFailure<E>>)
      modifies this
      ensures (Table(), r) == Finished(old(Table()), q, after, result)
    {
      world := after;
      if result.Failure? {
        return Failure(OperationFailed(result.error));
      }
      if q.key in records {
        return Failure(DuplicateRecord);
      }
      records := records[q.key := Record(q.payload, result.value, q.saved + RECORD_TTL)];
      return Success(result.value);
    }
  }

  // ---- Histories of calls that do not overlap ----

  /** One call of a history: the request the guard sees, and the operation it guards, which the payload need not
      determine. */
  datatype Call<!W, +P, +R, +E> = Call(q: Request<P>, operation: W -> (W, Result<R, E>))

  /** The store after a history. */
  function After<W, P(==), R, E>(s: Store<W, P, R>, history: seq<Call<W, P, R, E>>): Store<W, P, R> {
    if history == [] then s
    else Served(After(s, history[..|history| - 1]), history[|history| - 1])
  }

  function Served<W, P(==), R, E>(s: Store<W, P, R>, call: Call<W, P, R, E>): Store<W, P, R> {
    Guarded(s, call.q, call.operation).0
  }

  function Answer<W, P(==), R, E>(s: Store<W, P, R>, call: Call<W, P, R, E>): Result<R, GuardFailure<E>> {
    Guarded(s, call.q, call.operation).1
  }

  /** The operation ran and took effect. */
  predicate TookEffect<W, P, R, E>(s: Store<W, P, R>, call: Call<W, P, R, E>) {
    !Live(s.records, call.q.key, call.q.asked) && call.operation(s.world).1.Success?
  }

  /** Once written, a record is never changed or removed. */
  lemma {:induction false} RecordsStay<W, P, R, E>(s: Store<W, P, R>, history: seq<Call<W, P, R, E>>, n: nat, key: Key)
    requires n <= |history| && key in After(s, history[..n]).records
    ensures key in After(s, history).records && After(s, history).records[key] == After(s, history[..n]).records[key]
  {
    if n < |history| {
      assert history[..|history| - 1][..n] == history[..n];
      RecordsStay(s, history[..|history| - 1], n, key);
    } else {
      assert history[..n] == history;
    }
  }

  /** After a call has succeeded, a later call with its key runs its own operation exactly when the record has expired.
      Until then it changes nothing and, whatever operation it asks for, repeats the first result if its payload is
      the same and conflicts otherwise. */
  lemma LaterCall<W, P, R, E>(s: Store<W, P, R>, history: seq<Call<W, P, R, E>>, i: nat, j: nat)
    requires i < j < |history| && history[i].q.key == history[j].q.key
    requires var before := After(s, history[..i]); history[i].q.key !in before.records && TookEffect(before, history[i])
    ensures var first, later := After(s, history[..i]), After(s, history[..j]);
            var p, q := history[i].q, history[j].q;
            && (TookEffect(later, history[j]) <==>
                q.asked >= p.saved + 86_400_000 && history[j].operation(later.world).1.Success?)
            && (q.asked < p.saved + 86_400_000 ==>
                  && After(s, history[..j + 1]) == later
                  && Answer(later, history[j]) == if q.payload == p.payload then Answer(first, history[i])
                      else Failure(Conflict))
  {
    assert history[..i + 1][..i] == history[..i];
    assert history[..j + 1][..j] == history[..j];
    assert history[..j][..i + 1] == history[..i + 1];
    RecordsStay(s, history[..j], i + 1, history[i].q.key);
  }

  /** A first call under a free key is told what its operation came to, its result or its own error, and leaves the
      world as the operation left it. A result is kept for 24 hours, an error is not. */
  lemma FirstCall<W, P, R, E>(s: Store<W, P, R>, call: Call<W, P, R, E>)
    requires call.q.key !in s.records
    ensures
      var (world, result) := call.operation(s.world);
      match result
      case Success(r) =>
        var record := Record(call.q.payload, r, call.q.saved + 86_400_000);
        Answer(s, call) == Success(r) && Served(s, call) == Store(world, s.records[call.q.key := record])
      case Failure(e) =>
        Answer(s, call) == Failure(OperationFailed(e)) && Served(s, call) == Store(world, s.records)
  {
  }

  /** Past the expiry the operation takes effect a second time, yet the caller is told it failed. */
  lemma ExpiredCall<W, P, R, E>(s: Store<W, P, R>, call: Call<W, P, R, E>)
    requires call.q.key in s.records && TookEffect(s, call)
    ensures Answer(s, call) == Failure(DuplicateRecord)
    ensures Served(s, call) == s.(world := call.operation(s.world).0)
  {
  }

  /** How often a key's operation took effect in a history. */
  function Effects<W, P(==), R, E>(s: Store<W, P, R>, history: seq<Call<W, P, R, E>>, key: Key): nat {
    if history == [] then 0
    else
      var before, last := history[..|history| - 1], history[|history| - 1];
      Effects(s, before, key) + if last.q.key == key && TookEffect(After(s, before), last) then 1 else 0
  }

  ghost predicate SucceededAt<W, P, R, E>(s: Store<W, P, R>, history: seq<Call<W, P, R, E>>, key: Key, i: int) {
    0 <= i < |history| && history[i].q.key == key && TookEffect(After(s, history[..i]), history[i])
  }

  /** Once a call on the key has taken effect, every later call on it comes before the saved record expires. */
  ghost predicate InsideWindow<W, P, R, E>(s: Store<W, P, R>, history: seq<Call<W, P, R, E>>, key: Key) {
    forall i, j :: SucceededAt(s, history, key, i) && i < j < |history| && history[j].q.key == key ==>
      history[j].q.asked < history[i].q.saved + 86_400_000
  }

  lemma PrefixInsideWindow<W, P, R, E>(s: Store<W, P, R>, history: seq<Call<W, P, R, E>>, key: Key)
    requires history != [] && InsideWindow(s, history, key)
    ensures InsideWindow(s, history[..|history| - 1], key)
  {
    var before := history[..|history| - 1];
    forall i, j | SucceededAt(s, before, key, i) && i < j < |before| && before[j].q.key == key
      ensures before[j].q.asked < before[i].q.saved + 86_400_000
    {
      assert before[..i] == history[..i];
      assert SucceededAt(s, history, key, i);
      assert history[j] == before[j];
    }
  }

  /** At most once: inside the window a key has taken effect once if it has a record and never otherwise, whatever
      operations the calls on it stand for, so a failed operation leaves its key free. */
  lemma {:induction false} AtMostOnce<W, P, R, E>(s: Store<W, P, R>, history: seq<Call<W, P, R, E>>, key: Key)
    requires key !in s.records && InsideWindow(s, history, key)
    ensures var end := After(s, history);
            && Effects(s, history, key) == (if key in end.records then 1 else 0)
            && (key in end.records ==>
                  exists i :: SucceededAt(s, history, key, i) &&
                      end.records[key].expiresAt == history[i].q.saved + 86_400_000)
  {
    if history != [] {
      var n := |history| - 1;
      var before := history[..n];
      PrefixInsideWindow(s, history, key);
      AtMostOnce(s, before, key);
      var mid, end := After(s, before), After(s, history);
      if key in mid.records {
        var i :| SucceededAt(s, before, key, i) && mid.records[key].expiresAt == before[i].q.saved + RECORD_TTL;
        assert before[..i] == history[..i];
        assert SucceededAt(s, history, key, i);
        RecordsStay(s, history, n, key);
      } else if key in end.records {
        assert SucceededAt(s, history, key, n);
      }
    }
  }

  /** A call leaves every other key's record as it was; a failed operation leaves its own key as it was too. */
  lemma OtherKeysUntouched<W, P, R, E>(s: Store<W, P, R>, call: Call<W, P, R, E>, key: Key)
    requires key != call.q.key || call.operation(s.world).1.Failure?
    ensures var s' := Served(s, call);
            (key in s'.records <==> key in s.records) && (key in s.records ==> s'.records[key] == s.records[key])
  {
  }
}
