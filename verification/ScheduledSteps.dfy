/** Scheduled transfers beside the step-interleaved bank: the runner, the guard and the client calls are taken apart
    into the points where other calls can come between, and every transfer attempt is a call of the bank like any
    other. */
module ScheduledSteps {
  import opened Wrappers
  import opened Ledger
  import opened Idempotency
  import opened Scheduling
  import opened SerialEquivalence
  import opened LogLedger
  import C = Concurrency
  import ExactlyOnce

  /** `clients` are the guarded client calls in progress, `owner` the key each call of the bank was made under.
      `queue` is what is left of the running batch, `attempt` the call its first transfer is making. */
  datatype Office = Office(
    bank: C.Bank, records: map<Key, Record<Payload, Receipt>>, scheduled: map<ScheduledId, Scheduled>,
    queue: seq<ScheduledId>, attempt: Option<C.CallId>, clients: map<C.CallId, Request<Command>>, owner: map<C.CallId,
        Key>)

  datatype Event =
    | BankEvent(e: C.Event)
    | ClientBegin(call: C.CallId, q: Request<Command>)
    | ClientEnd(call: C.CallId, saved: Instant)
    | Schedule(id: ScheduledId, item: Scheduled)
    | BatchBegin(asOf: Instant, due: seq<ScheduledId>)
    | AttemptBegin(call: C.CallId, asked: Instant, marked: Instant)
    | AttemptEnd(saved: Instant, marked: Instant)

  // ---- Transitions ----

  function Submitted(o: Office, c: C.CallId, key: Key, call: Ledger.Call): Office {
    o.(bank := C.Next(o.bank, C.Submit(c, call)), owner := o.owner[c := key])
  }

  /** A call that has ended, and how. */
  function Ended(b: C.Bank, c: C.CallId): Option<Result<Receipt, Ledger.Failure>>
    requires c in b.threads
  {
    match b.threads[c].phase
    case Returned(receipt) => Some(Success(receipt))
    case Threw(e) => Some(Failure(e))
    case _ => None
  }

  function Recording(o: Office, key: Key, payload: Payload, receipt: Receipt,
      saved: Instant): map<Key, Record<Payload, Receipt>> {
    if key in o.records then o.records else o.records[key := Record(payload, receipt, saved + RECORD_TTL)]
  }

  /** The first transfer of the batch has been tried. */
  function Tried(o: Office, s: Scheduled): Office
    requires o.queue != []
  {
    o.(scheduled := o.scheduled[o.queue[0] := s], queue := o.queue[1..], attempt := None)
  }

  ghost predicate DueNow(o: Office, asOf: Instant, due: seq<ScheduledId>) {
    && (forall i, j :: 0 <= i < j < |due| ==> due[i] != due[j])
    && (forall id :: id in due <==> id in o.scheduled && IsDue(o.scheduled[id], asOf))
  }

  function BeginAttempt(o: Office, c: C.CallId, asked: Instant, marked: Instant): Office
    requires o.queue != [] && o.queue[0] in o.scheduled
  {
    var s := o.scheduled[o.queue[0]];
    var key := Origin(o.queue[0], s);
    if Live(o.records, key, asked) then
      Tried(o, if o.records[key].payload == PayloadOf(key, Command(CallOf(s), s.description))
          then MarkExecuted(s, marked)
               else RecordFailure(s, Conflict, marked))
    else Submitted(o, c, key, CallOf(s)).(attempt := Some(c))
  }

  function EndAttempt(o: Office, result: Result<Receipt, Ledger.Failure>, saved: Instant, marked: Instant): Office
    requires o.queue != [] && o.queue[0] in o.scheduled
  {
    var s := o.scheduled[o.queue[0]];
    var key := Origin(o.queue[0], s);
    match result
    case Failure(e) => Tried(o, RecordFailure(s, OperationFailed(e), marked))
    case Success(receipt) =>
      if key in o.records then Tried(o, RecordFailure(s, DuplicateRecord, marked))
      else Tried(o, MarkExecuted(s, marked)).(records :=
          Recording(o, key, PayloadOf(key, Command(CallOf(s), s.description)), receipt, saved))
  }

  function EndClient(o: Office, c: C.CallId, result: Result<Receipt, Ledger.Failure>, saved: Instant): Office
    requires c in o.clients
  {
    var q := o.clients[c];
    var o' := o.(clients := o.clients - {c});
    if result.Failure? then o'
        else o'.(records := Recording(o, q.key, PayloadOf(q.key, q.payload), result.value, saved))
  }

  ghost function Next(o: Office, e: Event): Office {
    match e
    case BankEvent(e) => if e.Submit? then o else o.(bank := C.Next(o.bank, e))
    case ClientBegin(c, q) =>
      if c in o.bank.threads || Live(o.records, q.key, q.asked) then o
      else Submitted(o, c, q.key, q.payload.call).(clients := o.clients[c := q])
    case ClientEnd(c, saved) =>
      if c !in o.clients || c !in o.bank.threads || Ended(o.bank, c).None? then o
      else EndClient(o, c, Ended(o.bank, c).value, saved)
    case Schedule(id, s) =>
      if id in o.scheduled || s.status != Pending || s.attempts != 0 then o else o.(scheduled := o.scheduled[id := s])
    case BatchBegin(asOf, due) => if o.queue == [] && DueNow(o, asOf, due) then o.(queue := due) else o
    case AttemptBegin(c, asked, marked) =>
      if o.queue == [] || o.queue[0] !in o.scheduled || o.attempt.Some? || c in o.bank.threads then o
          else BeginAttempt(o, c, asked, marked)
    case AttemptEnd(saved, marked) =>
      if o.queue == [] || o.queue[0] !in o.scheduled || o.attempt.None? || o.attempt.value !in o.bank.threads
         || Ended(o.bank, o.attempt.value).None? then o
      else EndAttempt(o, Ended(o.bank, o.attempt.value).value, saved, marked)
  }

  /** How an attempt begins, in terms of the transfer alone: a live record under its key answers at once, executed if it
      is of this very transfer and a conflict otherwise; without one, a transfer call without step-up begins. */
  lemma AttemptBeginAnswer(o: Office, c: C.CallId, asked: Instant, marked: Instant)
    requires o.queue != [] && o.queue[0] in o.scheduled
    ensures
      var id, s, o' := o.queue[0], o.scheduled[o.queue[0]], BeginAttempt(o, c, asked, marked);
      var key := Key(s.createdBy, "scheduled-transfer-" + id);
      if key in o.records && o.records[key].expiresAt > asked then
        && o' == o.(scheduled := o.scheduled[id := o'.scheduled[id]], queue := o.queue[1..], attempt := None)
        && if o.records[key].payload == PayloadOfTransfer(id, s)
           then o'.scheduled[id] == s.(status := Executed, executedAt := Some(marked))
           else FailedBy(s, o'.scheduled[id], Conflict, marked)
      else
        var call := Transfer(s.source, s.destination, s.amount, false);
        o' == o.(bank := C.Next(o.bank, C.Submit(c, call)), owner := o.owner[c := key], attempt := Some(c))
  {
  }

  /** How it ends: with the error, or executed and recorded for 24 hours, or as a failure if its key has a record. */
  lemma AttemptEndAnswer(o: Office, result: Result<Receipt, Ledger.Failure>, saved: Instant, marked: Instant)
    requires o.queue != [] && o.queue[0] in o.scheduled
    ensures
      var id, s, o' := o.queue[0], o.scheduled[o.queue[0]], EndAttempt(o, result, saved, marked);
      var key := Key(s.createdBy, "scheduled-transfer-" + id);
      && id in o'.scheduled
      && o' == o.(scheduled := o.scheduled[id := o'.scheduled[id]], queue := o.queue[1..], attempt := None,
                  records := o'.records)
      && match result
         case Failure(e) => FailedBy(s, o'.scheduled[id], OperationFailed(e), marked) && o'.records == o.records
         case Success(receipt) =>
           if key in o.records then FailedBy(s, o'.scheduled[id], DuplicateRecord, marked) && o'.records == o.records
           else
             && o'.scheduled[id] == s.(status := Executed, executedAt := Some(marked))
             && o'.records == o.records[key := Record(PayloadOfTransfer(id, s), receipt, saved + 86_400_000)]
  {
  }

  /** A client's call begins unless its key has a live record, and its result is kept for 24 hours if its key
      has none. */
  lemma ClientAnswer(o: Office, c: C.CallId, q: Request<Command>, result: Result<Receipt, Ledger.Failure>,
      saved: Instant)
    requires c !in o.bank.threads
    ensures
      Next(o, ClientBegin(c, q)) ==
      if q.key in o.records && o.records[q.key].expiresAt > q.asked then o
      else o.(bank := C.Next(o.bank, C.Submit(c, q.payload.call)), owner := o.owner[c := q.key],
              clients := o.clients[c := q])
    ensures c in o.clients ==>
      var p, o' := o.clients[c], EndClient(o, c, result, saved);
      && o' == o.(clients := o.clients - {c}, records := o'.records)
      && o'.records == if result.Success? && p.key !in o.records
                       then o.records[p.key := Record(PayloadOf(p.key, p.payload), result.value, saved + 86_400_000)]
                       else o.records
  {
  }

  /** When each event of the office does something. A batch takes exactly the pending transfers whose time has come,
      each once, and only when no other batch is under way; an attempt begins when the batch has one left and none is
      being made, and ends when its call has; a client's call ends when it has returned or thrown. */
  lemma NextAnswer(o: Office, c: C.CallId, due: seq<ScheduledId>, asOf: Instant, now: Instant, later: Instant)
    ensures
      (o.queue == [] && (forall i, j :: 0 <= i < j < |due| ==> due[i] != due[j]) &&
       forall id :: id in due <==>
         id in o.scheduled && o.scheduled[id].status == Pending && o.scheduled[id].dueAt <= asOf)
      ==> Next(o, BatchBegin(asOf, due)) == o.(queue := due)
    ensures
      o.queue != [] && o.queue[0] in o.scheduled && o.attempt.None? && c !in o.bank.threads ==>
      Next(o, AttemptBegin(c, now, later)) == BeginAttempt(o, c, now, later)
    ensures
      o.queue != [] && o.queue[0] in o.scheduled && o.attempt.Some? && o.attempt.value in o.bank.threads ==>
      Next(o, AttemptEnd(now, later)) ==
      match o.bank.threads[o.attempt.value].phase
      case Returned(receipt) => EndAttempt(o, Success(receipt), now, later)
      case Threw(e) => EndAttempt(o, Failure(e), now, later)
      case _ => o
    ensures
      c in o.clients && c in o.bank.threads ==>
      Next(o, ClientEnd(c, now)) ==
      match o.bank.threads[c].phase
      case Returned(receipt) => EndClient(o, c, Success(receipt), now)
      case Threw(e) => EndClient(o, c, Failure(e), now)
      case _ => o
  {
  }

  /** A transfer can be scheduled under a new id only, pending and untried. */
  lemma ScheduleAnswer(o: Office, id: ScheduledId, s: Scheduled)
    ensures Next(o, Event.Schedule(id, s)) ==
            if id !in o.scheduled && s.status == Pending && s.attempts == 0 then o.(scheduled := o.scheduled[id := s])
            else o
  {
  }

  ghost function Run(o: Office, events: seq<Event>): Office {
    if events == [] then o else Next(Run(o, events[..|events| - 1]), events[|events| - 1])
  }

  function ClientKeys(events: seq<Event>): set<Key> {
    if events == [] then {}
    else
      var e := events[|events| - 1];
      ClientKeys(events[..|events| - 1]) + if e.ClientBegin? then {e.q.key} else {}
  }

  ghost predicate Initial(o: Office) {
    && C.Initial(o.bank) && o.scheduled == map[] && o.records == map[] && o.queue == [] && o.attempt == None
    && o.clients == map[] && o.owner == map[]
  }

  // ---- The invariant ----

  /** The bank's own invariant; the calls are the ones that have an owner. */
  ghost predicate BankHolds(start: C.Bank, o: Office) {
    Reachable(start, o.bank) && LogIsLedger(o.bank, start.db.txns) && o.owner.Keys == o.bank.threads.Keys
  }

  /** The key is a client's or some scheduled transfer's. */
  ghost predicate Known(o: Office, keys: set<Key>, key: Key) {
    key in keys || exists id :: id in o.scheduled && key == Origin(id, o.scheduled[id])
  }

  ghost predicate KeysKnown(o: Office, keys: set<Key>) {
    && (forall c :: c in o.owner ==> Known(o, keys, o.owner[c]))
    && (forall key :: key in o.records ==> Known(o, keys, key))
    && (forall c :: c in o.clients ==> o.clients[c].key in keys)
  }

  /** The batch in progress: pending transfers, each once; the attempt in progress belongs to the first. */
  ghost predicate QueueHolds(o: Office) {
    && (forall i, j :: 0 <= i < j < |o.queue| ==> o.queue[i] != o.queue[j])
    && (forall i :: 0 <= i < |o.queue| ==> o.queue[i] in o.scheduled && o.scheduled[o.queue[i]].status == Pending)
    && (o.attempt.Some? ==>
          o.queue != [] && o.attempt.value in o.owner &&
              o.owner[o.attempt.value] == Origin(o.queue[0], o.scheduled[o.queue[0]]))
  }

  ghost predicate Owns(o: Office, key: Key, c: C.CallId) {
    c in o.owner && o.owner[c] == key && c in o.bank.threads
  }

  ghost predicate OneReturned(o: Office, key: Key) {
    forall c, c' |
      Owns(o, key, c) && Owns(o, key, c') && o.bank.threads[c].phase.Returned? &&
      o.bank.threads[c'].phase.Returned? :: c == c'
  }

  /** The call was made for the transfer and has failed, or is the one that executed it, or is being made. */
  ghost predicate CallAccounted(o: Office, s: Scheduled, c: C.CallId)
    requires c in o.bank.threads
  {
    && o.bank.threads[c].call == CallOf(s)
    && (o.attempt == Some(c) || o.bank.threads[c].phase.Threw? ||
        (s.status == Executed && o.bank.threads[c].phase.Returned?))
  }

  ghost predicate Served(o: Office, id: ScheduledId)
    requires id in o.scheduled
  {
    var s := o.scheduled[id];
    var key := Origin(id, s);
    && (key in o.records <==> s.status == Executed)
    && (forall c :: Owns(o, key, c) ==> CallAccounted(o, s, c))
    && (s.status == Executed ==> exists c :: Owns(o, key, c) && o.bank.threads[c].phase.Returned?)
    && OneReturned(o, key)
  }

  ghost predicate AllServed(o: Office, keys: set<Key>) {
    forall id :: id in o.scheduled && Origin(id, o.scheduled[id]) !in keys ==> Served(o, id)
  }

  ghost predicate Holds(start: C.Bank, o: Office, keys: set<Key>) {
    BankHolds(start, o) && KeysKnown(o, keys) && QueueHolds(o) && AllServed(o, keys)
  }

  // ---- Bank steps ----

  /** A call that has ended stays as it is, and calls do not come or go. */
  lemma BankKeepsEnded(b: C.Bank, e: C.Event)
    requires !e.Submit?
    ensures C.Next(b, e).threads.Keys == b.threads.Keys
    ensures forall c :: c in b.threads ==> C.Next(b, e).threads[c].call == b.threads[c].call
    ensures forall c :: c in b.threads && !C.Running(b.threads[c]) ==> C.Next(b, e).threads[c] == b.threads[c]
  {
  }

  lemma BankServed(o: Office, e: C.Event, id: ScheduledId)
    requires !e.Submit? && o.owner.Keys == o.bank.threads.Keys && QueueHolds(o) && id in o.scheduled && Served(o, id)
    ensures Served(o.(bank := C.Next(o.bank, e)), id)
  {
    var o' := o.(bank := C.Next(o.bank, e));
    var s := o.scheduled[id];
    var key := Origin(id, s);
    BankKeepsEnded(o.bank, e);
    forall c | Owns(o', key, c) ensures Owns(o, key, c) && CallAccounted(o', s, c) {
      assert CallAccounted(o, s, c);
    }
    if s.status == Executed {
      var c :| Owns(o, key, c) && o.bank.threads[c].phase.Returned?;
      assert Owns(o', key, c);
    }
    forall c, c' | Owns(o', key, c) && Owns(o', key, c') && o'.bank.threads[c].phase.Returned? &&
        o'.bank.threads[c'].phase.Returned?
      ensures c == c'
    {
      OnlyAttemptReturns(o, o', id, c, c');
    }
  }

  /** Two calls of one transfer that have returned are one: only the attempt in progress can have returned just now. */
  lemma OnlyAttemptReturns(o: Office, o': Office, id: ScheduledId, c: C.CallId, c': C.CallId)
    requires QueueHolds(o) && id in o.scheduled && Served(o, id) && o'.attempt == o.attempt
    requires var key := Origin(id, o.scheduled[id]); Owns(o, key, c) && Owns(o, key, c')
    requires c in o'.bank.threads && o'.bank.threads[c].phase.Returned?
    requires c' in o'.bank.threads && o'.bank.threads[c'].phase.Returned?
    requires forall x :: x in o.bank.threads && !C.Running(o.bank.threads[x]) ==>
             x in o'.bank.threads && o'.bank.threads[x] == o.bank.threads[x]
    ensures c == c'
  {
    var s := o.scheduled[id];
    assert CallAccounted(o, s, c) && CallAccounted(o, s, c');
    if c != c' {
      NotBoth(o, id, c, c');
    }
  }

  /** An attempt in progress is of a pending transfer, so none of its other calls has returned. */
  lemma NotBoth(o: Office, id: ScheduledId, c: C.CallId, c': C.CallId)
    requires QueueHolds(o) && id in o.scheduled && Served(o, id) && c != c'
    requires var key := Origin(id, o.scheduled[id]); Owns(o, key, c) && Owns(o, key, c')
    ensures o.bank.threads[c].phase.Threw? || o.bank.threads[c'].phase.Threw?
  {
    var s := o.scheduled[id];
    assert CallAccounted(o, s, c) && CallAccounted(o, s, c');
    if o.attempt == Some(c) || o.attempt == Some(c') {
      if o.queue[0] != id {
        ExactlyOnce.OriginsDiffer(o.queue[0], o.scheduled[o.queue[0]], id, s);
      }
    }
  }

  lemma BankEventHolds(start: C.Bank, o: Office, keys: set<Key>, e: C.Event)
    requires Holds(start, o, keys) && !e.Submit?
    ensures Holds(start, o.(bank := C.Next(o.bank, e)), keys)
  {
    var o' := o.(bank := C.Next(o.bank, e));
    NextReachable(start, o.bank, e);
    NextPosted(o.bank, start.db.txns, e);
    BankKeepsEnded(o.bank, e);
    forall key | Known(o, keys, key) ensures Known(o', keys, key) {}
    forall id | id in o'.scheduled && Origin(id, o'.scheduled[id]) !in keys ensures Served(o', id) {
      BankServed(o, e, id);
    }
  }

  // ---- Calls begin ----

  lemma SubmitShape(b: C.Bank, c: C.CallId, call: Ledger.Call)
    requires c !in b.threads
    ensures var b' := C.Next(b, C.Submit(c, call));
            && b'.threads.Keys == b.threads.Keys + {c} && b'.threads[c].call == call && b'.threads[c].phase == C.Begin
            && forall x :: x in b.threads ==> b'.threads[x] == b.threads[x]
  {
  }

  lemma SubmittedBank(start: C.Bank, o: Office, c: C.CallId, key: Key, call: Ledger.Call)
    requires BankHolds(start, o) && c !in o.bank.threads
    ensures BankHolds(start, Submitted(o, c, key, call))
  {
    NextReachable(start, o.bank, C.Submit(c, call));
    NextPosted(o.bank, start.db.txns, C.Submit(c, call));
    SubmitShape(o.bank, c, call);
  }

  /** A call under another key does not concern a scheduled transfer. */
  lemma OtherCallServed(o: Office, o': Office, c: C.CallId, key: Key, call: Ledger.Call, id: ScheduledId)
    requires o.owner.Keys == o.bank.threads.Keys && c !in o.bank.threads && id in o.scheduled && Served(o, id)
    requires key != Origin(id, o.scheduled[id]) && (o.attempt.None? || o'.attempt == o.attempt)
    requires o' == Submitted(o, c, key, call).(clients := o'.clients, attempt := o'.attempt)
    ensures Served(o', id)
  {
    var s := o.scheduled[id];
    SubmitShape(o.bank, c, call);
    forall x | Owns(o', Origin(id, s), x) ensures Owns(o, Origin(id, s), x) && CallAccounted(o', s, x) {
      assert CallAccounted(o, s, x);
    }
    if s.status == Executed {
      var x :| Owns(o, Origin(id, s), x) && o.bank.threads[x].phase.Returned?;
      assert Owns(o', Origin(id, s), x);
    }
  }

  lemma ClientKeysKnown(o: Office, keys: set<Key>, c: C.CallId, q: Request<Command>)
    requires KeysKnown(o, keys)
    ensures KeysKnown(Submitted(o, c, q.key, q.payload.call).(clients := o.clients[c := q]), keys + {q.key})
  {
    var o' := Submitted(o, c, q.key, q.payload.call).(clients := o.clients[c := q]);
    forall key | Known(o, keys, key) || key == q.key ensures Known(o', keys + {q.key}, key) {}
  }

  lemma ClientBeginHolds(start: C.Bank, o: Office, keys: set<Key>, c: C.CallId, q: Request<Command>)
    requires Holds(start, o, keys) && c !in o.bank.threads
    ensures Holds(start, Submitted(o, c, q.key, q.payload.call).(clients := o.clients[c := q]), keys + {q.key})
  {
    var o' := Submitted(o, c, q.key, q.payload.call).(clients := o.clients[c := q]);
    SubmittedBank(start, o, c, q.key, q.payload.call);
    ClientKeysKnown(o, keys, c, q);
    assert QueueHolds(o');
    forall id | id in o'.scheduled && Origin(id, o'.scheduled[id]) !in keys + {q.key} ensures Served(o', id) {
      OtherCallServed(o, o', c, q.key, q.payload.call, id);
    }
  }

  lemma AttemptSubmitted(start: C.Bank, o: Office, keys: set<Key>, c: C.CallId)
    requires Holds(start, o, keys) && c !in o.bank.threads && o.queue != [] && o.attempt.None?
    ensures var s := o.scheduled[o.queue[0]];
            Holds(start, Submitted(o, c, Origin(o.queue[0], s), CallOf(s)).(attempt := Some(c)), keys)
  {
    var head := o.queue[0];
    var s := o.scheduled[head];
    var key := Origin(head, s);
    var o' := Submitted(o, c, key, CallOf(s)).(attempt := Some(c));
    SubmittedBank(start, o, c, key, CallOf(s));
    assert Known(o', keys, key);
    forall k | Known(o, keys, k) ensures Known(o', keys, k) {}
    forall id | id in o'.scheduled && Origin(id, o'.scheduled[id]) !in keys ensures Served(o', id) {
      if id != head {
        ExactlyOnce.OriginsDiffer(head, s, id, o.scheduled[id]);
        OtherCallServed(o, o', c, key, CallOf(s), id);
      } else {
        HeadServed(o, c);
      }
    }
  }

  lemma HeadServed(o: Office, c: C.CallId)
    requires o.owner.Keys == o.bank.threads.Keys && QueueHolds(o) && c !in o.bank.threads && o.queue != [] &&
             o.attempt.None?
    requires Served(o, o.queue[0])
    ensures var s := o.scheduled[o.queue[0]];
            Served(Submitted(o, c, Origin(o.queue[0], s), CallOf(s)).(attempt := Some(c)), o.queue[0])
  {
    var s := o.scheduled[o.queue[0]];
    var key := Origin(o.queue[0], s);
    var o' := Submitted(o, c, key, CallOf(s)).(attempt := Some(c));
    SubmitShape(o.bank, c, CallOf(s));
    forall x | Owns(o', key, x) ensures CallAccounted(o', s, x) && (x != c ==> o'.bank.threads[x].phase.Threw?) {
      if x != c {
        assert Owns(o, key, x) && CallAccounted(o, s, x);
      }
    }
  }

  // ---- Calls end ----

  /** What a transfer relies on is untouched. */
  lemma SameServed(o: Office, o': Office, id: ScheduledId)
    requires id in o.scheduled && id in o'.scheduled && o'.scheduled[id] == o.scheduled[id] && Served(o, id)
    requires o'.bank == o.bank && o'.owner == o.owner
    requires Origin(id, o.scheduled[id]) in o'.records <==> Origin(id, o.scheduled[id]) in o.records
    requires forall c: C.CallId :: Owns(o, Origin(id, o.scheduled[id]), c) && o.attempt == Some(c) ==>
             o'.attempt == Some(c)
    ensures Served(o', id)
  {
    var s := o.scheduled[id];
    forall c ensures Owns(o', Origin(id, s), c) <==> Owns(o, Origin(id, s), c) {}
    forall c | Owns(o', Origin(id, s), c) ensures CallAccounted(o', s, c) {
      assert CallAccounted(o, s, c);
    }
  }

  lemma ClientEndHolds(start: C.Bank, o: Office, keys: set<Key>, c: C.CallId, result: Result<Receipt, Ledger.Failure>,
      saved: Instant)
    requires Holds(start, o, keys) && c in o.clients
    ensures Holds(start, EndClient(o, c, result, saved), keys)
  {
    var o' := EndClient(o, c, result, saved);
    forall key | Known(o, keys, key) ensures Known(o', keys, key) {}
    assert Known(o', keys, o.clients[c].key);
    forall id | id in o'.scheduled && Origin(id, o'.scheduled[id]) !in keys ensures Served(o', id) {
      SameServed(o, o', id);
    }
  }

  /** A transfer's origin does not change while it is tried. */
  lemma TriedKeys(o: Office, o': Office, s: Scheduled, keys: set<Key>)
    requires o.queue != [] && o.queue[0] in o.scheduled && o'.scheduled == o.scheduled[o.queue[0] := s]
    requires Origin(o.queue[0], s) == Origin(o.queue[0], o.scheduled[o.queue[0]])
    ensures forall key :: Known(o, keys, key) ==> Known(o', keys, key)
  {
    forall key | Known(o, keys, key) ensures Known(o', keys, key) {
      if key !in keys {
        var id :| id in o.scheduled && key == Origin(id, o.scheduled[id]);
        assert id in o'.scheduled && key == Origin(id, o'.scheduled[id]);
      }
    }
  }

  lemma TriedQueue(o: Office, s: Scheduled)
    requires QueueHolds(o) && o.queue != []
    ensures QueueHolds(Tried(o, s))
  {
    var o' := Tried(o, s);
    forall i | 0 <= i < |o'.queue| ensures o'.queue[i] in o'.scheduled && o'.scheduled[o'.queue[i]].status == Pending {
      assert o'.queue[i] == o.queue[i + 1] && o.queue[i + 1] != o.queue[0];
    }
  }

  /** The other transfers do not notice that the first one has been tried. */
  lemma TriedOthers(o: Office, o': Office, s: Scheduled, keys: set<Key>, id: ScheduledId)
    requires QueueHolds(o) && AllServed(o, keys) && o.queue != []
    requires o' == Tried(o, s).(records := o'.records) && id in o.scheduled && id != o.queue[0] &&
             Origin(id, o.scheduled[id]) !in keys
    requires forall key :: key != Origin(o.queue[0], o.scheduled[o.queue[0]]) ==>
             (key in o'.records <==> key in o.records)
    ensures Served(o', id)
  {
    ExactlyOnce.OriginsDiffer(o.queue[0], o.scheduled[o.queue[0]], id, o.scheduled[id]);
    SameServed(o, o', id);
  }

  /** The transfer whose call returned is executed by it; the one whose call threw stays without a posting. */
  lemma TriedServed(o: Office, result: Result<Receipt, Ledger.Failure>, saved: Instant, marked: Instant)
    requires QueueHolds(o) && o.queue != [] && o.attempt.Some? && o.owner.Keys == o.bank.threads.Keys
    requires Ended(o.bank, o.attempt.value) == Some(result) && Served(o, o.queue[0])
    ensures Served(EndAttempt(o, result, saved, marked), o.queue[0])
  {
    var id, c := o.queue[0], o.attempt.value;
    var s, o' := o.scheduled[id], EndAttempt(o, result, saved, marked);
    var key := Origin(id, s);
    assert Origin(id, o'.scheduled[id]) == key && CallOf(o'.scheduled[id]) == CallOf(s);
    assert Owns(o, key, c) && Owns(o', key, c);
    forall x | Owns(o', key, x)
      ensures CallAccounted(o', o'.scheduled[id], x) && (x != c ==> o'.bank.threads[x].phase.Threw?)
    {
      assert Owns(o, key, x) && CallAccounted(o, s, x);
    }
  }

  lemma AttemptEndHolds(start: C.Bank, o: Office, keys: set<Key>, result: Result<Receipt, Ledger.Failure>,
      saved: Instant, marked: Instant)
    requires Holds(start, o, keys) && o.queue != [] && o.attempt.Some? && Ended(o.bank, o.attempt.value) == Some(result)
    ensures Holds(start, EndAttempt(o, result, saved, marked), keys)
  {
    var id, o' := o.queue[0], EndAttempt(o, result, saved, marked);
    var s := o'.scheduled[id];
    TriedQueue(o, s);
    TriedKeys(o, o', s, keys);
    assert Known(o', keys, Origin(id, s));
    forall x | x in o'.scheduled && Origin(x, o'.scheduled[x]) !in keys ensures Served(o', x) {
      if x != id { TriedOthers(o, o', s, keys, x); } else { TriedServed(o, result, saved, marked); }
    }
  }

  /** A live record under the origin of a pending transfer can only be a client's. */
  lemma ReplayedHolds(start: C.Bank, o: Office, keys: set<Key>, s: Scheduled)
    requires Holds(start, o, keys) && o.queue != [] && o.attempt.None?
    requires Origin(o.queue[0], o.scheduled[o.queue[0]]) in o.records
    requires Origin(o.queue[0], s) == Origin(o.queue[0], o.scheduled[o.queue[0]])
    ensures Holds(start, Tried(o, s), keys)
  {
    var o' := Tried(o, s);
    TriedQueue(o, s);
    TriedKeys(o, o', s, keys);
    forall x | x in o'.scheduled && Origin(x, o'.scheduled[x]) !in keys ensures Served(o', x) {
      if x != o.queue[0] {
        TriedOthers(o, o', s, keys, x);
      } else {
        assert false;
      }
    }
  }

  lemma AttemptBeginHolds(start: C.Bank, o: Office, keys: set<Key>, c: C.CallId, asked: Instant, marked: Instant)
    requires Holds(start, o, keys) && o.queue != [] && o.attempt.None? && c !in o.bank.threads
    ensures Holds(start, BeginAttempt(o, c, asked, marked), keys)
  {
    var s := o.scheduled[o.queue[0]];
    if Live(o.records, Origin(o.queue[0], s), asked) {
      ReplayedHolds(start, o, keys, BeginAttempt(o, c, asked, marked).scheduled[o.queue[0]]);
    } else {
      AttemptSubmitted(start, o, keys, c);
    }
  }

  // ---- Schedules and batches ----

  lemma ScheduleHolds(start: C.Bank, o: Office, keys: set<Key>, id: ScheduledId, s: Scheduled)
    requires Holds(start, o, keys) && id !in o.scheduled && s.status == Pending
    ensures Holds(start, o.(scheduled := o.scheduled[id := s]), keys)
  {
    var o' := o.(scheduled := o.scheduled[id := s]);
    var key := Origin(id, s);
    forall k | Known(o, keys, k) ensures Known(o', keys, k) {
      if k !in keys {
        var x :| x in o.scheduled && k == Origin(x, o.scheduled[x]);
        assert x in o'.scheduled && k == Origin(x, o'.scheduled[x]);
      }
    }
    forall x | x in o'.scheduled && Origin(x, o'.scheduled[x]) !in keys ensures Served(o', x) {
      if x != id {
        SameServed(o, o', x);
      } else {
        assert !Known(o, keys, key) by {
          forall y | y in o.scheduled ensures key != Origin(y, o.scheduled[y]) {
            ExactlyOnce.OriginsDiffer(id, s, y, o.scheduled[y]);
          }
        }
        forall c ensures !Owns(o', key, c) {}
      }
    }
  }

  lemma BatchBeginHolds(start: C.Bank, o: Office, keys: set<Key>, asOf: Instant, due: seq<ScheduledId>)
    requires Holds(start, o, keys) && o.queue == [] && DueNow(o, asOf, due)
    ensures Holds(start, o.(queue := due), keys)
  {
    var o' := o.(queue := due);
    forall k | Known(o, keys, k) ensures Known(o', keys, k) {}
    forall i | 0 <= i < |due| ensures due[i] in o.scheduled && o.scheduled[due[i]].status == Pending {
      assert due[i] in due;
    }
    forall x | x in o'.scheduled && Origin(x, o'.scheduled[x]) !in keys ensures Served(o', x) {
      SameServed(o, o', x);
    }
  }

  // ---- Whole runs ----

  lemma NextHolds(start: C.Bank, o: Office, keys: set<Key>, e: Event)
    requires Holds(start, o, keys)
    ensures Holds(start, Next(o, e), keys + if e.ClientBegin? then {e.q.key} else {})
  {
    assert keys + {} == keys;
    match e
    case BankEvent(e) => if !e.Submit? { BankEventHolds(start, o, keys, e); }
    case ClientBegin(c, q) =>
      MoreKeys(start, o, keys, q.key);
      if Next(o, e) != o { ClientBeginHolds(start, o, keys, c, q); }
    case ClientEnd(c, saved) =>
      if Next(o, e) != o { ClientEndHolds(start, o, keys, c, Ended(o.bank, c).value, saved); }
    case Schedule(id, s) => if Next(o, e) != o { ScheduleHolds(start, o, keys, id, s); }
    case BatchBegin(asOf, due) => if Next(o, e) != o { BatchBeginHolds(start, o, keys, asOf, due); }
    case AttemptBegin(c, asked, marked) =>
      if o.queue != [] && o.attempt.None? && c !in o.bank.threads {
        AttemptBeginHolds(start, o, keys, c, asked, marked);
      }
    case AttemptEnd(saved, marked) =>
      if o.attempt.Some? && Ended(o.bank, o.attempt.value).Some? {
        AttemptEndHolds(start, o, keys, Ended(o.bank, o.attempt.value).value, saved, marked);
      }
  }

  lemma MoreKeys(start: C.Bank, o: Office, keys: set<Key>, key: Key)
    requires Holds(start, o, keys)
    ensures Holds(start, o, keys + {key})
  {
    forall k | Known(o, keys, k) ensures Known(o, keys + {key}, k) {}
  }

  lemma InitialHolds(o: Office)
    requires Initial(o)
    ensures Holds(o.bank, o, {})
  {
  }

  lemma {:induction false} RunHolds(start: Office, events: seq<Event>)
    requires Initial(start)
    ensures Holds(start.bank, Run(start, events), ClientKeys(events))
  {
    if events == [] {
      InitialHolds(start);
    } else {
      var before, e := events[..|events| - 1], events[|events| - 1];
      RunHolds(start, before);
      NextHolds(start.bank, Run(start, before), ClientKeys(before), e);
    }
  }

  /** FAILED holds exactly at three attempts, whatever comes between them. */
  predicate AllCounted(o: Office) {
    forall id :: id in o.scheduled ==> Counted(o.scheduled[id])
  }

  lemma NextCounted(o: Office, e: Event)
    requires QueueHolds(o) && AllCounted(o)
    ensures AllCounted(Next(o, e))
  {
  }

  lemma {:induction false} RunCounted(start: Office, events: seq<Event>)
    requires Initial(start)
    ensures AllCounted(Run(start, events))
  {
    if events != [] {
      RunCounted(start, events[..|events| - 1]);
      RunHolds(start, events[..|events| - 1]);
      NextCounted(Run(start, events[..|events| - 1]), events[|events| - 1]);
    }
  }

  // ---- Exactly once ----

  /** The i-th log item is a commit of one of the transfer's calls; its ledger transaction takes the amount, which is
      below the step-up threshold, from the transfer's source and gives it to its destination. */
  ghost predicate PostedAt(o: Office, key: Key, s: Scheduled, i: nat) {
    && i < |o.bank.log| && o.bank.log[i].Committed? && Owns(o, key, o.bank.log[i].caller)
    && s.amount.minorUnits < o.bank.threshold
    && ExactlyOnce.Moves(o.bank.db, o.bank.log[i].receipt.txn, s.source, s.destination, s.amount)
  }

  ghost predicate CommitsFor(o: Office, key: Key, i: nat) {
    i < |o.bank.log| && o.bank.log[i].Committed? && o.bank.log[i].caller in o.owner &&
        o.owner[o.bank.log[i].caller] == key
  }

  lemma CommitReturned(start: C.Bank, o: Office, keys: set<Key>, key: Key, i: nat)
    requires Holds(start, o, keys) && CommitsFor(o, key, i)
    ensures var c := o.bank.log[i].caller;
            Owns(o, key, c) && o.bank.threads[c].phase.Returned? && o.bank.threads[c].call == o.bank.log[i].m.call
  {
  }

  lemma SameCommit(start: C.Bank, o: Office, keys: set<Key>, i: nat, j: nat)
    requires Holds(start, o, keys) && i < |o.bank.log| && j < |o.bank.log| && o.bank.log[i].Committed? &&
             o.bank.log[j].Committed?
    requires o.bank.log[i].caller == o.bank.log[j].caller
    ensures i == j
  {
  }

  /** However the steps of scheduled, client and other calls are interleaved: a scheduled transfer whose key no client
      used has exactly one commit, whose ledger transaction moves its amount, if it is EXECUTED; otherwise it has
      none, but for the commit of the attempt in progress that the runner has not been told of yet. */
  lemma PostsOnceInterleaved(start: Office, events: seq<Event>, id: ScheduledId)
    requires Initial(start) && id in Run(start, events).scheduled
    requires Key(Run(start, events).scheduled[id].createdBy, "scheduled-transfer-" + id) !in ClientKeys(events)
    ensures var o := Run(start, events);
            var s := o.scheduled[id];
            var key := Key(s.createdBy, "scheduled-transfer-" + id);
            if s.status == Executed then
              exists i: nat :: PostedAt(o, key, s, i) && forall j: nat :: CommitsFor(o, key, j) ==> j == i
            else forall j: nat :: CommitsFor(o, key, j) ==>
                   o.attempt == Some(o.bank.log[j].caller) && PostedAt(o, key, s, j)
  {
    RunHolds(start, events);
    var o, keys := Run(start, events), ClientKeys(events);
    var key := Origin(id, o.scheduled[id]);
    assert Served(o, id);
    if o.scheduled[id].status == Executed {
      ExecutedOnce(start.bank, o, keys, id);
    } else {
      forall j: nat | CommitsFor(o, key, j)
        ensures o.attempt == Some(o.bank.log[j].caller) && PostedAt(o, key, o.scheduled[id], j)
      {
        CommitReturned(start.bank, o, keys, key, j);
        assert CallAccounted(o, o.scheduled[id], o.bank.log[j].caller);
        CommitPosted(start.bank, o, keys, key, o.scheduled[id], j);
      }
    }
  }

  lemma CommitPosted(start: C.Bank, o: Office, keys: set<Key>, key: Key, s: Scheduled, i: nat)
    requires Holds(start, o, keys) && CommitsFor(o, key, i) && o.bank.log[i].m.call == CallOf(s)
    ensures PostedAt(o, key, s, i)
  {
    CommitReturned(start, o, keys, key, i);
    assert ItemPosted(o.bank, start.db.txns, i);
  }

  lemma ExecutedOnce(start: C.Bank, o: Office, keys: set<Key>, id: ScheduledId)
    requires Holds(start, o, keys) && id in o.scheduled && Served(o, id) && o.scheduled[id].status == Executed
    ensures var key := Origin(id, o.scheduled[id]);
            exists i: nat ::
              PostedAt(o, key, o.scheduled[id], i) && forall j: nat :: CommitsFor(o, key, j) ==> j == i
  {
    var s := o.scheduled[id];
    var key := Origin(id, s);
    var c :| Owns(o, key, c) && o.bank.threads[c].phase.Returned?;
    var i: nat :| o.bank.threads[c].since <= i < |o.bank.log| && o.bank.log[i].Committed? && o.bank.log[i].caller == c;
    assert CallAccounted(o, s, c);
    CommitPosted(start, o, keys, key, s, i);
    forall j: nat | CommitsFor(o, key, j) ensures j == i {
      CommitReturned(start, o, keys, key, j);
      SameCommit(start, o, keys, i, j);
    }
  }

  lemma NextKeepsTerminal(o: Office, e: Event, id: ScheduledId)
    requires QueueHolds(o) && id in o.scheduled && o.scheduled[id].status != Pending
    ensures id in Next(o, e).scheduled && Next(o, e).scheduled[id] == o.scheduled[id]
  {
  }

  /** EXECUTED and FAILED are final here too. */
  lemma {:induction false} TerminalStaysInterleaved(start: Office, events: seq<Event>, more: seq<Event>,
      id: ScheduledId)
    requires Initial(start) && id in Run(start, events).scheduled && Run(start, events).scheduled[id].status != Pending
    ensures id in Run(start, events + more).scheduled && Run(start, events + more).scheduled[id] ==
            Run(start, events).scheduled[id]
  {
    if more == [] {
      assert events + more == events;
    } else {
      var before := more[..|more| - 1];
      TerminalStaysInterleaved(start, events, before, id);
      assert (events + more)[..|events + more| - 1] == events + before;
      RunHolds(start, events + before);
      NextKeepsTerminal(Run(start, events + before), more[|more| - 1], id);
      assert (events + more)[|events + more| - 1] == more[|more| - 1];
    }
  }
}
