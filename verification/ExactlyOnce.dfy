/** Which ledger transactions the scheduled transfers post, over any run of batches, guarded client calls,
    new schedules, account openings and status changes. */
module ExactlyOnce {
  import opened Wrappers
  import opened Monetary
  import opened Ledger
  import opened Idempotency
  import opened Scheduling
  import Concurrency

  function Postings(journal: seq<Posting>, key: Key): nat {
    if journal == [] then 0
    else Postings(journal[..|journal| - 1], key) + if journal[|journal| - 1].key == key then 1 else 0
  }

  /** Keys used by client calls in a run. */
  function ClientKeys(events: seq<Event>): set<Key> {
    if events == [] then {}
    else
      var e := events[|events| - 1];
      ClientKeys(events[..|events| - 1]) + if e.Client? then {e.q.key} else {}
  }

  /** Every record and posting goes back to a client key or to a scheduled transfer. */
  ghost predicate Accounted(b: Branch, clients: set<Key>, key: Key) {
    key in clients || exists id :: id in b.scheduled && key == Origin(id, b.scheduled[id])
  }

  ghost predicate KeysAccounted(b: Branch, clients: set<Key>) {
    && (forall key :: key in b.store.records ==> Accounted(b, clients, key))
    && (forall p :: p in b.store.world.journal ==> Accounted(b, clients, p.key))
  }

  /** A transfer whose key no client used: one posting of its own movement if EXECUTED, none otherwise. */
  ghost predicate PostedOnce(b: Branch, id: ScheduledId)
    requires id in b.scheduled
  {
    var s := b.scheduled[id];
    var key := Origin(id, s);
    && (key in b.store.records <==> s.status == Executed)
    && Postings(b.store.world.journal, key) == (if s.status == Executed then 1 else 0)
    && (forall p :: p in b.store.world.journal && p.key == key ==> p.call == CallOf(s))
    && (s.status == Executed ==> s.amount.minorUnits < b.threshold)
  }

  ghost predicate Consistent(b: Branch, clients: set<Key>) {
    && KeysAccounted(b, clients)
    && (forall id :: id in b.scheduled && Origin(id, b.scheduled[id]) !in clients ==> PostedOnce(b, id))
  }

  lemma OriginsDiffer(id: ScheduledId, s: Scheduled, id': ScheduledId, s': Scheduled)
    requires id != id'
    ensures Origin(id, s) != Origin(id', s')
  {
    assert (KEY_PREFIX + id)[|KEY_PREFIX|..] == id && (KEY_PREFIX + id')[|KEY_PREFIX|..] == id';
  }

  lemma PostingsSnoc(journal: seq<Posting>, p: Posting, key: Key)
    ensures Postings(journal + [p], key) == Postings(journal, key) + if p.key == key then 1 else 0
  {
    assert (journal + [p])[..|journal|] == journal;
  }

  lemma {:induction false} NoPostings(journal: seq<Posting>, key: Key)
    requires forall p :: p in journal ==> p.key != key
    ensures Postings(journal, key) == 0
  {
    if journal != [] {
      NoPostings(journal[..|journal| - 1], key);
    }
  }

  /** A guarded call posts at most once, under its own key, and writes no other record. */
  lemma ServeEffect(threshold: int, store: Ledgers, q: Request<Command>, newId: AccountId, lost: nat)
    ensures var (store', r) := Serve(threshold, store, q, newId, lost);
            var posting := Posting(q.key, q.payload.call);
            && (store'.world.journal == store.world.journal || store'.world.journal == store.world.journal + [posting])
            && store.records.Keys <= store'.records.Keys <= store.records.Keys + {q.key}
            && (q.key !in store.records ==>
                  if r.Success? then store'.world.journal == store.world.journal + [posting] && q.key in store'.records
                  else store' == store)
  {
    PostIs(threshold, store.world, q.key, q.payload.call, newId, lost);
  }

  /** Postings and records under other keys do not concern a scheduled transfer. */
  lemma PostedOnceKept(b: Branch, b': Branch, id: ScheduledId, p: Posting)
    requires id in b.scheduled && id in b'.scheduled && b'.scheduled[id] == b.scheduled[id]
    requires p.key != Origin(id, b.scheduled[id])
    requires b'.store.world.journal == b.store.world.journal || b'.store.world.journal == b.store.world.journal + [p]
    requires b.store.records.Keys <= b'.store.records.Keys <= b.store.records.Keys + {p.key}
    requires PostedOnce(b, id) && b'.threshold == b.threshold
    ensures PostedOnce(b', id)
  {
    PostingsSnoc(b.store.world.journal, p, Origin(id, b.scheduled[id]));
  }

  /** One try leaves every other scheduled transfer and every origin as it was. */
  lemma TryShape(b: Branch, id: ScheduledId, at: Moment)
    requires id in b.scheduled
    ensures var b', s := Try(b, id, at), b.scheduled[id];
            && b'.scheduled.Keys == b.scheduled.Keys
            && (forall x :: x in b.scheduled ==>
                Origin(x, b'.scheduled[x]) == Origin(x, b.scheduled[x]) &&
                CallOf(b'.scheduled[x]) == CallOf(b.scheduled[x]))
            && (forall x :: x in b.scheduled && x != id ==> b'.scheduled[x] == b.scheduled[x])
  {
  }

  lemma TryAccounted(b: Branch, clients: set<Key>, id: ScheduledId, at: Moment, key: Key)
    requires id in b.scheduled && (Accounted(b, clients, key) || key == Origin(id, b.scheduled[id]))
    ensures Accounted(Try(b, id, at), clients, key)
  {
    TryShape(b, id, at);
    if key !in clients {
      var x := if key == Origin(id, b.scheduled[id]) then id
          else (var x :| x in b.scheduled && key == Origin(x, b.scheduled[x]); x);
      assert x in Try(b, id, at).scheduled && key == Origin(x, Try(b, id, at).scheduled[x]);
    }
  }

  lemma TryPostsOnce(b: Branch, id: ScheduledId, at: Moment)
    requires id in b.scheduled && b.scheduled[id].status == Pending && PostedOnce(b, id)
    ensures id in Try(b, id, at).scheduled && PostedOnce(Try(b, id, at), id)
  {
    var q := RequestOf(id, b.scheduled[id], at);
    ServeEffect(b.threshold, b.store, q, 0, at.lost);
    PostingsSnoc(b.store.world.journal, Posting(q.key, q.payload.call), q.key);
    TryOutcome(b.threshold, b.store, id, b.scheduled[id], at);
  }

  lemma TryConsistent(b: Branch, clients: set<Key>, id: ScheduledId, at: Moment)
    requires Consistent(b, clients) && id in b.scheduled && b.scheduled[id].status == Pending
    ensures Consistent(Try(b, id, at), clients)
  {
    var q := RequestOf(id, b.scheduled[id], at);
    var b' := Try(b, id, at);
    ServeEffect(b.threshold, b.store, q, 0, at.lost);
    TryShape(b, id, at);
    forall key | Accounted(b, clients, key) || key == q.key ensures Accounted(b', clients, key) {
      TryAccounted(b, clients, id, at, key);
    }
    forall x | x in b'.scheduled && Origin(x, b'.scheduled[x]) !in clients ensures PostedOnce(b', x) {
      if x != id {
        OriginsDiffer(x, b.scheduled[x], id, b.scheduled[id]);
        PostedOnceKept(b, b', x, Posting(q.key, q.payload.call));
      } else {
        TryPostsOnce(b, id, at);
      }
    }
  }

  lemma ClientConsistent(b: Branch, clients: set<Key>, q: Request<Command>, newId: AccountId, lost: nat)
    requires Consistent(b, clients)
    ensures Consistent(Next(b, Client(q, newId, lost)), clients + {q.key})
  {
    var b' := Next(b, Client(q, newId, lost));
    ServeEffect(b.threshold, b.store, q, newId, lost);
    forall key | Accounted(b, clients, key) || key == q.key ensures Accounted(b', clients + {q.key}, key) {
      if key !in clients && key != q.key {
        var x :| x in b.scheduled && key == Origin(x, b.scheduled[x]);
        assert x in b'.scheduled && key == Origin(x, b'.scheduled[x]);
      }
    }
    forall x | x in b'.scheduled && Origin(x, b'.scheduled[x]) !in clients + {q.key} ensures PostedOnce(b', x) {
      PostedOnceKept(b, b', x, Posting(q.key, q.payload.call));
    }
  }

  lemma ScheduleConsistent(b: Branch, clients: set<Key>, id: ScheduledId, s: Scheduled)
    requires Consistent(b, clients)
    ensures Consistent(Next(b, Schedule(id, s)), clients)
  {
    var b' := Next(b, Schedule(id, s));
    if b' != b {
      forall key | Accounted(b, clients, key) ensures Accounted(b', clients, key) {
        if key !in clients {
          var x :| x in b.scheduled && key == Origin(x, b.scheduled[x]);
          assert x in b'.scheduled && key == Origin(x, b'.scheduled[x]);
        }
      }
      var key := Origin(id, s);
      if key !in clients {
        assert !Accounted(b, clients, key) by {
          forall x | x in b.scheduled ensures key != Origin(x, b.scheduled[x]) {
            OriginsDiffer(id, s, x, b.scheduled[x]);
          }
        }
        NoPostings(b.store.world.journal, key);
      }
      forall x | x in b'.scheduled && Origin(x, b'.scheduled[x]) !in clients ensures PostedOnce(b', x) {
        if x != id {
          assert PostedOnce(b, x);
        }
      }
    }
  }

  /** Pending transfers, each once. */
  ghost predicate Waiting(b: Branch, order: seq<ScheduledId>) {
    && (forall i, j :: 0 <= i < j < |order| ==> order[i] != order[j])
    && (forall id :: id in order ==> id in b.scheduled && b.scheduled[id].status == Pending)
  }

  lemma FewerWaiting(b: Branch, order: seq<ScheduledId>, n: nat)
    requires n < |order| && Waiting(b, order)
    ensures Waiting(b, order[..n]) && order[n] in b.scheduled && b.scheduled[order[n]].status == Pending &&
            order[n] !in order[..n]
  {
  }

  /** A transfer is as it was until its turn comes. */
  lemma StillPending(b: Branch, order: seq<ScheduledId>, moments: seq<Moment>, id: ScheduledId)
    requires |moments| == |order| && Waiting(b, order) && id in b.scheduled && id !in order
    ensures id in RunBatch(b, order, moments).scheduled && RunBatch(b, order, moments).scheduled[id] == b.scheduled[id]
  {
    BatchEach(b, order, moments, id);
  }

  lemma {:induction false} BatchConsistent(b: Branch, clients: set<Key>, order: seq<ScheduledId>, moments: seq<Moment>)
    requires Consistent(b, clients) && |moments| == |order| && Waiting(b, order)
    ensures Consistent(RunBatch(b, order, moments), clients)
  {
    if order != [] {
      var n := |order| - 1;
      FewerWaiting(b, order, n);
      BatchConsistent(b, clients, order[..n], moments[..n]);
      StillPending(b, order[..n], moments[..n], order[n]);
      TryConsistent(RunBatch(b, order[..n], moments[..n]), clients, order[n], moments[n]);
    }
  }

  lemma BooksConsistent(b: Branch, clients: set<Key>, db: Db)
    requires Consistent(b, clients)
    ensures Consistent(InBooks(b, db), clients)
  {
    var b' := InBooks(b, db);
    forall key | Accounted(b, clients, key) ensures Accounted(b', clients, key) {
    }
    forall id | id in b'.scheduled && Origin(id, b'.scheduled[id]) !in clients ensures PostedOnce(b', id) {
      assert PostedOnce(b, id);
    }
  }

  ghost predicate Fresh(b: Branch) {
    b.scheduled == map[] && b.store.records == map[] && b.store.world.journal == []
  }

  lemma {:induction false} RunConsistent(start: Branch, events: seq<Event>)
    requires Fresh(start)
    ensures Consistent(Run(start, events), ClientKeys(events))
  {
    if events != [] {
      var before, e := events[..|events| - 1], events[|events| - 1];
      var b := Run(start, before);
      RunConsistent(start, before);
      match e
      case Batch(asOf, order, moments) =>
        if DueList(b, asOf, order, moments) { BatchConsistent(b, ClientKeys(before), order, moments); }
      case Client(q, newId, lost) => ClientConsistent(b, ClientKeys(before), q, newId, lost);
      case Schedule(id, s) => ScheduleConsistent(b, ClientKeys(before), id, s);
      case Open(id, kind, currency) => BooksConsistent(b, ClientKeys(before),
          Concurrency.OpenAccount(b.store.world.db, id, kind, currency));
      case SetStatus(id, status) => BooksConsistent(b, ClientKeys(before),
          Concurrency.ChangeStatus(b.store.world.db, id, status));
    }
  }

  // ---- The journal and the ledger ----

  /** The two entries transaction `t` must hold for a transfer call. */
  ghost predicate Holds(db: Db, t: nat, call: Ledger.Call) {
    && t < db.txns && |db.entries| == 2 * db.txns
    && (call.amount.minorUnits > 0 ==>
          var paid := Money(-call.amount.minorUnits, call.amount.currency);
          match call
          case Transfer(source, destination, amount, _) =>
            db.entries[2 * t] == Entry(t, source, paid) && db.entries[2 * t + 1] == Entry(t, destination, amount)
          case Deposit(account, amount) =>
            && db.entries[2 * t].txn == t && db.entries[2 * t].amount == paid
            && db.entries[2 * t + 1] == Entry(t, account, amount)
          case Withdraw(account, amount) =>
            && db.entries[2 * t] == Entry(t, account, paid)
            && db.entries[2 * t + 1].txn == t && db.entries[2 * t + 1].amount == amount)
  }

  /** Posting i is ledger transaction base + i, and there are no other transactions since the start. */
  ghost predicate Matched(books: Books, base: nat) {
    && books.db.txns == base + |books.journal| && |books.db.entries| == 2 * books.db.txns
    && forall i :: 0 <= i < |books.journal| ==>
        books.journal[i].call.amount.minorUnits > 0 && Holds(books.db, base + i, books.journal[i].call)
  }

  lemma PostMatched(threshold: int, books: Books, base: nat, key: Key, call: Ledger.Call, newId: AccountId, lost: nat)
    requires Matched(books, base)
    ensures Matched(Post(threshold, books, key, call, newId, lost).0, base)
  {
    var books' := Post(threshold, books, key, call, newId, lost).0;
    PostIs(threshold, books, key, call, newId, lost);
    if books' != books {
      var n := |books.journal|;
      forall i | 0 <= i < n + 1
        ensures books'.journal[i].call.amount.minorUnits > 0 && Holds(books'.db, base + i, books'.journal[i].call)
      {
        if i < n {
          assert Holds(books.db, base + i, books.journal[i].call);
        }
      }
    }
  }

  lemma {:induction false} BatchMatched(b: Branch, base: nat, order: seq<ScheduledId>, moments: seq<Moment>)
    requires Matched(b.store.world, base) && |moments| == |order| && forall id :: id in order ==> id in b.scheduled
    ensures Matched(RunBatch(b, order, moments).store.world, base)
  {
    if order != [] {
      var n := |order| - 1;
      var mid := RunBatch(b, order[..n], moments[..n]);
      BatchMatched(b, base, order[..n], moments[..n]);
      var s := mid.scheduled[order[n]];
      PostMatched(mid.threshold, mid.store.world, base, Origin(order[n], s), CallOf(s), 0, moments[n].lost);
    }
  }

  lemma BooksMatched(b: Branch, base: nat, db: Db)
    requires Matched(b.store.world, base) && db.entries == b.store.world.db.entries && db.txns == b.store.world.db.txns
    ensures Matched(InBooks(b, db).store.world, base)
  {
    var books := b.store.world;
    forall i | 0 <= i < |books.journal| ensures Holds(db, base + i, books.journal[i].call) {
      assert Holds(books.db, base + i, books.journal[i].call);
    }
  }

  lemma {:induction false} RunMatched(start: Branch, events: seq<Event>)
    requires Fresh(start) && DoubleEntry(start.store.world.db)
    ensures Matched(Run(start, events).store.world, start.store.world.db.txns)
  {
    var base := start.store.world.db.txns;
    if events != [] {
      var before, e := events[..|events| - 1], events[|events| - 1];
      var b := Run(start, before);
      RunMatched(start, before);
      match e
      case Batch(asOf, order, moments) =>
        if DueList(b, asOf, order, moments) { BatchMatched(b, base, order, moments); }
      case Client(q, newId, lost) => PostMatched(b.threshold, b.store.world, base, q.key, q.payload.call, newId, lost);
      case Schedule(id, s) =>
      case Open(id, kind, currency) => BooksMatched(b, base, Concurrency.OpenAccount(b.store.world.db, id, kind,
          currency));
      case SetStatus(id, status) => BooksMatched(b, base, Concurrency.ChangeStatus(b.store.world.db, id, status));
    }
  }

  lemma {:induction false} OnlyPosting(journal: seq<Posting>, key: Key) returns (i: nat)
    requires Postings(journal, key) == 1
    ensures i < |journal| && journal[i].key == key && forall j :: 0 <= j < |journal| && journal[j].key == key ==> j == i
  {
    var last := |journal| - 1;
    if journal[last].key == key {
      i := last;
      forall j | 0 <= j < last ensures journal[j].key != key {
        if journal[j].key == key {
          PostingCounted(journal[..last], key, j);
        }
      }
    } else {
      i := OnlyPosting(journal[..last], key);
      assert journal[..last][i] == journal[i];
      forall j | 0 <= j < |journal| && journal[j].key == key ensures j == i {
        assert journal[..last][j] == journal[j];
      }
    }
  }

  lemma {:induction false} PostingCounted(journal: seq<Posting>, key: Key, j: nat)
    requires j < |journal| && journal[j].key == key
    ensures Postings(journal, key) >= 1
  {
    if j < |journal| - 1 {
      PostingCounted(journal[..|journal| - 1], key, j);
    }
  }

  /** Ledger transaction t takes the amount from one account and gives it to the other. */
  ghost predicate Moves(db: Db, t: nat, source: AccountId, destination: AccountId, amount: Money) {
    && amount.minorUnits > 0 && 2 * t + 1 < |db.entries|
    && db.entries[2 * t] == Entry(t, source, Money(-amount.minorUnits, amount.currency))
    && db.entries[2 * t + 1] == Entry(t, destination, amount)
  }

  /** The i-th posting since the start was made under the key, and no other was. */
  ghost predicate OnlyPostingOf(journal: seq<Posting>, key: Key, i: nat) {
    i < |journal| && journal[i].key == key && forall j: nat :: j < |journal| && j != i ==> journal[j].key != key
  }

  /** In every run, a scheduled transfer whose key no client used has posted exactly one ledger transaction if it is
      EXECUTED, and none otherwise. That transaction takes its amount, which is below the step-up threshold, from its
      source and gives it to its destination. */
  lemma ScheduledPostsOnce(start: Branch, events: seq<Event>, id: ScheduledId)
    requires Fresh(start) && DoubleEntry(start.store.world.db) && id in Run(start, events).scheduled
    requires Key(Run(start, events).scheduled[id].createdBy, "scheduled-transfer-" + id) !in ClientKeys(events)
    ensures var b := Run(start, events);
            var s, books, base := b.scheduled[id], b.store.world, start.store.world.db.txns;
            var key := Key(s.createdBy, "scheduled-transfer-" + id);
            if s.status == Executed then
              && s.amount.minorUnits < b.threshold
              && exists i: nat :: OnlyPostingOf(books.journal, key, i)
                                  && Moves(books.db, base + i, s.source, s.destination, s.amount)
            else forall j: nat :: j < |books.journal| ==> books.journal[j].key != key
  {
    var b := Run(start, events);
    var s, books, base := b.scheduled[id], b.store.world, start.store.world.db.txns;
    var key := Origin(id, s);
    RunConsistent(start, events);
    RunMatched(start, events);
    assert PostedOnce(b, id);
    if s.status == Executed {
      var i := OnlyPosting(books.journal, key);
      assert books.journal[i] in books.journal;
      assert OnlyPostingOf(books.journal, key, i);
      PostingMoves(books, base, i, s);
    } else {
      forall j: nat | j < |books.journal| ensures books.journal[j].key != key {
        if books.journal[j].key == key {
          PostingCounted(books.journal, key, j);
        }
      }
    }
  }

  lemma PostingMoves(books: Books, base: nat, i: nat, s: Scheduled)
    requires Matched(books, base) && i < |books.journal| && books.journal[i].call == CallOf(s)
    ensures Moves(books.db, base + i, s.source, s.destination, s.amount)
  {
    assert Holds(books.db, base + i, books.journal[i].call);
  }
}
