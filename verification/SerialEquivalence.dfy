/** What holds after every run of the interleaved bank: the ledger invariants, one log entry per
    committed call, and equality with running the committed calls one at a time in commit order. */
module SerialEquivalence {
  import opened Wrappers
  import opened Ledger
  import opened Concurrency

  // ---- Invariant of a run ----

  ghost predicate ThreadsHold(b: Bank) {
    forall id :: id in b.threads ==>
      b.threads[id].since <= b.threads[id].attemptSince <= |b.log| && PhaseHolds(b, b.threads[id])
  }

  /** A call commits at most once, and has returned exactly what its commit recorded. */
  ghost predicate LogHolds(b: Bank) {
    && (forall i :: 0 <= i < |b.log| && b.log[i].Committed? ==>
          && b.log[i].caller in b.threads
          && b.threads[b.log[i].caller].call == b.log[i].m.call
          && b.threads[b.log[i].caller].phase == Returned(b.log[i].receipt))
    && (forall i, j :: 0 <= i < j < |b.log| && b.log[i].Committed? && b.log[j].Committed? ==>
        b.log[i].caller != b.log[j].caller)
    && (forall id :: id in b.threads && b.threads[id].phase.Returned? ==>
          exists i :: b.threads[id].since <= i < |b.log| && b.log[i].Committed? && b.log[i].caller == id)
  }

  ghost predicate Reachable(start: Bank, b: Bank) {
    && b.threshold == start.threshold
    && Sound(b.db) && ThreadsHold(b) && LogHolds(b)
    && |start.db.entries| <= |b.db.entries| && b.db.entries[..|start.db.entries|] == start.db.entries
  }

  ghost predicate ThreadHolds(b: Bank, t: Thread) {
    t.since <= t.attemptSince <= |b.log| && PhaseHolds(b, t)
  }

  lemma ThreadStep(b: Bank, e: Event, id: CallId)
    requires Sound(b.db) && ThreadsHold(b) && id in Next(b, e).threads
    ensures ThreadHolds(Next(b, e), Next(b, e).threads[id])
  {
    if id in b.threads {
      assert ThreadHolds(b, b.threads[id]);
      if e.Step? && e.id == id && Running(b.threads[id]) {
        OwnThread(b, id, e.newId);
      } else {
        NextGrows(b, e);
        OtherThread(b, Next(b, e), b.threads[id]);
      }
    }
  }

  lemma OtherThread(b: Bank, b': Bank, t: Thread)
    requires Grows(b, b') && ThreadHolds(b, t)
    ensures ThreadHolds(b', t)
  {
    PhaseGrows(b, b', t);
  }

  lemma OwnThread(b: Bank, id: CallId, newId: AccountId)
    requires Sound(b.db) && id in b.threads && ThreadHolds(b, b.threads[id]) && Running(b.threads[id])
    ensures ThreadHolds(Advance(b, id, newId), Advance(b, id, newId).threads[id])
  {
    if !b.threads[id].phase.HasBoth? {
      ReadShape(b, id, newId);
      OwnStep(b, id, newId);
    } else {
      CommitAttemptHolds(b, b.threads[id], newId);
      assert Advance(b, id, newId).threads[id] == StepThread(b, b.threads[id], newId);
    }
  }

  /** After its commit step a call has ended, or begins again now. */
  lemma CommitAttemptHolds(b: Bank, t: Thread, newId: AccountId)
    requires t.phase.HasBoth? && t.since <= t.attemptSince <= |b.log|
    ensures var t' := StepThread(b, t, newId);
            t'.since <= t'.attemptSince <= |b.log| && (t'.phase.Begin? || t'.phase.Returned? || t'.phase.Threw?)
  {
  }

  lemma ThreadsStep(b: Bank, e: Event)
    requires Sound(b.db) && ThreadsHold(b)
    ensures ThreadsHold(Next(b, e))
  {
    forall id | id in Next(b, e).threads ensures ThreadHolds(Next(b, e), Next(b, e).threads[id]) {
      ThreadStep(b, e, id);
    }
  }

  ghost predicate Commit(b: Bank, e: Event) {
    e.Step? && e.id in b.threads && Commits(b, b.threads[e.id])
  }

  function ThreadAfter(b: Bank, e: Event, id: CallId): Thread
    requires id in b.threads
  {
    if e.Step? && e.id == id && Running(b.threads[id]) then StepThread(b, b.threads[id], e.newId) else b.threads[id]
  }

  /** Only the stepping call changes. */
  lemma StepShape(b: Bank, e: Event)
    ensures var b' := Next(b, e);
            && (forall id :: id in b.threads ==> id in b'.threads && b'.threads[id] == ThreadAfter(b, e, id))
            && (forall id :: id in b'.threads && id !in b.threads ==>
                b'.threads[id].phase == Begin && b'.threads[id].failures == 0)
  {
  }

  /** Nothing is logged, or one item that is no commit. */
  predicate LogsQuietly(log: seq<LogItem>, log': seq<LogItem>) {
    log' == log || (|log'| == |log| + 1 && log'[..|log|] == log && !log'[|log|].Committed?)
  }

  /** Only a commit logs a committed item, and it logs what the call returns. */
  lemma LogShape(b: Bank, e: Event)
    ensures var b' := Next(b, e);
            if Commit(b, e) then
              && b'.log == b.log + [Committed(e.id, b.threads[e.id].phase.m, b'.threads[e.id].phase.receipt)]
              && b'.threads[e.id].phase.Returned?
            else LogsQuietly(b.log, b'.log)
  {
  }

  lemma ReturnMeansCommit(b: Bank, t: Thread, newId: AccountId)
    requires t.attemptSince <= |b.log| && PhaseHolds(b, t) && Running(t)
    ensures StepThread(b, t, newId).phase.Returned? ==> Commits(b, t)
  {
  }

  ghost predicate ItemHolds(b: Bank, item: LogItem) {
    item.Committed? ==>
      && item.caller in b.threads && b.threads[item.caller].call == item.m.call &&
          b.threads[item.caller].phase == Returned(item.receipt)
  }

  lemma OldItemHolds(b: Bank, e: Event, i: nat)
    requires LogHolds(b) && i < |b.log|
    ensures ItemHolds(Next(b, e), b.log[i])
  {
    StepShape(b, e);
  }

  lemma NewItemHolds(b: Bank, e: Event)
    requires LogHolds(b) && ThreadsHold(b) && Commit(b, e)
    ensures var b' := Next(b, e);
            |b'.log| == |b.log| + 1 && ItemHolds(b', b'.log[|b.log|]) &&
            forall i :: 0 <= i < |b.log| && b.log[i].Committed? ==> b.log[i].caller != e.id
  {
    LogShape(b, e);
    StepShape(b, e);
  }

  lemma ReturnedIsLogged(b: Bank, e: Event, id: CallId)
    requires LogHolds(b) && ThreadsHold(b) && id in Next(b, e).threads && Next(b, e).threads[id].phase.Returned?
    ensures var b' := Next(b, e);
            exists i :: b'.threads[id].since <= i < |b'.log| && b'.log[i].Committed? && b'.log[i].caller == id
  {
    var b' := Next(b, e);
    StepShape(b, e);
    LogExtends(b, e);
    if b.threads[id].phase.Returned? {
      var i :| b.threads[id].since <= i < |b.log| && b.log[i].Committed? && b.log[i].caller == id;
      assert b'.log[..|b.log|][i] == b'.log[i];
    } else {
      ReturnMeansCommit(b, b.threads[id], e.newId);
      LogShape(b, e);
      assert b'.log[|b.log|].Committed?;
    }
  }

  /** An item of the new log is an old one, or the commit of the event. */
  lemma ItemCases(b: Bank, e: Event, i: nat)
    requires i < |Next(b, e).log| && Next(b, e).log[i].Committed?
    ensures (i < |b.log| && Next(b, e).log[i] == b.log[i]) ||
            (i == |b.log| && Commit(b, e) && Next(b, e).log[i].caller == e.id)
  {
    LogExtends(b, e);
    LogShape(b, e);
    if i < |b.log| {
      assert Next(b, e).log[..|b.log|][i] == Next(b, e).log[i];
    }
  }

  lemma LogStep(b: Bank, e: Event)
    requires LogHolds(b) && ThreadsHold(b)
    ensures LogHolds(Next(b, e))
  {
    var b' := Next(b, e);
    forall i | 0 <= i < |b'.log| && b'.log[i].Committed? ensures ItemHolds(b', b'.log[i]) {
      ItemCases(b, e, i);
      if i < |b.log| { OldItemHolds(b, e, i); } else { NewItemHolds(b, e); }
    }
    forall i, j | 0 <= i < j < |b'.log| && b'.log[i].Committed? && b'.log[j].Committed?
        ensures b'.log[i].caller != b'.log[j].caller {
      ItemCases(b, e, i);
      ItemCases(b, e, j);
      if j == |b.log| { NewItemHolds(b, e); }
    }
    forall id | id in b'.threads && b'.threads[id].phase.Returned?
      ensures exists i :: b'.threads[id].since <= i < |b'.log| && b'.log[i].Committed? && b'.log[i].caller == id
    {
      ReturnedIsLogged(b, e, id);
    }
  }

  lemma LogExtends(b: Bank, e: Event)
    ensures |b.log| <= |Next(b, e).log| && Next(b, e).log[..|b.log|] == b.log
  {
  }

  lemma NextReachable(start: Bank, b: Bank, e: Event)
    requires Reachable(start, b)
    ensures Reachable(start, Next(b, e))
  {
    NextSound(b, e);
    ThreadsStep(b, e);
    LogStep(b, e);
  }

  /** Every interleaving of any events from a sound bank ends in a reachable state. */
  lemma {:induction false} RunReachable(start: Bank, events: seq<Event>)
    requires Initial(start)
    ensures Reachable(start, Run(start, events))
  {
    if events != [] {
      RunReachable(start, events[..|events| - 1]);
      NextReachable(start, Run(start, events[..|events| - 1]), events[|events| - 1]);
    }
  }

  /** No customer balance is ever negative, every balance is the sum of its entries, every transaction
      is two entries cancelling in one currency, every currency totals zero, and old entries stay. */
  lemma LedgerAlwaysHolds(start: Bank, events: seq<Event>)
    requires Initial(start)
    ensures var db := Run(start, events).db;
            && (forall id :: id in db.rows ==>
                id in db.accounts && db.rows[id].balance.minorUnits == TotalOf(db.entries, id))
            && (forall id :: id in db.rows && db.accounts[id].kind != System ==> db.rows[id].balance.minorUnits >= 0)
            && |db.entries| == 2 * db.txns && (forall t: nat :: t < db.txns ==> Pair(db.entries, t))
            && (forall currency :: TotalIn(db.entries, currency) == 0)
            && |start.db.entries| <= |db.entries| && db.entries[..|start.db.entries|] == start.db.entries
  {
    RunReachable(start, events);
    var db := Run(start, events).db;
    forall currency ensures TotalIn(db.entries, currency) == 0 {
      CurrencyTotalsZero(db, db.txns, currency);
      assert db.entries[..2 * db.txns] == db.entries;
    }
  }

  // ---- Replaying the log ----

  function ReplayItem(threshold: int, db: Db, item: LogItem): Option<Db> {
    match item
    case Committed(_, m, receipt) =>
      (match Serial(threshold, db, m.call, m.seen, NewId(m))
       case Failure(_) => None
       case Success((db', r)) => if r == receipt then Some(db') else None)
    case Opened(id, kind, currency) => Some(OpenAccount(db, id, kind, currency))
    case StatusChanged(id, status) => Some(ChangeStatus(db, id, status))
  }

  /** The log run alone, one item at a time; None if a call fails or returns another receipt than it did. */
  function Replay(threshold: int, db: Db, log: seq<LogItem>): Option<Db> {
    if log == [] then Some(db)
    else match Replay(threshold, db, log[..|log| - 1])
      case None => None
      case Some(before) => ReplayItem(threshold, before, log[|log| - 1])
  }

  /** The call pays from and into one account: a deposit to or withdrawal from the clearing account itself. */
  predicate Aliased(item: LogItem) {
    item.Committed? && item.m.debit == item.m.credit
  }

  /** A call that pays from and into one account is served as if alone exactly when the balance it returns is still the
      current one. */
  predicate CurrentOnCommit(b: Bank, t: Thread)
    requires t.phase.HasBoth?
  {
    var HasBoth(m, d, c) := t.phase;
    m.debit == m.credit ==> m.credit in b.db.rows && b.db.rows[m.credit].balance == c.after
  }

  lemma SeparateIsSerial(b: Bank, t: Thread)
    requires Sound(b.db) && ThreadHolds(b, t) && Commits(b, t) && t.phase.m.debit != t.phase.m.credit
    ensures var HasBoth(m, d, c) := t.phase;
            Plan(b.threshold, b.db, t.call, m.seen, NewId(m)) == Success(m) && Debit(b.db, m) == Success(d) &&
                Credit(b.db, m, d) == Success(c)
  {
    CommitLands(b, t);
  }

  /** For one account on both sides, the call run alone finds the current balance again, or fails. */
  lemma AliasedIsSerial(b: Bank, t: Thread)
    requires Sound(b.db) && ThreadHolds(b, t) && Commits(b, t) && t.phase.m.debit == t.phase.m.credit
    ensures var HasBoth(m, d, c) := t.phase;
            && Plan(b.threshold, b.db, t.call, m.seen, NewId(m)) == Success(m) && !m.call.Transfer? && m.opens.None?
            && m.credit in b.db.rows && CommitCheck(b.db, m, d, c).Success?
            && (b.db.rows[m.credit].balance == c.after ==>
                  Debit(b.db, m).Success? && Debit(b.db, m).value.after == d.after &&
                      Credit(b.db, m, Debit(b.db, m).value).Success?)
            && (Debit(b.db, m).Success? && Credit(b.db, m, Debit(b.db, m).value).Success? ==>
                  var d', c' := Debit(b.db, m).value, Credit(b.db, m, Debit(b.db, m).value).value;
                  && c'.after == b.db.rows[m.credit].balance &&
                      d'.after.minorUnits == c'.after.minorUnits - m.call.amount.minorUnits
                  && CommitCheck(b.db, m, d', c').Success? && Apply(b.db, m, d', c') == Apply(b.db, m, d, c))
  {
    CommitLands(b, t);
  }

  lemma SerialOf(threshold: int, db: Db, call: Call, m: Movement)
    requires Plan(threshold, db, call, m.seen, NewId(m)) == Success(m) && m.call == call && call.amount.minorUnits > 0
    ensures Serial(threshold, db, call, m.seen, NewId(m)) == MoveMoney(db, m)
  {
  }

  /** A commit does to the database, and returns, what the whole call would run alone at that moment,
      or if its one balance is stale returns something else. */
  lemma CommitIsSerial(b: Bank, id: CallId, newId: AccountId)
    requires Sound(b.db) && ThreadsHold(b) && id in b.threads && Commits(b, b.threads[id])
    ensures var b' := Advance(b, id, newId);
            ReplayItem(b.threshold, b.db, b'.log[|b.log|]) ==
            if CurrentOnCommit(b, b.threads[id]) then Some(b'.db) else None
  {
    var t := b.threads[id];
    var m := t.phase.m;
    assert ThreadHolds(b, t);
    if m.debit != m.credit {
      SeparateIsSerial(b, t);
    } else {
      AliasedIsSerial(b, t);
    }
    SerialOf(b.threshold, b.db, t.call, m);
  }

  predicate NoneAliased(log: seq<LogItem>) {
    forall i :: 0 <= i < |log| ==> !Aliased(log[i])
  }

  /** Every committed call that pays one account from itself returned the balance that was current when it committed. */
  ghost predicate NoneStale(start: Bank, events: seq<Event>) {
    events == [] ||
    (var b, e := Run(start, events[..|events| - 1]), events[|events| - 1];
     NoneStale(start, events[..|events| - 1]) && (Commit(b, e) ==> CurrentOnCommit(b, b.threads[e.id])))
  }

  lemma ReplaySnoc(threshold: int, db: Db, log: seq<LogItem>, item: LogItem)
    ensures Replay(threshold, db, log + [item]) ==
            match Replay(threshold, db, log) {
              case None => None
              case Some(before) => ReplayItem(threshold, before, item)
            }
  {
    assert (log + [item])[..|log|] == log;
  }

  /** An event that logs something logs one item. */
  lemma OneItem(b: Bank, e: Event)
    requires Next(b, e).log != b.log
    ensures var b' := Next(b, e);
            |b'.log| == |b.log| + 1 && b'.log == b.log + [b'.log[|b.log|]]
  {
    LogExtends(b, e);
    LogShape(b, e);
  }

  /** That item, run alone where it was logged. */
  lemma ItemReplays(start: Bank, b: Bank, e: Event)
    requires Reachable(start, b) && Next(b, e).log != b.log && |Next(b, e).log| == |b.log| + 1
    ensures ReplayItem(start.threshold, b.db, Next(b, e).log[|b.log|]) ==
            if Commit(b, e) ==> CurrentOnCommit(b, b.threads[e.id]) then Some(Next(b, e).db) else None
  {
    if e.Step? {
      CommitIsSerial(b, e.id, e.newId);
    }
  }

  lemma ReplayStep(start: Bank, b: Bank, e: Event)
    requires Reachable(start, b) && Replay(start.threshold, start.db, b.log) == Some(b.db)
    ensures Replay(start.threshold, start.db, Next(b, e).log) ==
            if Commit(b, e) ==> CurrentOnCommit(b, b.threads[e.id]) then Some(Next(b, e).db) else None
  {
    if Next(b, e).log == b.log {
      QuietStep(b, e);
    } else {
      OneItem(b, e);
      ItemReplays(start, b, e);
      ReplaySnoc(start.threshold, start.db, b.log, Next(b, e).log[|b.log|]);
    }
  }

  /** An event that logs nothing commits nothing and leaves the database as it is. */
  lemma QuietStep(b: Bank, e: Event)
    requires Next(b, e).log == b.log
    ensures Next(b, e).db == b.db && !Commit(b, e)
  {
  }

  lemma {:induction false} ReplayFails(threshold: int, db: Db, log: seq<LogItem>, more: seq<LogItem>)
    requires |log| <= |more| && more[..|log|] == log && Replay(threshold, db, log) == None
    ensures Replay(threshold, db, more) == None
  {
    if |log| < |more| {
      assert more[..|more| - 1][..|log|] == log;
      ReplayFails(threshold, db, log, more[..|more| - 1]);
    } else {
      assert more == log;
    }
  }

  /** Serial equivalence, exactly: running the committed calls one at a time in commit order gives this database
      and every returned receipt if no call that pays one account from itself returned a stale balance, and cannot be
      done otherwise. */
  lemma {:induction false} RunReplays(start: Bank, events: seq<Event>)
    requires Initial(start)
    ensures Replay(start.threshold, start.db, Run(start, events).log) ==
            if NoneStale(start, events) then Some(Run(start, events).db) else None
  {
    if events != [] {
      var before := events[..|events| - 1];
      var b, e := Run(start, before), events[|events| - 1];
      RunReplays(start, before);
      RunReachable(start, before);
      if NoneStale(start, before) {
        ReplayStep(start, b, e);
      } else {
        LogExtends(b, e);
        ReplayFails(start.threshold, start.db, b.log, Next(b, e).log);
      }
    }
  }

  // ---- The database alone ----

  /** The commit-order replay without regard to what the calls returned. */
  function ReplayState(threshold: int, db: Db, log: seq<LogItem>): Option<Db> {
    if log == [] then Some(db)
    else match ReplayState(threshold, db, log[..|log| - 1])
      case None => None
      case Some(before) => StateAfter(threshold, before, log[|log| - 1])
  }

  function StateAfter(threshold: int, db: Db, item: LogItem): Option<Db> {
    match item
    case Committed(_, m, _) =>
      (match Serial(threshold, db, m.call, m.seen, NewId(m))
       case Failure(_) => None
       case Success((db', _)) => Some(db'))
    case Opened(id, kind, currency) => Some(OpenAccount(db, id, kind, currency))
    case StatusChanged(id, status) => Some(ChangeStatus(db, id, status))
  }

  /** A call that pays one account from itself could still take its amount from it when it committed. */
  predicate FitsOnCommit(b: Bank, t: Thread)
    requires t.phase.HasBoth?
  {
    t.phase.m.debit == t.phase.m.credit ==> Debit(b.db, t.phase.m).Success?
  }

  ghost predicate NoneOverdrawn(start: Bank, events: seq<Event>) {
    events == [] ||
    (var b, e := Run(start, events[..|events| - 1]), events[|events| - 1];
     NoneOverdrawn(start, events[..|events| - 1]) && (Commit(b, e) ==> FitsOnCommit(b, b.threads[e.id])))
  }

  lemma AliasedCredits(b: Bank, t: Thread)
    requires Sound(b.db) && ThreadHolds(b, t) && Commits(b, t) && t.phase.m.debit == t.phase.m.credit
    requires Debit(b.db, t.phase.m).Success?
    ensures Credit(b.db, t.phase.m, Debit(b.db, t.phase.m).value).Success?
  {
    CommitLands(b, t);
  }

  /** A commit does to the database what the whole call would do alone at that moment, stale receipt or not. */
  lemma CommitStateIsSerial(b: Bank, id: CallId, newId: AccountId)
    requires Sound(b.db) && ThreadsHold(b) && id in b.threads && Commits(b, b.threads[id])
    ensures var b' := Advance(b, id, newId);
            StateAfter(b.threshold, b.db, b'.log[|b.log|]) ==
            if FitsOnCommit(b, b.threads[id]) then Some(b'.db) else None
  {
    var t := b.threads[id];
    var m := t.phase.m;
    assert ThreadHolds(b, t);
    if m.debit != m.credit {
      SeparateIsSerial(b, t);
    } else {
      AliasedIsSerial(b, t);
      if Debit(b.db, m).Success? { AliasedCredits(b, t); }
    }
    SerialOf(b.threshold, b.db, t.call, m);
  }

  lemma StateSnoc(threshold: int, db: Db, log: seq<LogItem>, item: LogItem)
    ensures ReplayState(threshold, db, log + [item]) ==
            match ReplayState(threshold, db, log) {
              case None => None
              case Some(before) => StateAfter(threshold, before, item)
            }
  {
    assert (log + [item])[..|log|] == log;
  }

  lemma ItemState(start: Bank, b: Bank, e: Event)
    requires Reachable(start, b) && Next(b, e).log != b.log && |Next(b, e).log| == |b.log| + 1
    ensures StateAfter(start.threshold, b.db, Next(b, e).log[|b.log|]) ==
            if Commit(b, e) ==> FitsOnCommit(b, b.threads[e.id]) then Some(Next(b, e).db) else None
  {
    if e.Step? {
      CommitStateIsSerial(b, e.id, e.newId);
    }
  }

  lemma StateStep(start: Bank, b: Bank, e: Event)
    requires Reachable(start, b) && ReplayState(start.threshold, start.db, b.log) == Some(b.db)
    ensures ReplayState(start.threshold, start.db, Next(b, e).log) ==
            if Commit(b, e) ==> FitsOnCommit(b, b.threads[e.id]) then Some(Next(b, e).db) else None
  {
    if Next(b, e).log == b.log {
      QuietStep(b, e);
    } else {
      OneItem(b, e);
      ItemState(start, b, e);
      StateSnoc(start.threshold, start.db, b.log, Next(b, e).log[|b.log|]);
    }
  }

  lemma {:induction false} StateFails(threshold: int, db: Db, log: seq<LogItem>, more: seq<LogItem>)
    requires |log| <= |more| && more[..|log|] == log && ReplayState(threshold, db, log) == None
    ensures ReplayState(threshold, db, more) == None
  {
    if |log| < |more| {
      assert more[..|more| - 1][..|log|] == log;
      StateFails(threshold, db, log, more[..|more| - 1]);
    } else {
      assert more == log;
    }
  }

  /** The final database of every run, stale receipts included, is that of the committed calls run one at a time in
      commit order, except exactly when a call that pays one account from itself would overflow there. */
  lemma {:induction false} StateReplays(start: Bank, events: seq<Event>)
    requires Initial(start)
    ensures ReplayState(start.threshold, start.db, Run(start, events).log) ==
            if NoneOverdrawn(start, events) then Some(Run(start, events).db) else None
  {
    if events != [] {
      var before := events[..|events| - 1];
      var b, e := Run(start, before), events[|events| - 1];
      StateReplays(start, before);
      RunReachable(start, before);
      if NoneOverdrawn(start, before) {
        StateStep(start, b, e);
      } else {
        LogExtends(b, e);
        StateFails(start.threshold, start.db, b.log, Next(b, e).log);
      }
    }
  }

  lemma PrefixNoneAliased(b: Bank, e: Event)
    requires NoneAliased(Next(b, e).log)
    ensures NoneAliased(b.log) && (Commit(b, e) ==> CurrentOnCommit(b, b.threads[e.id]))
  {
    LogExtends(b, e);
    LogShape(b, e);
    var log' := Next(b, e).log;
    forall i | 0 <= i < |b.log| ensures !Aliased(b.log[i]) {
      assert log'[..|b.log|][i] == log'[i];
    }
    assert Commit(b, e) ==> !Aliased(log'[|b.log|]);
  }

  /** A stale balance needs a committed call with one account on both sides. */
  lemma {:induction false} UnaliasedIsCurrent(start: Bank, events: seq<Event>)
    requires NoneAliased(Run(start, events).log)
    ensures NoneStale(start, events)
  {
    if events != [] {
      PrefixNoneAliased(Run(start, events[..|events| - 1]), events[|events| - 1]);
      UnaliasedIsCurrent(start, events[..|events| - 1]);
    }
  }
}
