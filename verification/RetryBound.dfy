/** How often a call can lose its version check: each lost attempt is paid for by a distinct commit
    that another call made to one of its rows while the attempt ran. */
module RetryBound {
  import opened Wrappers
  import opened Ledger
  import opened Concurrency
  import opened SerialEquivalence

  predicate Touches(item: LogItem, ids: set<AccountId>, self: CallId) {
    item.Committed? && item.caller != self && item.m.debit != item.m.credit &&
        (item.m.debit in ids || item.m.credit in ids)
  }

  /** Commits by other calls to the given rows. */
  function Rivals(log: seq<LogItem>, ids: set<AccountId>, self: CallId): nat {
    if log == [] then 0
    else Rivals(log[..|log| - 1], ids, self) + if Touches(log[|log| - 1], ids, self) then 1 else 0
  }

  /** The balance rows a call can touch. */
  function RowsOf(db: Db, call: Call): set<AccountId> {
    match call
    case Transfer(source, destination, _, _) => {source, destination}
    case _ =>
      if call.account in db.accounts && db.accounts[call.account].currency in db.clearing
      then {call.account, db.clearing[db.accounts[call.account].currency]} else {call.account}
  }

  lemma {:induction false} RivalsAppend(a: seq<LogItem>, b: seq<LogItem>, ids: set<AccountId>, self: CallId)
    ensures Rivals(a + b, ids, self) == Rivals(a, ids, self) + Rivals(b, ids, self)
  {
    if b == [] {
      assert a + b == a;
    } else {
      RivalsAppend(a, b[..|b| - 1], ids, self);
      assert (a + b)[..|a + b| - 1] == a + b[..|b| - 1];
    }
  }

  lemma {:induction false} RivalsMonotone(log: seq<LogItem>, ids: set<AccountId>, ids': set<AccountId>, self: CallId)
    requires ids <= ids'
    ensures Rivals(log, ids, self) <= Rivals(log, ids', self)
  {
    if log != [] {
      RivalsMonotone(log[..|log| - 1], ids, ids', self);
    }
  }

  lemma {:induction false} RivalsPositive(log: seq<LogItem>, ids: set<AccountId>, self: CallId, id: AccountId)
    requires Wrote(log, id) && id in ids
    requires forall i :: 0 <= i < |log| && log[i].Committed? ==> log[i].caller != self
    ensures Rivals(log, ids, self) >= 1
  {
    var i :| 0 <= i < |log| && Writes(log[i], id);
    if i < |log| - 1 {
      var rest := log[..|log| - 1];
      assert Writes(rest[i], id);
      forall j | 0 <= j < |rest| && rest[j].Committed? ensures rest[j].caller != self {
        assert log[j].Committed?;
      }
      RivalsPositive(rest, ids, self, id);
    }
  }

  ghost predicate Charged(b: Bank, id: CallId)
    requires id in b.threads && b.threads[id].since <= b.threads[id].attemptSince <= |b.log|
  {
    var t := b.threads[id];
    && t.failures <= Rivals(b.log[t.since..t.attemptSince], RowsOf(b.db, t.call), id)
    && (Running(t) ==> t.failures < MAX_ATTEMPTS)
    && (t.phase == Threw(OptimisticLock) ==> t.failures == MAX_ATTEMPTS)
  }

  ghost predicate AllCharged(b: Bank)
    requires ThreadsHold(b)
  {
    forall id :: id in b.threads ==> Charged(b, id)
  }

  lemma RowsGrow(b: Bank, b': Bank, call: Call)
    requires Grows(b, b')
    ensures RowsOf(b.db, call) <= RowsOf(b'.db, call)
  {
  }

  lemma SliceKept(log: seq<LogItem>, log': seq<LogItem>, i: nat, j: nat)
    requires i <= j <= |log| <= |log'| && log'[..|log|] == log
    ensures log'[i..j] == log[i..j]
  {
    forall k | i <= k < j ensures log'[k] == log[k] {
      assert log'[..|log|][k] == log[k];
    }
  }

  /** A charge is not undone by anything that happens later. */
  lemma ChargeKept(b: Bank, b': Bank, id: CallId)
    requires Grows(b, b') && id in b.threads && id in b'.threads
    requires b.threads[id].since <= b.threads[id].attemptSince <= |b.log| && Charged(b, id)
    requires var t, t' := b.threads[id], b'.threads[id];
             t'.call == t.call && t'.since == t.since && t'.attemptSince == t.attemptSince && t'.failures == t.failures
    requires Running(b'.threads[id]) ==> Running(b.threads[id])
    requires b'.threads[id].phase == Threw(OptimisticLock) ==> b.threads[id].phase == Threw(OptimisticLock)
    ensures Charged(b', id)
  {
    var t := b.threads[id];
    RowsGrow(b, b', t.call);
    SliceKept(b.log, b'.log, t.since, t.attemptSince);
    RivalsMonotone(b.log[t.since..t.attemptSince], RowsOf(b.db, t.call), RowsOf(b'.db, t.call), id);
  }

  /** The row whose check failed was written by another call since the attempt began. */
  lemma LostRowWasWritten(b: Bank, t: Thread)
    returns (row: AccountId)
    requires Sound(b.db) && t.attemptSince <= |b.log| && t.phase.HasBoth? && PhaseHolds(b, t)
    requires CommitCheck(b.db, t.phase.m, t.phase.d, t.phase.c) == Failure(OptimisticLock)
    ensures row in RowsOf(b.db, t.call) && Wrote(b.log[t.attemptSince..], row)
  {
    var HasBoth(m, d, c) := t.phase;
    row := if m.debit != m.credit && Conflicts(b.db, m.debit, d) then m.debit else m.credit;
    assert Conflicts(b.db, row, if row == m.debit && m.debit != m.credit then d else c);
  }

  lemma WindowCharged(log: seq<LogItem>, since: nat, mid: nat, ids: set<AccountId>, self: CallId, row: AccountId)
    requires since <= mid <= |log| && Wrote(log[mid..], row) && row in ids
    requires forall i :: 0 <= i < |log| && log[i].Committed? ==> log[i].caller != self
    ensures Rivals(log[since..mid], ids, self) + 1 <= Rivals(log[since..|log|], ids, self)
  {
    var window := log[mid..];
    forall i | 0 <= i < |window| && window[i].Committed? ensures window[i].caller != self {
      assert log[mid + i].Committed?;
    }
    RivalsPositive(window, ids, self, row);
    RivalsAppend(log[since..mid], window, ids, self);
    assert log[since..|log|] == log[since..mid] + window;
  }

  /** A lost version check is charged to a commit logged since the attempt began. */
  lemma LostAttemptCharged(b: Bank, id: CallId)
    requires Sound(b.db) && ThreadsHold(b) && LogHolds(b) && id in b.threads && Charged(b, id)
    requires b.threads[id].phase.HasBoth?
    requires var p := b.threads[id].phase; CommitCheck(b.db, p.m, p.d, p.c) == Failure(OptimisticLock)
    ensures var t := b.threads[id]; t.failures + 1 <= Rivals(b.log[t.since..|b.log|], RowsOf(b.db, t.call), id)
  {
    var t := b.threads[id];
    var row := LostRowWasWritten(b, t);
    WindowCharged(b.log, t.since, t.attemptSince, RowsOf(b.db, t.call), id, row);
  }

  lemma ReadNeverLocks(threshold: int, db: Db, t: Thread, newId: AccountId)
    requires t.phase.Begin? || t.phase.HasFirst? || t.phase.HasPlan? || t.phase.HasDebit?
    ensures Read(threshold, db, t, newId) != Threw(OptimisticLock) && Read(threshold, db, t, newId) != Begin
  {
  }

  predicate Loses(b: Bank, t: Thread) {
    t.phase.HasBoth? && CommitCheck(b.db, t.phase.m, t.phase.d, t.phase.c) == Failure(OptimisticLock)
  }

  /** A step that loses no version check keeps the attempt and its failure count. */
  lemma StepKeepsAttempt(b: Bank, t: Thread, newId: AccountId)
    requires Running(t) && !Loses(b, t)
    ensures StepThread(b, t, newId) == t.(phase := StepThread(b, t, newId).phase)
    ensures StepThread(b, t, newId).phase != Threw(OptimisticLock)
  {
    if !t.phase.HasBoth? {
      ReadNeverLocks(b.threshold, b.db, t, newId);
    }
  }

  lemma StepCharged(start: Bank, b: Bank, e: Event, id: CallId)
    requires Reachable(start, b) && AllCharged(b) && ThreadsHold(Next(b, e)) && id in Next(b, e).threads
    ensures Charged(Next(b, e), id)
  {
    var b' := Next(b, e);
    NextGrows(b, e);
    StepShape(b, e);
    if id in b.threads {
      var t := b.threads[id];
      assert Charged(b, id);
      if e.Step? && e.id == id && Running(t) && Loses(b, t) {
        LostAttemptCharged(b, id);
        LogShape(b, e);
      } else {
        if e.Step? && e.id == id && Running(t) {
          StepKeepsAttempt(b, t, e.newId);
        }
        ChargeKept(b, b', id);
      }
    }
  }

  lemma {:induction false} RunCharged(start: Bank, events: seq<Event>)
    requires Initial(start)
    ensures Reachable(start, Run(start, events)) && AllCharged(Run(start, events))
  {
    RunReachable(start, events);
    if events != [] {
      var before, e := events[..|events| - 1], events[|events| - 1];
      RunCharged(start, before);
      forall id | id in Run(start, events).threads ensures Charged(Run(start, events), id) {
        StepCharged(start, Run(start, before), e, id);
      }
    }
  }

  /** A call that ran out of attempts met at least that many commits by others on its rows while it ran. */
  lemma ExhaustionNeedsRivals(start: Bank, events: seq<Event>, id: CallId)
    requires Initial(start) && id in Run(start, events).threads
    requires Run(start, events).threads[id].phase == Threw(OptimisticLock)
    ensures var b := Run(start, events);
            b.threads[id].since <= |b.log| &&
                Rivals(b.log[b.threads[id].since..], RowsOf(b.db, b.threads[id].call), id) >= 50
  {
    RunCharged(start, events);
    ChargedToRivals(Run(start, events), id);
  }

  lemma ChargedToRivals(b: Bank, id: CallId)
    requires ThreadsHold(b) && id in b.threads && Charged(b, id) && b.threads[id].phase == Threw(OptimisticLock)
    ensures b.threads[id].since <= |b.log| &&
            Rivals(b.log[b.threads[id].since..], RowsOf(b.db, b.threads[id].call), id) >= 50
  {
    var t := b.threads[id];
    RivalsAppend(b.log[t.since..t.attemptSince], b.log[t.attemptSince..], RowsOf(b.db, t.call), id);
    assert b.log[t.since..] == b.log[t.since..t.attemptSince] + b.log[t.attemptSince..];
  }

  // ---- A call ends after a bounded number of its own steps ----

  function Rank(t: Thread): int {
    var left := 5 * (MAX_ATTEMPTS - t.failures);
    match t.phase
    case Begin => left
    case HasFirst(_) => left - 1
    case HasPlan(_) => left - 2
    case HasDebit(_, _) => left - 3
    case HasBoth(_, _, _) => left - 4
    case _ => 0
  }

  /** Steps that call `id` took while it was still running. */
  function OwnSteps(start: Bank, events: seq<Event>, id: CallId): nat {
    if events == [] then 0
    else
      var before, e := events[..|events| - 1], events[|events| - 1];
      var b := Run(start, before);
      OwnSteps(start, before, id) + if e.Step? && e.id == id && id in b.threads && Running(b.threads[id]) then 1 else 0
  }

  /** Every step of a running call uses up rank; a lost attempt uses up what the attempt had left. */
  lemma RankFalls(b: Bank, t: Thread, newId: AccountId)
    requires Running(t) && t.failures < MAX_ATTEMPTS
    ensures 0 <= Rank(StepThread(b, t, newId)) < Rank(t)
  {
  }

  /** However the run is scheduled, a call takes at most five steps an attempt: it then has committed or thrown. */
  lemma {:induction false} OwnStepsBounded(start: Bank, events: seq<Event>, id: CallId)
    requires Initial(start)
    ensures id !in Run(start, events).threads ==> OwnSteps(start, events, id) == 0
    ensures id in Run(start, events).threads ==>
              0 <= Rank(Run(start, events).threads[id]) <= 250 - OwnSteps(start, events, id)
  {
    if events != [] {
      var before, e := events[..|events| - 1], events[|events| - 1];
      OwnStepsBounded(start, before, id);
      RunCharged(start, before);
      if id in Run(start, before).threads {
        var b := Run(start, before);
        assert Charged(b, id);
        StepShape(b, e);
        if e.Step? && e.id == id && Running(b.threads[id]) {
          RankFalls(b, b.threads[id], e.newId);
        }
      }
    }
  }
}
