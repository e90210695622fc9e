/** The log and the ledger of the interleaved bank: the k-th committed item is the k-th ledger transaction since the
    start, and it holds that call's two entries. */
module LogLedger {
  import opened Wrappers
  import opened Ledger
  import opened Concurrency
  import opened SerialEquivalence
  import opened ExactlyOnce

  function Commits(log: seq<LogItem>): nat {
    if log == [] then 0 else Commits(log[..|log| - 1]) + if log[|log| - 1].Committed? then 1 else 0
  }

  ghost predicate ItemPosted(b: Bank, base: nat, i: nat)
    requires i < |b.log|
  {
    b.log[i].Committed? ==>
      && b.log[i].receipt.txn == base + Commits(b.log[..i])
      && b.log[i].m.call.amount.minorUnits > 0
      && Holds(b.db, b.log[i].receipt.txn, b.log[i].m.call)
      && (b.log[i].m.call.Transfer? ==>
          b.log[i].m.call.stepUpVerified || b.log[i].m.call.amount.minorUnits < b.threshold)
  }

  ghost predicate LogIsLedger(b: Bank, base: nat) {
    && b.db.txns == base + Commits(b.log) && |b.db.entries| == 2 * b.db.txns
    && forall i: nat :: i < |b.log| ==> ItemPosted(b, base, i)
  }

  lemma CommitsSnoc(log: seq<LogItem>, item: LogItem)
    ensures Commits(log + [item]) == Commits(log) + if item.Committed? then 1 else 0
  {
    assert (log + [item])[..|log|] == log;
  }

  /** Later commits have later transactions. */
  lemma {:induction false} CommitsGrow(log: seq<LogItem>, i: nat, j: nat)
    requires i < j <= |log| && log[i].Committed?
    ensures Commits(log[..i]) < Commits(log[..j])
    decreases j
  {
    assert log[..j][..j - 1] == log[..j - 1];
    if i < j - 1 {
      CommitsGrow(log, i, j - 1);
    }
  }

  /** Entries already posted stay where they are. */
  lemma PostedStays(b: Bank, b': Bank, base: nat, i: nat)
    requires i < |b.log| <= |b'.log| && b'.log[..|b.log|] == b.log && ItemPosted(b, base, i)
    requires b'.threshold == b.threshold
    requires b.db.txns <= b'.db.txns && |b'.db.entries| == 2 * b'.db.txns
    requires |b.db.entries| <= |b'.db.entries| && b'.db.entries[..|b.db.entries|] == b.db.entries
    ensures ItemPosted(b', base, i)
  {
    assert b'.log[..|b.log|][i] == b'.log[i];
    assert b'.log[..i] == b.log[..i];
    if b.log[i].Committed? {
      var t := b.log[i].receipt.txn;
      assert b'.db.entries[..|b.db.entries|][2 * t] == b'.db.entries[2 * t];
      assert b'.db.entries[..|b.db.entries|][2 * t + 1] == b'.db.entries[2 * t + 1];
    }
  }

  /** A commit appends its two entries as the next transaction, and one log item. */
  lemma CommitAppends(b: Bank, base: nat, e: Event)
    requires Sound(b.db) && ThreadsHold(b) && LogIsLedger(b, base) && Commit(b, e)
    ensures var b', m := Next(b, e), b.threads[e.id].phase.m;
            && b'.db.txns == b.db.txns + 1 && m.call.amount.minorUnits > 0
            && b'.db.entries == b.db.entries + Entries(b.db.txns, m)
            && |b'.log| == |b.log| + 1 && b'.log[..|b.log|] == b.log && Commits(b'.log) == Commits(b.log) + 1
            && b'.log[|b.log|].Committed? && b'.log[|b.log|].m == m && b'.log[|b.log|].receipt.txn == b.db.txns
  {
    var b' := Next(b, e);
    CommitShape(b, e.id, e.newId);
    CommitsSnoc(b.log, b'.log[|b.log|]);
    assert b'.log == b.log + [b'.log[|b.log|]];
  }

  /** For a transfer the two entries are its source's and its destination's. */
  lemma EntriesAreCalls(b: Bank, t: Thread, db': Db)
    requires Sound(b.db) && t.attemptSince <= |b.log| && PhaseHolds(b, t) && Concurrency.Commits(b, t)
    requires |b.db.entries| == 2 * b.db.txns && db'.txns == b.db.txns + 1
    requires db'.entries == b.db.entries + Entries(b.db.txns, t.phase.m)
    ensures Holds(db', b.db.txns, t.phase.m.call)
  {
    CommitLands(b, t);
    assert db'.entries[2 * b.db.txns] == Entries(b.db.txns, t.phase.m)[0];
    assert db'.entries[2 * b.db.txns + 1] == Entries(b.db.txns, t.phase.m)[1];
  }

  /** A transfer at or above the threshold commits only with step-up. */
  lemma BelowThreshold(b: Bank, t: Thread)
    requires Sound(b.db) && t.attemptSince <= |b.log| && PhaseHolds(b, t) && Concurrency.Commits(b, t)
    ensures var call := t.phase.m.call;
            call.Transfer? ==> call.stepUpVerified || call.amount.minorUnits < b.threshold
  {
    CommitLands(b, t);
  }

  lemma CommitPosted(b: Bank, base: nat, e: Event)
    requires Sound(b.db) && ThreadsHold(b) && LogIsLedger(b, base) && Commit(b, e)
    ensures LogIsLedger(Next(b, e), base)
  {
    var b' := Next(b, e);
    CommitAppends(b, base, e);
    EntriesAreCalls(b, b.threads[e.id], b'.db);
    BelowThreshold(b, b.threads[e.id]);
    LogExtends(b, e);
    forall i: nat | i < |b'.log| ensures ItemPosted(b', base, i) {
      if i < |b.log| {
        PostedStays(b, b', base, i);
      } else {
        assert b'.log[..i] == b.log;
      }
    }
  }

  /** What commits nothing leaves the ledger as it is. */
  lemma QuietAppends(b: Bank, e: Event)
    requires !Commit(b, e)
    ensures var b' := Next(b, e);
            && b'.db.txns == b.db.txns && b'.db.entries == b.db.entries
            && |b.log| <= |b'.log| && b'.log[..|b.log|] == b.log && Commits(b'.log) == Commits(b.log)
            && forall i :: |b.log| <= i < |b'.log| ==> !b'.log[i].Committed?
  {
    var b' := Next(b, e);
    LogShape(b, e);
    LogExtends(b, e);
    if b'.log != b.log {
      assert b'.log == b.log + [b'.log[|b.log|]];
      CommitsSnoc(b.log, b'.log[|b.log|]);
    }
  }

  lemma NextPosted(b: Bank, base: nat, e: Event)
    requires Sound(b.db) && ThreadsHold(b) && LogIsLedger(b, base)
    ensures LogIsLedger(Next(b, e), base)
  {
    if Commit(b, e) {
      CommitPosted(b, base, e);
    } else {
      var b' := Next(b, e);
      QuietAppends(b, e);
      assert b'.db.entries[..|b.db.entries|] == b.db.entries;
      forall i: nat | i < |b'.log| ensures ItemPosted(b', base, i) {
        if i < |b.log| { PostedStays(b, b', base, i); }
      }
    }
  }
}
