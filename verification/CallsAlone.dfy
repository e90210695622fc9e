/** Calls that nobody interrupts: the step machine left alone does what the serial form of a call computes. */
module CallsAlone {
  import opened Wrappers
  import opened Ledger
  import opened Concurrency

  lemma RunSnoc(start: Bank, events: seq<Event>, e: Event)
    ensures Run(start, events + [e]) == Next(Run(start, events), e)
  {
    assert (events + [e])[..|events|] == events;
  }

  lemma {:induction false} RunConcat(start: Bank, xs: seq<Event>, ys: seq<Event>)
    ensures Run(start, xs + ys) == Run(Run(start, xs), ys)
  {
    if ys == [] {
      assert xs + ys == xs;
    } else {
      var before, last := ys[..|ys| - 1], ys[|ys| - 1];
      RunConcat(start, xs, before);
      RunSnoc(start, xs + before, last);
      RunSnoc(Run(start, xs), before, last);
      SplitLast(xs, ys);
    }
  }

  lemma SplitLast(xs: seq<Event>, ys: seq<Event>)
    requires ys != []
    ensures xs + ys == xs + ys[..|ys| - 1] + [ys[|ys| - 1]] && ys == ys[..|ys| - 1] + [ys[|ys| - 1]]
  {
  }

  function Steps(id: CallId, newId: AccountId, n: nat): seq<Event> {
    seq(n, _ => Step(id, newId))
  }

  lemma StepsSnoc(b: Bank, id: CallId, newId: AccountId, n: nat)
    ensures Run(b, Steps(id, newId, n + 1)) == Next(Run(b, Steps(id, newId, n)), Step(id, newId))
  {
    assert Steps(id, newId, n + 1) == Steps(id, newId, n) + [Step(id, newId)];
    RunSnoc(b, Steps(id, newId, n), Step(id, newId));
  }

  function WithPhase(b: Bank, id: CallId, p: Phase): Bank
    requires id in b.threads
  {
    b.(threads := b.threads[id := b.threads[id].(phase := p)])
  }

  lemma ReadNext(b: Bank, id: CallId, newId: AccountId, p: Phase)
    requires id in b.threads && (p.Begin? || p.HasFirst? || p.HasPlan? || p.HasDebit?)
    ensures Next(WithPhase(b, id, p), Step(id, newId)) ==
            WithPhase(b, id, Read(b.threshold, b.db, b.threads[id].(phase := p), newId))
  {
    var t := b.threads[id].(phase := p);
    var b1 := WithPhase(b, id, p);
    assert b1.threads[id] == t && Running(t) && !Commits(b1, t);
    var t' := StepThread(b1, t, newId);
    assert t' == b.threads[id].(phase := Read(b.threshold, b.db, t, newId));
    assert b1.threads[id := t'] == b.threads[id := t'];
  }

  lemma ReadStep(b: Bank, id: CallId, newId: AccountId, n: nat, p: Phase)
    requires id in b.threads && (p.Begin? || p.HasFirst? || p.HasPlan? || p.HasDebit?)
    requires Run(b, Steps(id, newId, n)) == WithPhase(b, id, p)
    ensures Run(b, Steps(id, newId, n + 1)) ==
            WithPhase(b, id, Read(b.threshold, b.db, b.threads[id].(phase := p), newId))
  {
    StepsSnoc(b, id, newId, n);
    ReadNext(b, id, newId, p);
  }

  /** The first account as it is now. */
  function FirstNow(b: Bank, call: Call): Account
    requires FirstAccount(call) in b.db.accounts
  {
    b.db.accounts[FirstAccount(call)]
  }

  /** The two reads a plan is made of. */
  lemma PlanReads(b: Bank, t: Thread, newId: AccountId, m: Movement)
    requires FirstAccount(t.call) in b.db.accounts
    requires Plan(b.threshold, b.db, t.call, FirstNow(b, t.call).status, newId) == Success(m)
    ensures Read(b.threshold, b.db, t.(phase := Begin), newId) == HasFirst(FirstNow(b, t.call))
    ensures Read(b.threshold, b.db, t.(phase := HasFirst(FirstNow(b, t.call))), newId) == HasPlan(m)
  {
    var first := FirstNow(b, t.call);
    assert first.(status := first.status) == first;
  }

  /** The two rows it then reads. */
  lemma RowReads(b: Bank, t: Thread, newId: AccountId, m: Movement, d: Leg, c: Leg)
    requires Debit(b.db, m) == Success(d) && Credit(b.db, m, d) == Success(c)
    ensures Read(b.threshold, b.db, t.(phase := HasPlan(m)), newId) == HasDebit(m, d)
    ensures Read(b.threshold, b.db, t.(phase := HasDebit(m, d)), newId) == HasBoth(m, d, c)
  {
  }

  lemma StartsAtBegin(b: Bank, id: CallId, newId: AccountId)
    requires id in b.threads && b.threads[id].phase == Begin
    ensures Run(b, Steps(id, newId, 0)) == WithPhase(b, id, Begin)
  {
    assert b.threads[id].(phase := Begin) == b.threads[id];
    assert b.threads[id := b.threads[id]] == b.threads;
  }

  /** Left alone, a call that has no error to report reads its plan and both rows in four steps. */
  lemma ReadsAlone(b: Bank, id: CallId, newId: AccountId, m: Movement, d: Leg, c: Leg)
    requires id in b.threads && b.threads[id].phase == Begin && FirstAccount(b.threads[id].call) in b.db.accounts
    requires Plan(b.threshold, b.db, b.threads[id].call, FirstNow(b, b.threads[id].call).status, newId) == Success(m)
    requires Debit(b.db, m) == Success(d) && Credit(b.db, m, d) == Success(c)
    ensures Run(b, Steps(id, newId, 4)) == WithPhase(b, id, HasBoth(m, d, c))
  {
    PlanReads(b, b.threads[id], newId, m);
    RowReads(b, b.threads[id], newId, m, d, c);
    StartsAtBegin(b, id, newId);
    ReadStep(b, id, newId, 0, Begin);
    ReadStep(b, id, newId, 1, HasFirst(FirstNow(b, b.threads[id].call)));
    ReadStep(b, id, newId, 2, HasPlan(m));
    ReadStep(b, id, newId, 3, HasDebit(m, d));
  }

  /** Left alone from its first read, a call that Serial accepts commits exactly what Serial computes. */
  lemma AloneIsSerial(b: Bank, id: CallId, newId: AccountId)
    requires id in b.threads && b.threads[id].phase == Begin && FirstAccount(b.threads[id].call) in b.db.accounts
    requires Serial(b.threshold, b.db, b.threads[id].call, b.db.accounts[FirstAccount(b.threads[id].call)].status,
             newId).Success?
    ensures var (db, receipt) :=
            Serial(b.threshold, b.db, b.threads[id].call, b.db.accounts[FirstAccount(b.threads[id].call)].status,
            newId).value;
            var b' := Run(b, Steps(id, newId, 5));
            b'.db == db && id in b'.threads && b'.threads[id].phase == Returned(receipt)
  {
    var t := b.threads[id];
    var seen := b.db.accounts[FirstAccount(t.call)].status;
    PlanKeepsCall(b.threshold, b.db, t.call, seen, newId);
    var m := Plan(b.threshold, b.db, t.call, seen, newId).value;
    var d := Debit(b.db, m).value;
    var c := Credit(b.db, m, d).value;
    ReadsAlone(b, id, newId, m, d, c);
    StepsSnoc(b, id, newId, 4);
  }
}
