/** A deposit to a clearing account can return a stale balance: another call's commit moves the row in between, and the
    deposit's own commit does not check it. */
module StaleDeposits {
  import opened Wrappers
  import opened Monetary
  import opened Ledger
  import opened Concurrency
  import opened SerialEquivalence
  import opened Aliasing
  import opened CallsAlone

  /** The clearing account is there, and the amount can be taken from it and put back. */
  ghost predicate CanTake(db: Db, account: AccountId, amount: Money) {
    && account in db.accounts && db.accounts[account].kind == System
    && account in db.rows && amount.minorUnits > 0 && Subtract(db.rows[account].balance, amount).Success?
  }

  function LegOf(db: Db, id: AccountId, after: Money): Leg
    requires id in db.rows
  {
    Leg(db.rows[id].balance, after, Some(db.rows[id].version))
  }

  function After(balance: Money, change: int): Money
    requires FitsLong(balance.minorUnits + change)
  {
    Money(balance.minorUnits + change, balance.currency)
  }

  /** A deposit to a clearing account comes to hold one leg that ends as it began. */
  lemma ClearingReads(b: Bank, id: CallId, account: AccountId, amount: Money)
    requires Sound(b.db) && CanTake(b.db, account, amount)
    requires id in b.threads && b.threads[id].phase == Begin && b.threads[id].call == Deposit(account, amount)
    ensures FitsLong(b.db.rows[account].balance.minorUnits - amount.minorUnits)
    ensures var balance := b.db.rows[account].balance;
            Run(b, Steps(id, 0, 4)) ==
              WithPhase(b, id,
                  HasBoth(Movement(Deposit(account, amount), b.db.accounts[account].status, account, account, None),
                          LegOf(b.db, account, After(balance, -amount.minorUnits)),
                          LegOf(b.db, account, balance)))
  {
    var balance := b.db.rows[account].balance;
    var m := Movement(Deposit(account, amount), b.db.accounts[account].status, account, account, None);
    ReadsAlone(b, id, 0, m, LegOf(b.db, account, After(balance, -amount.minorUnits)), LegOf(b.db, account, balance));
  }

  /** A deposit of one unit to an empty customer account comes to hold both legs. */
  lemma CustomerReads(b: Bank, id: CallId, account: AccountId, customer: AccountId)
    requires Sound(b.db) && account in b.db.rows && b.db.accounts[account].kind == System && customer != account
    requires var currency := b.db.accounts[account].currency;
             && customer in b.db.rows && b.db.rows[customer].balance == Zero(currency)
             && id in b.threads && b.threads[id].phase == Begin &&
                 b.threads[id].call == Deposit(customer, Money(1, currency))
    requires FitsLong(b.db.rows[account].balance.minorUnits - 1)
    ensures var currency := b.db.accounts[account].currency;
            Run(b, Steps(id, 0, 4)) ==
              WithPhase(b, id,
                  HasBoth(Movement(Deposit(customer, Money(1, currency)), b.db.accounts[customer].status, account,
                          customer, None),
                          LegOf(b.db, account, After(b.db.rows[account].balance, -1)),
                          LegOf(b.db, customer, Money(1, currency))))
  {
    var currency := b.db.accounts[account].currency;
    var m := Movement(Deposit(customer, Money(1, currency)), b.db.accounts[customer].status, account, customer, None);
    ReadsAlone(b, id, 0, m, LegOf(b.db, account, After(b.db.rows[account].balance, -1)),
        LegOf(b.db, customer, Money(1, currency)));
  }

  /** An account is opened; the deposit to the clearing account reads; a deposit of one unit to the new account
      begins, reads and commits. */
  function StaleRun(currency: Currency, customer: AccountId, account: AccountId, amount: Money): seq<Event> {
    [Open(customer, Checking, currency), Submit(0, Deposit(account, amount))] + Steps(0, 0, 4)
    + ([Submit(1, Deposit(customer, Money(1, currency)))] + Steps(1, 0, 4)) + [Step(1, 0)]
  }

  lemma TwoEvents(b: Bank, x: Event, y: Event)
    ensures Run(b, [x, y]) == Next(Next(b, x), y)
  {
    RunSnoc(b, [], x);
    RunSnoc(b, [x], y);
    assert [] + [x] == [x] && [x] + [y] == [x, y];
  }

  lemma OneEvent(b: Bank, x: Event)
    ensures Run(b, [x]) == Next(b, x)
  {
    RunSnoc(b, [], x);
    assert [] + [x] == [x];
  }

  /** Opened and submitted. */
  function Prepared(start: Bank, customer: AccountId, account: AccountId, amount: Money): Bank
  {
    Next(Next(start, Open(customer, Checking, amount.currency)), Submit(0, Deposit(account, amount)))
  }

  lemma OpeningHolds(start: Bank, customer: AccountId, account: AccountId, amount: Money)
    requires Initial(start) && CanTake(start.db, account, amount) && customer !in start.db.accounts
    ensures var b := Prepared(start, customer, account, amount);
            && Sound(b.db) && CanTake(b.db, account, amount) &&
                b.threads == map[0 := Thread(Deposit(account, amount), Begin, 0, 1, 1)]
            && b.db.accounts[account] == start.db.accounts[account] && b.db.rows[account] == start.db.rows[account]
            && customer in b.db.rows && b.db.rows[customer].balance == Zero(amount.currency) && customer != account
            && amount.currency == b.db.accounts[account].currency
  {
    OpenSound(start.db, customer, Checking, amount.currency);
  }

  /** The clearing deposit holds a leg, and the balance of its row is no longer the leg's. */
  ghost predicate Overtaken(b: Bank, account: AccountId, amount: Money) {
    && 0 in b.threads && b.threads[0].call == Deposit(account, amount) && b.threads[0].phase.HasBoth?
    && var HasBoth(m, d, c) := b.threads[0].phase;
    && m.call == b.threads[0].call && amount.minorUnits > 0 && m.debit == m.credit && m.opens.None? && !Dirty(c)
    && account == m.credit && account in b.db.rows && b.db.rows[account].balance != c.after
  }

  /** The second deposit's commit moves the clearing balance under the first. */
  lemma RivalOvertakes(b: Bank, account: AccountId, customer: AccountId, amount: Money)
    requires Sound(b.db) && CanTake(b.db, account, amount) && customer != account && customer in b.db.rows
    requires amount.currency == b.db.accounts[account].currency
    requires 0 in b.threads && b.threads[0].call == Deposit(account, amount) && 1 in b.threads
    requires b.threads[0].phase ==
             HasBoth(Movement(Deposit(account, amount), b.db.accounts[account].status, account, account, None),
                     LegOf(b.db, account, After(b.db.rows[account].balance, -amount.minorUnits)),
                     LegOf(b.db, account, b.db.rows[account].balance))
    requires b.threads[1].phase ==
             HasBoth(Movement(Deposit(customer, Money(1, amount.currency)), b.db.accounts[customer].status, account,
                     customer, None),
                     LegOf(b.db, account, After(b.db.rows[account].balance, -1)),
                     LegOf(b.db, customer, Money(1, amount.currency)))
    ensures Overtaken(Next(b, Step(1, 0)), account, amount)
  {
    var HasBoth(m, d, c) := b.threads[1].phase;
    assert CommitCheck(b.db, m, d, c).Success?;
    CommitShape(b, 1, 0);
    RivalWrites(b.db, m, d, c);
    assert Next(b, Step(1, 0)).threads[0] == b.threads[0];
  }

  lemma RivalWrites(db: Db, m: Movement, d: Leg, c: Leg)
    requires m.call.amount.minorUnits > 0 && m.debit != m.credit && m.debit in db.rows && d.version.Some? &&
             d.before != d.after
    ensures m.debit in Apply(db, m, d, c).rows && Apply(db, m, d, c).rows[m.debit].balance == d.after
  {
  }

  /** The clearing deposit has read. */
  function Holding(start: Bank, customer: AccountId, account: AccountId, amount: Money): Bank {
    Run(Prepared(start, customer, account, amount), Steps(0, 0, 4))
  }

  /** The customer's deposit has begun too. */
  function Joined(start: Bank, customer: AccountId, account: AccountId, amount: Money): Bank {
    Next(Holding(start, customer, account, amount), Submit(1, Deposit(customer, Money(1, amount.currency))))
  }

  lemma HoldingHolds(start: Bank, customer: AccountId, account: AccountId, amount: Money)
    requires Initial(start) && CanTake(start.db, account, amount) && customer !in start.db.accounts
    ensures var b, b' := Prepared(start, customer, account, amount), Holding(start, customer, account, amount);
            && b'.db == b.db && b'.threads.Keys == {0} && b'.threads[0].call == Deposit(account, amount)
            && CanTake(b.db, account, amount)
            && b'.threads[0].phase ==
                HasBoth(Movement(Deposit(account, amount), b.db.accounts[account].status, account, account, None),
                        LegOf(b.db, account,
                              After(b.db.rows[account].balance, -amount.minorUnits)),
                        LegOf(b.db, account, b.db.rows[account].balance))
  {
    OpeningHolds(start, customer, account, amount);
    ClearingReads(Prepared(start, customer, account, amount), 0, account, amount);
  }

  lemma JoinedHolds(b: Bank, call: Call)
    requires 1 !in b.threads
    ensures var b' := Next(b, Submit(1, call));
            b'.db == b.db && b'.threads == b.threads[1 := Thread(call, Begin, 0, |b.log|, |b.log|)]
  {
  }

  /** Both deposits hold their rows; the next step is the second one's commit. */
  lemma RacingOvertakes(start: Bank, customer: AccountId, account: AccountId, amount: Money)
    requires Initial(start) && CanTake(start.db, account, amount) && customer !in start.db.accounts
    ensures Overtaken(Next(Run(Joined(start, customer, account, amount), Steps(1, 0, 4)), Step(1, 0)), account, amount)
  {
    OpeningHolds(start, customer, account, amount);
    HoldingHolds(start, customer, account, amount);
    JoinedHolds(Holding(start, customer, account, amount), Deposit(customer, Money(1, amount.currency)));
    CustomerReads(Joined(start, customer, account, amount), 1, account, customer);
    RivalOvertakes(Run(Joined(start, customer, account, amount), Steps(1, 0, 4)), account, customer, amount);
  }

  /** The run is these stages in a row. */
  lemma StagesInARow(start: Bank, customer: AccountId, account: AccountId, amount: Money)
    ensures Run(start, StaleRun(amount.currency, customer, account, amount)) ==
            Next(Run(Joined(start, customer, account, amount), Steps(1, 0, 4)), Step(1, 0))
  {
    var open, submit, rival := Open(customer, Checking, amount.currency), Submit(0, Deposit(account, amount)),
        Submit(1, Deposit(customer, Money(1, amount.currency)));
    TwoEvents(start, open, submit);
    RunConcat(start, [open, submit], Steps(0, 0, 4));
    OneEvent(Holding(start, customer, account, amount), rival);
    RunConcat(Holding(start, customer, account, amount), [rival], Steps(1, 0, 4));
    RunConcat(start, [open, submit] + Steps(0, 0, 4), [rival] + Steps(1, 0, 4));
    RunSnoc(start, [open, submit] + Steps(0, 0, 4) + ([rival] + Steps(1, 0, 4)), Step(1, 0));
  }

  lemma RunsToOvertaken(start: Bank, customer: AccountId, account: AccountId, amount: Money)
    requires Initial(start) && CanTake(start.db, account, amount) && customer !in start.db.accounts
    ensures Overtaken(Run(start, StaleRun(amount.currency, customer, account, amount)), account, amount)
  {
    StagesInARow(start, customer, account, amount);
    RacingOvertakes(start, customer, account, amount);
  }

  /** The overtaken deposit commits unchecked, and its receipt is stale. */
  lemma OvertakenCommits(b: Bank, account: AccountId, amount: Money)
    requires Overtaken(b, account, amount)
    ensures Commit(b, Step(0, 0)) && !CurrentOnCommit(b, b.threads[0])
    ensures var b' := Next(b, Step(0, 0));
            0 in b'.threads && b'.threads[0].call == Deposit(account, amount) && b'.threads[0].phase.Returned?
  {
  }

  /** A run in which the deposit returned and no replay of the committed calls in commit order gives what they
      returned. */
  ghost predicate ReturnsStale(start: Bank, events: seq<Event>, account: AccountId, amount: Money) {
    var b := Run(start, events);
    && 0 in b.threads && b.threads[0].call == Deposit(account, amount) && b.threads[0].phase.Returned?
    && Replay(start.threshold, start.db, b.log) == None
  }

  lemma {:induction false} Unused(ids: set<AccountId>) returns (id: AccountId)
    ensures forall x :: x in ids ==> x < id
  {
    if ids == {} {
      id := 0;
    } else {
      var x :| x in ids;
      var other := Unused(ids - {x});
      id := if x < other then other else x + 1;
      forall y | y in ids ensures y < id {
        assert y == x || y in ids - {x};
      }
    }
  }

  /** From every sound start, every deposit a clearing account can take occurs in a run that no replay in commit order
      gives: the exception made for deposits to SYSTEM accounts is needed for each of them. */
  lemma StaleReceipt(start: Bank, account: AccountId, amount: Money)
    requires Initial(start) && CanTake(start.db, account, amount)
    ensures DepositsToClearing(start.db, Deposit(account, amount))
    ensures exists events :: ReturnsStale(start, events, account, amount)
  {
    var customer := Unused(start.db.accounts.Keys);
    var before := StaleRun(amount.currency, customer, account, amount);
    var events := before + [Step(0, 0)];
    RunsToOvertaken(start, customer, account, amount);
    OvertakenCommits(Run(start, before), account, amount);
    RunSnoc(start, before, Step(0, 0));
    assert events[..|events| - 1] == before;
    assert !NoneStale(start, events);
    RunReplays(start, events);
    assert ReturnsStale(start, events, account, amount);
  }
}
