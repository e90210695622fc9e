/** The executors as they run: managed balance objects changed in place inside a persistence context,
    then flushed to the database in one commit. Each is proved to do what `Serial` computes. */
module Executors {
  import opened Wrappers
  import opened Monetary
  import opened Ledger

  /** A balance row under management; None as version means it is to be inserted. */
  class AccountBalance {
    const accountId: AccountId
    const version: Option<nat>
    var balance: Money

    constructor (accountId: AccountId, balance: Money, version: Option<nat>)
      ensures this.accountId == accountId && this.balance == balance && this.version == version
    {
      this.accountId := accountId;
      this.balance := balance;
      this.version := version;
    }

    method SetBalance(balance: Money)
      modifies this
      ensures this.balance == balance
    {
      this.balance := balance;
    }
  }

  /** The committed tables. */
  class Database {
    var accounts: map<AccountId, Account>
    var clearing: map<Currency, AccountId>
    var rows: map<AccountId, Row>
    var entries: seq<Entry>
    var txns: nat

    constructor (db: Db)
      ensures View() == db
    {
      accounts := db.accounts;
      clearing := db.clearing;
      rows := db.rows;
      entries := db.entries;
      txns := db.txns;
    }

    function View(): Db
      reads this
    {
      Db(accounts, clearing, rows, entries, txns)
    }
  }

  /** The rows as they stand once every dirty managed leg has been written. */
  ghost function Written(rows: map<AccountId, Row>, legs: map<AccountId, Leg>): map<AccountId, Row> {
    map id | id in rows.Keys + legs.Keys && (id in rows || Dirty(legs[id])) ::
      if id in legs &&
          Dirty(legs[id]) then Row(legs[id].after, if legs[id].version.Some? then legs[id].version.value + 1 else 0)
      else rows[id]
  }

  ghost function Without(legs: map<AccountId, Leg>, ids: set<AccountId>): map<AccountId, Leg> {
    map id | id in legs && id !in ids :: legs[id]
  }

  lemma WrittenSnoc(rows: map<AccountId, Row>, legs: map<AccountId, Leg>, id: AccountId, leg: Leg)
    requires id !in legs
    ensures Written(rows, legs[id := leg]) == Settle(Written(rows, legs), id, leg)
  {
  }

  ghost function Outcome(db: Db, opening: Option<Opening>, legs: map<AccountId, Leg>): Result<(), Failure> {
    if opening.Some? && (opening.value.currency in db.clearing || opening.value.id in db.accounts)
        then Failure(DuplicateClearing)
    else if exists id :: id in legs && Conflicts(db, id, legs[id]) then Failure(OptimisticLock)
    else Success(())
  }

  ghost function Committed(db: Db, opening: Option<Opening>, legs: map<AccountId, Leg>, entries: seq<Entry>): Db {
    Db(if opening.Some? then db.accounts[opening.value.id := Account(System, opening.value.currency, Active)]
        else db.accounts,
       if opening.Some? then db.clearing[opening.value.currency := opening.value.id] else db.clearing,
       Written(db.rows, legs), db.entries + entries, db.txns + 1)
  }

  /** One database transaction: rows found once are the same object when found again. */
  class PersistenceContext {
    const db: Database
    var managed: map<AccountId, AccountBalance>
    var loaded: map<AccountId, Money>
    var newEntries: seq<Entry>
    var opening: Option<Opening>

    ghost predicate Valid()
      reads this, managed.Values
    {
      && managed.Keys == loaded.Keys
      && (forall id :: id in managed ==> managed[id].accountId == id)
    }

    ghost function Legs(): map<AccountId, Leg>
      requires Valid()
      reads this, managed.Values
    {
      map id | id in managed :: Leg(loaded[id], managed[id].balance, managed[id].version)
    }

    constructor (db: Database)
      ensures Valid() && this.db == db && Legs() == map[] && managed == map[] && newEntries == [] && opening == None
    {
      this.db := db;
      managed := map[];
      loaded := map[];
      newEntries := [];
      opening := None;
    }

    /** Registers the clearing account to be inserted, with a zero balance. */
    method Persist(opening: Opening)
      requires Valid() && opening.id !in managed
      modifies this
      ensures Valid() && this.opening == Some(opening) && newEntries == old(newEntries)
      ensures managed.Keys == old(managed.Keys) + {opening.id} && fresh(managed[opening.id])
      ensures forall id :: id in old(managed) ==> managed[id] == old(managed)[id]
      ensures Legs() == old(Legs())[opening.id := Leg(Zero(opening.currency), Zero(opening.currency), None)]
    {
      var created := new AccountBalance(opening.id, Zero(opening.currency), None);
      managed := managed[opening.id := created];
      loaded := loaded[opening.id := created.balance];
      this.opening := Some(opening);
    }

    /** The managed object for a row, loading it on first use. */
    method FindBalance(id: AccountId) returns (r: Option<AccountBalance>)
      requires Valid()
      modifies this
      ensures Valid() && opening == old(opening) && newEntries == old(newEntries)
      ensures r.Some? <==> id in old(managed) || id in db.rows
      ensures r.Some? ==> id in managed && managed[id] == r.value
      ensures forall k :: k in old(managed) ==> k in managed && managed[k] == old(managed)[k]
      ensures id in old(managed) || r.None? ==> managed == old(managed) && Legs() == old(Legs())
      ensures id !in old(managed) && r.Some? ==>
                && managed.Keys == old(managed.Keys) + {id} && fresh(r.value) && r.value.balance == db.rows[id].balance
                && Legs() == old(Legs())[id := Leg(db.rows[id].balance, db.rows[id].balance, Some(db.rows[id].version))]
    {
      if id in managed {
        return Some(managed[id]);
      }
      if id !in db.rows {
        return None;
      }
      var row := db.rows[id];
      var balance := new AccountBalance(id, row.balance, Some(row.version));
      managed := managed[id := balance];
      loaded := loaded[id := row.balance];
      return Some(balance);
    }

    /** The rows to write, or None when a dirty row's version is no longer the one loaded. */
    method Flush() returns (r: Option<map<AccountId, Row>>)
      requires Valid()
      ensures r.None? <==> exists id :: id in Legs() && Conflicts(db.View(), id, Legs()[id])
      ensures r.Some? ==> r.value == Written(db.rows, Legs())
    {
      var rows, todo := db.rows, managed.Keys;
      ghost var done: map<AccountId, Leg> := map[];
      assert Written(db.rows, done) == rows;
      while todo != {}
        invariant todo <= managed.Keys && done == Without(Legs(), todo)
        invariant rows == Written(db.rows, done)
        invariant forall id :: id in Legs() && id !in todo ==> !Conflicts(db.View(), id, Legs()[id])
      {
        var id :| id in todo;
        var leg := Leg(loaded[id], managed[id].balance, managed[id].version);
        assert leg == Legs()[id];
        if Conflicts(db.View(), id, leg) {
          return None;
        }
        WrittenSnoc(db.rows, done, id, leg);
        rows := Settle(rows, id, leg);
        done := done[id := leg];
        todo := todo - {id};
        assert done == Without(Legs(), todo);
      }
      assert done == Legs();
      return Some(rows);
    }

    /** Writes every dirty row whose version still matches, or nothing if one does not. */
    method Commit() returns (r: Result<(), Failure>)
      requires Valid()
      modifies db
      ensures Valid() && Legs() == old(Legs())
      ensures r == Outcome(old(db.View()), opening, Legs())
      ensures r.Failure? ==> db.View() == old(db.View())
      ensures r.Success? ==> db.View() == Committed(old(db.View()), opening, Legs(), newEntries)
    {
      if opening.Some? && (opening.value.currency in db.clearing || opening.value.id in db.accounts) {
        return Failure(DuplicateClearing);
      }
      var flushed := Flush();
      if flushed.None? {
        return Failure(OptimisticLock);
      }
      db.rows := flushed.value;
      if opening.Some? {
        db.accounts := db.accounts[opening.value.id := Account(System, opening.value.currency, Active)];
        db.clearing := db.clearing[opening.value.currency := opening.value.id];
      }
      db.entries := db.entries + newEntries;
      db.txns := db.txns + 1;
      return Success(());
    }

    /** Overwrites the balance of a managed row in place. */
    method SetManaged(id: AccountId, after: Money)
      requires Valid() && id in managed
      modifies managed.Values
      ensures Valid() && Legs() == old(Legs())[id := old(Legs())[id].(after := after)]
    {
      ghost var before := Legs();
      managed[id].SetBalance(after);
      forall k | k in managed && k != id ensures Legs()[k] == before[k] {
        assert managed[k] != managed[id];
      }
    }

    /** Pays the amount out of a row in place; only a guarded payment must leave it non-negative. */
    method TakeFrom(ghost m: Movement, id: AccountId, amount: Money, guarded: bool) returns (r: Result<Money, Failure>)
      requires Valid() && opening == m.opens && Legs() == Opened(m)
      requires id == m.debit && amount == m.call.amount && guarded == !m.call.Deposit?
      modifies this, managed.Values
      ensures Valid() && opening == m.opens && newEntries == old(newEntries)
      ensures forall k :: k in managed ==> managed[k] in old(managed.Values) || fresh(managed[k])
      ensures match Debit(db.View(), m)
              case Failure(e) => r == Failure(e)
              case Success(d) => r == Success(d.after) && Legs() == Opened(m)[m.debit := d]
    {
      LoadAgrees(db.View(), m, id);
      assert id in managed <==> id in Legs();
      var balance := FindBalance(id);
      if balance.None? { return Failure(AccountNotFound(id)); }
      ghost var d := Legs()[id];
      assert Load(db.View(), m, id) == Success(d) && Legs() == Opened(m)[id := d];
      var after := Subtract(balance.value.balance, amount);
      if after.Failure? { return Failure(Arithmetic(after.error)); }
      if guarded && after.value.minorUnits < 0 { return Failure(InsufficientFunds(id)); }
      SetManaged(id, after.value);
      return Success(after.value);
    }

    /** Pays the amount into a row in place, which is the row already taken from when both sides are one account. */
    method GiveTo(ghost m: Movement, ghost d: Leg, id: AccountId, amount: Money) returns (r: Result<Money, Failure>)
      requires Valid() && opening == m.opens && Legs() == Opened(m)[m.debit := d]
      requires id == m.credit && amount == m.call.amount
      modifies this, managed.Values
      ensures Valid() && opening == m.opens && newEntries == old(newEntries)
      ensures match Credit(db.View(), m, d)
              case Failure(e) => r == Failure(e)
              case Success(c) => r == Success(c.after) && Legs() == Opened(m)[m.debit := d][m.credit := c]
    {
      LoadCredit(db.View(), m, d);
      assert id in managed <==> id in Legs();
      var balance := FindBalance(id);
      if balance.None? { return Failure(AccountNotFound(id)); }
      ghost var c := Legs()[id];
      assert Legs() == Opened(m)[m.debit := d][id := c];
      var after := Add(balance.value.balance, amount);
      if after.Failure? { return Failure(Arithmetic(after.error)); }
      SetManaged(id, after.value);
      return Success(after.value);
    }

    /** Commits a movement whose two legs are managed here. */
    method CommitMovement(ghost m: Movement, ghost d: Leg, ghost c: Leg) returns (r: Result<(), Failure>)
      requires Valid() && m.call.amount.minorUnits > 0 && Connected(m) && opening == m.opens
      requires Legs() == Opened(m)[m.debit := d][m.credit := c] && newEntries == Entries(db.txns, m)
      modifies db
      ensures r == CommitCheck(old(db.View()), m, d, c)
      ensures db.View() == if r.Success? then Apply(old(db.View()), m, d, c) else old(db.View())
    {
      CommitAgrees(db.View(), m, d, c, Legs());
      r := Commit();
    }
  }

  /** The legs managed before any row is found: the clearing row to be inserted, if there is one. */
  ghost function Opened(m: Movement): map<AccountId, Leg> {
    if m.opens.None? then map[]
        else map[m.opens.value.id := Leg(Zero(m.opens.value.currency), Zero(m.opens.value.currency), None)]
  }

  lemma LoadAgrees(db: Db, m: Movement, id: AccountId)
    ensures id in Opened(m) ==> Load(db, m, id) == Success(Opened(m)[id])
    ensures id !in Opened(m) ==>
            Load(db, m, id) == if id in db.rows
                then Success(Leg(db.rows[id].balance, db.rows[id].balance, Some(db.rows[id].version)))
                               else Failure(AccountNotFound(id))
  {
  }

  /** The row a credit starts from is the one in hand, or the committed one. */
  lemma LoadCredit(db: Db, m: Movement, d: Leg)
    ensures var legs := Opened(m)[m.debit := d];
            (if m.credit == m.debit then Success(d) else Load(db, m, m.credit)) ==
            if m.credit in legs then Success(legs[m.credit])
            else if m.credit in db.rows
                then Success(Leg(db.rows[m.credit].balance, db.rows[m.credit].balance, Some(db.rows[m.credit].version)))
            else Failure(AccountNotFound(m.credit))
  {
  }

  /** A clearing account to be inserted is one of the two sides. */
  ghost predicate Connected(m: Movement) {
    m.opens.Some? ==> m.opens.value.id == m.debit || m.opens.value.id == m.credit
  }

  lemma TwoLegsWritten(rows: map<AccountId, Row>, m: Movement, d: Leg, c: Leg)
    ensures Written(rows, map[m.debit := d][m.credit := c]) == Settled(rows, m, d, c)
  {
  }

  lemma TwoLegsConflict(db: Db, m: Movement, d: Leg, c: Leg)
    ensures var legs := map[m.debit := d][m.credit := c];
            (exists id :: id in legs && Conflicts(db, id, legs[id])) <==>
            (m.debit != m.credit && Conflicts(db, m.debit, d)) || Conflicts(db, m.credit, c)
  {
    var legs := map[m.debit := d][m.credit := c];
    assert m.debit in legs && m.credit in legs;
  }

  /** Flushing the two legs of a movement is what the commit step of the model does. */
  lemma CommitAgrees(db: Db, m: Movement, d: Leg, c: Leg, legs: map<AccountId, Leg>)
    requires m.call.amount.minorUnits > 0 && Connected(m) && legs == Opened(m)[m.debit := d][m.credit := c]
    ensures Outcome(db, m.opens, legs) == CommitCheck(db, m, d, c)
    ensures Committed(db, m.opens, legs, Entries(db.txns, m)) == Apply(db, m, d, c)
  {
    assert legs == map[m.debit := d][m.credit := c];
    TwoLegsWritten(db.rows, m, d, c);
    TwoLegsConflict(db, m, d, c);
  }

  ghost predicate Agrees(before: Db, expected: Result<(Db, Receipt), Failure>, after: Db, r: Result<Receipt, Failure>) {
    match expected
    case Success((db, receipt)) => after == db && r == Success(receipt)
    case Failure(e) => after == before && r == Failure(e)
  }

  /** The call did to the database what Serial says, or threw what Serial throws and changed nothing. */
  ghost predicate RanSerially(threshold: int, before: Db, call: Call, newId: AccountId, after: Db,
      r: Result<Receipt, Failure>) {
    var seen := if FirstAccount(call) in before.accounts then before.accounts[FirstAccount(call)].status else Active;
    Agrees(before, Serial(threshold, before, call, seen, newId), after, r)
  }

  class TransferExecutor {
    const db: Database
    const stepUpThreshold: int

    constructor (db: Database, stepUpThreshold: int)
      ensures this.db == db && this.stepUpThreshold == stepUpThreshold
    {
      this.db := db;
      this.stepUpThreshold := stepUpThreshold;
    }

    method Transfer(call: Call) returns (r: Result<Receipt, Failure>)
      requires call.Transfer?
      modifies db
      ensures RanSerially(stepUpThreshold, old(db.View()), call, 0, db.View(), r)
    {
      if call.amount.minorUnits <= 0 { return Failure(InvalidAmount); }
      if call.source == call.destination { return Failure(SameAccount); }
      if call.amount.minorUnits >= stepUpThreshold && !call.stepUpVerified { return Failure(StepUpRequired); }

      if call.source !in db.accounts { return Failure(AccountNotFound(call.source)); }
      if call.destination !in db.accounts { return Failure(AccountNotFound(call.destination)); }
      var source, destination := db.accounts[call.source], db.accounts[call.destination];
      if source.currency != destination.currency { return Failure(AccountsDiffer); }
      if source.status != Active { return Failure(AccountNotActive(source.status)); }
      r := MoveFunds(call, source.status);
    }

    /** The part of a transfer that touches balances. */
    method MoveFunds(call: Call, ghost seen: AccountStatus) returns (r: Result<Receipt, Failure>)
      requires call.Transfer? && call.amount.minorUnits > 0
      modifies db
      ensures Agrees(old(db.View()),
              MoveMoney(old(db.View()), Movement(call, seen, call.source, call.destination, None)), db.View(), r)
    {
      ghost var m := Movement(call, seen, call.source, call.destination, None);
      var amount, txn := call.amount, db.txns;
      var context := new PersistenceContext(db);
      var sourceNew := context.TakeFrom(m, call.source, amount, true);
      if sourceNew.Failure? { return Failure(sourceNew.error); }
      ghost var d := Debit(db.View(), m).value;
      context.newEntries := [Entry(txn, call.source, Negate(amount).value), Entry(txn, call.destination, amount)];

      var destinationNew := context.GiveTo(m, d, call.destination, amount);
      if destinationNew.Failure? { return Failure(destinationNew.error); }
      var committed := context.CommitMovement(m, d, Credit(db.View(), m, d).value);
      if committed.Failure? { return Failure(committed.error); }
      return Success(TransferReceipt(txn, call.source, sourceNew.value, call.destination, destinationNew.value));
    }
  }

  class DepositWithdrawExecutor {
    const db: Database

    constructor (db: Database)
      ensures this.db == db
    {
      this.db := db;
    }

    /** The currency's clearing account, registered for insertion under `newId` when there is none. */
    method GetOrCreateCashClearing(context: PersistenceContext, currency: Currency, newId: AccountId)
        returns (id: AccountId)
      requires context.db == db && context.Valid() && context.managed == map[] && context.opening == None
      modifies context
      ensures context.Valid() && context.newEntries == old(context.newEntries)
      ensures (id, context.opening) == FindClearing(db.View(), currency, newId)
      ensures context.opening.None? ==> context.managed == map[] && context.Legs() == map[]
      ensures context.opening.Some? ==>
                && context.managed.Keys == {newId} && fresh(context.managed[newId])
                && context.Legs() == map[newId := Leg(Zero(currency), Zero(currency), None)]
    {
      if currency in db.clearing {
        return db.clearing[currency];
      }
      context.Persist(Opening(newId, currency));
      return newId;
    }

    method Deposit(call: Call, newId: AccountId) returns (r: Result<Receipt, Failure>)
      requires call.Deposit?
      modifies db
      ensures RanSerially(0, old(db.View()), call, newId, db.View(), r)
    {
      var amount, txn := call.amount, db.txns;
      if amount.minorUnits <= 0 { return Failure(InvalidAmount); }
      if call.account !in db.accounts { return Failure(AccountNotFound(call.account)); }
      var customer := db.accounts[call.account];
      var context := new PersistenceContext(db);
      var clearing := GetOrCreateCashClearing(context, customer.currency, newId);
      ghost var m := Movement(call, customer.status, clearing, call.account, context.opening);
      assert Plan(0, db.View(), call, customer.status, newId) == Success(m);
      context.newEntries := [Entry(txn, clearing, Negate(amount).value), Entry(txn, call.account, amount)];

      var taken := context.TakeFrom(m, clearing, amount, false);
      if taken.Failure? { return Failure(taken.error); }
      ghost var d := Debit(db.View(), m).value;
      var newBalance := context.GiveTo(m, d, call.account, amount);
      if newBalance.Failure? { return Failure(newBalance.error); }
      var committed := context.CommitMovement(m, d, Credit(db.View(), m, d).value);
      if committed.Failure? { return Failure(committed.error); }
      return Success(MovementReceipt(txn, call.account, newBalance.value));
    }

    method Withdraw(call: Call, newId: AccountId) returns (r: Result<Receipt, Failure>)
      requires call.Withdraw?
      modifies db
      ensures RanSerially(0, old(db.View()), call, newId, db.View(), r)
    {
      var amount, txn := call.amount, db.txns;
      if amount.minorUnits <= 0 { return Failure(InvalidAmount); }
      if call.account !in db.accounts { return Failure(AccountNotFound(call.account)); }
      var customer := db.accounts[call.account];
      if customer.status != Active { return Failure(AccountNotActive(customer.status)); }
      var context := new PersistenceContext(db);
      var clearing := GetOrCreateCashClearing(context, customer.currency, newId);
      ghost var m := Movement(call, customer.status, call.account, clearing, context.opening);
      assert Plan(0, db.View(), call, customer.status, newId) == Success(m);

      var afterWithdrawal := context.TakeFrom(m, call.account, amount, true);
      if afterWithdrawal.Failure? { return Failure(afterWithdrawal.error); }
      ghost var d := Debit(db.View(), m).value;
      context.newEntries := [Entry(txn, call.account, Negate(amount).value), Entry(txn, clearing, amount)];
      var credited := context.GiveTo(m, d, clearing, amount);
      if credited.Failure? { return Failure(credited.error); }
      var committed := context.CommitMovement(m, d, Credit(db.View(), m, d).value);
      if committed.Failure? { return Failure(committed.error); }
      return Success(MovementReceipt(txn, call.account, afterWithdrawal.value));
    }
  }
}
