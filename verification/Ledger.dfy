/** The committed database: accounts, versioned balance rows and the append-only ledger,
    and what one money movement reads, computes and writes. */
module Ledger {
  import opened Wrappers
  import opened Monetary

  type AccountId = nat

  datatype AccountKind = Checking | Savings | System

  datatype AccountStatus = Active | Frozen | Closed

  datatype Account = Account(kind: AccountKind, currency: Currency, status: AccountStatus)

  datatype Row = Row(balance: Money, version: nat)

  datatype Entry = Entry(txn: nat, account: AccountId, amount: Money)

  /** `clearing` is the unique index on SYSTEM accounts by currency. Transaction ids count commits. */
  datatype Db = Db(
    accounts: map<AccountId, Account>,
    clearing: map<Currency, AccountId>,
    rows: map<AccountId, Row>,
    entries: seq<Entry>,
    txns: nat)

  datatype Call =
    | Transfer(source: AccountId, destination: AccountId, amount: Money, stepUpVerified: bool)
    | Deposit(account: AccountId, amount: Money)
    | Withdraw(account: AccountId, amount: Money)

  datatype Failure =
    | InvalidAmount
    | SameAccount
    | StepUpRequired
    | AccountNotFound(id: AccountId)
    | AccountsDiffer
    | AccountNotActive(status: AccountStatus)
    | InsufficientFunds(id: AccountId)
    | Arithmetic(cause: MoneyError)
    | DuplicateClearing
    | OptimisticLock

  datatype Receipt =
    | TransferReceipt(txn: nat, source: AccountId, sourceBalance: Money, destination: AccountId,
        destinationBalance: Money)
    | MovementReceipt(txn: nat, account: AccountId, balance: Money)

  /** The clearing account this attempt creates because the lookup found none. */
  datatype Opening = Opening(id: AccountId, currency: Currency)

  /** A call whose account rows have been read and checked. `seen` is the status its first account had then. */
  datatype Movement = Movement(call: Call, seen: AccountStatus, debit: AccountId, credit: AccountId,
      opens: Option<Opening>)

  /** One balance row as this attempt holds it. `version` is None when the attempt inserts the row. */
  datatype Leg = Leg(before: Money, after: Money, version: Option<nat>)

  // ---- Reading and checking ----

  /** The account a call reads first; for a transfer or a withdrawal it is the one that pays. */
  function FirstAccount(call: Call): AccountId {
    if call.Transfer? then call.source else call.account
  }

  function CheckCommand(threshold: int, call: Call): Result<(), Failure> {
    if call.amount.minorUnits <= 0 then Failure(InvalidAmount)
    else if !call.Transfer? then Success(())
    else if call.source == call.destination then Failure(SameAccount)
    else if call.amount.minorUnits >= threshold && !call.stepUpVerified then Failure(StepUpRequired)
    else Success(())
  }

  function ReadFirst(db: Db, call: Call): Result<Account, Failure> {
    var id := FirstAccount(call);
    if id !in db.accounts then Failure(AccountNotFound(id))
    else if call.Withdraw? && db.accounts[id].status != Active then Failure(AccountNotActive(db.accounts[id].status))
    else Success(db.accounts[id])
  }

  function ReadSecond(db: Db, call: Call, first: Account, newId: AccountId): Result<Movement, Failure> {
    match call
    case Transfer(source, destination, _, _) =>
      if destination !in db.accounts then Failure(AccountNotFound(destination))
      else if first.currency != db.accounts[destination].currency then Failure(AccountsDiffer)
      else if first.status != Active then Failure(AccountNotActive(first.status))
      else Success(Movement(call, first.status, source, destination, None))
    case Deposit(account, _) =>
      var (clearing, opens) := FindClearing(db, first.currency, newId);
      Success(Movement(call, first.status, clearing, account, opens))
    case Withdraw(account, _) =>
      var (clearing, opens) := FindClearing(db, first.currency, newId);
      Success(Movement(call, first.status, account, clearing, opens))
  }

  function FindClearing(db: Db, currency: Currency, newId: AccountId): (AccountId, Option<Opening>) {
    if currency in db.clearing then (db.clearing[currency], None) else (newId, Some(Opening(newId, currency)))
  }

  function Load(db: Db, m: Movement, id: AccountId): Result<Leg, Failure> {
    if m.opens.Some? && m.opens.value.id == id then
      Success(Leg(Zero(m.opens.value.currency), Zero(m.opens.value.currency), None))
    else if id in db.rows then
      Success(Leg(db.rows[id].balance, db.rows[id].balance, Some(db.rows[id].version)))
    else Failure(AccountNotFound(id))
  }

  function Debit(db: Db, m: Movement): Result<Leg, Failure> {
    var leg :- Load(db, m, m.debit);
    match Subtract(leg.after, m.call.amount)
    case Failure(e) => Failure(Arithmetic(e))
    case Success(after) =>
      if !m.call.Deposit? && after.minorUnits < 0 then Failure(InsufficientFunds(m.debit))
      else Success(leg.(after := after))
  }

  /** The credited row; when both sides are the same account it is the row already held. */
  function Credit(db: Db, m: Movement, debited: Leg): Result<Leg, Failure> {
    var leg :- if m.credit == m.debit then Success(debited) else Load(db, m, m.credit);
    match Add(leg.after, m.call.amount)
    case Failure(e) => Failure(Arithmetic(e))
    case Success(after) => Success(leg.(after := after))
  }

  // ---- Committing ----

  /** Only a row whose balance changed is written. */
  predicate Dirty(leg: Leg) {
    leg.version.None? || leg.before != leg.after
  }

  predicate Conflicts(db: Db, id: AccountId, leg: Leg) {
    Dirty(leg) && leg.version.Some? && !(id in db.rows && db.rows[id].version == leg.version.value)
  }

  function CommitCheck(db: Db, m: Movement, d: Leg, c: Leg): Result<(), Failure> {
    if m.opens.Some? && (m.opens.value.currency in db.clearing || m.opens.value.id in db.accounts)
        then Failure(DuplicateClearing)
    else if m.debit != m.credit && Conflicts(db, m.debit, d) then Failure(OptimisticLock)
    else if Conflicts(db, m.credit, c) then Failure(OptimisticLock)
    else Success(())
  }

  function Settle(rows: map<AccountId, Row>, id: AccountId, leg: Leg): map<AccountId, Row> {
    if !Dirty(leg) then rows
    else rows[id := Row(leg.after, if leg.version.Some? then leg.version.value + 1 else 0)]
  }

  function Settled(rows: map<AccountId, Row>, m: Movement, d: Leg, c: Leg): map<AccountId, Row> {
    Settle(if m.debit == m.credit then rows else Settle(rows, m.debit, d), m.credit, c)
  }

  function Entries(txn: nat, m: Movement): seq<Entry>
    requires m.call.amount.minorUnits > 0
  {
    [Entry(txn, m.debit, Negate(m.call.amount).value), Entry(txn, m.credit, m.call.amount)]
  }

  function Apply(db: Db, m: Movement, d: Leg, c: Leg): Db
    requires m.call.amount.minorUnits > 0
  {
    Db(
      if m.opens.Some? then db.accounts[m.opens.value.id := Account(System, m.opens.value.currency, Active)]
          else db.accounts,
      if m.opens.Some? then db.clearing[m.opens.value.currency := m.opens.value.id] else db.clearing,
      Settled(db.rows, m, d, c),
      db.entries + Entries(db.txns, m),
      db.txns + 1)
  }

  function ReceiptOf(txn: nat, m: Movement, d: Leg, c: Leg): Receipt {
    match m.call
    case Transfer(source, destination, _, _) => TransferReceipt(txn, source, d.after, destination, c.after)
    case Deposit(account, _) => MovementReceipt(txn, account, c.after)
    case Withdraw(account, _) => MovementReceipt(txn, account, d.after)
  }

  // ---- One call on its own ----

  /** Everything a call decides from the account rows, its first account having status `seen`. */
  function Plan(threshold: int, db: Db, call: Call, seen: AccountStatus, newId: AccountId): Result<Movement, Failure> {
    var _ :- CheckCommand(threshold, call);
    var id := FirstAccount(call);
    if id !in db.accounts then Failure(AccountNotFound(id))
    else if call.Withdraw? && seen != Active then Failure(AccountNotActive(seen))
    else ReadSecond(db, call, db.accounts[id].(status := seen), newId)
  }

  /** A planned movement run alone: both rows, then the commit. */
  function MoveMoney(db: Db, m: Movement): Result<(Db, Receipt), Failure>
    requires m.call.amount.minorUnits > 0
  {
    var d :- Debit(db, m);
    var c :- Credit(db, m, d);
    var _ :- CommitCheck(db, m, d, c);
    Success((Apply(db, m, d, c), ReceiptOf(db.txns, m, d, c)))
  }

  /** The call run alone on `db`, from its first read to its commit. */
  function Serial(threshold: int, db: Db, call: Call, seen: AccountStatus,
      newId: AccountId): Result<(Db, Receipt), Failure> {
    var m :- Plan(threshold, db, call, seen, newId);
    PlanKeepsCall(threshold, db, call, seen, newId);
    MoveMoney(db, m)
  }

  lemma PlanKeepsCall(threshold: int, db: Db, call: Call, seen: AccountStatus, newId: AccountId)
    ensures var p := Plan(threshold, db, call, seen, newId);
            p.Success? ==> p.value.call == call && p.value.seen == seen && call.amount.minorUnits > 0
  {
  }

  // ---- Ledger invariants ----

  function TotalOf(entries: seq<Entry>, id: AccountId): int {
    if entries == [] then 0
    else
      var last := entries[|entries| - 1];
      TotalOf(entries[..|entries| - 1], id) + if last.account == id then last.amount.minorUnits else 0
  }

  function TotalIn(entries: seq<Entry>, currency: Currency): int {
    if entries == [] then 0
    else
      var last := entries[|entries| - 1];
      TotalIn(entries[..|entries| - 1], currency) + if last.amount.currency == currency
          then last.amount.minorUnits else 0
  }

  /** Transaction `t` owns entries 2t and 2t+1: one currency, summing to zero. */
  ghost predicate Pair(entries: seq<Entry>, t: nat)
    requires 2 * t + 1 < |entries|
  {
    var x, y := entries[2 * t], entries[2 * t + 1];
    x.txn == t && y.txn == t && x.amount.minorUnits + y.amount.minorUnits == 0 && x.amount.currency == y.amount.currency
  }

  ghost predicate DoubleEntry(db: Db) {
    |db.entries| == 2 * db.txns && forall t: nat :: t < db.txns ==> Pair(db.entries, t)
  }

  /** The index holds exactly the SYSTEM accounts, one a currency. */
  ghost predicate ClearingTyped(db: Db) {
    && (forall c :: c in db.clearing ==>
          db.clearing[c] in db.accounts && db.accounts[db.clearing[c]].kind == System &&
              db.accounts[db.clearing[c]].currency == c)
    && (forall id :: id in db.accounts && db.accounts[id].kind == System ==>
          db.accounts[id].currency in db.clearing && db.clearing[db.accounts[id].currency] == id)
  }

  ghost predicate WellTyped(db: Db) {
    && (forall id :: id in db.rows ==> id in db.accounts && db.rows[id].balance.currency == db.accounts[id].currency)
    && (forall e :: e in db.entries ==> e.account in db.rows && e.amount.currency == db.accounts[e.account].currency)
    && ClearingTyped(db)
  }

  ghost predicate Balanced(db: Db) {
    forall id :: id in db.rows ==> db.rows[id].balance.minorUnits == TotalOf(db.entries, id)
  }

  ghost predicate Solvent(db: Db) {
    forall id :: id in db.rows && id in db.accounts && db.accounts[id].kind != System ==>
        db.rows[id].balance.minorUnits >= 0
  }

  ghost predicate Sound(db: Db) {
    WellTyped(db) && DoubleEntry(db) && Balanced(db) && Solvent(db)
  }

  lemma TotalOfAppend(entries: seq<Entry>, txn: nat, m: Movement, id: AccountId)
    requires m.call.amount.minorUnits > 0
    ensures TotalOf(entries + Entries(txn, m), id) ==
            TotalOf(entries, id) - (if m.debit == id then m.call.amount.minorUnits else 0)
                                 + (if m.credit == id then m.call.amount.minorUnits else 0)
  {
    var es := Entries(txn, m);
    assert (entries + es)[..|entries| + 1] == entries + [es[0]];
    assert (entries + [es[0]])[..|entries|] == entries;
  }

  lemma {:induction false} TotalOfUnknown(entries: seq<Entry>, id: AccountId)
    requires forall e :: e in entries ==> e.account != id
    ensures TotalOf(entries, id) == 0
  {
    if entries != [] {
      TotalOfUnknown(entries[..|entries| - 1], id);
    }
  }

  lemma TotalInAppend(entries: seq<Entry>, x: Entry, y: Entry, currency: Currency)
    requires x.amount.minorUnits + y.amount.minorUnits == 0 && x.amount.currency == y.amount.currency
    ensures TotalIn(entries + [x, y], currency) == TotalIn(entries, currency)
  {
    assert (entries + [x, y])[..|entries| + 1] == entries + [x];
    assert (entries + [x])[..|entries|] == entries;
  }

  /** Every currency's entries cancel out, over any number of leading transactions. */
  lemma {:induction false} CurrencyTotalsZero(db: Db, txns: nat, currency: Currency)
    requires DoubleEntry(db) && txns <= db.txns
    ensures TotalIn(db.entries[..2 * txns], currency) == 0
  {
    if txns > 0 {
      var t := txns - 1;
      CurrencyTotalsZero(db, t, currency);
      assert Pair(db.entries, t);
      assert db.entries[..2 * txns] == db.entries[..2 * t] + [db.entries[2 * t], db.entries[2 * t + 1]];
      TotalInAppend(db.entries[..2 * t], db.entries[2 * t], db.entries[2 * t + 1], currency);
    }
  }

  /** A leg that still describes the committed row, or a row about to be inserted. */
  ghost predicate Current(db: Db, m: Movement, id: AccountId, leg: Leg) {
    if m.opens.Some? && m.opens.value.id == id then
      leg.version.None? && leg.before == Zero(m.opens.value.currency)
    else
      leg.version.Some? && id in db.rows && db.rows[id] == Row(leg.before, leg.version.value)
  }

  /** What Debit and Credit establish about the two legs they produce. */
  ghost predicate Legs(m: Movement, d: Leg, c: Leg) {
    && m.call.amount.minorUnits > 0
    && d.before.currency == d.after.currency == c.before.currency == c.after.currency == m.call.amount.currency
    && d.after.minorUnits == d.before.minorUnits - m.call.amount.minorUnits
    && (!m.call.Deposit? ==> d.after.minorUnits >= 0)
    && (if m.debit == m.credit then c.before == d.before && c.version == d.version && c.after == d.before
        else c.after.minorUnits == c.before.minorUnits + m.call.amount.minorUnits)
  }

  /** The account rows a movement was planned from still stand. */
  ghost predicate Planned(db: Db, m: Movement) {
    && m.call.amount.minorUnits > 0
    && FirstAccount(m.call) in db.accounts
    && (m.call.Transfer? ==>
        m.debit == m.call.source && m.credit == m.call.destination && m.debit != m.credit && m.opens.None? &&
        m.credit in db.accounts)
    && (m.call.Deposit? ==> m.credit == m.call.account)
    && (m.call.Withdraw? ==> m.debit == m.call.account)
    && (!m.call.Transfer? ==>
          var currency := db.accounts[m.call.account].currency;
          var clearing := if m.call.Deposit? then m.debit else m.credit;
          if m.opens.Some? then m.opens.value == Opening(clearing, currency)
          else currency in db.clearing && db.clearing[currency] == clearing)
  }

  lemma PlanStands(threshold: int, db: Db, call: Call, seen: AccountStatus, newId: AccountId)
    ensures var p := Plan(threshold, db, call, seen, newId); p.Success? ==> Planned(db, p.value)
  {
  }

  /** What a commit needs of the database it lands on: both rows current, or both sides one account. */
  ghost predicate Lands(db: Db, m: Movement, d: Leg, c: Leg) {
    && Planned(db, m) && Legs(m, d, c)
    && (m.opens.Some? ==> m.opens.value.currency !in db.clearing && m.opens.value.id !in db.accounts)
    && if m.debit == m.credit then
         m.opens.None? && m.debit in db.rows && db.rows[m.debit].balance.currency == m.call.amount.currency &&
             c.version.Some?
       else Current(db, m, m.debit, d) && Current(db, m, m.credit, c)
  }

  function Units(db: Db, id: AccountId): int {
    if id in db.rows then db.rows[id].balance.minorUnits else 0
  }

  /** What the movement adds to an account. */
  function Delta(m: Movement, id: AccountId): int {
    (if m.credit == id then m.call.amount.minorUnits else 0) - (if m.debit == id then m.call.amount.minorUnits else 0)
  }

  /** Exactly the debited and the credited account move, by the amount, and no other row changes. */
  lemma ApplyEffect(db: Db, m: Movement, d: Leg, c: Leg, id: AccountId)
    requires WellTyped(db) && Lands(db, m, d, c)
    ensures Units(Apply(db, m, d, c), id) == Units(db, id) + Delta(m, id)
    ensures Delta(m, id) == 0 && id != m.debit ==> (id in Apply(db, m, d, c).rows <==> id in db.rows)
    ensures id in db.rows && Delta(m, id) == 0 ==> Apply(db, m, d, c).rows[id] == db.rows[id]
    ensures id in Apply(db, m, d, c).rows && id !in db.rows ==> m.opens.Some? && id == m.opens.value.id
    ensures id in db.rows ==>
            id in Apply(db, m, d, c).rows && Apply(db, m, d, c).rows[id].balance.currency ==
            db.rows[id].balance.currency
  {
  }

  /** A written row's version goes up by one; every other row is untouched. */
  lemma ApplyVersions(db: Db, m: Movement, d: Leg, c: Leg, id: AccountId)
    requires WellTyped(db) && Lands(db, m, d, c) && id in db.rows
    ensures var rows := Apply(db, m, d, c).rows;
            id in rows && if m.debit != m.credit && (id == m.debit || id == m.credit)
                          then rows[id].version == db.rows[id].version + 1 else rows[id] == db.rows[id]
  {
  }

  lemma ApplyBalanced(db: Db, m: Movement, d: Leg, c: Leg)
    requires Sound(db) && Lands(db, m, d, c)
    ensures Balanced(Apply(db, m, d, c))
  {
    var next := Apply(db, m, d, c);
    forall id | id in next.rows
      ensures next.rows[id].balance.minorUnits == TotalOf(next.entries, id)
    {
      ApplyEffect(db, m, d, c, id);
      TotalOfAppend(db.entries, db.txns, m, id);
      if id !in db.rows {
        TotalOfUnknown(db.entries, id);
      }
    }
  }

  lemma ApplyDoubleEntry(db: Db, m: Movement, d: Leg, c: Leg)
    requires DoubleEntry(db) && m.call.amount.minorUnits > 0
    ensures DoubleEntry(Apply(db, m, d, c))
  {
    var next := Apply(db, m, d, c);
    forall t: nat | t < next.txns
      ensures Pair(next.entries, t)
    {
      if t < db.txns {
        assert Pair(db.entries, t);
      }
    }
  }

  lemma ApplyRowsTyped(db: Db, m: Movement, d: Leg, c: Leg, id: AccountId)
    requires WellTyped(db) && Lands(db, m, d, c)
    ensures var next := Apply(db, m, d, c);
            && (id in next.rows ==> id in next.accounts && next.rows[id].balance.currency == next.accounts[id].currency)
            && (id in db.rows || id == m.debit || id == m.credit ==> id in next.rows)
  {
    ApplyEffect(db, m, d, c, id);
  }

  lemma ApplyEntriesTyped(db: Db, m: Movement, d: Leg, c: Leg, e: Entry)
    requires WellTyped(db) && Lands(db, m, d, c) && e in Apply(db, m, d, c).entries
    ensures var next := Apply(db, m, d, c);
            e.account in next.rows && e.account in next.accounts &&
                e.amount.currency == next.accounts[e.account].currency
  {
    ApplyRowsTyped(db, m, d, c, e.account);
    if e !in db.entries {
      assert e in Entries(db.txns, m);
      LegCurrencies(db, m, d, c);
    } else {
      ApplyAccounts(db, m, d, c, e.account);
    }
  }

  /** Both sides are in the movement's currency. */
  lemma LegCurrencies(db: Db, m: Movement, d: Leg, c: Leg)
    requires WellTyped(db) && Lands(db, m, d, c)
    ensures var accounts := Apply(db, m, d, c).accounts;
            && m.debit in accounts && accounts[m.debit].currency == m.call.amount.currency
            && m.credit in accounts && accounts[m.credit].currency == m.call.amount.currency
  {
  }

  /** An account that was there is unchanged. */
  lemma ApplyAccounts(db: Db, m: Movement, d: Leg, c: Leg, id: AccountId)
    requires Lands(db, m, d, c) && id in db.accounts
    ensures id in Apply(db, m, d, c).accounts && Apply(db, m, d, c).accounts[id] == db.accounts[id]
  {
  }

  lemma ApplyClearing(db: Db, m: Movement, d: Leg, c: Leg)
    requires WellTyped(db) && Lands(db, m, d, c)
    ensures ClearingTyped(Apply(db, m, d, c))
  {
  }

  lemma ApplyWellTyped(db: Db, m: Movement, d: Leg, c: Leg)
    requires WellTyped(db) && Lands(db, m, d, c)
    ensures WellTyped(Apply(db, m, d, c))
  {
    var next := Apply(db, m, d, c);
    forall id | id in next.rows
      ensures id in next.accounts && next.rows[id].balance.currency == next.accounts[id].currency
    {
      ApplyRowsTyped(db, m, d, c, id);
    }
    forall e | e in next.entries
      ensures e.account in next.rows && e.amount.currency == next.accounts[e.account].currency
    {
      ApplyEntriesTyped(db, m, d, c, e);
    }
    ApplyClearing(db, m, d, c);
  }

  lemma ApplySolvent(db: Db, m: Movement, d: Leg, c: Leg)
    requires WellTyped(db) && Solvent(db) && Lands(db, m, d, c)
    ensures Solvent(Apply(db, m, d, c))
  {
    var next := Apply(db, m, d, c);
    forall id | id in next.rows && id in next.accounts && next.accounts[id].kind != System
      ensures next.rows[id].balance.minorUnits >= 0
    {
      ApplyEffect(db, m, d, c, id);
    }
  }

  /** A commit keeps every ledger invariant. */
  lemma ApplySound(db: Db, m: Movement, d: Leg, c: Leg)
    requires Sound(db) && Lands(db, m, d, c)
    ensures Sound(Apply(db, m, d, c))
  {
    ApplyWellTyped(db, m, d, c);
    ApplyDoubleEntry(db, m, d, c);
    ApplyBalanced(db, m, d, c);
    ApplySolvent(db, m, d, c);
  }
}
