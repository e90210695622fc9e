/** What each call does when it runs alone, case by case on the database and the call: the errors in the order they are
    found, the rows and entries written, and the receipt. */
module SerialForm {
  import opened Wrappers
  import opened Monetary
  import opened Ledger

  type Answer = Result<(Db, Receipt), Failure>

  /** Two rows written, the payer's and the payee's, and the two entries of the next transaction. */
  function Moved(db: Db, payer: AccountId, paid: Row, payee: AccountId, received: Row, amount: Money): Db
    requires amount.minorUnits > 0
  {
    db.(rows := db.rows[payer := paid][payee := received],
        entries := db.entries + [Entry(db.txns, payer, Money(-amount.minorUnits, amount.currency)),
                                 Entry(db.txns, payee, amount)],
        txns := db.txns + 1)
  }

  /** A row whose balance changes by `change`. */
  function Changed(row: Row, change: int): Row
    requires FitsLong(row.balance.minorUnits + change)
  {
    Row(Money(row.balance.minorUnits + change, row.balance.currency), row.version + 1)
  }

  /** A transfer. */
  lemma TransferAnswer(
    threshold: int, db: Db, source: AccountId, destination: AccountId, amount: Money, verified: bool,
    status: AccountStatus, newId: AccountId)
    ensures
      var units := amount.minorUnits;
      var r: Answer := Serial(threshold, db, Transfer(source, destination, amount, verified), status, newId);
      if units <= 0 then r == Failure(InvalidAmount)
      else if source == destination then r == Failure(SameAccount)
      else if units >= threshold && !verified then r == Failure(StepUpRequired)
      else if source !in db.accounts then r == Failure(AccountNotFound(source))
      else if destination !in db.accounts then r == Failure(AccountNotFound(destination))
      else if db.accounts[source].currency != db.accounts[destination].currency then r == Failure(AccountsDiffer)
      else if status != Active then r == Failure(AccountNotActive(status))
      else if source !in db.rows then r == Failure(AccountNotFound(source))
      else if db.rows[source].balance.currency != amount.currency then r == Failure(Arithmetic(CurrencyMismatch))
      else if db.rows[source].balance.minorUnits - units < MIN_LONG then r == Failure(Arithmetic(Overflow))
      else if db.rows[source].balance.minorUnits < units then r == Failure(InsufficientFunds(source))
      else if destination !in db.rows then r == Failure(AccountNotFound(destination))
      else if db.rows[destination].balance.currency != amount.currency then r == Failure(Arithmetic(CurrencyMismatch))
      else if db.rows[destination].balance.minorUnits + units > MAX_LONG then r == Failure(Arithmetic(Overflow))
      else
        var paid, received := Changed(db.rows[source], -units), Changed(db.rows[destination], units);
        r == Success((Moved(db, source, paid, destination, received, amount),
                      TransferReceipt(db.txns, source, paid.balance, destination, received.balance)))
  {
  }

  /** A deposit in a currency that has a clearing account: that account pays, below zero if need be. */
  lemma DepositAnswer(
    threshold: int, db: Db, account: AccountId, amount: Money, status: AccountStatus, newId: AccountId)
    requires account in db.accounts && db.accounts[account].currency in db.clearing
    ensures
      var units := amount.minorUnits;
      var clearing := db.clearing[db.accounts[account].currency];
      var r: Answer := Serial(threshold, db, Deposit(account, amount), status, newId);
      if units <= 0 then r == Failure(InvalidAmount)
      else if clearing !in db.rows then r == Failure(AccountNotFound(clearing))
      else if db.rows[clearing].balance.currency != amount.currency then r == Failure(Arithmetic(CurrencyMismatch))
      else if db.rows[clearing].balance.minorUnits - units < MIN_LONG then r == Failure(Arithmetic(Overflow))
      else if clearing == account then
        r == Success((Moved(db, account, db.rows[account], account, db.rows[account], amount),
                      MovementReceipt(db.txns, account, db.rows[account].balance)))
      else if account !in db.rows then r == Failure(AccountNotFound(account))
      else if db.rows[account].balance.currency != amount.currency then r == Failure(Arithmetic(CurrencyMismatch))
      else if db.rows[account].balance.minorUnits + units > MAX_LONG then r == Failure(Arithmetic(Overflow))
      else
        var paid, received := Changed(db.rows[clearing], -units), Changed(db.rows[account], units);
        r == Success((Moved(db, clearing, paid, account, received, amount),
                      MovementReceipt(db.txns, account, received.balance)))
  {
    var c := db.clearing[db.accounts[account].currency];
    if c == account && account in db.rows {
      assert db.rows[account := db.rows[account]][account := db.rows[account]] == db.rows;
    }
  }

  /** A withdrawal in a currency that has a clearing account: that account is paid. */
  lemma WithdrawAnswer(
    threshold: int, db: Db, account: AccountId, amount: Money, status: AccountStatus, newId: AccountId)
    requires account in db.accounts && db.accounts[account].currency in db.clearing
    ensures
      var units := amount.minorUnits;
      var clearing := db.clearing[db.accounts[account].currency];
      var r: Answer := Serial(threshold, db, Withdraw(account, amount), status, newId);
      if units <= 0 then r == Failure(InvalidAmount)
      else if status != Active then r == Failure(AccountNotActive(status))
      else if account !in db.rows then r == Failure(AccountNotFound(account))
      else if db.rows[account].balance.currency != amount.currency then r == Failure(Arithmetic(CurrencyMismatch))
      else if db.rows[account].balance.minorUnits - units < MIN_LONG then r == Failure(Arithmetic(Overflow))
      else if db.rows[account].balance.minorUnits < units then r == Failure(InsufficientFunds(account))
      else if clearing == account then
        r == Success((Moved(db, account, db.rows[account], account, db.rows[account], amount),
                      MovementReceipt(db.txns, account, Changed(db.rows[account], -units).balance)))
      else if clearing !in db.rows then r == Failure(AccountNotFound(clearing))
      else if db.rows[clearing].balance.currency != amount.currency then r == Failure(Arithmetic(CurrencyMismatch))
      else if db.rows[clearing].balance.minorUnits + units > MAX_LONG then r == Failure(Arithmetic(Overflow))
      else
        var paid, received := Changed(db.rows[account], -units), Changed(db.rows[clearing], units);
        r == Success((Moved(db, account, paid, clearing, received, amount),
                      MovementReceipt(db.txns, account, paid.balance)))
  {
    var c := db.clearing[db.accounts[account].currency];
    if c == account && account in db.rows {
      assert db.rows[account := db.rows[account]][account := db.rows[account]] == db.rows;
    }
  }

  /** The database with the currency's clearing account, empty, under an unused id. */
  function WithClearing(db: Db, currency: Currency, newId: AccountId): Db {
    db.(accounts := db.accounts[newId := Account(System, currency, Active)], clearing := db.clearing[currency := newId])
  }

  /** The first deposit in a currency also creates its clearing account. */
  lemma OpeningDepositAnswer(
    threshold: int, db: Db, account: AccountId, amount: Money, status: AccountStatus, newId: AccountId)
    requires account in db.accounts && db.accounts[account].currency !in db.clearing && newId !in db.accounts
    ensures
      var units, currency := amount.minorUnits, db.accounts[account].currency;
      var r: Answer := Serial(threshold, db, Deposit(account, amount), status, newId);
      if units <= 0 then r == Failure(InvalidAmount)
      else if currency != amount.currency then r == Failure(Arithmetic(CurrencyMismatch))
      else if account !in db.rows then r == Failure(AccountNotFound(account))
      else if db.rows[account].balance.currency != amount.currency then r == Failure(Arithmetic(CurrencyMismatch))
      else if db.rows[account].balance.minorUnits + units > MAX_LONG then r == Failure(Arithmetic(Overflow))
      else
        var received := Changed(db.rows[account], units);
        r == Success((Moved(WithClearing(db, currency, newId), newId, Row(Money(-units, currency), 0),
                            account, received, amount),
                      MovementReceipt(db.txns, account, received.balance)))
  {
  }

  /** The first withdrawal in a currency too. */
  lemma OpeningWithdrawAnswer(
    threshold: int, db: Db, account: AccountId, amount: Money, status: AccountStatus, newId: AccountId)
    requires account in db.accounts && db.accounts[account].currency !in db.clearing && newId !in db.accounts
    ensures
      var units, currency := amount.minorUnits, db.accounts[account].currency;
      var r: Answer := Serial(threshold, db, Withdraw(account, amount), status, newId);
      if units <= 0 then r == Failure(InvalidAmount)
      else if status != Active then r == Failure(AccountNotActive(status))
      else if account !in db.rows then r == Failure(AccountNotFound(account))
      else if db.rows[account].balance.currency != amount.currency then r == Failure(Arithmetic(CurrencyMismatch))
      else if db.rows[account].balance.minorUnits - units < MIN_LONG then r == Failure(Arithmetic(Overflow))
      else if db.rows[account].balance.minorUnits < units then r == Failure(InsufficientFunds(account))
      else if currency != amount.currency then r == Failure(Arithmetic(CurrencyMismatch))
      else
        var paid := Changed(db.rows[account], -units);
        r == Success((Moved(WithClearing(db, currency, newId), account, paid, newId, Row(amount, 0), amount),
                      MovementReceipt(db.txns, account, paid.balance)))
  {
  }

  /** Deposits and withdrawals on unknown accounts, and ids for a clearing account that are taken. */
  lemma OtherAnswers(
    threshold: int, db: Db, account: AccountId, amount: Money, status: AccountStatus, newId: AccountId)
    ensures
      account !in db.accounts ==>
        var failure := if amount.minorUnits <= 0 then InvalidAmount else AccountNotFound(account);
        && Serial(threshold, db, Deposit(account, amount), status, newId) == Failure(failure)
        && Serial(threshold, db, Withdraw(account, amount), status, newId) == Failure(failure)
    ensures
      account in db.accounts && db.accounts[account].currency !in db.clearing && newId in db.accounts ==>
        && Serial(threshold, db, Deposit(account, amount), status, newId).Failure?
        && Serial(threshold, db, Withdraw(account, amount), status, newId).Failure?
  {
  }

  predicate IsClearing(db: Db, account: AccountId) {
    account in db.accounts && db.accounts[account].currency in db.clearing
    && db.clearing[db.accounts[account].currency] == account
  }

  /** Whatever the call: on success the receipt carries the transaction just posted, names the call's accounts, and
      shows their balances as they now are; an account on both sides of a withdrawal is the one exception. */
  lemma ReceiptShowsBalances(threshold: int, db: Db, call: Call, status: AccountStatus, newId: AccountId)
    requires Serial(threshold, db, call, status, newId).Success?
    ensures
      var (db', receipt) := Serial(threshold, db, call, status, newId).value;
      receipt.txn == db.txns && db'.txns == db.txns + 1 &&
      match call
      case Transfer(source, destination, _, _) =>
        && receipt.TransferReceipt? && receipt.source == source && receipt.destination == destination
        && source in db'.rows && receipt.sourceBalance == db'.rows[source].balance
        && destination in db'.rows && receipt.destinationBalance == db'.rows[destination].balance
      case Deposit(account, _) =>
        && receipt.MovementReceipt? && receipt.account == account
        && account in db'.rows && receipt.balance == db'.rows[account].balance
      case Withdraw(account, _) =>
        && receipt.MovementReceipt? && receipt.account == account && account in db'.rows
        && (!IsClearing(db, account) ==> receipt.balance == db'.rows[account].balance)
  {
    match call
    case Transfer(source, destination, amount, verified) =>
      TransferAnswer(threshold, db, source, destination, amount, verified, status, newId);
    case Deposit(account, amount) =>
      OtherAnswers(threshold, db, account, amount, status, newId);
      if account in db.accounts && db.accounts[account].currency in db.clearing {
        DepositAnswer(threshold, db, account, amount, status, newId);
      } else if newId !in db.accounts {
        OpeningDepositAnswer(threshold, db, account, amount, status, newId);
      }
    case Withdraw(account, amount) =>
      OtherAnswers(threshold, db, account, amount, status, newId);
      if account in db.accounts && db.accounts[account].currency in db.clearing {
        WithdrawAnswer(threshold, db, account, amount, status, newId);
      } else if newId !in db.accounts {
        OpeningWithdrawAnswer(threshold, db, account, amount, status, newId);
      }
  }
}
