/** The audit that compares ledger sums with balance rows. */
module Reconciliation {
  import opened Monetary
  import opened Ledger
  import opened Concurrency
  import opened SerialEquivalence

  datatype Discrepancy =
    | CurrencyOff(currency: Currency, sum: int)
    | BalanceOff(account: AccountId, actual: int, expected: int)

  function Currencies(entries: seq<Entry>): set<Currency> {
    set e | e in entries :: e.amount.currency
  }

  /** One group per currency that occurs in the ledger. */
  function SumAmountsByCurrency(entries: seq<Entry>): map<Currency, int> {
    map c | c in Currencies(entries) :: TotalIn(entries, c)
  }

  /** One group per account that occurs in the ledger. */
  function SumAmountsByAccount(entries: seq<Entry>): map<AccountId, int> {
    map id | id in (set e | e in entries :: e.account) :: TotalOf(entries, id)
  }

  ghost predicate Wrong(db: Db, d: Discrepancy) {
    match d
    case CurrencyOff(currency, sum) => currency in Currencies(db.entries) && sum == TotalIn(db.entries, currency) &&
        sum != 0
    case BalanceOff(id, actual, expected) =>
      id in db.rows && actual == db.rows[id].balance.minorUnits && expected == TotalOf(db.entries, id) &&
          actual != expected
  }

  /** Every currency's entries cancel and every balance row is the sum of its account's entries. */
  ghost predicate Healthy(db: Db) {
    && (forall c :: TotalIn(db.entries, c) == 0)
    && (forall id :: id in db.rows ==> db.rows[id].balance.minorUnits == TotalOf(db.entries, id))
  }

  predicate Distinct(report: seq<Discrepancy>) {
    forall i, j :: 0 <= i < j < |report| ==> report[i] != report[j]
  }

  lemma {:induction false} TotalInAbsent(entries: seq<Entry>, currency: Currency)
    requires currency !in Currencies(entries)
    ensures TotalIn(entries, currency) == 0
  {
    if entries != [] {
      assert entries[|entries| - 1].amount.currency in Currencies(entries);
      assert Currencies(entries[..|entries| - 1]) <= Currencies(entries);
      TotalInAbsent(entries[..|entries| - 1], currency);
    }
  }

  /** Nothing to report means healthy, and the reverse. */
  lemma NothingWrongIsHealthy(db: Db)
    ensures Healthy(db) <==> forall d :: !Wrong(db, d)
  {
    if forall d :: !Wrong(db, d) {
      forall c ensures TotalIn(db.entries, c) == 0 {
        if c in Currencies(db.entries) {
          assert !Wrong(db, CurrencyOff(c, TotalIn(db.entries, c)));
        } else {
          TotalInAbsent(db.entries, c);
        }
      }
      forall id | id in db.rows ensures db.rows[id].balance.minorUnits == TotalOf(db.entries, id) {
        assert !Wrong(db, BalanceOff(id, db.rows[id].balance.minorUnits, TotalOf(db.entries, id)));
      }
    }
  }

  /** Reports each discrepancy once and nothing else, so the report is empty exactly on a healthy ledger. */
  method Reconcile(db: Db) returns (report: seq<Discrepancy>)
    ensures forall d :: d in report <==> Wrong(db, d)
    ensures Distinct(report)
    ensures report == [] <==> Healthy(db)
  {
    report := [];
    var sums := SumAmountsByCurrency(db.entries);
    var currencies := sums.Keys;
    while currencies != {}
      invariant currencies <= sums.Keys
      invariant forall d :: d in report <==> Wrong(db, d) && d.CurrencyOff? && d.currency !in currencies
      invariant Distinct(report)
    {
      var currency :| currency in currencies;
      if sums[currency] != 0 {
        report := report + [CurrencyOff(currency, sums[currency])];
      }
      currencies := currencies - {currency};
    }

    var entrySums := SumAmountsByAccount(db.entries);
    var ids := db.rows.Keys;
    while ids != {}
      invariant ids <= db.rows.Keys
      invariant forall d :: d in report <==> Wrong(db, d) && (d.CurrencyOff? || d.account !in ids)
      invariant Distinct(report)
    {
      var id :| id in ids;
      if id !in entrySums {
        TotalOfUnknown(db.entries, id);
      }
      var expected := if id in entrySums then entrySums[id] else 0;
      var actual := db.rows[id].balance.minorUnits;
      if expected != actual {
        report := report + [BalanceOff(id, actual, expected)];
      }
      ids := ids - {id};
    }
    NothingWrongIsHealthy(db);
    if report != [] {
      assert report[0] in report;
    }
  }

  /** No interleaving of calls ever makes the audit report anything. */
  lemma AlwaysHealthy(start: Bank, events: seq<Event>)
    requires Initial(start)
    ensures Healthy(Run(start, events).db)
  {
    LedgerAlwaysHolds(start, events);
  }

  /** Changing the units of any one balance row of a healthy ledger is reported. */
  lemma CorruptedRowReported(db: Db, id: AccountId, row: Row)
    requires Healthy(db) && id in db.rows && row.balance.minorUnits != db.rows[id].balance.minorUnits
    ensures var corrupted := db.(rows := db.rows[id := row]);
            !Healthy(corrupted) && forall d :: Wrong(corrupted, d) <==>
                d == BalanceOff(id, row.balance.minorUnits, db.rows[id].balance.minorUnits)
  {
    var corrupted := db.(rows := db.rows[id := row]);
    assert corrupted.rows[id] == row;
  }
}
