/** The pages the feed is made of, taken from the statement query itself. The feed reads a log in order of arrival, the
    query lists by time and id; the two agree as long as entries become visible in that order. */
module FeedPages {
  import opened Wrappers
  import opened Statement
  import Feed = NotificationFeed

  /** Later arrivals come first in the listing. */
  predicate ArrivesInOrder(entries: seq<Entry>) {
    forall i, j :: 0 <= i < j < |entries| ==> Precedes(KeyOf(entries[j]), KeyOf(entries[i]))
  }

  /** The account's entries in order of arrival. */
  function Arrivals(store: Store, range: Range): seq<Entry> {
    Matching(store.entries, range, None)
  }

  /** The log as the feed shows it. */
  function FeedLog(store: Store, range: Range): (log: seq<StatementEntry>)
    ensures |log| == |Arrivals(store, range)|
  {
    var entries := Arrivals(store, range);
    seq(|entries|, i requires 0 <= i < |entries| => Described(store.descriptions, entries[i]))
  }

  /** The feed shows the account's own entries, each with its fields and its transaction's description. */
  lemma FeedLogRows(store: Store, range: Range)
    ensures RowsOf(store, Arrivals(store, range), FeedLog(store, range))
    ensures forall e :: e in Arrivals(store, range) <==>
              e in store.entries && e.account == range.account && range.from <= e.createdAt <= range.to
  {
    MatchingElements(store.entries, range, None);
  }

  function Backwards(s: seq<Entry>): (r: seq<Entry>)
    ensures |r| == |s|
  {
    seq(|s|, i requires 0 <= i < |s| => s[|s| - 1 - i])
  }

  lemma BackwardsElements(s: seq<Entry>)
    ensures SameElements(Backwards(s), s)
  {
    forall e | e in s ensures e in Backwards(s) {
      var i :| 0 <= i < |s| && s[i] == e;
      assert Backwards(s)[|s| - 1 - i] == e;
    }
  }

  lemma ListingIsBackwards(store: Store, range: Range)
    requires DistinctIds(store.entries) && ArrivesInOrder(Arrivals(store, range))
    ensures Listing(store, range, None) == Backwards(Arrivals(store, range))
  {
    var entries := Arrivals(store, range);
    ListingOrdered(store, range, None);
    MatchingElements(store.entries, range, None);
    BackwardsElements(entries);
    OrderedUnique(Listing(store, range, None), Backwards(entries));
  }

  lemma {:induction false} ReversedAt(s: seq<StatementEntry>, i: nat)
    requires i < |s|
    ensures Feed.Reversed(s)[i] == s[|s| - 1 - i]
  {
    if i < |s| - 1 {
      ReversedAt(s[1..], i);
    }
  }

  lemma RecentAt(log: seq<StatementEntry>, size: nat, i: nat)
    requires i < size && i < |log|
    ensures i < |Feed.Recent(log, size)| && Feed.Recent(log, size)[i] == log[|log| - 1 - i]
  {
    ReversedAt(log[if |log| > size then |log| - size else 0..], i);
  }

  /** If the account's entries arrived in listing order, the page the poller asks for is the newest end of its log. */
  lemma PageIsRecent(store: Store, range: Range, pageSize: nat, page: Page)
    requires pageSize >= 1 && DistinctIds(store.entries) && ArrivesInOrder(Arrivals(store, range))
    requires GetStatement(store, range, pageSize, None) == Success(page)
    ensures page.entries == Feed.Recent(FeedLog(store, range), pageSize)
  {
    var all, log := Listing(store, range, None), FeedLog(store, range);
    ListingIsBackwards(store, range);
    StatementEntriesAre(store.descriptions, Window(all, pageSize));
    forall i: nat | i < |page.entries| ensures page.entries[i] == Feed.Recent(log, pageSize)[i] {
      RecentAt(log, pageSize, i);
    }
  }

  // ---- Without that order ----

  function ShownKey(d: StatementEntry): Key {
    Key(d.createdAt, d.id)
  }

  predicate ShownOrdered(s: seq<StatementEntry>) {
    forall i, j :: 0 <= i < j < |s| ==> Precedes(ShownKey(s[i]), ShownKey(s[j]))
  }

  lemma PageOrdered(store: Store, range: Range, pageSize: nat, page: Page)
    requires pageSize >= 1 && DistinctIds(store.entries) && GetStatement(store, range, pageSize, None) == Success(page)
    ensures ShownOrdered(page.entries)
  {
    ListingOrdered(store, range, None);
    StatementEntriesAre(store.descriptions, Window(Listing(store, range, None), pageSize));
  }

  /** The entry is listed before the last seen one, if that one is listed at all. */
  predicate NewerThanSeen(s: seq<StatementEntry>, d: StatementEntry, seen: nat) {
    forall i :: 0 <= i < |s| && s[i].id == seen ==> Precedes(ShownKey(d), ShownKey(s[i]))
  }

  lemma {:induction false} TakenAreNewer(s: seq<StatementEntry>, seen: nat, d: StatementEntry)
    requires ShownOrdered(s)
    ensures d in Feed.TakeUntil(s, seen) <==> d in s && NewerThanSeen(s, d, seen)
  {
    if s != [] && s[0].id != seen {
      TakenAreNewer(s[1..], seen, d);
      assert s == [s[0]] + s[1..];
      assert forall i :: 0 < i < |s| ==> s[i] == s[1..][i - 1];
      if d in s[1..] {
        assert NewerThanSeen(s, d, seen) <==> NewerThanSeen(s[1..], d, seen);
      }
    } else if s != [] && d in s {
      var i :| 0 <= i < |s| && s[i] == d;
      assert !Precedes(ShownKey(d), ShownKey(s[0]));
    }
  }

  /** Whatever the order of arrival, one poll of an account sends the entries on its page that are newer than the last
      seen one, so an entry that becomes visible late, with an older time, is not among them. */
  lemma SentAreNewer(store: Store, range: Range, pageSize: nat, page: Page, seen: nat, d: StatementEntry)
    requires pageSize >= 1 && DistinctIds(store.entries) && GetStatement(store, range, pageSize, None) == Success(page)
    ensures d in Feed.TakeUntil(page.entries, seen) <==> d in page.entries && NewerThanSeen(page.entries, d, seen)
  {
    PageOrdered(store, range, pageSize, page);
    TakenAreNewer(page.entries, seen, d);
  }
}
