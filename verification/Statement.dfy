/** Account statements: the full listing and its keyset pages. */
module Statement {
  import opened Wrappers
  import opened Numerals
  import opened Monetary

  type Account = nat
  type TransactionId = nat

  datatype Entry = Entry(id: nat, transaction: TransactionId, account: Account, amount: Money, createdAt: nat)

  /** A transaction may have no description. */
  datatype Store = Store(entries: seq<Entry>, descriptions: map<TransactionId, Option<string>>)

  datatype Key = Key(createdAt: nat, id: nat)
  datatype Range = Range(account: Account, from: nat, to: nat)
  datatype StatementEntry = StatementEntry(id: nat, transaction: TransactionId, createdAt: nat, amount: Money,
      description: Option<string>)
  datatype Page = Page(entries: seq<StatementEntry>, nextCursor: Option<string>, hasNext: bool)
  datatype StatementError = MalformedCursor | MissingDescription | RangeTooLarge(found: nat)

  const MAX_EXPORT_ROWS := 10_000

  // ---- The repository ----

  function KeyOf(e: Entry): Key {
    Key(e.createdAt, e.id)
  }

  /** Newest first; the id decides between equal times. */
  predicate Precedes(a: Key, b: Key) {
    a.createdAt > b.createdAt || (a.createdAt == b.createdAt && a.id > b.id)
  }

  predicate InRange(e: Entry, range: Range) {
    e.account == range.account && range.from <= e.createdAt <= range.to
  }

  /** Entries of a range that come after a position in the listing. */
  predicate Matches(e: Entry, range: Range, position: Option<Key>) {
    InRange(e, range) && (position.Some? ==> Precedes(position.value, KeyOf(e)))
  }

  function Matching(entries: seq<Entry>, range: Range, position: Option<Key>): seq<Entry> {
    if entries == [] then [] else
      var rest := Matching(entries[..|entries| - 1], range, position);
      var last := entries[|entries| - 1];
      if Matches(last, range, position) then rest + [last] else rest
  }

  function Insert(e: Entry, s: seq<Entry>): seq<Entry> {
    if s == [] || Precedes(KeyOf(e), KeyOf(s[0])) then [e] + s else [s[0]] + Insert(e, s[1..])
  }

  function Sorted(s: seq<Entry>): seq<Entry> {
    if s == [] then [] else Insert(s[|s| - 1], Sorted(s[..|s| - 1]))
  }

  /** The query ordered by createdAt and id, both descending. */
  function Listing(store: Store, range: Range, position: Option<Key>): seq<Entry> {
    Sorted(Matching(store.entries, range, position))
  }

  // ---- Cursors ----

  const BLANKS := {' ', '\t', '\n', '\r'}

  predicate IsBlank(s: string) {
    forall i :: 0 <= i < |s| ==> s[i] in BLANKS
  }

  function BarAt(s: string): (i: nat)
    ensures i <= |s|
  {
    if s == "" || s[0] == '|' then 0 else 1 + BarAt(s[1..])
  }

  predicate IsNumeral(s: string) {
    s != "" && AllDigits(s)
  }

  function EncodeCursor(key: Key): string {
    Digits(key.createdAt) + ("|" + Digits(key.id))
  }

  function DecodeCursor(cursor: Option<string>): Result<Option<Key>, StatementError> {
    if cursor == None || IsBlank(cursor.value) then Success(None)
    else
      var s := cursor.value;
      var bar := BarAt(s);
      if bar == |s| || !IsNumeral(s[..bar]) || !IsNumeral(s[bar + 1..]) then Failure(MalformedCursor)
      else Success(Some(Key(Val(s[..bar]), Val(s[bar + 1..]))))
  }

  lemma {:induction false} BarAfterDigits(s: string, rest: string)
    requires AllDigits(s)
    ensures BarAt(s + ("|" + rest)) == |s|
  {
    var t := s + ("|" + rest);
    if s == "" {
      assert t[0] == '|';
    } else {
      assert t[1..] == s[1..] + ("|" + rest);
      BarAfterDigits(s[1..], rest);
    }
  }

  /** A cursor is read as the position it was made from. */
  lemma CursorRoundTrip(key: Key)
    ensures DecodeCursor(Some(EncodeCursor(key))) == Success(Some(key))
  {
    var s := EncodeCursor(key);
    var a, b := Digits(key.createdAt), Digits(key.id);
    BarAfterDigits(a, b);
    assert s[..|a|] == a && s[|a| + 1..] == b;
    DigitsVal(key.createdAt);
    DigitsVal(key.id);
    assert s[0] == a[0];
    assert !IsBlank(s);
  }

  lemma {:induction false} BarFound(s: string)
    ensures BarAt(s) < |s| ==> s[BarAt(s)] == '|'
  {
    if s != "" && s[0] != '|' {
      BarFound(s[1..]);
    }
  }

  /** The cursor text is a time and an id with a bar between them. */
  ghost predicate IsCursorFor(s: string, key: Key) {
    exists a, b :: IsNumeral(a) && IsNumeral(b) && s == a + ("|" + b) && key == Key(Val(a), Val(b))
  }

  /** What is read from a cursor: no position if it is missing or blank, the position it names, or an error. */
  lemma CursorAnswer(s: string, key: Key)
    ensures DecodeCursor(None) == Success(None)
    ensures IsBlank(s) ==> DecodeCursor(Some(s)) == Success(None)
    ensures !IsBlank(s) ==> (DecodeCursor(Some(s)) == Success(Some(key)) <==> IsCursorFor(s, key))
    ensures DecodeCursor(Some(s)).Success? || DecodeCursor(Some(s)) == Failure(MalformedCursor)
  {
    var bar := BarAt(s);
    BarFound(s);
    if bar < |s| {
      assert s == s[..bar] + ("|" + s[bar + 1..]);
    }
    if IsCursorFor(s, key) {
      var a, b :| IsNumeral(a) && IsNumeral(b) && s == a + ("|" + b) && key == Key(Val(a), Val(b));
      BarAfterDigits(a, b);
      assert s[..|a|] == a && s[|a| + 1..] == b;
    }
  }

  // ---- The service ----

  /** The descriptions are collected into a map that admits no null. */
  function ToStatementEntries(descriptions: map<TransactionId, Option<string>>,
      entries: seq<Entry>): Result<seq<StatementEntry>, StatementError> {
    if entries == [] then Success([]) else
      var last := entries[|entries| - 1];
      var rest :- ToStatementEntries(descriptions, entries[..|entries| - 1]);
      if Undescribed(descriptions, last) then Failure(MissingDescription)
      else Success(rest + [Described(descriptions, last)])
  }

  lemma {:induction false} StatementEntriesAre(descriptions: map<TransactionId, Option<string>>, entries: seq<Entry>)
    ensures var r := ToStatementEntries(descriptions, entries);
            && (r.Failure? <==> exists i :: 0 <= i < |entries| && Undescribed(descriptions, entries[i]))
            && (r.Success? ==> |r.value| == |entries| && forall i :: 0 <= i < |entries| ==>
                r.value[i] == Described(descriptions, entries[i]))
  {
    if entries != [] {
      StatementEntriesAre(descriptions, entries[..|entries| - 1]);
    }
  }

  predicate Undescribed(descriptions: map<TransactionId, Option<string>>, e: Entry) {
    e.transaction in descriptions && descriptions[e.transaction] == None
  }

  function Described(descriptions: map<TransactionId, Option<string>>, e: Entry): StatementEntry {
    StatementEntry(e.id, e.transaction, e.createdAt, e.amount,
                   if e.transaction in descriptions then descriptions[e.transaction] else None)
  }

  function GetStatement(store: Store, range: Range, pageSize: nat, cursor: Option<string>): Result<Page, StatementError>
    requires pageSize >= 1
  {
    var position :- DecodeCursor(cursor);
    var all := Listing(store, range, position);
    var hasNext := |all| > pageSize;
    var window := if hasNext then all[..pageSize] else all;
    var entries :- ToStatementEntries(store.descriptions, window);
    var nextCursor := if hasNext && window != [] then Some(EncodeCursor(KeyOf(window[|window| - 1]))) else None;
    Success(Page(entries, nextCursor, hasNext))
  }

  function GetFullStatement(store: Store, range: Range): Result<seq<StatementEntry>, StatementError> {
    var all := Listing(store, range, None);
    if |all| > MAX_EXPORT_ROWS then Failure(RangeTooLarge(|all|))
    else ToStatementEntries(store.descriptions, all)
  }

  // ---- Listings are determined by their elements ----

  predicate DistinctIds(entries: seq<Entry>) {
    forall i, j :: 0 <= i < j < |entries| ==> entries[i].id != entries[j].id
  }

  predicate Ordered(s: seq<Entry>) {
    forall i, j :: 0 <= i < j < |s| ==> Precedes(KeyOf(s[i]), KeyOf(s[j]))
  }

  ghost predicate SameElements(s: seq<Entry>, t: seq<Entry>) {
    forall e :: e in s <==> e in t
  }

  lemma {:induction false} MatchingElements(entries: seq<Entry>, range: Range, position: Option<Key>)
    ensures forall e :: e in Matching(entries, range, position) <==> e in entries && Matches(e, range, position)
  {
    if entries != [] {
      MatchingElements(entries[..|entries| - 1], range, position);
      assert entries == entries[..|entries| - 1] + [entries[|entries| - 1]];
    }
  }

  lemma {:induction false} InsertElements(e: Entry, s: seq<Entry>)
    ensures forall x :: x in Insert(e, s) <==> x == e || x in s
  {
    if s != [] && !Precedes(KeyOf(e), KeyOf(s[0])) {
      InsertElements(e, s[1..]);
      assert s == [s[0]] + s[1..];
    }
  }

  lemma {:induction false} SortedElements(s: seq<Entry>)
    ensures SameElements(Sorted(s), s)
  {
    if s != [] {
      SortedElements(s[..|s| - 1]);
      InsertElements(s[|s| - 1], Sorted(s[..|s| - 1]));
      assert s == s[..|s| - 1] + [s[|s| - 1]];
    }
  }

  lemma {:induction false} InsertOrdered(e: Entry, s: seq<Entry>)
    requires Ordered(s) && forall x :: x in s ==> x.id != e.id
    ensures Ordered(Insert(e, s))
  {
    if s != [] && !Precedes(KeyOf(e), KeyOf(s[0])) {
      InsertOrdered(e, s[1..]);
      InsertElements(e, s[1..]);
      var r := Insert(e, s[1..]);
      forall x | x in r ensures Precedes(KeyOf(s[0]), KeyOf(x)) {
        if x != e {
          var j :| 0 <= j < |s[1..]| && s[1..][j] == x;
          assert x == s[j + 1];
        }
      }
    }
  }

  lemma {:induction false} MatchingDistinct(entries: seq<Entry>, range: Range, position: Option<Key>)
    requires DistinctIds(entries)
    ensures DistinctIds(Matching(entries, range, position))
  {
    if entries != [] {
      var n := |entries| - 1;
      MatchingDistinct(entries[..n], range, position);
      var rest := Matching(entries[..n], range, position);
      MatchingElements(entries[..n], range, position);
      forall i | 0 <= i < |rest| ensures rest[i].id != entries[n].id {
        assert rest[i] in entries[..n];
      }
    }
  }

  lemma {:induction false} SortedOrdered(s: seq<Entry>)
    requires DistinctIds(s)
    ensures Ordered(Sorted(s))
  {
    if s != [] {
      SortedOrdered(s[..|s| - 1]);
      SortedElements(s[..|s| - 1]);
      InsertOrdered(s[|s| - 1], Sorted(s[..|s| - 1]));
    }
  }

  lemma {:induction false} OrderedUnique(s: seq<Entry>, t: seq<Entry>)
    requires Ordered(s) && Ordered(t) && SameElements(s, t)
    ensures s == t
  {
    if s != [] || t != [] {
      assert s != [] ==> s[0] in t;
      assert t != [] ==> t[0] in s;
      HeadFirst(s, t[0]);
      HeadFirst(t, s[0]);
      assert s[0] == t[0];
      TailElements(s, t);
      OrderedUnique(s[1..], t[1..]);
    }
  }

  lemma HeadFirst(s: seq<Entry>, e: Entry)
    requires Ordered(s) && e in s
    ensures s[0] == e || Precedes(KeyOf(s[0]), KeyOf(e))
  {
  }

  lemma TailElements(s: seq<Entry>, t: seq<Entry>)
    requires Ordered(s) && Ordered(t) && SameElements(s, t) && s != [] && t != [] && s[0] == t[0]
    ensures SameElements(s[1..], t[1..]) && Ordered(s[1..]) && Ordered(t[1..])
  {
    InTail(s);
    InTail(t);
  }

  lemma InTail(s: seq<Entry>)
    requires Ordered(s) && s != []
    ensures forall e :: e in s[1..] <==> e in s && e != s[0]
  {
    forall e | e in s && e != s[0] ensures e in s[1..] {
      var j :| 0 <= j < |s| && s[j] == e;
      assert s[1..][j - 1] == e;
    }
    forall e | e in s[1..] ensures e in s && e != s[0] {
      var j :| 0 <= j < |s[1..]| && s[1..][j] == e;
      assert s[j + 1] == e;
    }
  }

  lemma ListingOrdered(store: Store, range: Range, position: Option<Key>)
    requires DistinctIds(store.entries)
    ensures Ordered(Listing(store, range, position))
    ensures forall e :: e in Listing(store, range, position) <==> e in store.entries && Matches(e, range, position)
  {
    var matching := Matching(store.entries, range, position);
    MatchingElements(store.entries, range, position);
    MatchingDistinct(store.entries, range, position);
    SortedElements(matching);
    SortedOrdered(matching);
  }

  // ---- Paging while the log grows ----

  /** `later` holds what `store` held, and its further entries of the account precede `pivot`. */
  ghost predicate GrownBefore(store: Store, later: Store, account: Account, pivot: Key) {
    && DistinctIds(later.entries)
    && store.entries <= later.entries
    && (forall i :: |store.entries| <= i < |later.entries| && later.entries[i].account == account ==>
          Precedes(KeyOf(later.entries[i]), pivot))
    && (forall e :: e in store.entries ==> SameDescribed(store, later, e))
  }

  /** The same account and lower bound; the upper bound may have moved with the clock. */
  predicate SameView(range: Range, later: Range) {
    range.account == later.account && range.from == later.from && range.to <= later.to
  }

  predicate InListing(store: Store, range: Range, p: nat) {
    p < |Listing(store, range, None)|
  }

  function KeyAt(store: Store, range: Range, p: nat): Key
    requires InListing(store, range, p)
  {
    KeyOf(Listing(store, range, None)[p])
  }

  lemma AfterPosition(store: Store, range: Range, k: nat, e: Entry)
    requires DistinctIds(store.entries) && InListing(store, range, k)
    ensures e in Listing(store, range, None)[k + 1..] <==>
            e in store.entries && InRange(e, range) && Precedes(KeyAt(store, range, k), KeyOf(e))
  {
    var all := Listing(store, range, None);
    ListingOrdered(store, range, None);
    if e in all[k + 1..] {
      var j :| 0 <= j < |all[k + 1..]| && all[k + 1..][j] == e;
      assert e == all[k + 1 + j];
    }
  }

  lemma OldOrBeforePivot(store: Store, later: Store, account: Account, pivot: Key, e: Entry)
    requires GrownBefore(store, later, account, pivot) && e in later.entries && e.account == account
    ensures e in store.entries || Precedes(KeyOf(e), pivot)
  {
    var i :| 0 <= i < |later.entries| && later.entries[i] == e;
    if i < |store.entries| {
      assert store.entries[i] == e;
    }
  }

  lemma KeysDescend(store: Store, range: Range, p: nat, k: nat)
    requires DistinctIds(store.entries) && p <= k && InListing(store, range, k)
    ensures p == k || Precedes(KeyAt(store, range, p), KeyAt(store, range, k))
    ensures KeyAt(store, range, k).createdAt <= range.to
  {
    ListingOrdered(store, range, None);
    var all := Listing(store, range, None);
    assert all[k] in all;
  }

  lemma StillInStore(store: Store, later: Store, account: Account, pivot: Key, e: Entry)
    requires GrownBefore(store, later, account, pivot) && e in store.entries
    ensures e in later.entries
  {
    var i :| 0 <= i < |store.entries| && store.entries[i] == e;
    assert later.entries[i] == e;
  }

  /** From any position of the snapshot at or after the pivot, a grown log lists exactly the rest of the snapshot. */
  lemma RestOfListing(store: Store, later: Store, range: Range, view: Range, p: nat, k: nat)
    requires DistinctIds(store.entries) && SameView(range, view)
    requires p <= k && InListing(store, range, k)
    requires GrownBefore(store, later, range.account, KeyAt(store, range, p))
    ensures Listing(later, view, Some(KeyAt(store, range, k))) == Listing(store, range, None)[k + 1..]
  {
    var key, pivot := KeyAt(store, range, k), KeyAt(store, range, p);
    var tail, rest := Listing(store, range, None)[k + 1..], Listing(later, view, Some(key));
    ListingOrdered(store, range, None);
    ListingOrdered(later, view, Some(key));
    KeysDescend(store, range, p, k);
    forall e ensures e in tail <==> e in rest {
      AfterPosition(store, range, k, e);
      if e in store.entries {
        StillInStore(store, later, range.account, pivot, e);
      }
      if e in rest {
        OldOrBeforePivot(store, later, range.account, pivot, e);
      }
    }
    OrderedUnique(rest, tail);
  }

  /** One request of a client that pages: the log and range it met, and the page it got. */
  datatype Visit = Visit(store: Store, range: Range, page: Page)

  /** Each further page is asked for with the last page's cursor; the log may have grown in between. */
  ghost predicate Paging(visits: seq<Visit>, pageSize: nat)
    requires pageSize >= 1
  {
    && |visits| > 0
    && DistinctIds(visits[0].store.entries)
    && GetStatement(visits[0].store, visits[0].range, pageSize, None) == Success(visits[0].page)
    && forall k :: 0 < k < |visits| ==> FollowsAt(visits, pageSize, k)
  }

  ghost predicate FollowsAt(visits: seq<Visit>, pageSize: nat, k: nat)
    requires pageSize >= 1 && 0 < k < |visits|
  {
    FollowsCursor(visits[0], visits[k - 1], visits[k], pageSize)
  }

  ghost predicate FollowsCursor(first: Visit, last: Visit, next: Visit, pageSize: nat)
    requires pageSize >= 1
  {
    && last.page.nextCursor.Some?
    && SameView(first.range, next.range)
    && (InListing(first.store, first.range, pageSize - 1) ==>
          GrownBefore(first.store, next.store, first.range.account, KeyAt(first.store, first.range, pageSize - 1)))
    && GetStatement(next.store, next.range, pageSize, last.page.nextCursor) == Success(next.page)
  }

  function Min(a: nat, b: nat): nat {
    if a < b then a else b
  }

  function Stretch(store: Store, range: Range, start: nat, end: nat): seq<Entry>
    requires start <= end
  {
    var all := Listing(store, range, None);
    all[Min(start, |all|)..Min(end, |all|)]
  }

  /** What a page must be: the stretch of the snapshot that starts at `start`. */
  ghost predicate IsStretch(store: Store, range: Range, page: Page, pageSize: nat, start: nat)
    requires pageSize >= 1
  {
    && (start == 0 || InListing(store, range, start))
    && ToStatementEntries(store.descriptions, Stretch(store, range, start, start + pageSize)) == Success(page.entries)
    && page.hasNext == InListing(store, range, start + pageSize)
    && page.nextCursor == if page.hasNext then Some(EncodeCursor(KeyAt(store, range, start + pageSize - 1))) else None
  }

  function Window(all: seq<Entry>, pageSize: nat): seq<Entry> {
    if |all| > pageSize then all[..pageSize] else all
  }

  lemma FirstPage(store: Store, page: Page, range: Range, pageSize: nat)
    requires pageSize >= 1 && GetStatement(store, range, pageSize, None) == Success(page)
    ensures IsStretch(store, range, page, pageSize, 0)
  {
    var all := Listing(store, range, None);
    assert all[0..Min(pageSize, |all|)] == Window(all, pageSize);
  }

  ghost predicate HoldsRest(visit: Visit, rest: seq<Entry>, pageSize: nat)
    requires pageSize >= 1
  {
    && ToStatementEntries(visit.store.descriptions, Window(rest, pageSize)) == Success(visit.page.entries)
    && visit.page.hasNext == (|rest| > pageSize)
    && visit.page.nextCursor == if |rest| > pageSize then Some(EncodeCursor(KeyOf(rest[pageSize - 1]))) else None
  }

  /** A page is determined by the listing from its position on. */
  lemma PageOf(visit: Visit, pageSize: nat, key: Key, cursor: Option<string>)
    requires pageSize >= 1 && cursor == Some(EncodeCursor(key))
    requires GetStatement(visit.store, visit.range, pageSize, cursor) == Success(visit.page)
    ensures HoldsRest(visit, Listing(visit.store, visit.range, Some(key)), pageSize)
  {
    CursorRoundTrip(key);
  }

  /** The next page was asked for from position `k` of the snapshot. */
  ghost predicate AsksAfter(first: Visit, next: Visit, pageSize: nat, k: nat, cursor: Option<string>)
    requires pageSize >= 1
  {
    && DistinctIds(first.store.entries) && SameView(first.range, next.range)
    && pageSize - 1 <= k && InListing(first.store, first.range, k) && InListing(first.store, first.range, pageSize - 1)
    && GrownBefore(first.store, next.store, first.range.account, KeyAt(first.store, first.range, pageSize - 1))
    && cursor == Some(EncodeCursor(KeyAt(first.store, first.range, k)))
    && GetStatement(next.store, next.range, pageSize, cursor) == Success(next.page)
  }

  lemma CursorIs(first: Visit, last: Visit, next: Visit, pageSize: nat, start: nat)
    requires pageSize >= 1 && DistinctIds(first.store.entries)
    requires IsStretch(first.store, first.range, last.page, pageSize, start)
    requires FollowsCursor(first, last, next, pageSize)
    ensures InListing(first.store, first.range, start + pageSize)
    ensures AsksAfter(first, next, pageSize, start + pageSize - 1, last.page.nextCursor)
  {
  }

  /** What the next page holds, in terms of the snapshot's listing. */
  lemma RestAfter(first: Visit, next: Visit, pageSize: nat, k: nat, cursor: Option<string>)
    requires pageSize >= 1 && AsksAfter(first, next, pageSize, k, cursor)
    ensures HoldsRest(next, Listing(first.store, first.range, None)[k + 1..], pageSize)
  {
    PageOf(next, pageSize, KeyAt(first.store, first.range, k), cursor);
    RestOfListing(first.store, next.store, first.range, next.range, pageSize - 1, k);
  }

  lemma PageAfter(first: Visit, next: Visit, pageSize: nat, k: nat, start: nat, cursor: Option<string>)
    requires pageSize >= 1 && start == k + 1
    requires AsksAfter(first, next, pageSize, k, cursor) && InListing(first.store, first.range, start)
    ensures IsStretch(first.store, first.range, next.page, pageSize, start)
  {
    RestAfter(first, next, pageSize, k, cursor);
    WindowAfter(first, next, pageSize, k, start, cursor);
    HoldsStretch(first, next, pageSize, start);
  }

  lemma WindowAfter(first: Visit, next: Visit, pageSize: nat, k: nat, start: nat, cursor: Option<string>)
    requires pageSize >= 1 && AsksAfter(first, next, pageSize, k, cursor)
    ensures var window := Stretch(first.store, first.range, start, start + pageSize);
            ToStatementEntries(first.store.descriptions, window) == ToStatementEntries(next.store.descriptions, window)
  {
    SameWindow(first.store, next.store, first.range, Stretch(first.store, first.range, start, start + pageSize),
               KeyAt(first.store, first.range, pageSize - 1), start, pageSize);
  }

  lemma NextPage(first: Visit, last: Visit, next: Visit, pageSize: nat, start: nat)
    requires pageSize >= 1 && DistinctIds(first.store.entries)
    requires IsStretch(first.store, first.range, last.page, pageSize, start)
    requires FollowsCursor(first, last, next, pageSize)
    ensures IsStretch(first.store, first.range, next.page, pageSize, start + pageSize)
  {
    CursorIs(first, last, next, pageSize, start);
    PageAfter(first, next, pageSize, start + pageSize - 1, start + pageSize, last.page.nextCursor);
  }

  lemma HoldsStretch(first: Visit, next: Visit, pageSize: nat, start: nat)
    requires pageSize >= 1 && InListing(first.store, first.range, start)
    requires HoldsRest(next, Listing(first.store, first.range, None)[start..], pageSize)
    requires var window := Stretch(first.store, first.range, start, start + pageSize);
             ToStatementEntries(first.store.descriptions, window) == ToStatementEntries(next.store.descriptions, window)
    ensures IsStretch(first.store, first.range, next.page, pageSize, start)
  {
    RestIsStretch(Listing(first.store, first.range, None), start, pageSize);
  }

  lemma SameWindow(store: Store, later: Store, range: Range, window: seq<Entry>, pivot: Key, start: nat, pageSize: nat)
    requires DistinctIds(store.entries) && GrownBefore(store, later, range.account, pivot)
    requires window == Stretch(store, range, start, start + pageSize)
    ensures ToStatementEntries(store.descriptions, window) == ToStatementEntries(later.descriptions, window)
  {
    WindowInStore(store, range, start, start + pageSize);
    SameDescriptions(store, later, window);
  }

  lemma RestIsStretch(all: seq<Entry>, start: nat, pageSize: nat)
    requires pageSize >= 1 && start <= |all|
    ensures var rest := all[start..];
            Window(rest, pageSize) == all[start..Min(start + pageSize, |all|)] &&
            (|rest| > pageSize <==> start + pageSize < |all|) &&
            (|rest| > pageSize ==> rest[pageSize - 1] == all[start + pageSize - 1])
  {
  }

  lemma WindowInStore(store: Store, range: Range, i: nat, j: nat)
    requires DistinctIds(store.entries) && i <= j
    ensures forall e :: e in Stretch(store, range, i, j) ==> e in store.entries
  {
    ListingOrdered(store, range, None);
    assert forall e :: e in Stretch(store, range, i, j) ==> e in Listing(store, range, None);
  }

  ghost predicate SameDescribed(store: Store, later: Store, e: Entry) {
    Described(store.descriptions, e) == Described(later.descriptions, e)
    && Undescribed(store.descriptions, e) == Undescribed(later.descriptions, e)
  }

  lemma {:induction false} SameDescriptions(store: Store, later: Store, s: seq<Entry>)
    requires forall e :: e in s ==> SameDescribed(store, later, e)
    ensures ToStatementEntries(store.descriptions, s) == ToStatementEntries(later.descriptions, s)
  {
    if s != [] {
      assert s[|s| - 1] in s;
      assert forall e :: e in s[..|s| - 1] ==> e in s;
      SameDescriptions(store, later, s[..|s| - 1]);
    }
  }

  /** Where page k starts. */
  function Start(k: nat, pageSize: nat): nat {
    if k == 0 then 0 else Start(k - 1, pageSize) + pageSize
  }

  lemma {:induction false} StartIs(k: nat, pageSize: nat)
    ensures Start(k, pageSize) == k * pageSize
  {
    if k > 0 {
      StartIs(k - 1, pageSize);
    }
  }

  /** Every page is its stretch of the listing as it was when the first page was asked for. */
  lemma {:induction false} PageIsStretch(visits: seq<Visit>, pageSize: nat, k: nat)
    requires pageSize >= 1 && Paging(visits, pageSize) && k < |visits|
    ensures IsStretch(visits[0].store, visits[0].range, visits[k].page, pageSize, Start(k, pageSize))
  {
    if k == 0 {
      FirstPage(visits[0].store, visits[0].page, visits[0].range, pageSize);
    } else {
      PageIsStretch(visits, pageSize, k - 1);
      StretchFollows(visits, pageSize, k, Start(k - 1, pageSize));
    }
  }

  lemma StretchFollows(visits: seq<Visit>, pageSize: nat, k: nat, start: nat)
    requires pageSize >= 1 && Paging(visits, pageSize) && 0 < k < |visits|
    requires IsStretch(visits[0].store, visits[0].range, visits[k - 1].page, pageSize, start)
    ensures IsStretch(visits[0].store, visits[0].range, visits[k].page, pageSize, start + pageSize)
  {
    Follows(visits, pageSize, k);
    NextPage(visits[0], visits[k - 1], visits[k], pageSize, start);
  }

  lemma Follows(visits: seq<Visit>, pageSize: nat, k: nat)
    requires pageSize >= 1 && Paging(visits, pageSize) && 0 < k < |visits|
    ensures FollowsCursor(visits[0], visits[k - 1], visits[k], pageSize) && DistinctIds(visits[0].store.entries)
  {
    assert FollowsAt(visits, pageSize, k);
  }

  /** What the first k pages show, end to end. */
  function EntriesUpTo(visits: seq<Visit>, k: nat): seq<StatementEntry>
    requires k <= |visits|
  {
    if k == 0 then [] else EntriesUpTo(visits, k - 1) + visits[k - 1].page.entries
  }

  function AllEntries(visits: seq<Visit>): seq<StatementEntry> {
    EntriesUpTo(visits, |visits|)
  }

  lemma {:induction false} DescribedJoin(descriptions: map<TransactionId, Option<string>>, a: seq<Entry>, b: seq<Entry>)
    requires ToStatementEntries(descriptions, a).Success? && ToStatementEntries(descriptions, b).Success?
    ensures ToStatementEntries(descriptions, a + b) ==
            Success(ToStatementEntries(descriptions, a).value + ToStatementEntries(descriptions, b).value)
  {
    if b == [] {
      assert a + b == a;
      assert ToStatementEntries(descriptions, a).value + [] == ToStatementEntries(descriptions, a).value;
    } else {
      var c, last := b[..|b| - 1], b[|b| - 1];
      assert (a + b)[..|a + b| - 1] == a + c;
      DescribedJoin(descriptions, a, c);
      var x, y := ToStatementEntries(descriptions, a).value, ToStatementEntries(descriptions, c).value;
      assert (a + b)[|a + b| - 1] == last;
      assert x + y + [Described(descriptions, last)] == x + (y + [Described(descriptions, last)]);
    }
  }

  /** The entries shown are the first `end` of the snapshot's listing, or all of it. */
  ghost predicate Covers(shown: seq<StatementEntry>, store: Store, range: Range, end: nat) {
    ToStatementEntries(store.descriptions, Stretch(store, range, 0, end)) == Success(shown)
  }

  /** The pages so far, end to end, are the beginning of the snapshot's listing. */
  lemma {:induction false} PagesSoFar(visits: seq<Visit>, pageSize: nat, k: nat)
    requires pageSize >= 1 && Paging(visits, pageSize) && k <= |visits|
    ensures Covers(EntriesUpTo(visits, k), visits[0].store, visits[0].range, Start(k, pageSize))
  {
    if k == 0 {
      NothingYet(visits[0].store, visits[0].range);
    } else {
      PagesSoFar(visits, pageSize, k - 1);
      PageIsStretch(visits, pageSize, k - 1);
      OnePageMore(visits, visits[0].store, visits[0].range, pageSize, k);
    }
  }

  lemma OnePageMore(visits: seq<Visit>, store: Store, range: Range, pageSize: nat, k: nat)
    requires pageSize >= 1 && 0 < k <= |visits| &&
             IsStretch(store, range, visits[k - 1].page, pageSize, Start(k - 1, pageSize))
    requires Covers(EntriesUpTo(visits, k - 1), store, range, Start(k - 1, pageSize))
    ensures Covers(EntriesUpTo(visits, k), store, range, Start(k, pageSize))
  {
    JoinNext(store, range, Start(k - 1, pageSize), pageSize, EntriesUpTo(visits, k - 1), visits[k - 1].page);
  }

  lemma NothingYet(store: Store, range: Range)
    ensures Covers([], store, range, 0)
  {
  }

  lemma JoinNext(store: Store, range: Range, start: nat, pageSize: nat, sofar: seq<StatementEntry>, page: Page)
    requires pageSize >= 1 && IsStretch(store, range, page, pageSize, start)
    requires Covers(sofar, store, range, start)
    ensures Covers(sofar + page.entries, store, range, start + pageSize)
  {
    StretchesJoin(store, range, start, start + pageSize);
    DescribedJoin(store.descriptions, Stretch(store, range, 0, start), Stretch(store, range, start, start + pageSize));
  }

  lemma StretchesJoin(store: Store, range: Range, i: nat, j: nat)
    requires i <= j
    ensures Stretch(store, range, 0, j) == Stretch(store, range, 0, i) + Stretch(store, range, i, j)
  {
  }

  /** A client never asks for more pages than the snapshot fills, and is told to stop exactly there. */
  lemma PagingEnds(visits: seq<Visit>, pageSize: nat)
    requires pageSize >= 1 && Paging(visits, pageSize)
    ensures var n := |Listing(visits[0].store, visits[0].range, None)|;
            (|visits| == 1 || (|visits| - 1) * pageSize < n) &&
            (visits[|visits| - 1].page.nextCursor == None <==> n <= |visits| * pageSize)
  {
    PageIsStretch(visits, pageSize, |visits| - 1);
    StartIs(|visits| - 1, pageSize);
    StartIs(|visits|, pageSize);
  }

  lemma CoversAll(shown: seq<StatementEntry>, store: Store, range: Range, end: nat)
    requires Covers(shown, store, range, end) && |Listing(store, range, None)| <= end
    ensures ToStatementEntries(store.descriptions, Listing(store, range, None)) == Success(shown)
    ensures |shown| == |Listing(store, range, None)|
  {
    assert Stretch(store, range, 0, end) == Listing(store, range, None);
    StatementEntriesAre(store.descriptions, Listing(store, range, None));
  }

  /** Following the cursors to the end gives the full statement of the first page's moment, whatever was appended
      meanwhile. */
  lemma PagesAreFullStatement(visits: seq<Visit>, pageSize: nat)
    requires pageSize >= 1 && Paging(visits, pageSize) && visits[|visits| - 1].page.nextCursor == None
    ensures ToStatementEntries(visits[0].store.descriptions, Listing(visits[0].store, visits[0].range, None)) ==
            Success(AllEntries(visits))
    ensures GetFullStatement(visits[0].store, visits[0].range) ==
            if |AllEntries(visits)| > 10_000 then Failure(RangeTooLarge(|AllEntries(visits)|))
                else Success(AllEntries(visits))
    ensures RowsOf(visits[0].store, Listing(visits[0].store, visits[0].range, None), AllEntries(visits))
  {
    PagingEnds(visits, pageSize);
    StartIs(|visits|, pageSize);
    PagesSoFar(visits, pageSize, |visits|);
    CoversAll(AllEntries(visits), visits[0].store, visits[0].range, Start(|visits|, pageSize));
    RowsAre(visits[0].store, Listing(visits[0].store, visits[0].range, None), AllEntries(visits));
  }

  /** The row is the entry's: its id, transaction, time and amount, and the description stored for its transaction. */
  predicate RowOf(store: Store, e: Entry, d: StatementEntry) {
    && d.id == e.id && d.transaction == e.transaction && d.createdAt == e.createdAt && d.amount == e.amount
    && d.description == if e.transaction in store.descriptions then store.descriptions[e.transaction] else None
  }

  /** The row is that of an entry of the account whose time lies between the bounds, both included. */
  ghost predicate Shows(store: Store, range: Range, d: StatementEntry) {
    exists e :: e in store.entries && e.account == range.account && range.from <= e.createdAt <= range.to
                && RowOf(store, e, d)
  }

  /** Newest first, and by id from the highest where times are equal. */
  predicate NewestFirst(rows: seq<StatementEntry>) {
    forall i, j :: 0 <= i < j < |rows| ==>
      rows[i].createdAt > rows[j].createdAt || (rows[i].createdAt == rows[j].createdAt && rows[i].id > rows[j].id)
  }

  /** The i-th row is that of the i-th entry. */
  predicate RowsOf(store: Store, entries: seq<Entry>, rows: seq<StatementEntry>) {
    |rows| == |entries| && forall i :: 0 <= i < |rows| ==> RowOf(store, entries[i], rows[i])
  }

  lemma RowsAre(store: Store, entries: seq<Entry>, rows: seq<StatementEntry>)
    requires ToStatementEntries(store.descriptions, entries) == Success(rows)
    ensures RowsOf(store, entries, rows)
  {
    StatementEntriesAre(store.descriptions, entries);
  }

  lemma ListingShows(store: Store, range: Range, shown: seq<StatementEntry>)
    requires DistinctIds(store.entries)
    requires ToStatementEntries(store.descriptions, Listing(store, range, None)) == Success(shown)
    ensures forall d :: d in shown <==> Shows(store, range, d)
  {
    var all := Listing(store, range, None);
    ListingOrdered(store, range, None);
    RowsAre(store, all, shown);
    forall d | d in shown ensures Shows(store, range, d) {
      var i :| 0 <= i < |shown| && shown[i] == d;
      assert all[i] in all;
    }
    forall d | Shows(store, range, d) ensures d in shown {
      var e :| e in store.entries && e.account == range.account && range.from <= e.createdAt <= range.to &&
          RowOf(store, e, d);
      assert e in all;
      var i :| 0 <= i < |all| && all[i] == e;
      assert RowOf(store, all[i], shown[i]);
      assert shown[i] == d;
    }
  }

  lemma ListingShowsInOrder(store: Store, range: Range, shown: seq<StatementEntry>)
    requires DistinctIds(store.entries)
    requires ToStatementEntries(store.descriptions, Listing(store, range, None)) == Success(shown)
    ensures NewestFirst(shown) && forall i, j :: 0 <= i < j < |shown| ==> shown[i].id != shown[j].id
  {
    ListingOrdered(store, range, None);
    RowsAre(store, Listing(store, range, None), shown);
    IdsDiffer(store, Listing(store, range, None));
  }

  /** The pages show each entry that was in range at the first page, once, newest first, and nothing else. */
  lemma EachEntryOnce(visits: seq<Visit>, pageSize: nat)
    requires pageSize >= 1 && Paging(visits, pageSize) && visits[|visits| - 1].page.nextCursor == None
    ensures forall d :: d in AllEntries(visits) <==> Shows(visits[0].store, visits[0].range, d)
    ensures NewestFirst(AllEntries(visits))
    ensures forall i, j :: 0 <= i < j < |AllEntries(visits)| ==> AllEntries(visits)[i].id != AllEntries(visits)[j].id
  {
    PagesAreFullStatement(visits, pageSize);
    ListingShows(visits[0].store, visits[0].range, AllEntries(visits));
    ListingShowsInOrder(visits[0].store, visits[0].range, AllEntries(visits));
  }

  /** A page that is returned holds the rows of the first entries of its listing, no more than the page size. */
  lemma PageRows(store: Store, range: Range, pageSize: nat, cursor: Option<string>, page: Page)
    requires pageSize >= 1 && GetStatement(store, range, pageSize, cursor) == Success(page)
    ensures DecodeCursor(cursor).Success?
    ensures RowsOf(store, Window(Listing(store, range, DecodeCursor(cursor).value), pageSize), page.entries)
  {
    RowsAre(store, Window(Listing(store, range, DecodeCursor(cursor).value), pageSize), page.entries);
  }

  /** An export that is returned holds the rows of the whole listing: every entry in range once, newest first. */
  lemma ExportRows(store: Store, range: Range, rows: seq<StatementEntry>)
    requires DistinctIds(store.entries) && GetFullStatement(store, range) == Success(rows)
    ensures |rows| <= 10_000 && RowsOf(store, Listing(store, range, None), rows)
    ensures NewestFirst(rows) && forall d :: d in rows <==> Shows(store, range, d)
  {
    RowsAre(store, Listing(store, range, None), rows);
    ListingShows(store, range, rows);
    ListingShowsInOrder(store, range, rows);
  }

  lemma IdsDiffer(store: Store, all: seq<Entry>)
    requires DistinctIds(store.entries) && Ordered(all) && forall e :: e in all ==> e in store.entries
    ensures forall i, j :: 0 <= i < j < |all| ==> all[i].id != all[j].id
  {
    forall i, j | 0 <= i < j < |all| ensures all[i].id != all[j].id {
      assert Precedes(KeyOf(all[i]), KeyOf(all[j])) && all[i] != all[j];
      assert all[i] in store.entries && all[j] in store.entries;
      var a :| 0 <= a < |store.entries| && store.entries[a] == all[i];
      var b :| 0 <= b < |store.entries| && store.entries[b] == all[j];
    }
  }

  /** A page is refused for its contents exactly when an entry on it belongs to a transaction without a description. */
  lemma PageRefused(store: Store, range: Range, pageSize: nat, cursor: Option<string>)
    requires pageSize >= 1 && DecodeCursor(cursor).Success?
    ensures var all := Listing(store, range, DecodeCursor(cursor).value);
            GetStatement(store, range, pageSize, cursor).Failure? <==>
            exists i :: 0 <= i < Min(pageSize, |all|) && Undescribed(store.descriptions, all[i])
  {
    var all := Listing(store, range, DecodeCursor(cursor).value);
    StatementEntriesAre(store.descriptions, Window(all, pageSize));
    assert forall i :: 0 <= i < Min(pageSize, |all|) ==> Window(all, pageSize)[i] == all[i];
  }

  /** The export is refused exactly when it is too long or an entry in range belongs to a transaction without a
      description. */
  lemma FullStatementRefused(store: Store, range: Range)
    ensures var all := Listing(store, range, None);
            var undescribed := exists i :: 0 <= i < |all| && Undescribed(store.descriptions, all[i]);
            var r := GetFullStatement(store, range);
            if |all| > 10_000 then r == Failure(RangeTooLarge(|all|))
            else if undescribed then r == Failure(MissingDescription)
            else r.Success?
  {
    StatementEntriesAre(store.descriptions, Listing(store, range, None));
    RefusedAs(store.descriptions, Listing(store, range, None));
  }

  lemma {:induction false} RefusedAs(descriptions: map<TransactionId, Option<string>>, entries: seq<Entry>)
    ensures var r := ToStatementEntries(descriptions, entries);
            r.Failure? ==> r.error == MissingDescription
  {
    if entries != [] {
      RefusedAs(descriptions, entries[..|entries| - 1]);
    }
  }

  /** One deposit made without a description is enough. */
  lemma UndescribedDepositRefused(account: Account, amount: Money, at: nat)
    ensures var store := Store([Entry(0, 0, account, amount, at)], map[0 := None]);
            GetStatement(store, Range(account, 0, at), 20, None) == Failure(MissingDescription) &&
            GetFullStatement(store, Range(account, 0, at)) == Failure(MissingDescription)
  {
    var e := Entry(0, 0, account, amount, at);
    var store, range := Store([e], map[0 := None]), Range(account, 0, at);
    assert [e][..0] == [];
    assert Matching([e], range, None) == [e] == Sorted([e]);
    assert Listing(store, range, None) == [e];
    assert Undescribed(store.descriptions, e);
    assert ToStatementEntries(store.descriptions, [e]) == Failure(MissingDescription);
    assert DecodeCursor(None) == Success(None);
  }
}
