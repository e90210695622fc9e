/** Repeated fixed-size polls of an append-only log, turned into a stream of notifications. */
module NotificationFeed {
  import opened Wrappers
  import Statement

  type Account = nat
  type EntryId = nat

  type Entry = Statement.StatementEntry
  datatype Notification = Notification(account: Account, entry: Entry)

  /** What one session's poller remembers, and what it has sent. */
  datatype Poller = Poller(lastSeen: map<Account, EntryId>, sent: seq<Notification>)

  const PAGE_SIZE: nat := 5

  function TakeUntil(entries: seq<Entry>, stopAt: EntryId): seq<Entry> {
    if entries == [] || entries[0].id == stopAt then [] else [entries[0]] + TakeUntil(entries[1..], stopAt)
  }

  function Reversed(s: seq<Entry>): (r: seq<Entry>)
    ensures |r| == |s|
  {
    if s == [] then [] else Reversed(s[1..]) + [s[0]]
  }

  function Notices(account: Account, entries: seq<Entry>): (r: seq<Notification>)
    ensures |r| == |entries|
  {
    seq(|entries|, i requires 0 <= i < |entries| => Notification(account, entries[i]))
  }

  /** One account of one poll; `page` is newest first. */
  function Visit(p: Poller, account: Account, page: seq<Entry>): Poller {
    var found := if account in p.lastSeen then TakeUntil(page, p.lastSeen[account]) else [];
    Poller(if page != [] then p.lastSeen[account := page[0].id] else p.lastSeen,
           p.sent + Notices(account, Reversed(found)))
  }

  /** A poll stops at the first request that fails. */
  function Poll(p: Poller, accounts: seq<Account>, statement: Account -> Option<seq<Entry>>): Poller
    decreases |accounts|
  {
    if accounts == [] then p
    else match statement(accounts[0])
      case None => p
      case Some(page) => Poll(Visit(p, accounts[0], page), accounts[1..], statement)
  }

  // ---- The log and the feed ----

  datatype World = World(logs: map<Account, seq<Entry>>, poller: Poller)

  datatype Event = Append(account: Account, entry: Entry) | Visited(account: Account)

  function Log(w: World, a: Account): seq<Entry> {
    if a in w.logs then w.logs[a] else []
  }

  /** The newest entries of a log, newest first. */
  function Recent(log: seq<Entry>, size: nat): seq<Entry> {
    Reversed(log[if |log| > size then |log| - size else 0..])
  }

  predicate Enabled(w: World, e: Event) {
    e.Append? ==> forall i :: 0 <= i < |Log(w, e.account)| ==> Log(w, e.account)[i].id != e.entry.id
  }

  function Step(w: World, e: Event): World {
    match e
    case Append(a, entry) => w.(logs := w.logs[a := Log(w, a) + [entry]])
    case Visited(a) => w.(poller := Visit(w.poller, a, Recent(Log(w, a), PAGE_SIZE)))
  }

  function Run(w: World, events: seq<Event>): World {
    if events == [] then w else Step(Run(w, events[..|events| - 1]), events[|events| - 1])
  }

  predicate Possible(w: World, events: seq<Event>) {
    events == [] || (Possible(w, events[..|events| - 1]) &&
        Enabled(Run(w, events[..|events| - 1]), events[|events| - 1]))
  }

  /** What was sent for one account. */
  function Feed(sent: seq<Notification>, a: Account): seq<Entry> {
    if sent == [] then [] else
      var last := sent[|sent| - 1];
      Feed(sent[..|sent| - 1], a) + if last.account == a then [last.entry] else []
  }

  predicate DistinctLog(log: seq<Entry>) {
    forall i, j :: 0 <= i < j < |log| ==> log[i].id != log[j].id
  }

  /** The last seen entry of the account is number `pos`, counting from one. */
  predicate SeenUpTo(w: World, a: Account, pos: nat) {
    && DistinctLog(Log(w, a))
    && 0 < pos <= |Log(w, a)|
    && a in w.poller.lastSeen
    && w.poller.lastSeen[a] == Log(w, a)[pos - 1].id
  }

  // ---- One visit ----

  lemma {:induction false} ReversedJoin(s: seq<Entry>, t: seq<Entry>)
    ensures Reversed(s + t) == Reversed(t) + Reversed(s)
  {
    if s == [] {
      assert s + t == t;
      assert Reversed(t) + [] == Reversed(t);
    } else {
      assert (s + t)[1..] == s[1..] + t;
      ReversedJoin(s[1..], t);
      assert Reversed(t) + Reversed(s[1..]) + [s[0]] == Reversed(t) + (Reversed(s[1..]) + [s[0]]);
    }
  }

  lemma {:induction false} ReversedTwice(s: seq<Entry>)
    ensures Reversed(Reversed(s)) == s
  {
    if s != [] {
      ReversedTwice(s[1..]);
      ReversedJoin(Reversed(s[1..]), [s[0]]);
      assert Reversed([s[0]]) == [s[0]];
    }
  }

  predicate Lacks(s: seq<Entry>, id: EntryId) {
    forall i :: 0 <= i < |s| ==> s[i].id != id
  }

  lemma {:induction false} TakesUntil(taken: seq<Entry>, rest: seq<Entry>, stopAt: EntryId)
    requires Lacks(taken, stopAt) && (rest == [] || rest[0].id == stopAt)
    ensures TakeUntil(taken + rest, stopAt) == taken
  {
    if taken == [] {
      assert taken + rest == rest;
    } else {
      assert (taken + rest)[1..] == taken[1..] + rest;
      TakesUntil(taken[1..], rest, stopAt);
      assert taken == [taken[0]] + taken[1..];
    }
  }

  lemma {:induction false} ReversedLacks(s: seq<Entry>, id: EntryId)
    requires Lacks(s, id)
    ensures Lacks(Reversed(s), id)
  {
    if s != [] {
      ReversedLacks(s[1..], id);
    }
  }

  lemma ReversedLast(s: seq<Entry>)
    requires s != []
    ensures Reversed(s)[0] == s[|s| - 1]
  {
    var n := |s| - 1;
    assert s == s[..n] + [s[n]];
    ReversedJoin(s[..n], [s[n]]);
    assert Reversed([s[n]]) == [s[n]];
  }

  /** Newest first up to the entry to stop at, then oldest first again: what came after that entry. */
  lemma TakesWhatCameAfter(earlier: seq<Entry>, later: seq<Entry>, stopAt: EntryId)
    requires Lacks(later, stopAt) && (earlier == [] || earlier[|earlier| - 1].id == stopAt)
    ensures TakeUntil(Reversed(earlier + later), stopAt) == Reversed(later)
  {
    ReversedJoin(earlier, later);
    ReversedLacks(later, stopAt);
    if earlier != [] {
      ReversedLast(earlier);
    }
    TakesUntil(Reversed(later), Reversed(earlier), stopAt);
  }

  function Max(a: int, b: int): int {
    if a < b then b else a
  }

  lemma LaterLacks(log: seq<Entry>, pos: nat, from: nat)
    requires DistinctLog(log) && 0 < pos <= from <= |log|
    ensures Lacks(log[from..], log[pos - 1].id)
  {
  }

  /** Of the newest entries, those after entry number `pos` are the ones that are taken. */
  lemma RecentTaken(log: seq<Entry>, pos: nat)
    requires DistinctLog(log) && 0 < pos <= |log|
    ensures TakeUntil(Recent(log, PAGE_SIZE), log[pos - 1].id) == Reversed(log[Max(pos, |log| - PAGE_SIZE)..])
  {
    var start := if |log| > PAGE_SIZE then |log| - PAGE_SIZE else 0;
    WindowTaken(log, pos, start, if pos < start then start else pos);
  }

  lemma WindowTaken(log: seq<Entry>, pos: nat, start: nat, from: nat)
    requires DistinctLog(log) && 0 < pos <= from <= |log| && start <= from && (from == pos || from == start)
    ensures TakeUntil(Reversed(log[start..]), log[pos - 1].id) == Reversed(log[from..])
  {
    LaterLacks(log, pos, from);
    assert log[start..] == log[start..from] + log[from..];
    TakesWhatCameAfter(log[start..from], log[from..], log[pos - 1].id);
  }

  lemma RecentFirst(log: seq<Entry>, size: nat)
    requires size > 0
    ensures Recent(log, size) == [] <==> log == []
    ensures log != [] ==> Recent(log, size)[0] == log[|log| - 1]
  {
    var window := log[if |log| > size then |log| - size else 0..];
    if log != [] {
      ReversedLast(window);
    }
  }

  lemma {:induction false} FeedOfNotices(sent: seq<Notification>, b: Account, entries: seq<Entry>, a: Account)
    ensures Feed(sent + Notices(b, entries), a) == Feed(sent, a) + if a == b then entries else []
  {
    if entries == [] {
      assert sent + Notices(b, entries) == sent;
    } else {
      var fewer := entries[..|entries| - 1];
      var all := sent + Notices(b, entries);
      assert all[..|all| - 1] == sent + Notices(b, fewer);
      FeedOfNotices(sent, b, fewer, a);
      assert a == b ==> Feed(sent, a) + fewer + [entries[|entries| - 1]] == Feed(sent, a) + entries;
    }
  }

  /** A visit sends the entries after the last seen one, oldest first, but no more than the newest five. */
  lemma VisitSends(w: World, a: Account, pos: nat)
    requires SeenUpTo(w, a, pos)
    ensures var t := Step(w, Visited(a));
            SeenUpTo(t, a, |Log(w, a)|) &&
            Feed(t.poller.sent, a) == Feed(w.poller.sent, a) + Log(w, a)[Max(pos, |Log(w, a)| - 5)..]
  {
    RecentTaken(Log(w, a), pos);
    ReversedTwice(Log(w, a)[Max(pos, |Log(w, a)| - PAGE_SIZE)..]);
    RecentFirst(Log(w, a), PAGE_SIZE);
    FeedOfNotices(w.poller.sent, a, Log(w, a)[Max(pos, |Log(w, a)| - PAGE_SIZE)..], a);
  }

  /** Nothing that arrived since the last visit is skipped exactly when at most five entries did. */
  lemma VisitSkipsNothing(w: World, a: Account, pos: nat)
    requires SeenUpTo(w, a, pos)
    ensures Feed(Step(w, Visited(a)).poller.sent, a) == Feed(w.poller.sent, a) + Log(w, a)[pos..] <==>
            |Log(w, a)| - pos <= 5
  {
    VisitSends(w, a, pos);
    var log := Log(w, a);
    if |log| - pos > PAGE_SIZE {
      assert |log[Max(pos, |log| - PAGE_SIZE)..]| == PAGE_SIZE;
    }
  }

  /** The first visit that finds entries sends nothing and is the baseline. */
  lemma FirstVisitIsBaseline(w: World, a: Account)
    requires a !in w.poller.lastSeen && DistinctLog(Log(w, a)) && Log(w, a) != []
    ensures SeenUpTo(Step(w, Visited(a)), a, |Log(w, a)|)
    ensures Feed(Step(w, Visited(a)).poller.sent, a) == Feed(w.poller.sent, a)
  {
    RecentFirst(Log(w, a), PAGE_SIZE);
    FeedOfNotices(w.poller.sent, a, [], a);
  }

  /** An account that was seeded with its newest entry has its baseline there. */
  lemma SeedIsBaseline(w: World, a: Account)
    requires DistinctLog(Log(w, a)) && Log(w, a) != []
    ensures Recent(Log(w, a), 1) != []
    ensures SeenUpTo(w.(poller := w.poller.(lastSeen := w.poller.lastSeen[a := Recent(Log(w, a), 1)[0].id])), a,
            |Log(w, a)|)
  {
    RecentFirst(Log(w, a), 1);
  }

  // ---- Whole runs ----

  /** Positions of a log, in increasing order, from `low` up to but not including `high`. */
  predicate Increasing(picks: seq<nat>, low: nat, high: nat) {
    && (forall i :: 0 <= i < |picks| ==> low <= picks[i] < high)
    && (forall i, j :: 0 <= i < j < |picks| ==> picks[i] < picks[j])
  }

  function Picked(log: seq<Entry>, picks: seq<nat>): (r: seq<Entry>)
    requires Increasing(picks, 0, |log|)
    ensures |r| == |picks|
  {
    seq(|picks|, i requires 0 <= i < |picks| => log[picks[i]])
  }

  /** Since `start` the feed of the account has grown by the picked entries of its log, up to the last seen one. */
  ghost predicate Follows(start: World, w: World, a: Account, pos: nat, picks: seq<nat>) {
    && SeenUpTo(w, a, pos)
    && Log(start, a) <= Log(w, a)
    && |Log(start, a)| <= pos
    && Increasing(picks, |Log(start, a)|, pos)
    && Feed(w.poller.sent, a) == Feed(start.poller.sent, a) + Picked(Log(w, a), picks)
  }

  function Span(low: nat, high: nat): (r: seq<nat>)
    requires low <= high
    ensures Increasing(r, low, high) && |r| == high - low
  {
    seq(high - low, i requires 0 <= i < high - low => low + i)
  }

  /** The picks after one more event. */
  function NextPicks(w: World, e: Event, a: Account, pos: nat, picks: seq<nat>): seq<nat>
    requires pos <= |Log(w, a)|
  {
    if e == Visited(a) then picks + Span(Max(pos, |Log(w, a)| - PAGE_SIZE), |Log(w, a)|) else picks
  }

  function NextPos(w: World, e: Event, a: Account, pos: nat): nat {
    if e == Visited(a) then |Log(w, a)| else pos
  }

  lemma PickedJoin(log: seq<Entry>, picks: seq<nat>, low: nat, pos: nat, from: nat)
    requires low <= pos <= from <= |log| && Increasing(picks, low, pos)
    requires Increasing(picks + Span(from, |log|), low, |log|)
    ensures Picked(log, picks + Span(from, |log|)) == Picked(log, picks) + log[from..]
  {
  }

  lemma VisitedLog(w: World, a: Account)
    ensures Log(Step(w, Visited(a)), a) == Log(w, a)
  {
  }

  /** The log is as it was, it has been seen to its end, and the feed has grown by its entries from `from` on. */
  ghost predicate SentFrom(w: World, t: World, a: Account, from: nat) {
    && from <= |Log(w, a)| && Log(t, a) == Log(w, a) && SeenUpTo(t, a, |Log(w, a)|)
    && Feed(t.poller.sent, a) == Feed(w.poller.sent, a) + Log(w, a)[from..]
  }

  lemma VisitSendsFrom(w: World, a: Account, pos: nat)
    requires SeenUpTo(w, a, pos)
    ensures SentFrom(w, Step(w, Visited(a)), a, Max(pos, |Log(w, a)| - PAGE_SIZE))
  {
    VisitSends(w, a, pos);
    VisitedLog(w, a);
  }

  lemma FollowsOn(start: World, w: World, t: World, a: Account, pos: nat, picks: seq<nat>)
    requires Follows(start, w, a, pos, picks) && SentFrom(w, t, a, Max(pos, |Log(w, a)| - PAGE_SIZE))
    ensures Follows(start, t, a, |Log(w, a)|, NextPicks(w, Visited(a), a, pos, picks))
  {
    FeedJoins(Feed(start.poller.sent, a), Log(w, a), picks, |Log(start, a)|, pos, Max(pos, |Log(w, a)| - PAGE_SIZE));
  }

  lemma FollowsVisit(start: World, w: World, a: Account, pos: nat, picks: seq<nat>)
    requires Follows(start, w, a, pos, picks)
    ensures Follows(start, Step(w, Visited(a)), a, |Log(w, a)|, NextPicks(w, Visited(a), a, pos, picks))
  {
    VisitSendsFrom(w, a, pos);
    FollowsOn(start, w, Step(w, Visited(a)), a, pos, picks);
  }

  lemma FeedJoins(feed: seq<Entry>, log: seq<Entry>, picks: seq<nat>, low: nat, pos: nat, from: nat)
    requires low <= pos <= from <= |log| && Increasing(picks, low, pos)
    ensures Increasing(picks + Span(from, |log|), low, |log|)
    ensures feed + Picked(log, picks) + log[from..] == feed + Picked(log, picks + Span(from, |log|))
  {
    PicksJoin(picks, low, pos, from, |log|);
    PickedJoin(log, picks, low, pos, from);
    assert feed + Picked(log, picks) + log[from..] == feed + (Picked(log, picks) + log[from..]);
  }

  lemma PicksJoin(picks: seq<nat>, low: nat, pos: nat, from: nat, high: nat)
    requires low <= pos <= from <= high && Increasing(picks, low, pos)
    ensures Increasing(picks + Span(from, high), low, high)
  {
  }

  lemma FollowsAppend(start: World, w: World, a: Account, pos: nat, picks: seq<nat>, e: Event)
    requires Follows(start, w, a, pos, picks) && Enabled(w, e) && e.Append?
    ensures Follows(start, Step(w, e), a, pos, picks)
  {
    if e.account == a {
      var log := Log(w, a);
      assert (log + [e.entry])[..|log|] == log;
      assert Picked(log + [e.entry], picks) == Picked(log, picks);
    }
  }

  lemma OtherVisit(w: World, b: Account, a: Account)
    requires a != b
    ensures var t := Step(w, Visited(b));
            Log(t, a) == Log(w, a) && Feed(t.poller.sent, a) == Feed(w.poller.sent, a) &&
            (a in t.poller.lastSeen <==> a in w.poller.lastSeen) &&
            (a in w.poller.lastSeen ==> t.poller.lastSeen[a] == w.poller.lastSeen[a])
  {
    var page := Recent(Log(w, b), PAGE_SIZE);
    var found := if b in w.poller.lastSeen then TakeUntil(page, w.poller.lastSeen[b]) else [];
    FeedOfNotices(w.poller.sent, b, Reversed(found), a);
  }

  lemma FollowsOther(start: World, w: World, a: Account, pos: nat, picks: seq<nat>, e: Event)
    requires Follows(start, w, a, pos, picks) && Enabled(w, e) && e != Visited(a)
    ensures Follows(start, Step(w, e), a, pos, picks)
  {
    if e.Visited? {
      OtherVisit(w, e.account, a);
    } else {
      FollowsAppend(start, w, a, pos, picks, e);
    }
  }

  lemma FollowsStep(start: World, w: World, a: Account, pos: nat, picks: seq<nat>, e: Event)
    requires Follows(start, w, a, pos, picks) && Enabled(w, e)
    ensures Follows(start, Step(w, e), a, NextPos(w, e, a, pos), NextPicks(w, e, a, pos, picks))
  {
    if e == Visited(a) {
      FollowsVisit(start, w, a, pos, picks);
    } else {
      FollowsOther(start, w, a, pos, picks, e);
    }
  }

  /** The feed has grown by an oldest-first selection, without repetition, of what was appended. */
  ghost predicate FeedSelects(start: World, w: World, a: Account) {
    exists pos, picks :: Follows(start, w, a, pos, picks)
  }

  lemma SelectsStep(start: World, w: World, a: Account, e: Event)
    requires FeedSelects(start, w, a) && Enabled(w, e)
    ensures FeedSelects(start, Step(w, e), a)
  {
    var pos, picks :| Follows(start, w, a, pos, picks);
    FollowsStep(start, w, a, pos, picks, e);
  }

  lemma SelectsAtStart(start: World, a: Account)
    requires SeenUpTo(start, a, |Log(start, a)|)
    ensures Follows(start, start, a, |Log(start, a)|, Span(|Log(start, a)|, |Log(start, a)|))
  {
    assert Picked(Log(start, a), []) == [];
    assert Span(|Log(start, a)|, |Log(start, a)|) == [];
  }

  /** From the baseline on, whatever else happens and whichever polls fail part-way. */
  lemma {:induction false} FeedIsSubsequence(start: World, events: seq<Event>, a: Account)
    requires SeenUpTo(start, a, |Log(start, a)|) && Possible(start, events)
    ensures FeedSelects(start, Run(start, events), a)
  {
    if events == [] {
      SelectsAtStart(start, a);
    } else {
      var before, e := events[..|events| - 1], events[|events| - 1];
      FeedIsSubsequence(start, before, a);
      SelectsStep(start, Run(start, before), a, e);
    }
  }

  /** How many entries the poller has not seen. */
  function Unseen(w: World, a: Account): nat {
    if a in w.poller.lastSeen then |TakeUntil(Reversed(Log(w, a)), w.poller.lastSeen[a])| else |Log(w, a)|
  }

  /** No visit of the account finds more than five unseen entries. */
  predicate Prompt(w: World, events: seq<Event>, a: Account) {
    events == [] ||
    (Prompt(w, events[..|events| - 1], a) &&
     (events[|events| - 1] == Visited(a) ==> Unseen(Run(w, events[..|events| - 1]), a) <= 5))
  }

  lemma UnseenIs(w: World, a: Account, pos: nat)
    requires SeenUpTo(w, a, pos)
    ensures Unseen(w, a) == |Log(w, a)| - pos
  {
    var log := Log(w, a);
    assert log[0..] == log;
    WindowTaken(log, pos, 0, pos);
  }

  lemma SpansJoin(low: nat, mid: nat, high: nat)
    requires low <= mid <= high
    ensures Span(low, mid) + Span(mid, high) == Span(low, high)
  {
  }

  /** With at most five arrivals between visits, everything up to the last visit is sent. */
  lemma {:induction false} PromptFeedIsComplete(start: World, events: seq<Event>, a: Account) returns (pos: nat)
    requires SeenUpTo(start, a, |Log(start, a)|) && Possible(start, events) && Prompt(start, events, a)
    ensures pos >= |Log(start, a)| && Follows(start, Run(start, events), a, pos, Span(|Log(start, a)|, pos))
    ensures events != [] && events[|events| - 1] == Visited(a) ==> pos == |Log(Run(start, events), a)|
  {
    if events == [] {
      pos := |Log(start, a)|;
      SelectsAtStart(start, a);
    } else {
      var before, e := events[..|events| - 1], events[|events| - 1];
      var w := Run(start, before);
      var last := PromptFeedIsComplete(start, before, a);
      FollowsStep(start, w, a, last, Span(|Log(start, a)|, last), e);
      UnseenIs(w, a, last);
      pos := NextPos(w, e, a, last);
      if e == Visited(a) {
        VisitedLog(w, a);
        SpansJoin(|Log(start, a)|, last, |Log(w, a)|);
      }
    }
  }

  /** What was picked up to the last visit is all there was exactly in a prompt run; an entry once skipped is never
      sent. */
  lemma {:induction false} PicksCounted(start: World, events: seq<Event>, a: Account)
      returns (pos: nat, picks: seq<nat>)
    requires SeenUpTo(start, a, |Log(start, a)|) && Possible(start, events)
    ensures Follows(start, Run(start, events), a, pos, picks)
    ensures |picks| <= pos - |Log(start, a)| && (|picks| == pos - |Log(start, a)| <==> Prompt(start, events, a))
    ensures events != [] && events[|events| - 1] == Visited(a) ==> pos == |Log(Run(start, events), a)|
  {
    if events == [] {
      pos, picks := |Log(start, a)|, Span(|Log(start, a)|, |Log(start, a)|);
      SelectsAtStart(start, a);
    } else {
      var before, e := events[..|events| - 1], events[|events| - 1];
      var w := Run(start, before);
      var last, sofar := PicksCounted(start, before, a);
      FollowsStep(start, w, a, last, sofar, e);
      UnseenIs(w, a, last);
      pos, picks := NextPos(w, e, a, last), NextPicks(w, e, a, last, sofar);
      if e == Visited(a) {
        VisitedLog(w, a);
      }
    }
  }

  /** After a run that ends with a visit, the feed has grown by exactly what was appended if no visit found more than
      five unseen entries, and otherwise by less. */
  lemma AllArrivalsSent(start: World, events: seq<Event>, a: Account)
    requires SeenUpTo(start, a, |Log(start, a)|) && Possible(start, events)
    requires events != [] && events[|events| - 1] == Visited(a)
    ensures var w := Run(start, events);
            Log(start, a) <= Log(w, a) &&
            (Feed(w.poller.sent, a) == Feed(start.poller.sent, a) + Log(w, a)[|Log(start, a)|..] <==>
                Prompt(start, events, a))
  {
    var pos, picks := PicksCounted(start, events, a);
    if Prompt(start, events, a) {
      var end := PromptFeedIsComplete(start, events, a);
      AllPicked(Log(Run(start, events), a), |Log(start, a)|);
    }
  }

  lemma AllPicked(log: seq<Entry>, low: nat)
    requires low <= |log|
    ensures Picked(log, Span(low, |log|)) == log[low..]
  {
  }

  /** Before its baseline an account's feed is empty. */
  lemma {:induction false} SilentBeforeBaseline(start: World, events: seq<Event>, a: Account)
    requires a !in start.poller.lastSeen && start.poller.sent == []
    requires a !in Run(start, events).poller.lastSeen
    ensures Feed(Run(start, events).poller.sent, a) == []
  {
    if events != [] {
      var before, e := events[..|events| - 1], events[|events| - 1];
      var w := Run(start, before);
      SilentBeforeBaseline(start, before, a);
      if e.Visited? && e.account != a {
        OtherVisit(w, e.account, a);
      } else if e.Visited? {
        FeedOfNotices(w.poller.sent, a, [], a);
      }
    }
  }

  // ---- Whole polls ----

  /** The accounts a poll reaches before a request fails. */
  function Reached(accounts: seq<Account>, statement: Account -> Option<seq<Entry>>): seq<Account> {
    if accounts == [] || statement(accounts[0]) == None then [] else [accounts[0]] + Reached(accounts[1..], statement)
  }

  function Visits(accounts: seq<Account>): seq<Event> {
    if accounts == [] then [] else Visits(accounts[..|accounts| - 1]) + [Visited(accounts[|accounts| - 1])]
  }

  lemma {:induction false} VisitsJoin(a: Account, accounts: seq<Account>)
    ensures Visits([a] + accounts) == [Visited(a)] + Visits(accounts)
  {
    if accounts != [] {
      assert ([a] + accounts)[..|accounts|] == [a] + accounts[..|accounts| - 1];
      VisitsJoin(a, accounts[..|accounts| - 1]);
    }
  }

  lemma RunSnoc(w: World, events: seq<Event>, e: Event)
    ensures Run(w, events + [e]) == Step(Run(w, events), e)
  {
    assert (events + [e])[..|events|] == events;
  }

  lemma SplitLast(e: Event, events: seq<Event>)
    requires events != []
    ensures [e] + events == ([e] + events[..|events| - 1]) + [events[|events| - 1]]
    ensures events == events[..|events| - 1] + [events[|events| - 1]]
  {
  }

  lemma {:induction false} RunJoin(w: World, e: Event, events: seq<Event>)
    ensures Run(w, [e] + events) == Run(Step(w, e), events)
  {
    if events == [] {
      RunSnoc(w, [], e);
      assert [e] + events == [] + [e];
    } else {
      var before, last := events[..|events| - 1], events[|events| - 1];
      RunJoin(w, e, before);
      RunSnoc(w, [e] + before, last);
      RunSnoc(Step(w, e), before, last);
      SplitLast(e, events);
    }
  }

  /** A poll that fails part-way is a run of visits to the accounts it reached. */
  lemma {:induction false} PollIsRun(w: World, accounts: seq<Account>, statement: Account -> Option<seq<Entry>>)
    requires forall a :: statement(a).Some? ==> statement(a).value == Recent(Log(w, a), PAGE_SIZE)
    ensures Poll(w.poller, accounts, statement) == Run(w, Visits(Reached(accounts, statement))).poller
    decreases |accounts|
  {
    if accounts != [] && statement(accounts[0]).Some? {
      var a, rest := accounts[0], Reached(accounts[1..], statement);
      var v := Step(w, Visited(a));
      assert forall b :: Log(v, b) == Log(w, b);
      PollIsRun(v, accounts[1..], statement);
      VisitsJoin(a, rest);
      RunJoin(w, Visited(a), Visits(rest));
    }
  }
}
