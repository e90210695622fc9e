/** The poller itself: a loop over the accounts of a session, at a fixed interval. */
module NotificationPoller {
  import opened Wrappers
  import opened NotificationFeed

  class PollerState {
    var lastSeenByAccount: map<Account, EntryId>
    var sent: seq<Notification>

    constructor ()
      ensures lastSeenByAccount == map[] && sent == []
    {
      lastSeenByAccount := map[];
      sent := [];
    }

    ghost function State(): Poller
      reads this
    {
      Poller(lastSeenByAccount, sent)
    }

    /** The newest entry of each account that answers becomes its baseline. */
    method SeedLastSeen(accounts: seq<Account>, latest: Account -> Option<seq<Entry>>)
      requires forall a :: latest(a).Some? ==> |latest(a).value| <= 1
      modifies this
      ensures sent == old(sent)
      ensures forall a :: a in lastSeenByAccount <==>
                          a in old(lastSeenByAccount) || (a in accounts && latest(a).Some? && latest(a).value != [])
      ensures forall a :: a in lastSeenByAccount ==>
                          lastSeenByAccount[a] == if a in accounts && latest(a).Some? && latest(a).value != []
                              then latest(a).value[0].id
                                                  else old(lastSeenByAccount)[a]
    {
      for i := 0 to |accounts|
        invariant sent == old(sent)
        invariant forall a :: a in lastSeenByAccount <==>
                              a in old(lastSeenByAccount) ||
                                  (a in accounts[..i] && latest(a).Some? && latest(a).value != [])
        invariant forall a :: a in lastSeenByAccount ==>
                              lastSeenByAccount[a] == if a in accounts[..i] && latest(a).Some? &&
                                  latest(a).value != [] then latest(a).value[0].id
                                                      else old(lastSeenByAccount)[a]
      {
        var account := accounts[i];
        assert accounts[..i + 1] == accounts[..i] + [account];
        match latest(account) {
          case Some(page) =>
            if page != [] {
              lastSeenByAccount := lastSeenByAccount[account := page[0].id];
            }
          case None =>
        }
      }
      assert accounts[..|accounts|] == accounts;
    }

    /** One poll: the accounts in turn, until a request fails. */
    method RunPoll(accounts: seq<Account>, statement: Account -> Option<seq<Entry>>)
      modifies this
      ensures State() == Poll(old(State()), accounts, statement)
    {
      for i := 0 to |accounts|
        invariant Poll(State(), accounts[i..], statement) == Poll(old(State()), accounts, statement)
      {
        var account := accounts[i];
        assert accounts[i..][1..] == accounts[i + 1..];
        match statement(account) {
          case None => return;
          case Some(entries) => VisitAccount(account, entries);
        }
      }
    }

    method VisitAccount(account: Account, entries: seq<Entry>)
      modifies this
      ensures State() == Visit(old(State()), account, entries)
    {
      var newEntries := [];
      if account in lastSeenByAccount {
        newEntries := TakeUntilId(entries, lastSeenByAccount[account]);
      }
      var oldestFirst := Reversed(newEntries);
      for i := 0 to |oldestFirst|
        invariant lastSeenByAccount == old(lastSeenByAccount)
        invariant sent == old(sent) + Notices(account, oldestFirst[..i])
      {
        sent := sent + [Notification(account, oldestFirst[i])];
        assert Notices(account, oldestFirst[..i + 1]) == Notices(account, oldestFirst[..i]) +
            [Notification(account, oldestFirst[i])];
      }
      assert oldestFirst[..|oldestFirst|] == oldestFirst;
      if entries != [] {
        lastSeenByAccount := lastSeenByAccount[account := entries[0].id];
      }
    }
  }

  method TakeUntilId(entries: seq<Entry>, stopAtId: EntryId) returns (result: seq<Entry>)
    ensures result == TakeUntil(entries, stopAtId)
  {
    result := [];
    for i := 0 to |entries|
      invariant TakeUntil(entries, stopAtId) == result + TakeUntil(entries[i..], stopAtId)
    {
      if entries[i].id == stopAtId {
        break;
      }
      assert entries[i..][1..] == entries[i + 1..];
      result := result + [entries[i]];
    }
  }
}
