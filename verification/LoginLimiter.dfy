/** The sliding-window login limiter, and the login handler that asks it. */
module LoginLimiter {
  import opened LoginHistory

  const SECOND := 1000000000

  function Of(clients: map<string, Client>, key: string): Client {
    if key in clients then clients[key] else NEW_CLIENT
  }

  /** What a limiter keeps of a history: a rest of it that lacks only failures out of the window. */
  ghost predicate IsPruned(stored: seq<int>, times: seq<int>, cutoff: int) {
    && |stored| <= |times| && stored == times[|times| - |stored|..]
    && forall i :: 0 <= i < |times| - |stored| ==> times[i] <= cutoff
  }

  lemma PrunedNewer(stored: seq<int>, times: seq<int>, cutoff: int, first: nat)
    requires Sorted(times) && IsPruned(stored, times, cutoff) && first <= |stored|
    requires forall i :: 0 <= i < first ==> stored[i] <= cutoff
    requires first < |stored| ==> stored[first] > cutoff
    ensures stored[first..] == Newer(times, cutoff) && IsPruned(stored[first..], times, cutoff)
  {
    var d := |times| - |stored| + first;
    PrunedMore(stored, times, cutoff, first);
    forall i | d <= i < |times| ensures times[i] > cutoff {
      assert times[d] == stored[first] && (i == d || times[d] <= times[i]);
    }
    NewerIsSuffix(times, cutoff, d);
  }

  lemma PrunedMore(stored: seq<int>, times: seq<int>, cutoff: int, first: nat)
    requires IsPruned(stored, times, cutoff) && first <= |stored|
    requires forall i :: 0 <= i < first ==> stored[i] <= cutoff
    ensures var d := |times| - |stored| + first;
            stored[first..] == times[d..] && forall i :: 0 <= i < d ==> times[i] <= cutoff
  {
    var dropped := |times| - |stored|;
    forall i | dropped <= i < dropped + first ensures times[i] <= cutoff { assert stored[i - dropped] == times[i]; }
    assert stored[first..] == times[dropped + first..];
  }

  lemma PrunedPush(stored: seq<int>, times: seq<int>, cutoff: int, next: int)
    requires IsPruned(stored, times, cutoff)
    ensures IsPruned(stored + [next], times + [next], cutoff)
  {
    var dropped := |times| - |stored|;
    assert (times + [next])[..dropped] == times[..dropped] && (times + [next])[dropped..] == times[dropped..] + [next];
    forall i | 0 <= i < dropped ensures (times + [next])[i] <= cutoff { assert (times + [next])[i] == times[i]; }
  }

  // ---- Valid states ---------------------------------------------------------------------------------

  function Stored(failures: map<string, seq<int>>, key: string): seq<int> {
    if key in failures then failures[key] else []
  }

  ghost predicate KeyOk(stored: seq<int>, listed: bool, c: Client, limit: pos, window: int, now: int, issued: int) {
    && IsPruned(stored, Times(c.log), now - window) && (listed ==> stored != [])
    && ClientOk(c, limit, window, now, issued)
  }

  /** Always true: marks the keys for which a proof uses a statement about all clients. */
  predicate AnyKey(key: string) { true }

  ghost predicate AllOk(failures: map<string, seq<int>>, clients: map<string, Client>, limit: pos, window: int,
                        now: int, issued: int) {
    forall key {:trigger AnyKey(key)} :: AnyKey(key) ==>
      KeyOk(Stored(failures, key), key in failures, Of(clients, key), limit, window, now, issued)
  }

  lemma LaterKeepsKey(stored: seq<int>, listed: bool, c: Client, limit: pos, window: int, before: int, now: int,
                      issued: int, later: int)
    requires KeyOk(stored, listed, c, limit, window, before, issued) && before <= now && issued <= later
    ensures KeyOk(stored, listed, c, limit, window, now, later)
  {
    LaterKeeps(c, limit, window, before, now, issued, later);
  }

  /** The same for statements about the clients that do not change. */
  predicate OtherKey(key: string) { true }

  /** Only `key` changes. */
  ghost predicate SameElsewhere(failures: map<string, seq<int>>, failures': map<string, seq<int>>,
                                clients: map<string, Client>, clients': map<string, Client>, key: string) {
    forall other {:trigger OtherKey(other)} :: OtherKey(other) && other != key ==>
      (other in failures <==> other in failures') && Stored(failures', other) == Stored(failures, other) &&
      Of(clients', other) == Of(clients, other)
  }

  lemma OneKeyKeeps(failures: map<string, seq<int>>, failures': map<string, seq<int>>, clients: map<string, Client>,
                    clients': map<string, Client>, limit: pos, window: int, before: int, now: int, issued: int,
                    later: int, key: string)
    requires AllOk(failures, clients, limit, window, before, issued) && before <= now && issued <= later
    requires SameElsewhere(failures, failures', clients, clients', key)
    requires KeyOk(Stored(failures', key), key in failures', Of(clients', key), limit, window, now, later)
    ensures AllOk(failures', clients', limit, window, now, later)
  {
    forall other | AnyKey(other)
      ensures KeyOk(Stored(failures', other), other in failures', Of(clients', other), limit, window, now, later)
    {
      if other != key {
        assert OtherKey(other);
        LaterKeepsKey(Stored(failures, other), other in failures, Of(clients, other), limit, window, before, now,
                      issued, later);
      }
    }
  }

  lemma KeyAt(failures: map<string, seq<int>>, clients: map<string, Client>, limit: pos, window: int, now: int,
              issued: int, key: string)
    requires AllOk(failures, clients, limit, window, now, issued)
    ensures KeyOk(Stored(failures, key), key in failures, Of(clients, key), limit, window, now, issued)
  {
    assert AnyKey(key);
  }

  /** The list of one client after pruning; an empty list is not kept. */
  function Put(failures: map<string, seq<int>>, key: string, recent: seq<int>): map<string, seq<int>> {
    if recent == [] then failures - {key} else failures[key := recent]
  }

  lemma SortedTimes(c: Client, limit: pos, window: int, now: int)
    requires LogOk(c, limit, window, now)
    ensures Sorted(Times(c.log))
  {
  }

  lemma PutElsewhere(failures: map<string, seq<int>>, clients: map<string, Client>, key: string, recent: seq<int>)
    ensures var put := Put(failures, key, recent);
            && SameElsewhere(failures, put, clients, clients, key)
            && Stored(put, key) == recent && (key in put <==> recent != [])
  {
  }

  lemma PruneKey(list: seq<int>, listed: bool, c: Client, limit: pos, window: int, before: int, now: int, issued: int,
                 first: nat)
    requires KeyOk(list, listed, c, limit, window, before, issued) && before <= now && first <= |list|
    requires forall i :: 0 <= i < first ==> list[i] <= now - window
    requires first < |list| ==> list[first] > now - window
    ensures list[first..] == Newer(Times(c.log), now - window)
    ensures KeyOk(list[first..], first < |list|, c, limit, window, now, issued)
  {
    LaterKeepsKey(list, listed, c, limit, window, before, now, issued, issued);
    SortedTimes(c, limit, window, now);
    PrunedNewer(list, Times(c.log), now - window, first);
  }

  lemma PruneStep(failures: map<string, seq<int>>, failures': map<string, seq<int>>, clients: map<string, Client>,
                  limit: pos, window: int, before: int, now: int, issued: int, key: string, first: nat)
    requires AllOk(failures, clients, limit, window, before, issued) && before <= now &&
             first <= |Stored(failures, key)|
    requires forall i :: 0 <= i < first ==> Stored(failures, key)[i] <= now - window
    requires first < |Stored(failures, key)| ==> Stored(failures, key)[first] > now - window
    requires failures' == if first == |Stored(failures, key)| then failures - {key}
                          else failures[key := Stored(failures, key)[first..]]
    ensures var recent := Stored(failures, key)[first..];
            && recent == Newer(Times(Of(clients, key).log), now - window) == Stored(failures', key)
            && failures' == Put(failures, key, recent)
            && AllOk(failures', clients, limit, window, now, issued)
  {
    var list, c := Stored(failures, key), Of(clients, key);
    KeyAt(failures, clients, limit, window, before, issued, key);
    PruneKey(list, key in failures, c, limit, window, before, now, issued, first);
    PutElsewhere(failures, clients, key, list[first..]);
    OneKeyKeeps(failures, failures', clients, clients, limit, window, before, now, issued, issued, key);
  }

  lemma AdmitKey(list: seq<int>, listed: bool, c: Client, limit: pos, window: int, now: int, id: int)
    requires KeyOk(list, listed, c, limit, window, now, id) && Allowed(Times(c.log), now, limit, window)
    ensures KeyOk(list, listed, Admit(c, id, now), limit, window, now, id + 1)
  {
    AdmitKeeps(c, id, limit, window, now, now, id);
  }

  lemma AdmitStep(failures: map<string, seq<int>>, clients: map<string, Client>, limit: pos, window: int, now: int,
                  id: int, key: string)
    requires AllOk(failures, clients, limit, window, now, id)
    requires Allowed(Times(Of(clients, key).log), now, limit, window)
    ensures AllOk(failures, clients[key := Admit(Of(clients, key), id, now)], limit, window, now, id + 1)
  {
    var c := Of(clients, key);
    KeyAt(failures, clients, limit, window, now, id, key);
    AdmitKey(Stored(failures, key), key in failures, c, limit, window, now, id);
    OneKeyKeeps(failures, failures, clients, clients[key := Admit(c, id, now)], limit, window, now, now, id,
                id + 1, key);
  }

  lemma FailKey(list: seq<int>, listed: bool, c: Client, limit: pos, window: int, now: int, issued: int, id: int)
    requires KeyOk(list, listed, c, limit, window, now, issued) && id in c.inFlight
    ensures KeyOk(list + [now], true, Fail(c, id, now), limit, window, now, issued)
  {
    FailKeeps(c, id, limit, window, now, now, issued);
    FailTimes(c, id, now);
    PrunedPush(list, Times(c.log), now - window, now);
  }

  lemma FailTimes(c: Client, id: int, now: int)
    requires id in c.inFlight
    ensures Times(Fail(c, id, now).log) == Times(c.log) + [now]
  {
  }

  lemma Replaced(failures: map<string, seq<int>>, clients: map<string, Client>, limit: pos, window: int, now: int,
                 issued: int, key: string, list: seq<int>, c: Client)
    requires AllOk(failures, clients, limit, window, now, issued) && KeyOk(list, true, c, limit, window, now, issued)
    ensures AllOk(failures[key := list], clients[key := c], limit, window, now, issued)
  {
    OneKeyKeeps(failures, failures[key := list], clients, clients[key := c], limit, window, now, now, issued, issued,
                key);
  }

  lemma FailStep(failures: map<string, seq<int>>, clients: map<string, Client>, limit: pos, window: int, now: int,
                 issued: int, key: string, recent: seq<int>, id: int)
    requires AllOk(failures, clients, limit, window, now, issued) && id in Of(clients, key).inFlight
    requires recent == Stored(failures, key)
    ensures AllOk(failures[key := recent + [now]], clients[key := Fail(Of(clients, key), id, now)], limit, window,
                  now, issued)
  {
    var c := Of(clients, key);
    KeyAt(failures, clients, limit, window, now, issued, key);
    FailKey(recent, key in failures, c, limit, window, now, issued, id);
    Replaced(failures, clients, limit, window, now, issued, key, recent + [now], Fail(c, id, now));
  }

  lemma Removed(failures: map<string, seq<int>>, clients: map<string, Client>, limit: pos, window: int, now: int,
                issued: int, key: string, c: Client)
    requires AllOk(failures, clients, limit, window, now, issued) && KeyOk([], false, c, limit, window, now, issued)
    ensures AllOk(failures - {key}, clients[key := c], limit, window, now, issued)
  {
    OneKeyKeeps(failures, failures - {key}, clients, clients[key := c], limit, window, now, now, issued, issued, key);
  }

  lemma SucceedKey(list: seq<int>, listed: bool, c: Client, limit: pos, window: int, now: int, issued: int, id: int)
    requires KeyOk(list, listed, c, limit, window, now, issued) && id in c.inFlight
    ensures KeyOk([], false, Succeed(c, id), limit, window, now, issued)
  {
    SucceedKeeps(c, id, limit, window, now, issued);
  }

  lemma SucceedTimes(c: Client, id: int)
    ensures Times(Succeed(c, id).log) == []
  {
  }

  lemma AbandonKey(list: seq<int>, listed: bool, c: Client, limit: pos, window: int, now: int, issued: int, id: int)
    requires KeyOk(list, listed, c, limit, window, now, issued) && id in c.inFlight
    ensures KeyOk(list, listed, Abandon(c, id), limit, window, now, issued)
  {
    AbandonKeeps(c, id, limit, window, now, issued);
  }

  lemma ResetStep(failures: map<string, seq<int>>, clients: map<string, Client>, limit: pos, window: int, now: int,
                  issued: int, key: string, id: int)
    requires AllOk(failures, clients, limit, window, now, issued) && id in Of(clients, key).inFlight
    ensures AllOk(failures - {key}, clients[key := Succeed(Of(clients, key), id)], limit, window, now, issued)
  {
    var c := Of(clients, key);
    KeyAt(failures, clients, limit, window, now, issued, key);
    SucceedKey(Stored(failures, key), key in failures, c, limit, window, now, issued, id);
    Removed(failures, clients, limit, window, now, issued, key, Succeed(c, id));
  }

  lemma AbandonStep(failures: map<string, seq<int>>, clients: map<string, Client>, limit: pos, window: int, now: int,
                    issued: int, key: string, id: int)
    requires AllOk(failures, clients, limit, window, now, issued) && id in Of(clients, key).inFlight
    ensures AllOk(failures, clients[key := Abandon(Of(clients, key), id)], limit, window, now, issued)
  {
    var c := Of(clients, key);
    KeyAt(failures, clients, limit, window, now, issued, key);
    AbandonKey(Stored(failures, key), key in failures, c, limit, window, now, issued, id);
    OneKeyKeeps(failures, failures, clients, clients[key := Abandon(c, id)], limit, window, now, now, issued, issued,
                key);
  }

  // ---- The limiter -----------------------------------------------------------------------------------

  class Limiter {
    const maxFailures: pos
    const window: int
    var failures: map<string, seq<int>>
    ghost var clients: map<string, Client>
    ghost var latest: int
    ghost var issued: int

    /** Every failure of a client since its last reset. */
    ghost function History(key: string): seq<int>
      reads this`clients
    {
      Times(Of(clients, key).log)
    }

    ghost predicate Valid()
      reads this
    {
      AllOk(failures, clients, maxFailures, window, latest, issued)
    }

    constructor (maxFailures: pos, window: int, ghost now: int)
      ensures Valid() && clients == map[] && failures == map[] && latest == now
      ensures this.maxFailures == maxFailures && this.window == window && issued == 0
    {
      this.maxFailures, this.window, failures := maxFailures, window, map[];
      clients, latest, issued := map[], now, 0;
      assert Times([]) == [];
    }

    /** Drops what is out of the window and returns the rest: exactly the failures since the last
        reset that are newer than `now - window`. */
    method RecentFailures(key: string, now: int) returns (recent: seq<int>)
      requires Valid() && latest <= now
      modifies this`failures, this`latest
      ensures Valid() && latest == now
      ensures recent == Newer(History(key), now - window) == Stored(failures, key)
      ensures failures == Put(old(failures), key, recent)
    {
      var list := Stored(failures, key);
      var cutoff := now - window;
      var firstRecent := 0;
      while firstRecent < |list| && list[firstRecent] <= cutoff
        invariant 0 <= firstRecent <= |list|
        invariant forall i :: 0 <= i < firstRecent ==> list[i] <= cutoff
      {
        firstRecent := firstRecent + 1;
      }
      recent := list[firstRecent..];
      ghost var before := failures;
      if firstRecent == |list| {
        failures := failures - {key};
      } else {
        failures := failures[key := recent];
      }
      PruneStep(before, failures, clients, maxFailures, window, latest, now, issued, key, firstRecent);
      latest := now;
    }

    /** Admits an attempt exactly while fewer than the maximum of failures is in the window. */
    method Allow(key: string, now: int) returns (allowed: bool, retryAfter: int, ghost id: int)
      requires Valid() && latest <= now
      modifies this
      ensures Valid() && latest == now
      ensures allowed <==> Allowed(old(History(key)), now, maxFailures, window)
      ensures retryAfter == if allowed then 0
              else RetryAfter(Newer(old(History(key)), now - window), now, window, SECOND)
      ensures id == old(issued) && issued == if allowed then id + 1 else id
      ensures clients == if allowed then old(clients)[key := Admit(Of(old(clients), key), id, now)] else old(clients)
      ensures Stored(failures, key) == Newer(old(History(key)), now - window)
    {
      id := issued;
      var recent := RecentFailures(key, now);
      if |recent| < maxFailures {
        ghost var admitted := clients[key := Admit(Of(clients, key), id, now)];
        AdmitStep(failures, clients, maxFailures, window, now, id, key);
        clients := admitted;
        issued := id + 1;
        return true, 0, id;
      }
      retryAfter := window - (now - recent[0]);
      if retryAfter < SECOND { retryAfter := SECOND; }
      allowed := false;
    }

    /** Records the failure of an admitted attempt. */
    method Failed(key: string, now: int, ghost id: int)
      requires Valid() && latest <= now && id in Of(clients, key).inFlight
      modifies this
      ensures Valid() && latest == now && issued == old(issued)
      ensures clients == old(clients)[key := Fail(Of(old(clients), key), id, now)]
      ensures History(key) == old(History(key)) + [now]
      ensures Stored(failures, key) == Newer(old(History(key)), now - window) + [now]
      ensures |Stored(failures, key)| > maxFailures <==> !Allowed(old(History(key)), now, maxFailures, window)
    {
      assert old(Of(clients, key)) == Of(clients, key);
      var recent := RecentFailures(key, now);
      ghost var failed := clients[key := Fail(Of(clients, key), id, now)];
      FailStep(failures, clients, maxFailures, window, now, issued, key, recent, id);
      FailTimes(Of(clients, key), id, now);
      failures := failures[key := recent + [now]];
      clients := failed;
    }

    /** Forgets the failures of a client, when one of its attempts succeeds. */
    method Reset(key: string, ghost id: int)
      requires Valid() && id in Of(clients, key).inFlight
      modifies this`failures, this`clients
      ensures Valid() && key !in failures && History(key) == []
      ensures clients == old(clients)[key := Succeed(Of(old(clients), key), id)]
    {
      ghost var succeeded := clients[key := Succeed(Of(clients, key), id)];
      ResetStep(failures, clients, maxFailures, window, latest, issued, key, id);
      SucceedTimes(Of(clients, key), id);
      failures := failures - {key};
      clients := succeeded;
    }

    /** An admitted attempt that ends in neither. */
    ghost method Drop(key: string, id: int)
      requires Valid() && id in Of(clients, key).inFlight
      modifies this`clients
      ensures Valid() && clients == old(clients)[key := Abandon(Of(old(clients), key), id)]
    {
      var ended := clients[key := Abandon(Of(clients, key), id)];
      AbandonStep(failures, clients, maxFailures, window, latest, issued, key, id);
      clients := ended;
    }
  }

  // ---- What the limiter limits -----------------------------------------------------------------------

  /** Whatever the interleaving of requests: with at most `peak` attempts of a client under way at
      once, no window between its resets holds more than `limit + peak - 1` failures. */
  lemma WindowHoldsAtMost(failures: map<string, seq<int>>, clients: map<string, Client>, limit: pos, window: int,
                          now: int, issued: int, key: string)
    requires AllOk(failures, clients, limit, window, now, issued) && Of(clients, key).peak > 0
    ensures var c := Of(clients, key);
            Spaced(Times(c.log), limit + c.peak - 1, window) &&
              |Newer(Times(c.log), now - window)| <= limit + c.peak - 1
  {
    var c := Of(clients, key);
    KeyAt(failures, clients, limit, window, now, issued, key);
    FailuresAreSpaced(c, limit, window, now, issued);
    LogTimes(c, limit, window, now);
    SpacedWindows(Times(c.log), limit + c.peak - 1, window, now);
  }

  lemma LogTimes(c: Client, limit: pos, window: int, now: int)
    requires LogOk(c, limit, window, now)
    ensures Sorted(Times(c.log)) && forall i :: 0 <= i < |Times(c.log)| ==> Times(c.log)[i] <= now
  {
  }

  /** No window between resets has ever held more failures than the limit exactly if each failure was
      recorded when the limiter would still have admitted an attempt. */
  lemma WindowsHoldLimitExactly(failures: map<string, seq<int>>, clients: map<string, Client>, limit: pos,
                                window: int, now: int, issued: int, key: string)
    requires AllOk(failures, clients, limit, window, now, issued) && window > 0
    ensures var times := Times(Of(clients, key).log);
            WithinLimit(times, limit, window) <==> forall k: nat :: k < |times| ==> AllowedAt(times, k, limit, window)
  {
    KeyAt(failures, clients, limit, window, now, issued, key);
    LimitHoldsExactly(Of(clients, key), limit, window, now);
  }

  /** Any other failure was admitted before all the earlier ones had been recorded. */
  lemma OnlyOverlapExceeds(failures: map<string, seq<int>>, clients: map<string, Client>, limit: pos, window: int,
                           now: int, issued: int, key: string, k: nat)
    requires AllOk(failures, clients, limit, window, now, issued) && k < |Of(clients, key).log|
    ensures !AllowedAt(Times(Of(clients, key).log), k, limit, window) ==> Of(clients, key).log[k].check.seen < k
  {
    KeyAt(failures, clients, limit, window, now, issued, key);
    if !AllowedAt(Times(Of(clients, key).log), k, limit, window) {
      ExceedingWasCheckedEarly(Of(clients, key), limit, window, now, k);
    }
  }

  /** Requests of a client that come one after another: the reported wait is then exact. */
  lemma WaitIsExact(failures: map<string, seq<int>>, clients: map<string, Client>, limit: pos, window: int, now: int,
                    issued: int, key: string, at: int)
    requires AllOk(failures, clients, limit, window, now, issued) && Of(clients, key).peak == 1
    requires !Allowed(Times(Of(clients, key).log), now, limit, window) && at >= now
    ensures var times := Times(Of(clients, key).log);
            var wait := RetryAfter(Newer(times, now - window), now, window, SECOND);
            && (at >= now + wait ==> Allowed(times, at, limit, window))
            && (wait > SECOND && at < now + wait ==> !Allowed(times, at, limit, window))
  {
    WindowHoldsAtMost(failures, clients, limit, window, now, issued, key);
    KeyAt(failures, clients, limit, window, now, issued, key);
    LogTimes(Of(clients, key), limit, window, now);
    RetryAfterExact(Times(Of(clients, key).log), now, limit, window, SECOND, at);
  }

  /** Two attempts admitted together, which both fail. */
  function Overlapping(): Client {
    var both := Admit(Admit(NEW_CLIENT, 0, 0), 1, 0);
    Fail(Fail(both, 0, 0), 1, 5 * SECOND)
  }

  /** With a limit of one failure in 100 seconds, two requests are admitted before either has failed. */
  method TwoAdmitted(key: string) returns (limiter: Limiter, both: bool)
    ensures fresh(limiter) && limiter.Valid() && limiter.maxFailures == 1 && limiter.window == 100 * SECOND
    ensures limiter.latest == 0 && both && Of(limiter.clients, key) == Admit(Admit(NEW_CLIENT, 0, 0), 1, 0)
  {
    limiter := new Limiter(1, 100 * SECOND, 0);
    assert limiter.History(key) == [] && Newer([], -100 * SECOND) == [];
    var first, _, _ := limiter.Allow(key, 0);
    assert limiter.History(key) == [];
    var second, _, _ := limiter.Allow(key, 0);
    both := first && second;
  }

  /** Both then fail. */
  method OverlappingAttempts(key: string) returns (limiter: Limiter, both: bool)
    ensures fresh(limiter) && limiter.Valid() && limiter.maxFailures == 1 && limiter.window == 100 * SECOND
    ensures both && Of(limiter.clients, key) == Overlapping()
  {
    limiter, both := TwoAdmitted(key);
    limiter.Failed(key, 0, 0);
    limiter.Failed(key, 5 * SECOND, 1);
  }

  lemma OverlappingIsReachable()
    ensures ClientOk(Overlapping(), 1, 100 * SECOND, 5 * SECOND, 2)
  {
    var window := 100 * SECOND;
    var c1 := Admit(NEW_CLIENT, 0, 0);
    var c2 := Admit(c1, 1, 0);
    AdmitKeeps(NEW_CLIENT, 0, 1, window, 0, 0, 0);
    AdmitKeeps(c1, 1, 1, window, 0, 0, 1);
    FailKeeps(c2, 0, 1, window, 0, 0, 2);
    FailKeeps(Fail(c2, 0, 0), 1, 1, window, 0, 5 * SECOND, 2);
  }

  lemma OverlappingTimes()
    ensures Times(Overlapping().log) == [0, 5 * SECOND] && Overlapping().peak == 2
  {
    var c1 := Admit(NEW_CLIENT, 0, 0);
    var c2 := Admit(c1, 1, 0);
    FailTimes(c2, 0, 0);
    FailTimes(Fail(c2, 0, 0), 1, 5 * SECOND);
    assert |c1.inFlight| == 1;
    assert c2.inFlight.Keys == {0, 1};
  }

  /** The second failure then exceeds a limit of one, and the wait reported afterwards is too short. */
  lemma OverlapExceedsLimit()
    ensures var times, window, now := Times(Overlapping().log), 100 * SECOND, 5 * SECOND;
            && |Newer(times, now - window)| == 2
            && !Allowed(times, now + RetryAfter(Newer(times, now - window), now, window, SECOND), 1, window)
  {
    OverlappingTimes();
    NewerIsSuffix([0, 5 * SECOND], -95 * SECOND, 0);
    NewerIsSuffix([0, 5 * SECOND], 0, 1);
    assert RetryAfter([0, 5 * SECOND], 5 * SECOND, 100 * SECOND, SECOND) == 95 * SECOND;
  }

  // ---- The bound is reached ---------------------------------------------------------------------------

  /** That many failures at time zero. */
  function Zeros(n: nat): seq<int> { seq(n, i => 0) }

  lemma {:induction false} ZerosNewer(n: nat, cutoff: int)
    requires cutoff < 0
    ensures |Newer(Zeros(n), cutoff)| == n
  {
    if n > 0 {
      assert Zeros(n)[..n - 1] == Zeros(n - 1);
      ZerosNewer(n - 1, cutoff);
    }
  }

  lemma {:induction false} NewerAtMost(times: seq<int>, cutoff: int)
    ensures |Newer(times, cutoff)| <= |times|
  {
    if times != [] { NewerAtMost(times[..|times| - 1], cutoff); }
  }

  function IdsFrom(first: int, n: nat): (ids: set<int>)
    ensures forall id :: id in ids <==> first <= id < first + n
  {
    if n == 0 then {} else IdsFrom(first, n - 1) + {first + n - 1}
  }

  lemma {:induction false} IdsCount(first: int, n: nat)
    ensures |IdsFrom(first, n)| == n
  {
    if n > 0 {
      IdsCount(first, n - 1);
    }
  }

  /** At time zero: so many failures, so many attempts under way. */
  ghost predicate IsAt(c: Client, failed: nat, first: int, underWay: nat) {
    Times(c.log) == Zeros(failed) && c.inFlight.Keys == IdsFrom(first, underWay)
  }

  lemma AdmittedNext(c: Client, failed: nat, first: int, underWay: nat)
    requires IsAt(c, failed, first, underWay)
    ensures var c' := Admit(c, first + underWay, 0);
            IsAt(c', failed, first, underWay + 1) && c'.peak == if underWay + 1 > c.peak then underWay + 1 else c.peak
  {
    AdmittedIds(c, first, underWay);
    IdsCount(first, underWay + 1);
  }

  lemma AdmittedIds(c: Client, first: int, underWay: nat)
    requires c.inFlight.Keys == IdsFrom(first, underWay)
    ensures var inFlight := Admit(c, first + underWay, 0).inFlight;
            inFlight.Keys == IdsFrom(first, underWay + 1) && |inFlight| == |IdsFrom(first, underWay + 1)|
  {
    var inFlight := Admit(c, first + underWay, 0).inFlight;
    assert inFlight.Keys == c.inFlight.Keys + {first + underWay} == IdsFrom(first, underWay + 1);
    assert |inFlight| == |inFlight.Keys|;
  }

  lemma FailedNext(c: Client, failed: nat, first: int, underWay: nat)
    requires IsAt(c, failed, first, underWay) && underWay > 0
    ensures first in c.inFlight && IsAt(Fail(c, first, 0), failed + 1, first + 1, underWay - 1)
  {
    assert first in c.inFlight.Keys;
    FailTimes(c, first, 0);
    assert Zeros(failed) + [0] == Zeros(failed + 1);
    assert Fail(c, first, 0).inFlight.Keys == c.inFlight.Keys - {first} == IdsFrom(first + 1, underWay - 1);
  }

  /** One more attempt is let in while there are fewer failures than the maximum. */
  method LetIn(limiter: Limiter, key: string, ghost failed: nat, ghost first: int, ghost underWay: nat)
    returns (ghost id: int)
    requires limiter.Valid() && limiter.latest == 0 && failed < limiter.maxFailures
    requires IsAt(Of(limiter.clients, key), failed, first, underWay) && limiter.issued == first + underWay
    modifies limiter
    ensures limiter.Valid() && limiter.latest == 0 && limiter.issued == old(limiter.issued) + 1
    ensures id == first + underWay && Of(limiter.clients, key) == Admit(Of(old(limiter.clients), key), id, 0)
    ensures IsAt(Of(limiter.clients, key), failed, first, underWay + 1)
  {
    NewerAtMost(limiter.History(key), 0 - limiter.window);
    AdmittedNext(Of(limiter.clients, key), failed, first, underWay);
    var allowed, _, next := limiter.Allow(key, 0);
    id := next;
  }

  /** One after the other, `n` attempts fail. */
  method FailInTurn(limiter: Limiter, key: string, n: nat)
    requires limiter.Valid() && limiter.latest == 0 && limiter.issued == 0 && n < limiter.maxFailures
    requires IsAt(Of(limiter.clients, key), 0, 0, 0) && Of(limiter.clients, key).peak == 0
    modifies limiter
    ensures limiter.Valid() && limiter.latest == 0 && limiter.issued == n
    ensures IsAt(Of(limiter.clients, key), n, n, 0) && Of(limiter.clients, key).peak <= 1
  {
    for i := 0 to n
      invariant limiter.Valid() && limiter.latest == 0 && limiter.issued == i
      invariant IsAt(Of(limiter.clients, key), i, i, 0) && Of(limiter.clients, key).peak <= 1
    {
      AdmittedNext(Of(limiter.clients, key), i, i, 0);
      ghost var id := LetIn(limiter, key, i, i, 0);
      FailedNext(Of(limiter.clients, key), i, i, 1);
      limiter.Failed(key, 0, id);
    }
  }

  /** Then `n` are let in together. */
  method LetInTogether(limiter: Limiter, key: string, n: pos, ghost failed: nat)
    requires limiter.Valid() && limiter.latest == 0 && limiter.issued == failed < limiter.maxFailures
    requires IsAt(Of(limiter.clients, key), failed, failed, 0) && Of(limiter.clients, key).peak <= 1
    modifies limiter
    ensures limiter.Valid() && limiter.latest == 0
    ensures IsAt(Of(limiter.clients, key), failed, failed, n) && Of(limiter.clients, key).peak == n
  {
    for i := 0 to n
      invariant limiter.Valid() && limiter.latest == 0 && limiter.issued == failed + i
      invariant IsAt(Of(limiter.clients, key), failed, failed, i)
      invariant i <= Of(limiter.clients, key).peak <= if i == 0 then 1 else i
    {
      AdmittedNext(Of(limiter.clients, key), failed, failed, i);
      ghost var _ := LetIn(limiter, key, failed, failed, i);
    }
  }

  /** And all of them fail. */
  method FailTogether(limiter: Limiter, key: string, n: nat, ghost failed: nat)
    requires limiter.Valid() && limiter.latest == 0 && IsAt(Of(limiter.clients, key), failed, failed, n)
    modifies limiter
    ensures limiter.Valid() && limiter.latest == 0 && IsAt(Of(limiter.clients, key), failed + n, failed + n, 0)
    ensures Of(limiter.clients, key).peak == old(Of(limiter.clients, key).peak)
  {
    for i := 0 to n
      invariant limiter.Valid() && limiter.latest == 0
      invariant IsAt(Of(limiter.clients, key), failed + i, failed + i, n - i)
      invariant Of(limiter.clients, key).peak == old(Of(limiter.clients, key).peak)
    {
      FailedNext(Of(limiter.clients, key), failed + i, failed + i, n - i);
      limiter.Failed(key, 0, failed + i);
    }
  }

  /** For every maximum and every number of attempts at once there are calls after which a window holds
      as many failures as `WindowHoldsAtMost` allows. */
  method BoundIsReached(limit: pos, peak: pos, window: pos, key: string) returns (limiter: Limiter)
    ensures fresh(limiter) && limiter.Valid() && limiter.maxFailures == limit && limiter.window == window
    ensures Of(limiter.clients, key).peak == peak
    ensures |Newer(limiter.History(key), limiter.latest - window)| == limit + peak - 1
  {
    limiter := new Limiter(limit, window, 0);
    assert Times([]) == Zeros(0) && NEW_CLIENT.inFlight.Keys == IdsFrom(0, 0);
    FailInTurn(limiter, key, limit - 1);
    LetInTogether(limiter, key, peak, limit - 1);
    FailTogether(limiter, key, peak, limit - 1);
    ZerosNewer(limit - 1 + peak, 0 - window);
  }
}
