/** The login attempts of one client, as a sliding window over its failures sees them. */
module LoginHistory {
  import opened Sets

  type pos = n: nat | n > 0 witness 1

  // ---- Sliding windows ---------------------------------------------------------------------------

  predicate Sorted(times: seq<int>) {
    forall i, j :: 0 <= i < j < |times| ==> times[i] <= times[j]
  }

  /** The times after the cutoff, in order. */
  function Newer(times: seq<int>, cutoff: int): seq<int> {
    if times == [] then []
    else
      var last := times[|times| - 1];
      Newer(times[..|times| - 1], cutoff) + if last > cutoff then [last] else []
  }

  /** In a sorted list, the newer times are the rest of the list after the older ones. */
  lemma {:induction false} NewerIsSuffix(times: seq<int>, cutoff: int, d: nat)
    requires d <= |times|
    requires (forall i :: 0 <= i < d ==> times[i] <= cutoff) && (forall i :: d <= i < |times| ==> times[i] > cutoff)
    ensures Newer(times, cutoff) == times[d..]
  {
    if times != [] {
      var last := |times| - 1;
      if d == |times| {
        NewerIsSuffix(times[..last], cutoff, last);
        assert times[..last][last..] == times[d..] == [];
      } else {
        NewerIsSuffix(times[..last], cutoff, d);
        assert times[..last][d..] + [times[last]] == times[d..];
      }
    }
  }

  /** Where the newer times of a sorted list begin. */
  lemma {:induction false} FirstNewer(times: seq<int>, cutoff: int) returns (d: nat)
    requires Sorted(times)
    ensures d <= |times| && Newer(times, cutoff) == times[d..]
    ensures (forall i :: 0 <= i < d ==> times[i] <= cutoff) && (forall i :: d <= i < |times| ==> times[i] > cutoff)
  {
    d := 0;
    while d < |times| && times[d] <= cutoff
      invariant d <= |times| && forall i :: 0 <= i < d ==> times[i] <= cutoff
    {
      d := d + 1;
    }
    NewerIsSuffix(times, cutoff, d);
  }

  predicate Allowed(times: seq<int>, now: int, limit: pos, window: int) {
    |Newer(times, now - window)| < limit
  }

  /** A sorted history allows an attempt exactly if its `limit`-th failure from the end is old. */
  lemma AllowedExactly(times: seq<int>, now: int, limit: pos, window: int)
    requires Sorted(times)
    ensures Allowed(times, now, limit, window) <==> |times| < limit || times[|times| - limit] <= now - window
  {
    var d := FirstNewer(times, now - window);
  }

  /** Any `count + 1` consecutive failures take at least the window. */
  ghost predicate Spaced(times: seq<int>, count: nat, window: int) {
    forall i, j :: 0 <= i && j == i + count && j < |times| ==> times[j] - times[i] >= window
  }

  /** Then no window of this length ever holds more than `count`. */
  lemma SpacedWindows(times: seq<int>, count: nat, window: int, upTo: int)
    requires Sorted(times) && count > 0
    requires Spaced(times, count, window) && forall i :: 0 <= i < |times| ==> times[i] <= upTo
    ensures |Newer(times, upTo - window)| <= count
  {
    var d := FirstNewer(times, upTo - window);
    if |times| > count {
      var i, j := |times| - 1 - count, |times| - 1;
      assert times[j] - times[i] >= window;
    }
  }

  // ---- When a window holds too many ---------------------------------------------------------------

  /** The failures after `start`, up to and including `end`. */
  function InWindow(times: seq<int>, start: int, end: int): seq<int> {
    if times == [] then []
    else
      var last := times[|times| - 1];
      InWindow(times[..|times| - 1], start, end) + if start < last <= end then [last] else []
  }

  ghost predicate HoldsAtMost(times: seq<int>, limit: nat, window: int, t: int) {
    |InWindow(times, t - window, t)| <= limit
  }

  ghost predicate WithinLimit(times: seq<int>, limit: nat, window: int) {
    forall t: int :: HoldsAtMost(times, limit, window, t)
  }

  lemma {:induction false} InWindowIsSlice(times: seq<int>, start: int, end: int, d: nat, e: nat)
    requires d <= e <= |times|
    requires forall i :: 0 <= i < |times| ==> (start < times[i] <= end <==> d <= i < e)
    ensures InWindow(times, start, end) == times[d..e]
  {
    if times != [] {
      var last := |times| - 1;
      var d', e' := if d > last then last else d, if e > last then last else e;
      InWindowIsSlice(times[..last], start, end, d', e');
      assert times[..last][d'..e'] == times[d'..e'];
      if e == |times| && d <= last { assert times[d..last] + [times[last]] == times[d..e]; }
    }
  }

  /** Where the window of a sorted list begins and ends. */
  lemma WindowSlice(times: seq<int>, start: int, end: int) returns (d: nat, e: nat)
    requires Sorted(times) && start <= end
    ensures d <= e <= |times| && InWindow(times, start, end) == times[d..e]
    ensures forall i :: 0 <= i < |times| ==> (start < times[i] <= end <==> d <= i < e)
  {
    d := FirstNewer(times, start);
    e := FirstNewer(times, end);
    assert e < |times| ==> times[e] > end;
    InWindowIsSlice(times, start, end, d, e);
  }

  /** No window of this length ever holds more than `limit` exactly if any `limit + 1` consecutive
      failures take at least as long. */
  lemma WithinLimitExactly(times: seq<int>, limit: pos, window: int)
    requires Sorted(times) && window > 0
    ensures WithinLimit(times, limit, window) <==> Spaced(times, limit, window)
  {
    if Spaced(times, limit, window) {
      forall t: int ensures HoldsAtMost(times, limit, window, t) { SpacedIsWithin(times, limit, window, t); }
    }
    if WithinLimit(times, limit, window) {
      forall i, j | 0 <= i && j == i + limit && j < |times| ensures times[j] - times[i] >= window {
        CloseFailuresExceed(times, limit, window, i);
        assert HoldsAtMost(times, limit, window, times[j]);
      }
    }
  }

  lemma SpacedAt(times: seq<int>, count: nat, window: int, i: nat)
    requires Spaced(times, count, window) && i + count < |times|
    ensures times[i + count] - times[i] >= window
  {
    var j := i + count;
    assert times[j] - times[i] >= window;
  }

  lemma SpacedIsWithin(times: seq<int>, limit: pos, window: int, t: int)
    requires Sorted(times) && window > 0 && Spaced(times, limit, window)
    ensures HoldsAtMost(times, limit, window, t)
  {
    var d, e := WindowSlice(times, t - window, t);
    if d + limit < |times| { SpacedAt(times, limit, window, d); }
  }

  /** Failures that are too close are in one window. */
  lemma CloseFailuresExceed(times: seq<int>, limit: pos, window: int, i: nat)
    requires Sorted(times) && window > 0 && i + limit < |times|
    ensures times[i + limit] - times[i] < window ==> !HoldsAtMost(times, limit, window, times[i + limit])
  {
    var t := times[i + limit];
    var d, e := WindowSlice(times, t - window, t);
    if t - times[i] < window {
      assert times[i] <= t && d <= i < e;
      assert d <= i + limit < e;
    }
  }

  /** Failure `k` would have been admitted by a check made when it was recorded. */
  predicate AllowedAt(times: seq<int>, k: nat, limit: pos, window: int)
    requires k < |times|
  {
    Allowed(times[..k], times[k], limit, window)
  }

  lemma AllowedAtExactly(times: seq<int>, k: nat, limit: pos, window: int)
    requires Sorted(times) && k < |times|
    ensures AllowedAt(times, k, limit, window) <==> k < limit || times[k] - times[k - limit] >= window
  {
    AllowedExactly(times[..k], times[k], limit, window);
  }

  /** And that is so exactly if each failure came when the limiter would still have admitted it. */
  lemma SpacedExactly(times: seq<int>, limit: pos, window: int)
    requires Sorted(times)
    ensures Spaced(times, limit, window) <==> forall k: nat :: k < |times| ==> AllowedAt(times, k, limit, window)
  {
    if Spaced(times, limit, window) {
      forall k: nat | k < |times| ensures AllowedAt(times, k, limit, window) {
        AllowedAtExactly(times, k, limit, window);
        if k >= limit {
          var i, j := k - limit, k;
          assert times[j] - times[i] >= window;
        }
      }
    }
    if forall k: nat :: k < |times| ==> AllowedAt(times, k, limit, window) {
      forall i, j | 0 <= i && j == i + limit && j < |times| ensures times[j] - times[i] >= window {
        assert AllowedAt(times, j, limit, window);
        AllowedAtExactly(times, j, limit, window);
      }
    }
  }

  /** A failure takes its window over the limit exactly if an attempt would be refused just then. */
  lemma FailureExceedsExactly(times: seq<int>, now: int, limit: pos, window: int)
    requires window > 0
    ensures |Newer(times + [now], now - window)| > limit <==> !Allowed(times, now, limit, window)
  {
    assert (times + [now])[..|times|] == times;
  }

  /** The wait reported to a refused client. */
  function RetryAfter(recent: seq<int>, now: int, window: int, second: int): int
    requires recent != []
  {
    var wait := window - (now - recent[0]);
    if wait < second then second else wait
  }

  /** Waiting as told is enough exactly if the `limit`-th failure from the end is as old as the oldest
      one counted: always when `limit` are counted, and with more only when they coincide. A wait that
      was rounded up to a second is enough exactly if that failure has left the window by then. */
  lemma RetryAfterSuffices(times: seq<int>, now: int, limit: pos, window: int, second: int)
    requires Sorted(times) && !Allowed(times, now, limit, window)
    ensures var recent := Newer(times, now - window);
            var wait := RetryAfter(recent, now, window, second);
            Allowed(times, now + wait, limit, window) <==>
              if wait > second then recent[|recent| - limit] == recent[0]
              else recent[|recent| - limit] <= now + second - window
  {
    var d := FirstNewer(times, now - window);
    var recent := Newer(times, now - window);
    AllowedExactly(times, now + RetryAfter(recent, now, window, second), limit, window);
    assert recent[0] == times[d] && recent[|recent| - limit] == times[|times| - limit];
  }

  /** While no window holds more than `limit` failures, a refused client is admitted at the reported
      time, and, but for the rounding up to a second, not before. */
  lemma RetryAfterExact(times: seq<int>, now: int, limit: pos, window: int, second: int, at: int)
    requires Sorted(times) && Spaced(times, limit, window) && !Allowed(times, now, limit, window)
    requires at >= now && forall i :: 0 <= i < |times| ==> times[i] <= now
    ensures var wait := RetryAfter(Newer(times, now - window), now, window, second);
            && (at >= now + wait ==> Allowed(times, at, limit, window))
            && (wait > second && at < now + wait ==> !Allowed(times, at, limit, window))
  {
    SpacedWindows(times, limit, window, now);
    var d := FirstNewer(times, now - window);
    AllowedExactly(times, now, limit, window);
    AllowedExactly(times, at, limit, window);
  }

  // ---- Attempts ------------------------------------------------------------------------------------

  /** When an attempt was admitted, and after how many recorded failures. */
  datatype Check = Check(at: int, seen: nat)
  datatype Attempt = Attempt(id: int, check: Check, failed: int)

  /** The failures since the last reset, the attempts under way, and the most that have been under way
      at once since then. */
  datatype Client = Client(log: seq<Attempt>, inFlight: map<int, Check>, peak: nat)

  const NEW_CLIENT := Client([], map[], 0)

  function Times(log: seq<Attempt>): seq<int> {
    seq(|log|, i requires 0 <= i < |log| => log[i].failed)
  }

  function Admit(c: Client, id: int, now: int): Client {
    var inFlight := c.inFlight[id := Check(now, |c.log|)];
    Client(c.log, inFlight, if |inFlight| > c.peak then |inFlight| else c.peak)
  }

  function Fail(c: Client, id: int, now: int): Client
    requires id in c.inFlight
  {
    c.(log := c.log + [Attempt(id, c.inFlight[id], now)], inFlight := c.inFlight - {id})
  }

  /** An attempt that ends without a verdict leaves no trace. */
  function Abandon(c: Client, id: int): Client {
    c.(inFlight := c.inFlight - {id})
  }

  /** The other attempts under way have seen none of the failures since. */
  function Forgetting(inFlight: map<int, Check>, id: int): map<int, Check> {
    map other | other in inFlight && other != id :: inFlight[other].(seen := 0)
  }

  function Succeed(c: Client, id: int): Client {
    Client([], Forgetting(c.inFlight, id), |Forgetting(c.inFlight, id)|)
  }

  /** Under way just before failure `k` was recorded, and recorded since or still under way. */
  ghost function Overlap(c: Client, k: nat): set<int> {
    (set j | k <= j < |c.log| && c.log[j].check.seen <= k :: c.log[j].id) +
    (set id | id in c.inFlight && c.inFlight[id].seen <= k)
  }

  /** The check passed: of the failures it saw, the `limit`-th from the end was out of the window. */
  ghost predicate WasAdmitted(log: seq<Attempt>, check: Check, limit: pos, window: int) {
    check.seen <= |log| && (limit <= check.seen ==> log[check.seen - limit].failed <= check.at - window)
  }

  ghost predicate LogOk(c: Client, limit: pos, window: int, now: int) {
    && (forall i, j :: 0 <= i < j < |c.log| ==> c.log[i].failed <= c.log[j].failed)
    && forall j :: 0 <= j < |c.log| ==>
         && c.log[j].check.seen <= j && c.log[j].check.at <= c.log[j].failed <= now
         && WasAdmitted(c.log, c.log[j].check, limit, window)
  }

  ghost predicate FlightOk(c: Client, limit: pos, window: int, now: int) {
    && |c.inFlight| <= c.peak
    && forall id :: id in c.inFlight ==>
         c.inFlight[id].at <= now && WasAdmitted(c.log, c.inFlight[id], limit, window)
  }

  ghost predicate IdsOk(c: Client, issued: int) {
    && (forall i, j :: 0 <= i < j < |c.log| ==> c.log[i].id != c.log[j].id)
    && (forall j :: 0 <= j < |c.log| ==> c.log[j].id !in c.inFlight && c.log[j].id < issued)
    && (forall id :: id in c.inFlight ==> id < issued)
  }

  ghost predicate PeakOk(c: Client) {
    forall k :: 0 <= k < |c.log| ==> |Overlap(c, k)| <= c.peak
  }

  ghost predicate ClientOk(c: Client, limit: pos, window: int, now: int, issued: int) {
    LogOk(c, limit, window, now) && FlightOk(c, limit, window, now) && IdsOk(c, issued) && PeakOk(c)
  }

  // ---- Every event keeps the history in order -----------------------------------------------------

  lemma AdmitKeepsFlight(c: Client, id: int, limit: pos, window: int, before: int, now: int)
    requires FlightOk(c, limit, window, before) && before <= now
    requires Sorted(Times(c.log)) && Allowed(Times(c.log), now, limit, window)
    ensures FlightOk(Admit(c, id, now), limit, window, now)
  {
    AllowedExactly(Times(c.log), now, limit, window);
  }

  lemma AdmitKeeps(c: Client, id: int, limit: pos, window: int, before: int, now: int, issued: int)
    requires ClientOk(c, limit, window, before, issued) && before <= now && id == issued
    requires Allowed(Times(c.log), now, limit, window)
    ensures ClientOk(Admit(c, id, now), limit, window, now, issued + 1)
  {
    AdmitKeepsFlight(c, id, limit, window, before, now);
    AdmitKeepsPeak(c, id, now, issued);
  }

  lemma AdmitKeepsPeak(c: Client, id: int, now: int, issued: int)
    requires IdsOk(c, issued) && PeakOk(c) && id == issued
    ensures PeakOk(Admit(c, id, now))
  {
    var c' := Admit(c, id, now);
    forall k | 0 <= k < |c'.log| ensures |Overlap(c', k)| <= c'.peak {
      forall x ensures x in Overlap(c', k) <==> x in Overlap(c, k) {
        assert x == id ==> c'.inFlight[x].seen > k && x !in c.inFlight;
      }
      assert Overlap(c', k) == Overlap(c, k);
    }
  }

  lemma FailKeepsLog(c: Client, id: int, limit: pos, window: int, before: int, now: int)
    requires LogOk(c, limit, window, before) && FlightOk(c, limit, window, before) && before <= now && id in c.inFlight
    ensures LogOk(Fail(c, id, now), limit, window, now)
  {
    var c' := Fail(c, id, now);
    var last := |c.log|;
    assert forall j :: 0 <= j < last ==> c'.log[j] == c.log[j];
    assert c'.log[last] == Attempt(id, c.inFlight[id], now);
  }

  lemma FailKeepsFlight(c: Client, id: int, limit: pos, window: int, before: int, now: int)
    requires FlightOk(c, limit, window, before) && before <= now && id in c.inFlight
    ensures FlightOk(Fail(c, id, now), limit, window, now)
  {
    assert Fail(c, id, now).inFlight.Keys == c.inFlight.Keys - {id};
  }

  lemma FailKeepsPeak(c: Client, id: int, now: int, issued: int, k: nat)
    requires IdsOk(c, issued) && PeakOk(c) && |c.inFlight| <= c.peak && id in c.inFlight && k <= |c.log|
    requires forall id :: id in c.inFlight ==> c.inFlight[id].seen <= |c.log|
    ensures |Overlap(Fail(c, id, now), k)| <= c.peak
  {
    var c' := Fail(c, id, now);
    var last := |c.log|;
    if k < last {
      OverlapSame(c, id, now, k);
    } else {
      assert c'.log[last] == Attempt(id, c.inFlight[id], now) && c'.inFlight.Keys == c.inFlight.Keys - {id};
      forall x ensures x in Overlap(c', k) <==> x in c.inFlight.Keys {
        assert x == id ==> x == c'.log[last].id && c'.log[last].check.seen <= k;
      }
      assert Overlap(c', k) == c.inFlight.Keys;
    }
  }

  lemma OverlapSame(c: Client, id: int, now: int, k: nat)
    requires id in c.inFlight && k < |c.log|
    ensures Overlap(Fail(c, id, now), k) == Overlap(c, k)
  {
    var c' := Fail(c, id, now);
    forall x | x in Overlap(c, k) ensures x in Overlap(c', k) { OverlapMoves(c, id, now, k, x); }
    assert c'.log[|c.log|] == Attempt(id, c.inFlight[id], now);
    assert forall j :: 0 <= j < |c.log| ==> c'.log[j] == c.log[j];
  }

  lemma OverlapMoves(c: Client, id: int, now: int, k: nat, x: int)
    requires id in c.inFlight && k < |c.log| && x in Overlap(c, k)
    ensures x in Overlap(Fail(c, id, now), k)
  {
    var c' := Fail(c, id, now);
    if j :| k <= j < |c.log| && c.log[j].check.seen <= k && x == c.log[j].id {
      assert c'.log[j] == c.log[j];
    } else if x == id {
      assert c'.log[|c.log|].id == id && c'.log[|c.log|].check.seen <= k;
    }
  }

  lemma FailKeeps(c: Client, id: int, limit: pos, window: int, before: int, now: int, issued: int)
    requires ClientOk(c, limit, window, before, issued) && before <= now && id in c.inFlight
    ensures ClientOk(Fail(c, id, now), limit, window, now, issued)
  {
    FailKeepsLog(c, id, limit, window, before, now);
    FailKeepsFlight(c, id, limit, window, before, now);
    forall k: nat | k < |Fail(c, id, now).log| ensures |Overlap(Fail(c, id, now), k)| <= c.peak {
      FailKeepsPeak(c, id, now, issued, k);
    }
  }

  lemma AbandonKeeps(c: Client, id: int, limit: pos, window: int, now: int, issued: int)
    requires ClientOk(c, limit, window, now, issued) && id in c.inFlight
    ensures ClientOk(Abandon(c, id), limit, window, now, issued)
  {
    var c' := Abandon(c, id);
    assert c'.inFlight.Keys == c.inFlight.Keys - {id};
    forall k: nat | k < |c'.log| ensures |Overlap(c', k)| <= c'.peak {
      assert Overlap(c', k) <= Overlap(c, k);
      SubsetCount(Overlap(c', k), Overlap(c, k));
    }
  }

  lemma SucceedKeeps(c: Client, id: int, limit: pos, window: int, now: int, issued: int)
    requires ClientOk(c, limit, window, now, issued) && id in c.inFlight
    ensures ClientOk(Succeed(c, id), limit, window, now, issued)
  {
    var c' := Succeed(c, id);
    assert c'.inFlight.Keys == c.inFlight.Keys - {id};
    assert Times([]) == [];
  }

  /** As time passes, nothing changes. */
  lemma LaterKeeps(c: Client, limit: pos, window: int, before: int, now: int, issued: int, later: int)
    requires ClientOk(c, limit, window, before, issued) && before <= now && issued <= later
    ensures ClientOk(c, limit, window, now, later)
  {
  }

  // ---- The limit -------------------------------------------------------------------------------------

  function Ids(log: seq<Attempt>): seq<int> {
    seq(|log|, i requires 0 <= i < |log| => log[i].id)
  }

  /** Of more consecutive failures than were ever under way at once, one was admitted after the first
      was recorded. */
  lemma SomeCameLater(c: Client, issued: int, k: nat) returns (j: nat)
    requires IdsOk(c, issued) && PeakOk(c) && k + c.peak < |c.log| && c.log[k].check.seen <= k
    ensures k < j <= k + c.peak && c.log[j].check.seen > k
  {
    if forall j :: k <= j <= k + c.peak ==> c.log[j].check.seen <= k {
      var ids := Ids(c.log[k..k + c.peak + 1]);
      DistinctCount(ids);
      forall x | x in Elements(ids) ensures x in Overlap(c, k) {
        var i :| 0 <= i < |ids| && ids[i] == x;
        assert c.log[k + i].id == x;
      }
      SubsetCount(Elements(ids), Overlap(c, k));
      assert false;
    }
    j :| k <= j <= k + c.peak && c.log[j].check.seen > k;
  }

  /** Some failure after `k`, at most `peak` later, was admitted when more than `k` were recorded. */
  ghost predicate LateCheck(times: seq<int>, limit: pos, window: int, peak: nat, k: nat) {
    exists j: nat, check: Check :: IsLateCheck(times, limit, window, peak, k, j, check)
  }

  ghost predicate IsLateCheck(times: seq<int>, limit: pos, window: int, peak: nat, k: nat, j: nat, check: Check) {
    && k < check.seen <= j <= k + peak && j < |times| && check.at <= times[j]
    && (limit <= check.seen ==> times[check.seen - limit] <= check.at - window)
  }

  lemma HasLateCheck(c: Client, limit: pos, window: int, now: int, issued: int, k: nat)
    requires ClientOk(c, limit, window, now, issued) && k + c.peak < |c.log|
    ensures LateCheck(Times(c.log), limit, window, c.peak, k)
  {
    LogAt(c, limit, window, now, k);
    var j := SomeCameLater(c, issued, k);
    LateAt(c, limit, window, now, k, j);
  }

  lemma LateAt(c: Client, limit: pos, window: int, now: int, k: nat, j: nat)
    requires LogOk(c, limit, window, now) && k < j <= k + c.peak && j < |c.log| && c.log[j].check.seen > k
    ensures LateCheck(Times(c.log), limit, window, c.peak, k)
  {
    LogAt(c, limit, window, now, j);
    assert IsLateCheck(Times(c.log), limit, window, c.peak, k, j, c.log[j].check);
  }

  lemma SpacedByChecks(times: seq<int>, limit: pos, window: int, peak: nat)
    requires Sorted(times) && peak > 0
    requires forall k: nat :: k + peak < |times| ==> LateCheck(times, limit, window, peak, k)
    ensures Spaced(times, limit + peak - 1, window)
  {
    forall i, last | 0 <= i && last == i + (limit + peak - 1) && last < |times|
      ensures times[last] - times[i] >= window
    {
      var k := i + limit - 1;
      assert LateCheck(times, limit, window, peak, k);
      var j: nat, check: Check :| IsLateCheck(times, limit, window, peak, k, j, check);
      LimitHeld(times, check, limit, window, i, j, last);
    }
  }

  /** However the attempts interleave: with at most `peak` of them ever under way at once, any
      `limit + peak` failures in a row take at least the window. */
  lemma FailuresAreSpaced(c: Client, limit: pos, window: int, now: int, issued: int)
    requires ClientOk(c, limit, window, now, issued) && c.peak > 0
    ensures Spaced(Times(c.log), limit + c.peak - 1, window)
  {
    forall k: nat | k + c.peak < |c.log| ensures LateCheck(Times(c.log), limit, window, c.peak, k) {
      HasLateCheck(c, limit, window, now, issued, k);
    }
    SpacedByChecks(Times(c.log), limit, window, c.peak);
  }

  lemma LogAt(c: Client, limit: pos, window: int, now: int, j: nat)
    requires LogOk(c, limit, window, now) && j < |c.log|
    ensures c.log[j].check.seen <= j && c.log[j].check.at <= Times(c.log)[j]
    ensures WasAdmitted(c.log, c.log[j].check, limit, window)
  {
    assert WasAdmitted(c.log, c.log[j].check, limit, window);
  }

  /** A failure that takes its window over the limit was admitted by a check that had not seen all the
      failures before it: attempts one after another never exceed the limit. */
  lemma ExceedingWasCheckedEarly(c: Client, limit: pos, window: int, now: int, j: nat)
    requires LogOk(c, limit, window, now) && j < |c.log| && !AllowedAt(Times(c.log), j, limit, window)
    ensures c.log[j].check.seen < j
  {
    var times := Times(c.log);
    assert Sorted(times[..j]);
    AllowedExactly(times[..j], times[j], limit, window);
    LogAt(c, limit, window, now, j);
  }

  /** The limit has held in every window exactly if each failure was recorded when the limiter would still
      have admitted an attempt. */
  lemma LimitHoldsExactly(c: Client, limit: pos, window: int, now: int)
    requires LogOk(c, limit, window, now) && window > 0
    ensures var times := Times(c.log);
            WithinLimit(times, limit, window) <==> forall k: nat :: k < |times| ==> AllowedAt(times, k, limit, window)
  {
    assert Sorted(Times(c.log));
    WithinLimitExactly(Times(c.log), limit, window);
    SpacedExactly(Times(c.log), limit, window);
  }

  lemma LimitHeld(times: seq<int>, check: Check, limit: pos, window: int, i: nat, j: nat, last: nat)
    requires Sorted(times) && i + limit <= check.seen <= j <= last < |times|
    requires times[check.seen - limit] <= check.at - window && check.at <= times[j]
    ensures times[last] - times[i] >= window
  {
    var k := check.seen - limit;
    assert (i == k || times[i] <= times[k]) && (j == last || times[j] <= times[last]);
  }
}
