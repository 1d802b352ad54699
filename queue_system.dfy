/**
 * The request queue (lib/queue-system.ts). Generation requests are admitted
 * per user key at most once every `userWaitTime` seconds, wait in a FIFO
 * queue, and are run one at a time; a failed run is put back at the head of
 * the queue until it has been retried twice. Status queries report a
 * position and a wait estimate, and a periodic sweep drops requests older
 * than ten minutes. The clock, request ids and the outcome of each run are
 * inputs.
 */
module Queueing {
  import opened Wrappers
  import opened JsText
  import opened Json

  const DefaultMaxRequestsPerMinute := 10
  const DefaultUserWaitTime := 30
  const MaxRetries := 2
  const MaxAgeMs := 10 * 60 * 1000
  const TimeoutMessage := "Request timeout - removed from queue"

  /** A `QueueItem` without its callbacks; what they receive is logged as a `Settlement`. */
  datatype QueueItem = QueueItem(
    id: string,
    endpoint: string,
    requestData: Json,
    ip: string,
    timestamp: int,
    retryCount: nat,
    persistenceKey: Option<string>)

  /** A call of an item's `resolve` or `reject`. */
  datatype Settlement =
    | Resolved(id: string)
    | RejectedAfterFailure(id: string)
    | RejectedTimeout(id: string, message: string)

  /** A `PersistedQueueItem`. */
  datatype PersistedItem = PersistedItem(
    id: string, endpoint: string, requestData: Json, ip: string,
    timestamp: int, retryCount: nat, persistenceKey: string)

  /** A `QueueStatus`. */
  datatype QueueStatus = QueueStatus(
    queueLength: nat,
    currentPosition: nat,
    estimatedWaitTime: nat,
    isProcessing: bool,
    persistenceKey: Option<string>,
    queueId: Option<string>)

  /** What `addToQueue` does with a request. */
  datatype Admission = Enqueued | TooFrequent(message: string)

  // ---------------------------------------------------------------------
  // Configuration

  /** `QUEUE_MAX_REQUESTS_PER_MINUTE`: used only when it parses to a positive integer. */
  function ConfiguredMax(env: Option<string>): (r: nat)
    ensures r > 0
    ensures r != DefaultMaxRequestsPerMinute ==> env.Some? && ParseInt(env.value) == Some(r)
  {
    if env.Some? && env.value != "" && ParseInt(env.value).Some? && ParseInt(env.value).value > 0
    then ParseInt(env.value).value
    else DefaultMaxRequestsPerMinute
  }

  /** `QUEUE_USER_WAIT_TIME_SECONDS`: used only when it parses to a non-negative integer. */
  function ConfiguredWait(env: Option<string>): (r: nat)
    ensures r != DefaultUserWaitTime ==> env.Some? && ParseInt(env.value) == Some(r)
  {
    if env.Some? && env.value != "" && ParseInt(env.value).Some? && ParseInt(env.value).value >= 0
    then ParseInt(env.value).value
    else DefaultUserWaitTime
  }

  /** Unset variables give the defaults; a printed positive number is taken as it is. */
  lemma ConfigurationOverrides(n: nat)
    ensures ConfiguredMax(None) == 10 && ConfiguredWait(None) == 30
    ensures n > 0 ==> ConfiguredMax(Some(NatToString(n))) == n
    ensures ConfiguredWait(Some(NatToString(n))) == n
    ensures ConfiguredMax(Some("0")) == 10
  {
    PrintedNumberTaken(n);
    ZeroMaxIgnored();
  }

  /** A printed number is taken as the wait, and as the limit when it is positive. */
  lemma PrintedNumberTaken(n: nat)
    ensures n > 0 ==> ConfiguredMax(Some(NatToString(n))) == n
    ensures ConfiguredWait(Some(NatToString(n))) == n
  {
    ParseIntOfNat(n);
  }

  /** A limit of `0` falls back to the default. */
  lemma ZeroMaxIgnored()
    ensures ConfiguredMax(Some("0")) == DefaultMaxRequestsPerMinute
  {
    ParseIntOfNat(0);
    assert NatToString(0) == "0";
  }

  // ---------------------------------------------------------------------
  // Running an item: the retry policy of `processQueue`

  /**
   * What happens to an item whose next attempt is number `retryCount`: the
   * first successful attempt resolves it; a failure is retried while fewer
   * than two retries were made, and rejects it otherwise.
   */
  function Settle(id: string, retryCount: nat, run: (string, nat) -> bool): (s: Settlement)
    ensures s.id == id
    ensures s.Resolved? || s.RejectedAfterFailure?
    decreases MaxRetries - retryCount
  {
    if run(id, retryCount) then Resolved(id)
    else if retryCount < MaxRetries then Settle(id, retryCount + 1, run)
    else RejectedAfterFailure(id)
  }

  /** How many times the item's processor runs before it is settled. */
  function Runs(id: string, retryCount: nat, run: (string, nat) -> bool): nat
    decreases MaxRetries - retryCount
  {
    if run(id, retryCount) then 1
    else if retryCount < MaxRetries then 1 + Runs(id, retryCount + 1, run)
    else 1
  }

  /** A new item's processor runs at least once and at most three times. */
  lemma {:induction false} AtMostThreeRuns(id: string, retryCount: nat, run: (string, nat) -> bool)
    requires retryCount <= MaxRetries
    ensures 1 <= Runs(id, retryCount, run) <= MaxRetries + 1 - retryCount
    decreases MaxRetries - retryCount
  {
    if !run(id, retryCount) && retryCount < MaxRetries {
      AtMostThreeRuns(id, retryCount + 1, run);
    }
  }

  /** An item is resolved exactly when one of its remaining attempts succeeds. */
  lemma {:induction false} ResolvedIffSomeAttempt(id: string, retryCount: nat, run: (string, nat) -> bool)
    requires retryCount <= MaxRetries
    ensures Settle(id, retryCount, run).Resolved? <==> exists a :: retryCount <= a <= MaxRetries && run(id, a)
    decreases MaxRetries - retryCount
  {
    if run(id, retryCount) {
      assert retryCount <= retryCount <= MaxRetries && run(id, retryCount);
    } else if retryCount < MaxRetries {
      ResolvedIffSomeAttempt(id, retryCount + 1, run);
      if exists a :: retryCount <= a <= MaxRetries && run(id, a) {
        var a :| retryCount <= a <= MaxRetries && run(id, a);
        assert retryCount + 1 <= a <= MaxRetries && run(id, a);
      }
    }
  }

  /** The settlements of a whole queue, in queue order. */
  function Outcomes(q: seq<QueueItem>, run: (string, nat) -> bool): seq<Settlement> {
    if |q| == 0 then [] else [Settle(q[0].id, q[0].retryCount, run)] + Outcomes(q[1..], run)
  }

  /** One settlement per item, the `i`-th item's at position `i`. */
  lemma {:induction false} OutcomesInOrder(q: seq<QueueItem>, run: (string, nat) -> bool)
    ensures |Outcomes(q, run)| == |q|
    ensures forall i :: 0 <= i < |q| ==> Outcomes(q, run)[i] == Settle(q[i].id, q[i].retryCount, run)
  {
    if |q| > 0 {
      OutcomesInOrder(q[1..], run);
    }
  }

  /** Settling the head item moves its outcome from the queue's outcomes to the settled list. */
  lemma SettledHead(settled: seq<Settlement>, q: seq<QueueItem>, run: (string, nat) -> bool, s: Settlement)
    requires |q| > 0 && s == Settle(q[0].id, q[0].retryCount, run)
    ensures (settled + [s]) + Outcomes(q[1..], run) == settled + Outcomes(q, run)
  {
    OutcomesHead(q, run);
    Regroup(settled, s, Outcomes(q[1..], run), Outcomes(q, run));
  }

  /** The queue's outcomes are its head's settlement followed by the rest's. */
  lemma OutcomesHead(q: seq<QueueItem>, run: (string, nat) -> bool)
    requires |q| > 0
    ensures Outcomes(q, run) == [Settle(q[0].id, q[0].retryCount, run)] + Outcomes(q[1..], run)
  {
  }

  /** Moving one element from the front of a list to the end of another keeps their concatenation. */
  lemma Regroup<X>(done: seq<X>, x: X, rest: seq<X>, whole: seq<X>)
    requires whole == [x] + rest
    ensures (done + [x]) + rest == done + whole
  {
  }

  /** A failed head item put back with one more retry still settles the same way. */
  lemma RetriedHead(q: seq<QueueItem>, run: (string, nat) -> bool)
    requires |q| > 0 && !run(q[0].id, q[0].retryCount) && q[0].retryCount < MaxRetries
    ensures Outcomes([q[0].(retryCount := q[0].retryCount + 1)] + q[1..], run) == Outcomes(q, run)
  {
    var again := q[0].(retryCount := q[0].retryCount + 1);
    assert ([again] + q[1..])[1..] == q[1..];
    assert Outcomes(q, run) == [Settle(again.id, again.retryCount, run)] + Outcomes(q[1..], run);
  }

  function CountResolved(s: seq<Settlement>): nat {
    if |s| == 0 then 0 else (if s[0].Resolved? then 1 else 0) + CountResolved(s[1..])
  }

  lemma {:induction false} CountResolvedAppend(a: seq<Settlement>, b: seq<Settlement>)
    ensures CountResolved(a + b) == CountResolved(a) + CountResolved(b)
  {
    if |a| > 0 {
      assert (a + b)[0] == a[0];
      assert (a + b)[1..] == a[1..] + b;
      CountResolvedAppend(a[1..], b);
    } else {
      assert a + b == b;
    }
  }

  /** Work left in a queue: one unit per remaining attempt of each item. */
  function Budget(q: seq<QueueItem>): nat
    requires forall i :: 0 <= i < |q| ==> q[i].retryCount <= MaxRetries
  {
    if |q| == 0 then 0 else (MaxRetries + 1 - q[0].retryCount) + Budget(q[1..])
  }

  /** Settling the head item, or putting it back with one more retry, leaves a valid queue with less work. */
  lemma BudgetStep(q: seq<QueueItem>)
    requires |q| > 0 && forall i :: 0 <= i < |q| ==> q[i].retryCount <= MaxRetries
    ensures Budget(q[1..]) < Budget(q)
    ensures q[0].retryCount < MaxRetries ==>
      var again := [q[0].(retryCount := q[0].retryCount + 1)] + q[1..];
      (forall i :: 0 <= i < |again| ==> again[i].retryCount <= MaxRetries)
      && Budget(again) < Budget(q)
  {
    if q[0].retryCount < MaxRetries {
      var again := [q[0].(retryCount := q[0].retryCount + 1)] + q[1..];
      assert again[1..] == q[1..];
    }
  }

  // ---------------------------------------------------------------------
  // Lookups

  /** `queue.findIndex(item => item.persistenceKey === key)`, -1 when there is none. */
  function IndexOfKey(q: seq<QueueItem>, key: string): (r: int)
    ensures -1 <= r < |q|
    ensures r >= 0 ==> q[r].persistenceKey == Some(key) && forall j :: 0 <= j < r ==> q[j].persistenceKey != Some(key)
    ensures r == -1 ==> forall j :: 0 <= j < |q| ==> q[j].persistenceKey != Some(key)
  {
    if |q| == 0 then -1
    else if q[0].persistenceKey == Some(key) then 0
    else
      var r := IndexOfKey(q[1..], key);
      if r == -1 then -1 else r + 1
  }

  /** `queue.findIndex(item => item.ip === ip)`, -1 when there is none. */
  function IndexOfIp(q: seq<QueueItem>, ip: string): (r: int)
    ensures -1 <= r < |q|
    ensures r >= 0 ==> q[r].ip == ip && forall j :: 0 <= j < r ==> q[j].ip != ip
    ensures r == -1 ==> forall j :: 0 <= j < |q| ==> q[j].ip != ip
  {
    if |q| == 0 then -1
    else if q[0].ip == ip then 0
    else
      var r := IndexOfIp(q[1..], ip);
      if r == -1 then -1 else r + 1
  }

  /** A string argument that is present and truthy. */
  predicate Given(s: Option<string>) {
    s.Some? && s.value != ""
  }

  /** The items the sweep at `now` drops and keeps. */
  predicate IsExpired(item: QueueItem, now: int) {
    now - item.timestamp > MaxAgeMs
  }

  function Kept(q: seq<QueueItem>, now: int): seq<QueueItem> {
    if |q| == 0 then [] else (if IsExpired(q[0], now) then [] else [q[0]]) + Kept(q[1..], now)
  }

  /** The kept items are exactly the queue's items that have not expired. */
  lemma {:induction false} KeptMembers(q: seq<QueueItem>, now: int)
    ensures forall x :: x in Kept(q, now) <==> x in q && !IsExpired(x, now)
  {
    if |q| > 0 {
      KeptMembers(q[1..], now);
      assert q == [q[0]] + q[1..];
    }
  }

  function TimedOut(q: seq<QueueItem>, now: int): (r: seq<Settlement>)
    ensures forall s :: s in r ==> s.RejectedTimeout? && s.message == TimeoutMessage
  {
    if |q| == 0 then []
    else (if IsExpired(q[0], now) then [RejectedTimeout(q[0].id, TimeoutMessage)] else []) + TimedOut(q[1..], now)
  }

  /** Exactly the expired items are timed out. */
  lemma {:induction false} TimedOutExactly(q: seq<QueueItem>, now: int, x: QueueItem)
    requires x in q
    ensures IsExpired(x, now) ==> RejectedTimeout(x.id, TimeoutMessage) in TimedOut(q, now)
    ensures !IsExpired(x, now) ==> x in Kept(q, now)
  {
    if q[0] != x {
      TimedOutExactly(q[1..], now, x);
    }
  }

  /** The sweep splits the queue: every item is kept or timed out, never both. */
  lemma {:induction false} SweepSplits(q: seq<QueueItem>, now: int)
    ensures |Kept(q, now)| + |TimedOut(q, now)| == |q|
  {
    if |q| > 0 {
      SweepSplits(q[1..], now);
    }
  }

  class RequestQueue {
    var queue: seq<QueueItem>
    var processing: bool
    const maxRequestsPerMinute: nat
    const userWaitTime: nat
    var lastProcessTime: int
    var processedCount: nat
    var userLastRequestTime: map<string, int>
    /** Every `resolve`/`reject` call made so far, in order. */
    var settled: seq<Settlement>

    ghost predicate Valid()
      reads this
    {
      maxRequestsPerMinute > 0 && forall i :: 0 <= i < |queue| ==> queue[i].retryCount <= MaxRetries
    }

    /** `new RequestQueue()` with the two environment variables as inputs. */
    constructor(envMax: Option<string>, envWait: Option<string>)
      ensures Valid()
      ensures maxRequestsPerMinute == ConfiguredMax(envMax) && userWaitTime == ConfiguredWait(envWait)
      ensures queue == [] && !processing && processedCount == 0 && lastProcessTime == 0
      ensures userLastRequestTime == map[] && settled == []
    {
      maxRequestsPerMinute := ConfiguredMax(envMax);
      userWaitTime := ConfiguredWait(envWait);
      queue := [];
      processing := false;
      lastProcessTime := 0;
      processedCount := 0;
      userLastRequestTime := map[];
      settled := [];
    }

    /**
     * `calculateWaitTime(p)`: 0 for position 0, else the time `p` requests take
     * at the configured rate plus the user wait, rounded up to whole seconds.
     */
    function CalculateWaitTime(p: nat): (r: nat)
      reads this
      requires maxRequestsPerMinute > 0
      ensures p == 0 ==> r == 0
      ensures p > 0 ==>
        (r >= userWaitTime &&
         (r - userWaitTime) * maxRequestsPerMinute >= 60 * p &&
         (r - userWaitTime - 1) * maxRequestsPerMinute < 60 * p)
    {
      if p == 0 then 0
      else userWaitTime + (60 * p + maxRequestsPerMinute - 1) / maxRequestsPerMinute
    }

    /** `canUserMakeRequest(key)`: no (truthy) last time, or at least `userWaitTime` seconds since it. */
    predicate CanUserMakeRequest(key: string, now: int)
      reads this
    {
      key !in userLastRequestTime || userLastRequestTime[key] == 0
      || now - userLastRequestTime[key] >= 1000 * userWaitTime
    }

    /**
     * `addToQueue(...)`: a user key (the persistence key, else the address)
     * that asked too recently is refused with the seconds left; otherwise the
     * request time is recorded and the item joins the tail of the queue.
     */
    method AddToQueue(endpoint: string, requestData: Json, ip: string, persistenceKey: Option<string>, id: string, now: int)
      returns (r: Admission)
      requires Valid()
      modifies this
      ensures Valid()
      ensures var key := if Given(persistenceKey) then persistenceKey.value else ip;
        if old(CanUserMakeRequest(key, now)) then
          r == Enqueued &&
          queue == old(queue) + [QueueItem(id, endpoint, requestData, ip, now, 0, persistenceKey)] &&
          userLastRequestTime == old(userLastRequestTime)[key := now]
        else
          r == TooFrequent("请求过于频繁，请等待 "
            + IntToString(WaitSecondsLeft(userWaitTime, now - old(userLastRequestTime)[key])) + " 秒后再试")
          && queue == old(queue) && userLastRequestTime == old(userLastRequestTime)
      ensures settled == old(settled) && processing == old(processing) && processedCount == old(processedCount)
      ensures lastProcessTime == old(lastProcessTime)
    {
      var key := if Given(persistenceKey) then persistenceKey.value else ip;
      if !CanUserMakeRequest(key, now) {
        var last := userLastRequestTime[key];
        var left := WaitSecondsLeft(userWaitTime, now - last);
        return TooFrequent("请求过于频繁，请等待 " + IntToString(left) + " 秒后再试");
      }
      var item := QueueItem(id, endpoint, requestData, ip, now, 0, persistenceKey);
      userLastRequestTime := userLastRequestTime[key := now];
      queue := queue + [item];
      return Enqueued;
    }

    /**
     * The loop of `processQueue()`, run to completion: the head item is taken
     * off and run; a success resolves it and counts it, a failure puts it back
     * at the head with one more retry until two retries were made, and then
     * rejects it. Items are therefore settled one by one in queue order.
     */
    method ProcessQueue(run: (string, nat) -> bool)
      requires Valid()
      modifies this
      ensures Valid()
      ensures old(processing) ==> queue == old(queue) && settled == old(settled) && processedCount == old(processedCount)
      ensures !old(processing) ==> queue == [] && settled == old(settled) + Outcomes(old(queue), run)
      ensures !old(processing) ==> processedCount == old(processedCount) + CountResolved(Outcomes(old(queue), run))
      ensures processing == old(processing)
      ensures userLastRequestTime == old(userLastRequestTime) && lastProcessTime == old(lastProcessTime)
    {
      if processing {
        return;
      }
      processing := true;
      ghost var target := old(settled) + Outcomes(queue, run);
      while |queue| > 0
        invariant processing
        invariant Valid()
        invariant settled + Outcomes(queue, run) == target
        invariant processedCount - CountResolved(settled) == old(processedCount) - CountResolved(old(settled))
        invariant userLastRequestTime == old(userLastRequestTime) && lastProcessTime == old(lastProcessTime)
        decreases Budget(queue)
      {
        SettleHead(run);
      }
      processing := false;
      CountResolvedAppend(old(settled), Outcomes(old(queue), run));
    }

    /**
     * One pass of the loop in `processQueue()`: the head item is run, then
     * resolved, put back with one more retry, or rejected.
     */
    method SettleHead(run: (string, nat) -> bool)
      requires Valid() && processing && |queue| > 0
      modifies this
      ensures Valid() && processing
      ensures settled + Outcomes(queue, run) == old(settled) + Outcomes(old(queue), run)
      ensures processedCount - CountResolved(settled) == old(processedCount) - CountResolved(old(settled))
      ensures Budget(queue) < old(Budget(queue))
      ensures userLastRequestTime == old(userLastRequestTime) && lastProcessTime == old(lastProcessTime)
    {
      var item := queue[0];
      var rest := queue[1..];
      BudgetStep(queue);
      if run(item.id, item.retryCount) {
        processedCount := processedCount + 1;
        CountResolvedAppend(settled, [Resolved(item.id)]);
        SettledHead(settled, queue, run, Resolved(item.id));
        settled := settled + [Resolved(item.id)];
        queue := rest;
      } else if item.retryCount < MaxRetries {
        var again := item.(retryCount := item.retryCount + 1);
        RetriedHead(queue, run);
        queue := [again] + rest;
      } else {
        CountResolvedAppend(settled, [RejectedAfterFailure(item.id)]);
        SettledHead(settled, queue, run, RejectedAfterFailure(item.id));
        settled := settled + [RejectedAfterFailure(item.id)];
        queue := rest;
      }
    }

    /**
     * `getQueueStatus(ip, key)`: looks the key up when one is given, else the
     * address. Found at index `i > 0`, the position is `i + 1` and the wait is
     * that of position `i`; not found, or at the head, the position is 0 and
     * the wait is that of the whole queue.
     */
    function GetQueueStatus(ip: Option<string>, persistenceKey: Option<string>): (s: QueueStatus)
      reads this
      requires maxRequestsPerMinute > 0
      ensures s.queueLength == |queue| && s.isProcessing == processing
      ensures var i := if Given(persistenceKey) then IndexOfKey(queue, persistenceKey.value)
                       else if Given(ip) then IndexOfIp(queue, ip.value) else -1;
        (i <= 0 ==> s.currentPosition == 0 && s.estimatedWaitTime == CalculateWaitTime(|queue|))
        && (i > 0 ==> s.currentPosition == i + 1 && s.estimatedWaitTime == CalculateWaitTime(i))
        && (i >= 0 ==> s.queueId == Some(queue[i].id))
        && (i == -1 ==> s.queueId.None? && s.persistenceKey.None?)
    {
      var i :=
        if Given(persistenceKey) then IndexOfKey(queue, persistenceKey.value)
        else if Given(ip) then IndexOfIp(queue, ip.value)
        else -1;
      var found := if i == -1 then None else if Given(persistenceKey) then persistenceKey else queue[i].persistenceKey;
      var position := if i == -1 then 0 else i;
      QueueStatus(
        |queue|,
        if position == 0 then 0 else position + 1,
        CalculateWaitTime(if position == 0 then |queue| else position),
        processing,
        found,
        if i == -1 then None else Some(queue[i].id))
    }

    /**
     * `getPositionInQueue(ip, key)`: the 1-based place of the first item with
     * the key, else of the first item from the address, else 0.
     */
    function GetPositionInQueue(ip: string, persistenceKey: Option<string>): (p: nat)
      reads this
      ensures p <= |queue|
      ensures Given(persistenceKey) && IndexOfKey(queue, persistenceKey.value) >= 0 ==>
        p == IndexOfKey(queue, persistenceKey.value) + 1
      ensures !(Given(persistenceKey) && IndexOfKey(queue, persistenceKey.value) >= 0) ==>
        p == IndexOfIp(queue, ip) + 1
      ensures p == 0 <==>
        ((forall j :: 0 <= j < |queue| ==> queue[j].ip != ip) &&
         (Given(persistenceKey) ==> forall j :: 0 <= j < |queue| ==> queue[j].persistenceKey != persistenceKey))
    {
      var byKey := if Given(persistenceKey) then IndexOfKey(queue, persistenceKey.value) else -1;
      var position := if byKey == -1 then IndexOfIp(queue, ip) else byKey;
      if position == -1 then 0 else position + 1
    }

    /** `getPersistedQueue()`: the queue in order, a missing key shown as `''`. */
    function GetPersistedQueue(): (r: seq<PersistedItem>)
      reads this
      ensures |r| == |queue|
      ensures forall i :: 0 <= i < |queue| ==>
        r[i].id == queue[i].id && r[i].ip == queue[i].ip && r[i].endpoint == queue[i].endpoint
        && r[i].requestData == queue[i].requestData && r[i].timestamp == queue[i].timestamp
        && r[i].retryCount == queue[i].retryCount
        && r[i].persistenceKey == (if Given(queue[i].persistenceKey) then queue[i].persistenceKey.value else "")
    {
      seq(|queue|, i reads this requires 0 <= i < |queue| =>
        var item := queue[i];
        PersistedItem(item.id, item.endpoint, item.requestData, item.ip, item.timestamp, item.retryCount,
          if Given(item.persistenceKey) then item.persistenceKey.value else ""))
    }

    /** `cleanup()`: items older than ten minutes are rejected and dropped; the rest keep their order. */
    method Cleanup(now: int)
      requires Valid()
      modifies this
      ensures Valid()
      ensures queue == Kept(old(queue), now)
      ensures settled == old(settled) + TimedOut(old(queue), now)
      ensures processing == old(processing) && processedCount == old(processedCount)
      ensures userLastRequestTime == old(userLastRequestTime)
    {
      var original := queue;
      var kept: seq<QueueItem> := [];
      for i := 0 to |original|
        invariant kept == Kept(original[..i], now)
        invariant settled == old(settled) + TimedOut(original[..i], now)
        invariant queue == original
        invariant processing == old(processing) && processedCount == old(processedCount)
        invariant userLastRequestTime == old(userLastRequestTime)
      {
        KeptStep(original, i, now);
        if IsExpired(original[i], now) {
          settled := settled + [RejectedTimeout(original[i].id, TimeoutMessage)];
        } else {
          kept := kept + [original[i]];
        }
      }
      assert original[..|original|] == original;
      queue := kept;
      KeptMembers(original, now);
      assert forall i :: 0 <= i < |queue| ==> queue[i] in original;
    }
  }

  /** `Math.ceil(userWaitTime - elapsed / 1000)`, elapsed in milliseconds. */
  function WaitSecondsLeft(wait: nat, elapsedMs: int): (s: int)
    ensures s * 1000 >= 1000 * wait - elapsedMs && (s - 1) * 1000 < 1000 * wait - elapsedMs
  {
    var x := 1000 * wait - elapsedMs;
    if x >= 0 then
      var q := (x + 999) / 1000;
      assert x + 999 == q * 1000 + (x + 999) % 1000;
      q
    else
      var q := (-x) / 1000;
      assert -x == q * 1000 + (-x) % 1000;
      -q
  }

  /** Extending the swept prefix by one item. */
  lemma KeptStep(q: seq<QueueItem>, i: int, now: int)
    requires 0 <= i < |q|
    ensures Kept(q[..i + 1], now) == Kept(q[..i], now) + (if IsExpired(q[i], now) then [] else [q[i]])
    ensures TimedOut(q[..i + 1], now) == TimedOut(q[..i], now) + (if IsExpired(q[i], now) then [RejectedTimeout(q[i].id, TimeoutMessage)] else [])
  {
    KeptAppend(q[..i], q[i], now);
    TimedOutAppend(q[..i], q[i], now);
    assert q[..i + 1] == q[..i] + [q[i]];
  }

  lemma {:induction false} KeptAppend(q: seq<QueueItem>, x: QueueItem, now: int)
    ensures Kept(q + [x], now) == Kept(q, now) + (if IsExpired(x, now) then [] else [x])
  {
    if |q| > 0 {
      assert (q + [x])[0] == q[0];
      assert (q + [x])[1..] == q[1..] + [x];
      KeptAppend(q[1..], x, now);
    } else {
      assert q + [x] == [x];
      assert Kept([x], now) == (if IsExpired(x, now) then [] else [x]) + Kept([], now);
    }
  }

  lemma {:induction false} TimedOutAppend(q: seq<QueueItem>, x: QueueItem, now: int)
    ensures TimedOut(q + [x], now) == TimedOut(q, now) + (if IsExpired(x, now) then [RejectedTimeout(x.id, TimeoutMessage)] else [])
  {
    if |q| > 0 {
      assert (q + [x])[0] == q[0];
      assert (q + [x])[1..] == q[1..] + [x];
      TimedOutAppend(q[1..], x, now);
    } else {
      assert q + [x] == [x];
      assert TimedOut([x], now) == (if IsExpired(x, now) then [RejectedTimeout(x.id, TimeoutMessage)] else []) + TimedOut([], now);
    }
  }
}
