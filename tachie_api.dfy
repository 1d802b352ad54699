/**
 * The client side of the LibLib image service (lib/tachie/liblib/api.ts):
 * the progress estimate shown for a task state, and the polling loop that
 * waits for a task to finish. The status requests are an input: `poll(k)`
 * is what the `k`-th request (from 0) returns, or the message it throws.
 */
module TachieApi {
  import opened Wrappers
  import T = TachieTypes
  import opened JsText

  datatype Image = Image(imageUrl: string, seed: int, auditStatus: int)

  /** The `data` part of a status response; `images` may be missing. */
  datatype StatusData = StatusData(generateUuid: string, generateStatus: int, generateMsg: string,
                                   images: Option<seq<Image>>)

  type Poll = nat -> Result<StatusData, string>

  /** `calculateProgress`: the percentage shown for a state after `attempts` polls. */
  function CalculateProgress(status: int, attempts: int): (p: int)
    ensures attempts >= 0 ==> 0 <= p <= 100
    ensures status == T.Success ==> p == 100
  {
    if status == T.Waiting then Min(10 + attempts * 2, 30)
    else if status == T.Processing then Min(30 + attempts * 5, 80)
    else if status == T.Generated then 85
    else if status == T.Auditing then 90
    else if status == T.Success then 100
    else Min(attempts * 2, 50)
  }

  /** For a fixed state, more polls never show less progress. */
  lemma ProgressMonotone(status: int, a: int, b: int)
    requires a <= b
    ensures CalculateProgress(status, a) <= CalculateProgress(status, b)
  {
  }

  /**
   * The estimates follow the task's life: waiting stays below processing,
   * which stays below the fixed values of the later states, and an unknown
   * state never shows more than half.
   */
  lemma ProgressStages(a: int)
    requires a >= 0
    ensures CalculateProgress(T.Waiting, a) <= 30 <= CalculateProgress(T.Processing, a) <= 80
    ensures 80 < CalculateProgress(T.Generated, a) < CalculateProgress(T.Auditing, a) < CalculateProgress(T.Success, a)
    ensures forall s :: !T.Known(s) ==> CalculateProgress(s, a) <= 50
  {
  }

  /** A poll that ends the wait: a request that throws, or a final state. */
  predicate Stops(r: Result<StatusData, string>) {
    r.Failure? || r.value.generateStatus in {T.Success, T.Failed, T.Timeout}
  }

  /** None of the polls from `lo` up to `hi` ended the wait. */
  predicate Unfinished(poll: Poll, lo: nat, hi: nat) {
    forall j :: lo <= j < hi ==> !Stops(poll(j))
  }

  /** The first poll from `k` on that ends the wait, or `n` when none before `n` does. */
  function FirstStop(poll: Poll, k: nat, n: nat): (f: nat)
    requires k <= n
    ensures k <= f <= n
    ensures Unfinished(poll, k, f)
    ensures f < n ==> Stops(poll(f))
    decreases n - k
  {
    if k == n || Stops(poll(k)) then k else FirstStop(poll, k + 1, n)
  }

  /** Only one position can be the first stop. */
  lemma FirstStopUnique(poll: Poll, n: nat, f: nat)
    requires f <= n
    requires Unfinished(poll, 0, f)
    requires f < n ==> Stops(poll(f))
    ensures FirstStop(poll, 0, n) == f
  {
  }

  datatype Waited = Returned(data: StatusData) | Threw(message: string)

  const MaxAttemptsMessage := "生成超时: 达到最大轮询次数"

  /** The text of a falsy-or-not message: the message itself unless it is empty. */
  function OrElse(msg: string, fallback: string): string {
    if msg != "" then msg else fallback
  }

  function FailedMessage(s: StatusData): string {
    "生成失败: " + OrElse(s.generateMsg, T.StatusDescription(s.generateStatus))
  }

  function TimeoutMessage(s: StatusData): string {
    "生成超时: " + OrElse(s.generateMsg, "任务创建30分钟后超时")
  }

  /** How the poll that ends the wait ends it. */
  function Ending(r: Result<StatusData, string>): Waited
    requires Stops(r)
  {
    if r.Failure? then Threw(r.error)
    else if r.value.generateStatus == T.Success then Returned(r.value)
    else if r.value.generateStatus == T.Failed then Threw(FailedMessage(r.value))
    else Threw(TimeoutMessage(r.value))
  }

  /** At most `maxAttempts` polls are made; a negative or zero bound makes none. */
  function Bound(maxAttempts: int): nat {
    if maxAttempts < 0 then 0 else maxAttempts
  }

  /**
   * What `waitForGeneration` comes to: the first poll that ends the wait
   * decides, and when none of the allowed polls does, it gives up.
   */
  function WaitResult(poll: Poll, maxAttempts: int): (w: Waited)
    ensures w.Returned? ==> exists k :: 0 <= k < Bound(maxAttempts) && poll(k) == Success(w.data)
                                        && w.data.generateStatus == T.Success
  {
    var n := Bound(maxAttempts);
    var f := FirstStop(poll, 0, n);
    if f < n then Ending(poll(f)) else Threw(MaxAttemptsMessage)
  }

  /**
   * `waitForGeneration`: poll until the task succeeds (its data is
   * returned), fails or times out (an error is thrown), or the allowed
   * polls run out. `polls` counts the requests and `waits` the pauses,
   * one after every poll that did not end the wait, the last one included.
   */
  method WaitForGeneration(poll: Poll, maxAttempts: int) returns (outcome: Waited, polls: nat, waits: nat)
    ensures outcome == WaitResult(poll, maxAttempts)
    ensures polls <= Bound(maxAttempts)
    ensures polls == (if FirstStop(poll, 0, Bound(maxAttempts)) < Bound(maxAttempts)
                      then FirstStop(poll, 0, Bound(maxAttempts)) + 1 else Bound(maxAttempts))
    ensures waits == FirstStop(poll, 0, Bound(maxAttempts))
  {
    var attempts := 0;
    waits := 0;
    while attempts < maxAttempts
      invariant 0 <= attempts <= Bound(maxAttempts)
      invariant Unfinished(poll, 0, attempts)
      invariant waits == attempts
    {
      var status := poll(attempts);
      if status.Failure? {
        FirstStopUnique(poll, Bound(maxAttempts), attempts);
        return Threw(status.error), attempts + 1, waits;
      }
      var code := status.value.generateStatus;
      if code == T.Success {
        FirstStopUnique(poll, Bound(maxAttempts), attempts);
        return Returned(status.value), attempts + 1, waits;
      } else if code == T.Failed {
        FirstStopUnique(poll, Bound(maxAttempts), attempts);
        return Threw(FailedMessage(status.value)), attempts + 1, waits;
      } else if code == T.Timeout {
        FirstStopUnique(poll, Bound(maxAttempts), attempts);
        return Threw(TimeoutMessage(status.value)), attempts + 1, waits;
      }
      attempts := attempts + 1;
      waits := waits + 1;
    }
    FirstStopUnique(poll, Bound(maxAttempts), attempts);
    outcome, polls := Threw(MaxAttemptsMessage), attempts;
  }

  /**
   * The wait returns the first successful status when every poll before it
   * was in a waiting, working or unknown state, and throws on a failure or
   * timeout reached the same way; with all allowed polls unfinished it
   * throws the polling-limit error.
   */
  lemma WaitResultCases(poll: Poll, maxAttempts: int, k: nat)
    requires k < Bound(maxAttempts)
    requires Unfinished(poll, 0, k)
    ensures poll(k).Success? && poll(k).value.generateStatus == T.Success ==>
      WaitResult(poll, maxAttempts) == Returned(poll(k).value)
    ensures poll(k).Success? && poll(k).value.generateStatus == T.Failed ==>
      WaitResult(poll, maxAttempts) == Threw(FailedMessage(poll(k).value))
    ensures poll(k).Success? && poll(k).value.generateStatus == T.Timeout ==>
      WaitResult(poll, maxAttempts) == Threw(TimeoutMessage(poll(k).value))
    ensures !Stops(poll(k)) && k + 1 == Bound(maxAttempts) ==>
      WaitResult(poll, maxAttempts) == Threw(MaxAttemptsMessage)
  {
    if Stops(poll(k)) {
      FirstStopUnique(poll, Bound(maxAttempts), k);
    } else if k + 1 == Bound(maxAttempts) {
      FirstStopUnique(poll, Bound(maxAttempts), k + 1);
    }
  }
}
