/**
 * Portrait generation with live progress (lib/tachie/manager.ts): submit
 * a task, poll its status up to 30 times twelve seconds apart, report
 * progress through the callback, and turn every outcome, errors included,
 * into a result record. The submit request's outcome and the status
 * requests are inputs; the callback calls and the pauses are recorded as
 * events.
 */
module TachieManager {
  import opened Wrappers
  import T = TachieTypes
  import opened TachieApi

  /**
   * A call of `onProgress` with fixed arguments, a call of it reporting a
   * task state after some number of polls, or a pause between two polls.
   */
  datatype Event = Progress(percent: int, text: string) | StatusReport(status: int, attempts: nat) | Pause(ms: int)

  /** `TachieGenerationResult`; absent properties are `None`. */
  datatype TachieResult = TachieResult(
    success: bool,
    imageUrl: Option<string>,
    error: Option<string>,
    seed: Option<int>,
    auditStatus: Option<int>,
    generateUuid: Option<string>,
    generateStatus: Option<int>,
    statusDescription: Option<string>,
    percentCompleted: Option<int>)

  /** What the catch-all turns an error into. */
  function FailureResult(message: string): TachieResult {
    TachieResult(false, None, Some(message), None, None, None, None, None, None)
  }

  const MaxAttempts := 30
  const Interval := 12000
  const NoImages := "没有生成的图片"

  function UnsupportedMessage(source: string): string {
    "不支持的生成源: " + source
  }

  const Submitting := Progress(5, "正在提交生成任务...")
  const Submitted := Progress(10, "任务已提交，开始生成...")
  const Completed := Progress(100, "生成完成！")
  const Start := [Submitting, Submitted]

  /** The report for poll `j`, answered with `s`. */
  function Report(s: StatusData, j: nat): Event {
    StatusReport(s.generateStatus, j)
  }

  /**
   * The percentage and text `onProgress` receives: a state report shows the
   * estimate for the state after that many polls, between 0 and 100 and 100
   * on success, with the state's description.
   */
  function Arguments(e: Event): (r: (int, string))
    requires !e.Pause?
    ensures e.StatusReport? ==> 0 <= r.0 <= 100 && (e.status == T.Success ==> r.0 == 100)
    ensures e.StatusReport? ==> r.1 == T.StatusDescription(e.status)
  {
    if e.Progress? then (e.percent, e.text)
    else (CalculateProgress(e.status, e.attempts), T.StatusDescription(e.status))
  }

  /** The events of the first `k` polls, none of which ended the wait: a report each, then a pause unless it was the last allowed poll. */
  function Log(poll: Poll, k: nat): seq<Event>
    requires k <= MaxAttempts
    requires Unfinished(poll, 0, k)
  {
    if k == 0 then []
    else
      assert !Stops(poll(k - 1));
      Log(poll, k - 1) + [Report(poll(k - 1).value, k - 1)] + (if k < MaxAttempts then [Pause(Interval)] else [])
  }

  /** What a finishing poll makes of the task: the first image on success, a failure otherwise. */
  function Finish(r: Result<StatusData, string>, uuid: string): TachieResult
    requires Stops(r)
  {
    if r.Failure? then FailureResult(r.error)
    else
      var s := r.value;
      if s.generateStatus == T.Success then
        if s.images.Some? && |s.images.value| > 0 then
          var first := s.images.value[0];
          TachieResult(true, Some(first.imageUrl), None, Some(first.seed), Some(first.auditStatus), Some(uuid),
                       Some(s.generateStatus), Some(T.StatusDescription(s.generateStatus)), Some(100))
        else
          TachieResult(false, None, Some(NoImages), None, None, Some(uuid),
                       Some(s.generateStatus), Some(T.StatusDescription(s.generateStatus)), Some(100))
      else if s.generateStatus == T.Failed then FailureResult(FailedMessage(s))
      else FailureResult(TimeoutMessage(s))
  }

  /** The events of a finishing poll. */
  function FinishEvents(r: Result<StatusData, string>, j: nat): seq<Event> {
    if r.Failure? then []
    else [Report(r.value, j)] + (if r.value.generateStatus == T.Success then [Completed] else [])
  }

  datatype Run = Run(result: TachieResult, events: seq<Event>, polls: nat)

  /**
   * What `generateTachieWithProgress` comes to: an unsupported source fails
   * at once; a failed submission fails after the first report; otherwise the
   * first poll that ends the wait decides, and after 30 unfinished polls the
   * polling-limit error is returned.
   */
  function Generation(source: string, submit: Result<string, string>, poll: Poll): Run {
    if source != "liblib" then Run(FailureResult(UnsupportedMessage(source)), [], 0)
    else if submit.Failure? then Run(FailureResult(submit.error), Start[..1], 0)
    else
      var f := FirstStop(poll, 0, MaxAttempts);
      if f < MaxAttempts then
        Run(Finish(poll(f), submit.value), Start + Log(poll, f) + FinishEvents(poll(f), f), f + 1)
      else
        Run(FailureResult(MaxAttemptsMessage), Start + Log(poll, MaxAttempts), MaxAttempts)
  }

  /** An unfinished poll before the last extends the events by its report and a pause. */
  lemma LogStep(poll: Poll, k: nat, s: StatusData, events: seq<Event>)
    requires k + 1 < MaxAttempts
    requires Unfinished(poll, 0, k + 1) && poll(k) == Success(s)
    requires events == Start + Log(poll, k)
    ensures events + [Report(s, k)] + [Pause(Interval)] == Start + Log(poll, k + 1)
  {
  }

  /** The last allowed poll, unfinished, extends the events by its report alone. */
  lemma LogLast(poll: Poll, k: nat, s: StatusData, events: seq<Event>)
    requires k + 1 == MaxAttempts
    requires Unfinished(poll, 0, k + 1) && poll(k) == Success(s)
    requires events == Start + Log(poll, k)
    ensures events + [Report(s, k)] == Start + Log(poll, k + 1)
  {
  }

  /** When poll `f` is the first to end the wait, it decides the run. */
  lemma StoppedAt(source: string, submit: Result<string, string>, poll: Poll, f: nat, events: seq<Event>)
    requires source == "liblib" && submit.Success?
    requires f < MaxAttempts && Stops(poll(f))
    requires Unfinished(poll, 0, f)
    requires events == Start + Log(poll, f)
    ensures Generation(source, submit, poll)
      == Run(Finish(poll(f), submit.value), events + FinishEvents(poll(f), f), f + 1)
  {
    FirstStopUnique(poll, MaxAttempts, f);
  }

  /** When none of the 30 polls ends the wait, the polling limit decides. */
  lemma NeverStopped(source: string, submit: Result<string, string>, poll: Poll, events: seq<Event>)
    requires source == "liblib" && submit.Success?
    requires Unfinished(poll, 0, MaxAttempts)
    requires events == Start + Log(poll, MaxAttempts)
    ensures Generation(source, submit, poll) == Run(FailureResult(MaxAttemptsMessage), events, MaxAttempts)
  {
    FirstStopUnique(poll, MaxAttempts, MaxAttempts);
  }

  /**
   * `generateTachieWithProgress`. `submit` is the outcome of the submit
   * request (the task id, or the message it throws); `poll(k)` is the
   * outcome of the `k`-th status request.
   */
  method GenerateTachieWithProgress(source: string, submit: Result<string, string>, poll: Poll)
    returns (result: TachieResult, events: seq<Event>, polls: nat)
    ensures Run(result, events, polls) == Generation(source, submit, poll)
  {
    if source != "liblib" {
      return FailureResult(UnsupportedMessage(source)), [], 0;
    }
    events := [Submitting];
    if submit.Failure? {
      return FailureResult(submit.error), events, 0;
    }
    var uuid := submit.value;
    events := events + [Submitted];
    var attempts := 0;
    while attempts < MaxAttempts
      invariant 0 <= attempts <= MaxAttempts
      invariant Unfinished(poll, 0, attempts)
      invariant events == Start + Log(poll, attempts)
    {
      var status := poll(attempts);
      if status.Failure? {
        StoppedAt(source, submit, poll, attempts, events);
        return FailureResult(status.error), events, attempts + 1;
      }
      var s := status.value;
      ghost var before := events;
      events := events + [Report(s, attempts)];
      if s.generateStatus == T.Success {
        StoppedAt(source, submit, poll, attempts, before);
        events := events + [Completed];
        if s.images.Some? && |s.images.value| > 0 {
          var first := s.images.value[0];
          result := TachieResult(true, Some(first.imageUrl), None, Some(first.seed), Some(first.auditStatus), Some(uuid),
                                 Some(s.generateStatus), Some(T.StatusDescription(s.generateStatus)), Some(100));
        } else {
          result := TachieResult(false, None, Some(NoImages), None, None, Some(uuid),
                                 Some(s.generateStatus), Some(T.StatusDescription(s.generateStatus)), Some(100));
        }
        return result, events, attempts + 1;
      } else if s.generateStatus == T.Failed {
        StoppedAt(source, submit, poll, attempts, before);
        return FailureResult(FailedMessage(s)), events, attempts + 1;
      } else if s.generateStatus == T.Timeout {
        StoppedAt(source, submit, poll, attempts, before);
        return FailureResult(TimeoutMessage(s)), events, attempts + 1;
      }
      ghost var k := attempts;
      assert Unfinished(poll, 0, k + 1);
      attempts := attempts + 1;
      if attempts < MaxAttempts {
        LogStep(poll, k, s, before);
        events := events + [Pause(Interval)];
      } else {
        LogLast(poll, k, s, before);
      }
    }
    NeverStopped(source, submit, poll, events);
    return FailureResult(MaxAttemptsMessage), events, attempts;
  }

  /** How many pauses a list of events holds. */
  function Pauses(events: seq<Event>): nat {
    if |events| == 0 then 0 else (if events[|events| - 1].Pause? then 1 else 0) + Pauses(events[..|events| - 1])
  }

  lemma {:induction false} PausesAppend(a: seq<Event>, b: seq<Event>)
    ensures Pauses(a + b) == Pauses(a) + Pauses(b)
    decreases |b|
  {
    if |b| == 0 {
      assert a + b == a;
    } else {
      assert (a + b)[..|a + b| - 1] == a + b[..|b| - 1];
      PausesAppend(a, b[..|b| - 1]);
    }
  }

  /** The first `k` polls are each followed by a pause, except the 30th. */
  lemma PausesOne(e: Event)
    ensures Pauses([e]) == (if e.Pause? then 1 else 0)
  {
    assert [e][..0] == [];
  }

  lemma {:induction false} LogPauses(poll: Poll, k: nat)
    requires k <= MaxAttempts
    requires Unfinished(poll, 0, k)
    ensures Pauses(Log(poll, k)) == (if k == MaxAttempts then k - 1 else k)
  {
    if k > 0 {
      LogSplit(poll, k);
      LogPauses(poll, k - 1);
      var report := Report(poll(k - 1).value, k - 1);
      PausesOne(report);
      PausesAppend(Log(poll, k - 1), [report]);
      var tail := if k < MaxAttempts then [Pause(Interval)] else [];
      PausesAppend(Log(poll, k - 1) + [report], tail);
      if k < MaxAttempts {
        PausesOne(Pause(Interval));
      }
    }
  }

  /**
   * At most 30 status requests are made, and there is exactly one pause
   * between two consecutive ones and none after the last.
   */
  lemma PollsAndPauses(source: string, submit: Result<string, string>, poll: Poll)
    ensures var run := Generation(source, submit, poll);
      run.polls <= MaxAttempts
      && (run.polls > 0 ==> Pauses(run.events) == run.polls - 1)
  {
    if source == "liblib" && submit.Success? {
      var f := FirstStop(poll, 0, MaxAttempts);
      StartPauses();
      LogPauses(poll, f);
      PausesAppend(Start, Log(poll, f));
      if f < MaxAttempts {
        StoppedAt(source, submit, poll, f, Start + Log(poll, f));
        FinishPauses(poll(f), f);
        PausesAppend(Start + Log(poll, f), FinishEvents(poll(f), f));
      } else {
        NeverStopped(source, submit, poll, Start + Log(poll, f));
      }
    }
  }

  lemma StartPauses()
    ensures Pauses(Start) == 0
  {
    PausesOne(Submitting);
    PausesOne(Submitted);
    PausesAppend([Submitting], [Submitted]);
  }

  lemma FinishPauses(r: Result<StatusData, string>, j: nat)
    ensures Pauses(FinishEvents(r, j)) == 0
  {
    if r.Success? {
      PausesOne(Report(r.value, j));
      PausesOne(Completed);
      PausesAppend([Report(r.value, j)], [Completed]);
    }
  }

  /**
   * The outcome, by case. An unsupported source fails with no report. A
   * success with at least one image returns the first image's address
   * and seed with progress 100; a success without images fails with
   * `没有生成的图片`, also at 100. Failure and timeout states, and errors
   * of the requests, become failures carrying their message. Every
   * failure carries an error message: nothing is thrown.
   */
  lemma GenerationCases(source: string, submit: Result<string, string>, poll: Poll)
    ensures var run := Generation(source, submit, poll);
      (run.result.success <==> run.result.error.None?)
      && (source != "liblib" ==> run.result == FailureResult(UnsupportedMessage(source)) && run.events == [])
      && (source == "liblib" && submit.Failure? ==> run.result == FailureResult(submit.error))
      && (source == "liblib" && submit.Success? ==>
            var f := FirstStop(poll, 0, MaxAttempts);
            (f == MaxAttempts ==> run.result == FailureResult(MaxAttemptsMessage))
            && (f < MaxAttempts && poll(f).Success? && poll(f).value.generateStatus == T.Success ==>
                  var s := poll(f).value;
                  run.result.percentCompleted == Some(100)
                  && run.result.generateUuid == Some(submit.value)
                  && (s.images.Some? && |s.images.value| > 0 ==>
                        run.result.success
                        && run.result.imageUrl == Some(s.images.value[0].imageUrl)
                        && run.result.seed == Some(s.images.value[0].seed))
                  && (s.images.None? || |s.images.value| == 0 ==>
                        !run.result.success && run.result.error == Some(NoImages)))
            && (f < MaxAttempts && poll(f).Success? && poll(f).value.generateStatus == T.Failed ==>
                  run.result == FailureResult(FailedMessage(poll(f).value)))
            && (f < MaxAttempts && poll(f).Success? && poll(f).value.generateStatus == T.Timeout ==>
                  run.result == FailureResult(TimeoutMessage(poll(f).value)))
            && (f < MaxAttempts && poll(f).Failure? ==> run.result == FailureResult(poll(f).error)))
  {
  }

  /** A run that got past the submission lists the two opening reports, then the events of the unfinished polls. */
  lemma EventsStart(submit: Result<string, string>, poll: Poll)
    requires submit.Success?
    ensures var events, f := Generation("liblib", submit, poll).events, FirstStop(poll, 0, MaxAttempts);
      2 + |Log(poll, f)| <= |events| && events[..2 + |Log(poll, f)|] == Start + Log(poll, f)
  {
    var f := FirstStop(poll, 0, MaxAttempts);
    var log := Log(poll, f);
    if f < MaxAttempts {
      StoppedAt("liblib", submit, poll, f, Start + log);
      var fin := FinishEvents(poll(f), f);
      assert (Start + log + fin)[..2 + |log|] == Start + log;
    } else {
      NeverStopped("liblib", submit, poll, Start + log);
      assert (Start + log)[..2 + |log|] == Start + log;
    }
  }

  /**
   * The reports open with 5 and 10, and each unfinished poll `j` is
   * reported, in order, with the estimate for its state after `j` polls,
   * followed by a pause unless it was the last allowed poll.
   */
  lemma ProgressReports(submit: Result<string, string>, poll: Poll)
    requires submit.Success?
    ensures var events := Generation("liblib", submit, poll).events;
      var f := FirstStop(poll, 0, MaxAttempts);
      events[..2] == [Progress(5, "正在提交生成任务..."), Progress(10, "任务已提交，开始生成...")]
      && forall j :: 0 <= j < f ==>
           poll(j).Success? && 2 * j + 2 < |events| && events[2 * j + 2] == Report(poll(j).value, j)
           && (j + 1 < MaxAttempts ==> 2 * j + 3 < |events| && events[2 * j + 3] == Pause(Interval))
  {
    var f := FirstStop(poll, 0, MaxAttempts);
    var events := Generation("liblib", submit, poll).events;
    EventsStart(submit, poll);
    assert events[..2] == (Start + Log(poll, f))[..2] == Start;
    forall j | 0 <= j < f
      ensures poll(j).Success? && 2 * j + 2 < |events| && events[2 * j + 2] == Report(poll(j).value, j)
              && (j + 1 < MaxAttempts ==> 2 * j + 3 < |events| && events[2 * j + 3] == Pause(Interval))
    {
      LogAt(poll, f, j);
      var log := Log(poll, f);
      assert events[2 * j + 2] == (Start + log)[2 * j + 2] == log[2 * j];
      if j + 1 < MaxAttempts {
        assert events[2 * j + 3] == (Start + log)[2 * j + 3] == log[2 * j + 1];
      }
    }
  }

  /** Unfolding `Log` by one poll: the earlier events stay in front, then come the report and the pause, if any. */
  lemma LogUnfold(poll: Poll, k: nat)
    requires 0 < k <= MaxAttempts
    requires Unfinished(poll, 0, k)
    ensures Unfinished(poll, 0, k - 1) && poll(k - 1).Success?
    ensures var prev, log := Log(poll, k - 1), Log(poll, k);
      |log| == |prev| + (if k < MaxAttempts then 2 else 1)
      && (forall i :: 0 <= i < |prev| ==> log[i] == prev[i])
      && log[|prev|] == Report(poll(k - 1).value, k - 1)
      && (k < MaxAttempts ==> log[|prev| + 1] == Pause(Interval))
  {
  }

  /** `Log` by one poll, as a concatenation. */
  lemma LogSplit(poll: Poll, k: nat)
    requires 0 < k <= MaxAttempts
    requires Unfinished(poll, 0, k)
    ensures Unfinished(poll, 0, k - 1) && poll(k - 1).Success?
    ensures Log(poll, k) == Log(poll, k - 1) + [Report(poll(k - 1).value, k - 1)]
                            + (if k < MaxAttempts then [Pause(Interval)] else [])
  {
  }

  /** Two events per poll, except that the 30th has no pause after it. */
  lemma {:induction false} LogLength(poll: Poll, k: nat)
    requires k <= MaxAttempts
    requires Unfinished(poll, 0, k)
    ensures |Log(poll, k)| == (if k == MaxAttempts then 2 * k - 1 else 2 * k)
  {
    if k > 0 {
      LogUnfold(poll, k);
      LogLength(poll, k - 1);
    }
  }

  /** Poll `j`'s report sits at position `2j`, and its pause right after it. */
  lemma {:induction false} LogAt(poll: Poll, k: nat, j: nat)
    requires k <= MaxAttempts
    requires Unfinished(poll, 0, k)
    requires j < k
    ensures poll(j).Success? && 2 * j < |Log(poll, k)| && Log(poll, k)[2 * j] == Report(poll(j).value, j)
    ensures j + 1 < MaxAttempts ==> 2 * j + 1 < |Log(poll, k)| && Log(poll, k)[2 * j + 1] == Pause(Interval)
  {
    LogUnfold(poll, k);
    var prev, log := Log(poll, k - 1), Log(poll, k);
    LogLength(poll, k - 1);
    if j < k - 1 {
      LogAt(poll, k - 1, j);
      assert log[2 * j] == prev[2 * j];
      if j + 1 < MaxAttempts {
        assert log[2 * j + 1] == prev[2 * j + 1];
      }
    } else {
      assert 2 * j == |prev|;
    }
  }
}
