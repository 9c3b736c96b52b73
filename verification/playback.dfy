/** Commanding the robot to play a URL, and the scripts' retry policy around
    that command: up to three attempts, stopping at the first one the robot
    confirms, with a fixed two-second pause between attempts. Also the
    Bluetooth script's local playback, which needs a paired device. */
module Playback {
  import opened Options
  import opened Effects

  /** The fixed attempt budget of `for intento in range(1, 4)`. */
  const MaxAttempts: nat := 3
  /** The pause `asyncio.sleep(2)` after a failed attempt. */
  const RetryDelaySeconds: nat := 2

  /** `MiniApiResultType`: the scripts only ever compare it with Success. */
  datatype ResultType = Success | Unsuccessful(kind: string)

  /** What one `await block.execute()` gives back: the result type and the
      response's `isSuccess` and `resultCode`, or an exception (raised by the
      call itself or by reading a missing response). */
  datatype Reply =
    | Replied(resultType: ResultType, isSuccess: bool, resultCode: int)
    | Raised

  /** The robot confirmed playback: both success indications hold. */
  predicate Played(r: Reply) {
    r.Replied? && r.resultType == Success && r.isSuccess
  }

  /** A reply after which no further attempt is made. */
  predicate Decisive(r: Reply) {
    r.Raised? || Played(r)
  }

  /** The replies the robot would give to the first, second and third
      attempts; unused ones are ignored. */
  type Replies = s: seq<Reply> | |s| == MaxAttempts witness [Raised, Raised, Raised]

  /** Confirmed: a confirmed attempt ended the loop. GaveUp: the robot
      reported failure on the last attempt made. Aborted: an exception left
      the loop (and the rest of the delivery). */
  datatype LoopEnd = Confirmed | GaveUp | Aborted

  datatype LoopRun = LoopRun(steps: seq<Step>, end: LoopEnd)

  /** Attempts `k`..3 of the loop. */
  function RetryFrom(url: string, replies: Replies, k: nat): LoopRun
    requires 1 <= k <= MaxAttempts
    decreases MaxAttempts - k
  {
    var attempt := [PlayUrl(k, url)];
    var reply := replies[k - 1];
    if reply.Raised? then LoopRun(attempt, Aborted)
    else if Played(reply) then LoopRun(attempt, Confirmed)
    else if k < MaxAttempts then
      var rest := RetryFrom(url, replies, k + 1);
      LoopRun(attempt + [Sleep(RetryDelaySeconds)] + rest.steps, rest.end)
    else LoopRun(attempt, GaveUp)
  }

  /** The robot-mode playback loop of both local-server scripts. */
  function RetryLoop(url: string, replies: Replies): LoopRun {
    RetryFrom(url, replies, 1)
  }

  /** The number of attempts the policy makes: up to and including the first
      decisive reply, and never more than three. */
  function AttemptsMade(replies: Replies): (n: nat)
    ensures 1 <= n <= MaxAttempts
    ensures forall j :: 0 <= j < n - 1 ==> !Decisive(replies[j])
    ensures n < MaxAttempts ==> Decisive(replies[n - 1])
  {
    if Decisive(replies[0]) then 1 else if Decisive(replies[1]) then 2 else 3
  }

  /** How the policy ends, read off the last reply it looks at. */
  function Verdict(replies: Replies): LoopEnd {
    var last := replies[AttemptsMade(replies) - 1];
    if last.Raised? then Aborted else if Played(last) then Confirmed else GaveUp
  }

  /** The reference trace of `n` attempts: attempt 1, then for each further
      attempt a pause followed by that attempt. */
  function Schedule(url: string, n: nat): (s: seq<Step>)
    requires n >= 1
    ensures |s| == 2 * n - 1
    ensures forall j :: 0 <= j < n ==> s[2 * j] == PlayUrl(j + 1, url)
    ensures forall j :: 0 <= j < n - 1 ==> s[2 * j + 1] == Sleep(RetryDelaySeconds)
    ensures forall i :: 0 <= i < |s| ==> s[i].PlayUrl? || s[i] == Sleep(RetryDelaySeconds)
  {
    if n == 1 then [PlayUrl(1, url)]
    else Schedule(url, n - 1) + [Sleep(RetryDelaySeconds), PlayUrl(n, url)]
  }

  /** The retry loop makes exactly the scheduled attempts and pauses, and
      ends as the last reply it reads says. */
  lemma {:induction false} RetryLoopFollowsSchedule(url: string, replies: Replies)
    ensures RetryLoop(url, replies) == LoopRun(Schedule(url, AttemptsMade(replies)), Verdict(replies))
  {
    var r3 := RetryFrom(url, replies, 3);
    var r2 := RetryFrom(url, replies, 2);
    var r1 := RetryFrom(url, replies, 1);
    if !Decisive(replies[0]) && !Decisive(replies[1]) {
      assert r3.steps == [PlayUrl(3, url)];
      assert r2.steps == [PlayUrl(2, url), Sleep(RetryDelaySeconds)] + r3.steps;
      assert r1.steps == [PlayUrl(1, url), Sleep(RetryDelaySeconds)] + r2.steps;
      assert Schedule(url, 2) == [PlayUrl(1, url), Sleep(RetryDelaySeconds), PlayUrl(2, url)];
    } else if !Decisive(replies[0]) {
      assert r1.steps == Schedule(url, 2);
    }
  }

  /** The same loop as a method, written as `for intento in range(1, 4)`. */
  method RunRetryLoop(url: string, replies: Replies) returns (steps: seq<Step>, end: LoopEnd)
    ensures steps == Schedule(url, AttemptsMade(replies))
    ensures end == Verdict(replies)
  {
    steps := [];
    var attempt := 1;
    while attempt <= MaxAttempts
      invariant 1 <= attempt <= MaxAttempts + 1
      invariant forall j :: 0 <= j < attempt - 1 ==> !Decisive(replies[j])
      invariant attempt == 1 ==> steps == []
      invariant 1 < attempt <= MaxAttempts ==> steps == Schedule(url, attempt - 1) + [Sleep(RetryDelaySeconds)]
      invariant attempt == MaxAttempts + 1 ==> steps == Schedule(url, MaxAttempts)
      decreases MaxAttempts + 1 - attempt
    {
      steps := steps + [PlayUrl(attempt, url)];
      var reply := replies[attempt - 1];
      if reply.Raised? {
        end := Aborted;
        return;
      }
      if Played(reply) {
        end := Confirmed;
        return;
      }
      if attempt < MaxAttempts {
        steps := steps + [Sleep(RetryDelaySeconds)];
      }
      attempt := attempt + 1;
    }
    end := GaveUp;
  }

  /** The attempt numbers of the PlayAudio commands in a trace, in order. */
  function AttemptNumbers(steps: seq<Step>): seq<nat> {
    if |steps| == 0 then []
    else (if steps[0].PlayUrl? then [steps[0].attempt] else []) + AttemptNumbers(steps[1..])
  }

  /** The total of the pauses in a trace, in seconds. */
  function SecondsSlept(steps: seq<Step>): nat {
    if |steps| == 0 then 0
    else (if steps[0].Sleep? then steps[0].seconds else 0) + SecondsSlept(steps[1..])
  }

  function Pauses(steps: seq<Step>): nat {
    CountWhere(steps, (s: Step) => s.Sleep?)
  }

  /** `[1, 2, .., n]`. */
  function UpTo(n: nat): (r: seq<nat>)
    ensures |r| == n
    ensures forall i :: 0 <= i < n ==> r[i] == i + 1
  {
    if n == 0 then [] else UpTo(n - 1) + [n]
  }

  lemma {:induction false} AttemptNumbersAppend(xs: seq<Step>, ys: seq<Step>)
    ensures AttemptNumbers(xs + ys) == AttemptNumbers(xs) + AttemptNumbers(ys)
    decreases |xs|
  {
    if |xs| > 0 {
      assert (xs + ys)[1..] == xs[1..] + ys;
      AttemptNumbersAppend(xs[1..], ys);
    } else {
      assert xs + ys == ys;
    }
  }

  lemma {:induction false} SecondsSleptAppend(xs: seq<Step>, ys: seq<Step>)
    ensures SecondsSlept(xs + ys) == SecondsSlept(xs) + SecondsSlept(ys)
    decreases |xs|
  {
    if |xs| > 0 {
      assert (xs + ys)[1..] == xs[1..] + ys;
      SecondsSleptAppend(xs[1..], ys);
    } else {
      assert xs + ys == ys;
    }
  }

  /** In a schedule of `n` attempts the commands are numbered 1..n in order,
      and there are `n - 1` pauses of two seconds. */
  lemma {:induction false} ScheduleCounts(url: string, n: nat)
    requires n >= 1
    ensures AttemptNumbers(Schedule(url, n)) == UpTo(n)
    ensures Pauses(Schedule(url, n)) == n - 1
    ensures SecondsSlept(Schedule(url, n)) == RetryDelaySeconds * (n - 1)
  {
    if n > 1 {
      ScheduleCounts(url, n - 1);
      var tail := [Sleep(RetryDelaySeconds), PlayUrl(n, url)];
      AttemptNumbersAppend(Schedule(url, n - 1), tail);
      CountWhereAppend(Schedule(url, n - 1), tail, (s: Step) => s.Sleep?);
      SecondsSleptAppend(Schedule(url, n - 1), tail);
      assert tail[1..] == [PlayUrl(n, url)];
      assert tail[1..][1..] == [];
      assert AttemptNumbers(tail[1..]) == [n] + AttemptNumbers([]);
      assert AttemptNumbers(tail) == [n];
      assert SecondsSlept(tail[1..]) == SecondsSlept([]);
      assert SecondsSlept(tail) == RetryDelaySeconds;
    }
  }

  /** The retry rules as the scripts promise them: at most three attempts,
      numbered 1, 2, 3 in order; a two-second pause only between attempts;
      the loop confirms exactly when some attempt is confirmed before any
      exception; and three refusals give three attempts and two pauses. */
  lemma RetryRules(url: string, replies: Replies)
    ensures var run := RetryLoop(url, replies);
      var n := |AttemptNumbers(run.steps)|;
      && 1 <= n <= MaxAttempts
      && AttemptNumbers(run.steps) == UpTo(n)
      && Pauses(run.steps) == n - 1
      && SecondsSlept(run.steps) == RetryDelaySeconds * (n - 1)
      && (run.end == Confirmed <==>
            exists j :: 0 <= j < MaxAttempts && Played(replies[j])
                        && forall i :: 0 <= i < j ==> !Decisive(replies[i]))
      && (run.end == Confirmed ==> Played(replies[n - 1]))
      && ((forall j :: 0 <= j < MaxAttempts ==> !Decisive(replies[j])) ==>
            n == MaxAttempts && Pauses(run.steps) == 2 && run.end == GaveUp)
  {
    RetryLoopFollowsSchedule(url, replies);
    var n := AttemptsMade(replies);
    ScheduleCounts(url, n);
    if Verdict(replies) == Confirmed {
      assert Played(replies[n - 1]);
    }
    if exists j :: 0 <= j < MaxAttempts && Played(replies[j]) && forall i :: 0 <= i < j ==> !Decisive(replies[i]) {
      var j :| 0 <= j < MaxAttempts && Played(replies[j]) && forall i :: 0 <= i < j ==> !Decisive(replies[i]);
      assert j == n - 1;
    }
  }

  /** A single PlayAudio command with no retry, judged by the same two
      success indications. */
  function SinglePlay(url: string, reply: Reply): (r: LoopRun)
    ensures r.steps == [PlayUrl(1, url)]
    ensures r.end == Confirmed <==> Played(reply)
    ensures r.end == Aborted <==> reply.Raised?
  {
    LoopRun([PlayUrl(1, url)],
            if reply.Raised? then Aborted else if Played(reply) then Confirmed else GaveUp)
  }

  /** `ReproducirAudioBluetooth`: with no device recorded it reports failure
      and plays nothing; otherwise the OS player runs once and its result
      (`osPlayed`) is reported. */
  function PlayViaBluetooth(device: Option<string>, path: string, osPlayed: bool): (r: (bool, seq<Step>))
    ensures device.None? ==> !r.0 && r.1 == []
    ensures device.Some? ==> r.0 == osPlayed && r.1 == [PlayLocal(path)]
  {
    if device.None? then (false, []) else (osPlayed, [PlayLocal(path)])
  }
}
