/** What every script's `_run` shares: finding, connecting to and entering
    program mode on the robot, and the chat loop that delivers one reply per
    typed line until the user types "salir". */
module Session {
  import opened Effects
  import opened Strings

  /** The result of one robot SDK call: true, false, or an exception. */
  datatype Call = Yes | No | Threw

  /** The robot's answers to `get_device_by_name`, `connect`,
      `enter_program`, `quit_program` and `release`; the scripts ignore what
      the last two return, but either may raise. */
  datatype Robot = Robot(search: Call, connect: Call, enter: Call, quit: Call, release: Call)

  /** `get_device_by_name("20256", 10)`. */
  const RobotName := "20256"
  const SearchSeconds: nat := 10

  datatype SetupEnd = Ready | NotFound | Refused | SetupThrew

  datatype Setup = Setup(events: seq<Event>, end: SetupEnd)

  /** Search, then connect, then enter program mode, stopping at the first
      call that fails or raises. */
  function ConnectToRobot(robot: Robot): (r: Setup)
    ensures r.end == Ready <==> robot.search == Yes && robot.connect == Yes && robot.enter == Yes
    ensures r.end == NotFound <==> robot.search == No
    ensures r.end == Refused <==> robot.search == Yes && (robot.connect == No || (robot.connect == Yes && robot.enter == No))
    ensures 1 <= |r.events| <= 3
    ensures r.events == [SearchRobot(RobotName, SearchSeconds), ConnectRobot, EnterProgram][..|r.events|]
    ensures r.end == Ready ==> |r.events| == 3
  {
    var search := [SearchRobot(RobotName, SearchSeconds)];
    match robot.search
    case Threw => Setup(search, SetupThrew)
    case No => Setup(search, NotFound)
    case Yes =>
      var connect := search + [ConnectRobot];
      match robot.connect
      case Threw => Setup(connect, SetupThrew)
      case No => Setup(connect, Refused)
      case Yes =>
        var enter := connect + [EnterProgram];
        match robot.enter
        case Threw => Setup(enter, SetupThrew)
        case No => Setup(enter, Refused)
        case Yes => Setup(enter, Ready)
  }

  /** The events of `quit_program()` then `release()`, and whether either
      raised into the handler. */
  datatype Teardown = Teardown(events: seq<Event>, threw: bool)

  /** Leaving program mode and releasing the robot. An exception from
      `quit_program` skips the release. */
  function RobotTeardown(robot: Robot): (r: Teardown)
    ensures 1 <= |r.events| <= 2 && r.events[0] == QuitProgram
    ensures r.events == [QuitProgram, ReleaseRobot][..|r.events|]
    ensures ReleaseRobot in r.events <==> robot.quit != Threw
    ensures r.threw <==> robot.quit == Threw || robot.release == Threw
  {
    if robot.quit == Threw then Teardown([QuitProgram], true)
    else Teardown([QuitProgram, ReleaseRobot], robot.release == Threw)
  }

  /** The events after a chat loop and how the run ends. */
  datatype Close = Close(events: seq<Event>, exit: Exit)

  /** After the chat loop of a robot session: quit_program and release when
      the loop ended at "salir", then the `final` events (stopping the server,
      or nothing); when input ran out, only the `final` events, run by the
      exception handler. */
  function AfterLoop(robot: Robot, quit: bool, final: seq<Event>): Close {
    if !quit then Close(final, Crashed)
    else
      var down := RobotTeardown(robot);
      Close(down.events + final, if down.threw then Crashed else Completed)
  }

  /** What follows the loop holds no delivery; quit_program is in it exactly
      when the loop ended at "salir"; it ends with the `final` events; and the
      run completes exactly when the loop ended at "salir" and neither
      teardown call raised, with quit_program then release. */
  lemma AfterLoopFacts(robot: Robot, quit: bool, final: seq<Event>)
    requires forall i :: 0 <= i < |final| ==> !final[i].Deliver? && !final[i].QuitProgram?
    ensures var r := AfterLoop(robot, quit, final);
      && (forall i :: 0 <= i < |r.events| ==> !r.events[i].Deliver?)
      && |final| <= |r.events| && r.events[|r.events| - |final|..] == final
      && (QuitProgram in r.events <==> quit)
      && (r.exit == Completed <==> quit && robot.quit != Threw && robot.release != Threw)
      && (r.exit == Completed ==> r.events == [QuitProgram, ReleaseRobot] + final)
      && (r.exit != Completed ==> r.exit == Crashed)
      && CountWhere(r.events, IsStop) == CountWhere(final, IsStop)
  {
    if quit {
      var down := RobotTeardown(robot);
      CountWhereAppend(down.events, final, IsStop);
      assert (down.events + final)[0] == QuitProgram;
      assert (down.events + final)[|down.events|..] == final;
    } else {
      assert final[|final| - |final|..] == final;
    }
  }

  /** Events that stop nothing, then `after`: the stops are those of
      `after`, and so is the last event. */
  lemma StopsAfterQuiet(before: seq<Event>, after: seq<Event>)
    requires forall i :: 0 <= i < |before| ==> !IsStop(before[i])
    ensures CountWhere(before + after, IsStop) == CountWhere(after, IsStop)
    ensures |after| >= 1 ==> (before + after)[|before + after| - 1] == after[|after| - 1]
  {
    CountAfterNone(before, after, IsStop);
  }

  /** The events of a chat loop, the state it leaves (the files), and whether
      it ended at "salir" (false: the input ran out, which `input()` reports
      as an exception). */
  datatype LoopResult<S> = LoopResult(events: seq<Event>, state: S, quit: bool)

  /** `while True: mensaje = input(); if mensaje.lower() == 'salir': break;
      ...deliver the reply...`. The `next`-th delivery runs in the
      environment `turns(next)`. */
  function ChatLoop<T, S>(lines: seq<string>, turns: nat -> T, next: nat,
                          deliver: (T, S) -> (seq<Step>, S), state: S): LoopResult<S>
    decreases |lines|
  {
    if |lines| == 0 then LoopResult([], state, false)
    else if IsQuit(lines[0]) then LoopResult([], state, true)
    else
      var d := deliver(turns(next), state);
      var rest := ChatLoop(lines[1..], turns, next + 1, deliver, d.1);
      LoopResult([Deliver(Typed(lines[0]), d.0)] + rest.events, rest.state, rest.quit)
  }

  /** The position of the first line that ends the loop, or the number of
      lines when none does. */
  function FirstQuit(lines: seq<string>): (q: nat)
    ensures q <= |lines|
    ensures forall j :: 0 <= j < q ==> !IsQuit(lines[j])
    ensures q < |lines| ==> IsQuit(lines[q])
  {
    if |lines| == 0 then 0 else if IsQuit(lines[0]) then 0 else 1 + FirstQuit(lines[1..])
  }

  /** The loop delivers once for each line before the first "salir" (in any
      letter case), in order, and for no other line; it ends at that line,
      or by running out of input when there is none. */
  lemma {:induction false} ChatLoopStopsAtFirstQuit<T, S>(lines: seq<string>, turns: nat -> T, next: nat,
                                                       deliver: (T, S) -> (seq<Step>, S), state: S)
    ensures var r := ChatLoop(lines, turns, next, deliver, state);
      var q := FirstQuit(lines);
      && |r.events| == q
      && (r.quit <==> q < |lines|)
      && forall j :: 0 <= j < q ==> r.events[j].Deliver? && r.events[j].prompt == Typed(lines[j])
    decreases |lines|
  {
    if |lines| > 0 && !IsQuit(lines[0]) {
      var d := deliver(turns(next), state);
      ChatLoopStopsAtFirstQuit(lines[1..], turns, next + 1, deliver, d.1);
      var rest := ChatLoop(lines[1..], turns, next + 1, deliver, d.1);
      var r := ChatLoop(lines, turns, next, deliver, state);
      assert r.events == [Deliver(Typed(lines[0]), d.0)] + rest.events;
      forall j | 1 <= j < FirstQuit(lines)
        ensures r.events[j].Deliver? && r.events[j].prompt == Typed(lines[j])
      {
        assert r.events[j] == rest.events[j - 1];
        assert lines[1..][j - 1] == lines[j];
      }
    }
  }

  /** Every event of the loop is a delivery whose steps come from `deliver`,
      so a property of every delivery holds of every step list in the loop. */
  lemma {:induction false} ChatLoopDeliveriesSatisfy<T, S>(lines: seq<string>, turns: nat -> T, next: nat,
                                                        deliver: (T, S) -> (seq<Step>, S), state: S,
                                                        p: seq<Step> -> bool)
    requires forall n: nat, s: S :: p(deliver(turns(n), s).0)
    ensures forall e :: e in ChatLoop(lines, turns, next, deliver, state).events ==> e.Deliver? && p(e.steps)
    decreases |lines|
  {
    if |lines| > 0 && !IsQuit(lines[0]) {
      var d := deliver(turns(next), state);
      ChatLoopDeliveriesSatisfy(lines[1..], turns, next + 1, deliver, d.1, p);
      var rest := ChatLoop(lines[1..], turns, next + 1, deliver, d.1);
      assert p(d.0);
      assert ChatLoop(lines, turns, next, deliver, state).events == [Deliver(Typed(lines[0]), d.0)] + rest.events;
    }
  }

  /** The prompts of the deliveries among `events`, in order. */
  function DeliveredPrompts(events: seq<Event>): seq<Prompt> {
    if |events| == 0 then []
    else (if events[0].Deliver? then [events[0].prompt] else []) + DeliveredPrompts(events[1..])
  }

  lemma {:induction false} DeliveredPromptsAppend(a: seq<Event>, b: seq<Event>)
    ensures DeliveredPrompts(a + b) == DeliveredPrompts(a) + DeliveredPrompts(b)
    decreases |a|
  {
    if |a| > 0 {
      assert (a + b)[1..] == a[1..] + b;
      DeliveredPromptsAppend(a[1..], b);
    } else {
      assert a + b == b;
    }
  }

  lemma {:induction false} NoPrompts(events: seq<Event>)
    requires forall i :: 0 <= i < |events| ==> !events[i].Deliver?
    ensures DeliveredPrompts(events) == []
    decreases |events|
  {
    if |events| > 0 {
      NoPrompts(events[1..]);
    }
  }

  /** Events around a stretch that hold no delivery add no prompt. */
  lemma PromptsAround(pre: seq<Event>, mid: seq<Event>, post: seq<Event>)
    requires forall i :: 0 <= i < |pre| ==> !pre[i].Deliver?
    requires forall i :: 0 <= i < |post| ==> !post[i].Deliver?
    ensures DeliveredPrompts(pre + mid + post) == DeliveredPrompts(mid)
    ensures (pre + mid + post)[..|pre|] == pre
  {
    assert (pre + mid + post)[..|pre|] == pre;
    DeliveredPromptsAppend(pre, mid);
    DeliveredPromptsAppend(pre + mid, post);
    NoPrompts(pre);
    NoPrompts(post);
  }

  /** The prompts of deliveries that answer the given lines. */
  function TypedPrompts(lines: seq<string>): (r: seq<Prompt>)
    ensures |r| == |lines|
    ensures forall i :: 0 <= i < |lines| ==> r[i] == Typed(lines[i])
  {
    if |lines| == 0 then [] else [Typed(lines[0])] + TypedPrompts(lines[1..])
  }

  /** The loop answers exactly the lines before the first "salir", in
      order. */
  lemma {:induction false} ChatLoopPrompts<T, S>(lines: seq<string>, turns: nat -> T, next: nat,
                                              deliver: (T, S) -> (seq<Step>, S), state: S)
    ensures DeliveredPrompts(ChatLoop(lines, turns, next, deliver, state).events) == TypedPrompts(lines[..FirstQuit(lines)])
    decreases |lines|
  {
    if |lines| > 0 && !IsQuit(lines[0]) {
      var d := deliver(turns(next), state);
      ChatLoopPrompts(lines[1..], turns, next + 1, deliver, d.1);
      var rest := ChatLoop(lines[1..], turns, next + 1, deliver, d.1);
      var events := [Deliver(Typed(lines[0]), d.0)] + rest.events;
      assert ChatLoop(lines, turns, next, deliver, state).events == events;
      assert events[1..] == rest.events;
      var q := FirstQuit(lines);
      assert lines[..q][1..] == lines[1..][..q - 1];
    } else {
      assert lines[..FirstQuit(lines)] == [];
    }
  }

  /** A count over a run whose events before and after a stretch hold none
      of the counted kind: the count is that stretch's length when every
      event in it is of that kind. */
  lemma CountAroundStretch(pre: seq<Event>, stretch: seq<Event>, post: seq<Event>, p: Event -> bool)
    requires forall i :: 0 <= i < |pre| ==> !p(pre[i])
    requires forall i :: 0 <= i < |post| ==> !p(post[i])
    requires forall i :: 0 <= i < |stretch| ==> p(stretch[i])
    ensures CountWhere(pre + stretch + post, p) == |stretch|
  {
    CountWhereAppend(pre, stretch, p);
    CountWhereAppend(pre + stretch, post, p);
    CountWhereAll(stretch, p);
  }

  /** The events of a whole run, how it ended, and the state it leaves. */
  datatype SessionRun<S> = SessionRun(events: seq<Event>, exit: Exit, state: S)
}
