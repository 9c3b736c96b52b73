/** `test/bluetooth.py`: a chat client that speaks Gemini's replies either on
    the robot, which fetches each file from the local HTTP server, or on a
    Bluetooth speaker through the operating system's player. */
module BluetoothScript {
  import opened Options
  import opened Effects
  import opened Strings
  import opened Naming
  import opened Playback
  import opened Session

  /** The `asyncio.sleep(5)` that lets a slow fetch finish before removal. */
  const GraceSeconds: nat := 5

  /** `USAR_BLUETOOTH`. */
  datatype Mode = RobotMode | BluetoothMode

  /** What one delivery meets outside the script: the uuid and the clock that
      name the file, the audio gTTS produces (None: it raised), the robot's
      replies to the PlayAudio attempts, whether the OS player ran, and
      whether `os.remove` succeeded (it raises, for one, while the player or
      the HTTP handler still holds the file open on Windows). */
  datatype Turn = Turn(uuid: string, timestamp: nat, audio: Option<Content>, replies: Replies, osPlayed: bool, removeOk: bool)

  /** The globals a delivery reads: `USAR_BLUETOOTH`, `bluetooth_device` and
      `local_ip`. */
  datatype Config = Config(mode: Mode, device: Option<string>, localIp: string)

  /** Playback of the saved file: one call of the Bluetooth player, or the
      robot's retry loop on the local server's URL. The flag is set when an
      exception left playback. */
  function Play(cfg: Config, turn: Turn, name: string): (r: (seq<Step>, bool))
    ensures cfg.mode == BluetoothMode ==> !r.1 && r.0 == PlayViaBluetooth(cfg.device, name, turn.osPlayed).1
    ensures cfg.mode == RobotMode ==>
      r.0 == Schedule(RobotUrl(cfg.localIp, name), AttemptsMade(turn.replies))
      && (r.1 <==> Verdict(turn.replies) == Aborted)
    ensures forall i :: 0 <= i < |r.0| ==> !IsRemoval(r.0[i])
  {
    if cfg.mode == BluetoothMode then (PlayViaBluetooth(cfg.device, name, turn.osPlayed).1, false)
    else
      var url := RobotUrl(cfg.localIp, name);
      RetryLoopFollowsSchedule(url, turn.replies);
      var run := RetryLoop(url, turn.replies);
      (run.steps, run.end == Aborted)
  }

  /** `GenerarReproducirTTS`: save the audio under a fresh name, play it,
      wait the grace period, then remove the file if it is still there. Any
      exception is caught inside, ending the delivery where it was raised; a
      removal that raises leaves the file on disk. */
  function GenerateAndPlay(cfg: Config, turn: Turn, cwd: Tree): (r: (seq<Step>, Tree))
    ensures turn.audio.None? ==> r == ([], cwd)
    ensures turn.audio.Some? ==> |r.0| >= 1 && r.0[0] == Saved(BluetoothName(turn.uuid, turn.timestamp))
    ensures r.1 - {BluetoothName(turn.uuid, turn.timestamp)} == cwd - {BluetoothName(turn.uuid, turn.timestamp)}
  {
    match turn.audio
    case None => ([], cwd)
    case Some(audio) =>
      var name := BluetoothName(turn.uuid, turn.timestamp);
      var saved := cwd[name := audio];
      var play := Play(cfg, turn, name);
      var played := [Saved(name)] + play.0;
      if play.1 then (played, saved)
      else
        var waited := played + [Sleep(GraceSeconds)];
        if name in saved && turn.removeOk then (waited + [Deleted(name)], saved - {name}) else (waited, saved)
  }

  /** The delivery as the function the chat loop calls. */
  function Delivery(cfg: Config): (Turn, Tree) -> (seq<Step>, Tree) {
    (t: Turn, s: Tree) => GenerateAndPlay(cfg, t, s)
  }

  /** Removal happens at most once, after the five-second wait, and exactly
      when no exception left playback and `os.remove` did not raise; either
      exception leaves the file on disk. */
  lemma {:induction false} GenerateAndPlayCleansUp(cfg: Config, turn: Turn, cwd: Tree)
    requires turn.audio.Some?
    ensures var name := BluetoothName(turn.uuid, turn.timestamp);
      var r := GenerateAndPlay(cfg, turn, cwd);
      var aborted := cfg.mode == RobotMode && Verdict(turn.replies) == Aborted;
      && CountWhere(r.0, IsRemoval) <= 1
      && (Deleted(name) in r.0 <==> !aborted && turn.removeOk)
      && (!aborted && turn.removeOk ==> |r.0| >= 3 && r.0[|r.0| - 2..] == [Sleep(GraceSeconds), Deleted(name)] && r.1 == cwd - {name})
      && (!aborted && !turn.removeOk ==> |r.0| >= 2 && r.0[|r.0| - 1] == Sleep(GraceSeconds))
      && (aborted || !turn.removeOk ==> r.1 == cwd[name := turn.audio.value])
  {
    var name := BluetoothName(turn.uuid, turn.timestamp);
    var play := Play(cfg, turn, name);
    SavedThenPlayed(name, play.0);
    var played := [Saved(name)] + play.0;
    if play.1 {
      assert GenerateAndPlay(cfg, turn, cwd).0 == played;
    } else if turn.removeOk {
      WaitThenRemove(played, name);
    } else {
      WaitOnly(played, name);
    }
  }

  /** The grace wait after steps that remove nothing: still no removal. */
  lemma WaitOnly(played: seq<Step>, name: string)
    requires forall i :: 0 <= i < |played| ==> !IsRemoval(played[i])
    ensures var r := played + [Sleep(GraceSeconds)];
      CountWhere(r, IsRemoval) == 0 && Deleted(name) !in r && r[|r| - 1] == Sleep(GraceSeconds)
  {
    var r := played + [Sleep(GraceSeconds)];
    assert forall i :: 0 <= i < |r| ==> !IsRemoval(r[i]);
  }

  /** Saving and playing removes nothing. */
  lemma SavedThenPlayed(name: string, steps: seq<Step>)
    requires forall i :: 0 <= i < |steps| ==> !IsRemoval(steps[i])
    ensures forall i :: 0 <= i < |[Saved(name)] + steps| ==> !IsRemoval(([Saved(name)] + steps)[i])
    ensures Deleted(name) !in [Saved(name)] + steps
  {
    var played := [Saved(name)] + steps;
    forall i | 0 <= i < |played| ensures !IsRemoval(played[i]) {
      if i > 0 { assert played[i] == steps[i - 1]; }
    }
  }

  /** The grace wait and the removal after steps that remove nothing: one
      removal, last. */
  lemma WaitThenRemove(played: seq<Step>, name: string)
    requires forall i :: 0 <= i < |played| ==> !IsRemoval(played[i])
    ensures var r := played + [Sleep(GraceSeconds)] + [Deleted(name)];
      CountWhere(r, IsRemoval) == 1 && Deleted(name) in r && r[|r| - 2..] == [Sleep(GraceSeconds), Deleted(name)]
  {
    var waited := played + [Sleep(GraceSeconds)];
    assert forall i :: 0 <= i < |waited| ==> !IsRemoval(waited[i]);
    CountOnlyLast(waited, Deleted(name), IsRemoval);
  }

  /** Robot mode: the file name and URL, the scheduled attempts and pauses,
      and unless an exception ended the loop the grace wait and, unless
      `os.remove` raised, the removal. */
  lemma RobotModeDelivery(cfg: Config, turn: Turn, cwd: Tree)
    requires cfg.mode == RobotMode && turn.audio.Some?
    ensures var name := BluetoothName(turn.uuid, turn.timestamp);
      var url := RobotUrl(cfg.localIp, name);
      GenerateAndPlay(cfg, turn, cwd).0 ==
        [Saved(name)] + Schedule(url, AttemptsMade(turn.replies))
        + if Verdict(turn.replies) == Aborted then [] else [Sleep(GraceSeconds)] + if turn.removeOk then [Deleted(name)] else []
  {
  }

  /** Bluetooth mode: one call of the Bluetooth player and no robot command;
      the OS player runs only when a device is recorded; the file is removed
      after the wait unless `os.remove` raised. */
  lemma BluetoothModeDelivery(cfg: Config, turn: Turn, cwd: Tree)
    requires cfg.mode == BluetoothMode && turn.audio.Some?
    ensures var name := BluetoothName(turn.uuid, turn.timestamp);
      var r := GenerateAndPlay(cfg, turn, cwd);
      && r.0 == [Saved(name)] + (if cfg.device.Some? then [PlayLocal(name)] else []) + [Sleep(GraceSeconds)]
               + (if turn.removeOk then [Deleted(name)] else [])
      && r.1 == if turn.removeOk then cwd - {name} else cwd[name := turn.audio.value]
  {
  }

  /** What `_run`'s questions lead to: the mode, the recorded device, the
      pairing attempt, the lines left for the chat loop, and whether input ran
      out while asking. */
  datatype Choice = Choice(mode: Mode, device: Option<string>, events: seq<Event>, rest: seq<string>, eof: bool)

  /** The mode question, then in Bluetooth mode the MAC question. A blank MAC
      keeps Bluetooth mode with no device; a failed pairing falls back to the
      robot. `pairOk` is what `ConectarDispBluetooth` returns. */
  function ChooseMode(stdin: seq<string>, pairOk: bool): (c: Choice)
    ensures c.mode == BluetoothMode <==>
      |stdin| >= 1 && ChoosesBluetooth(stdin[0]) && (|stdin| == 1 || stdin[1] == "" || pairOk)
    ensures c.device.Some? <==> |stdin| >= 2 && ChoosesBluetooth(stdin[0]) && stdin[1] != "" && pairOk
    ensures c.device.Some? ==> c.device.value == stdin[1]
    ensures c.events == if |stdin| >= 2 && ChoosesBluetooth(stdin[0]) && stdin[1] != "" then [PairBluetooth(stdin[1])] else []
    ensures c.eof <==> |stdin| == 0 || (|stdin| == 1 && ChoosesBluetooth(stdin[0]))
    ensures !c.eof ==> c.rest == stdin[if ChoosesBluetooth(stdin[0]) then 2 else 1..]
  {
    if |stdin| == 0 then Choice(RobotMode, None, [], [], true)
    else if !ChoosesBluetooth(stdin[0]) then Choice(RobotMode, None, [], stdin[1..], false)
    else if |stdin| == 1 then Choice(BluetoothMode, None, [], [], true)
    else
      var mac := stdin[1];
      if mac == "" then Choice(BluetoothMode, None, [], stdin[2..], false)
      else if pairOk then Choice(BluetoothMode, Some(mac), [PairBluetooth(mac)], stdin[2..], false)
      else Choice(RobotMode, None, [PairBluetooth(mac)], stdin[2..], false)
  }

  /** Everything `_run` meets outside the script: the local address, the
      typed lines, whether pairing and binding the port work, the robot's
      answers, and the environment of each delivery (the test delivery is
      number 0). */
  datatype Env = Env(localIp: string, stdin: seq<string>, pairOk: bool, bindOk: bool, robot: Robot, turns: nat -> Turn)

  /** `_run`. In robot mode: start the server, find, connect and enter program
      mode on the robot, stopping the server and returning at the first
      failure. Then the test delivery and the chat loop, and in robot mode
      the teardown. The exception handler stops the server in robot mode. */
  function Run(env: Env, cwd: Tree): SessionRun<Tree> {
    var c := ChooseMode(env.stdin, env.pairOk);
    if c.eof then
      // no server has been started yet, so the handler's stop finds none
      SessionRun(c.events + (if c.mode == RobotMode then [StopServer(false)] else []), Crashed, cwd)
    else if c.mode == BluetoothMode then Converse(env, c, c.events, cwd)
    else
      var setup := ConnectToRobot(env.robot);
      var pre := c.events + [StartServer(env.bindOk)] + setup.events;
      match setup.end
      case Ready => Converse(env, c, pre, cwd)
      case SetupThrew => SessionRun(pre + [StopServer(env.bindOk)], Crashed, cwd)
      case _ => SessionRun(pre + [StopServer(env.bindOk)], ReturnedEarly, cwd)
  }

  /** The test delivery, the chat loop and what follows it. */
  function Converse(env: Env, c: Choice, pre: seq<Event>, cwd: Tree): SessionRun<Tree> {
    var talk := Talk(env.turns, Config(c.mode, c.device, env.localIp), c.rest, cwd);
    var close := Closing(env.robot, env.bindOk, c.mode, talk.quit);
    SessionRun(pre + talk.events + close.events, close.exit, talk.state)
  }

  /** The test delivery (environment number 0), then the chat loop. */
  function Talk(turns: nat -> Turn, cfg: Config, lines: seq<string>, cwd: Tree): LoopResult<Tree> {
    var test := GenerateAndPlay(cfg, turns(0), cwd);
    var loop := ChatLoop(lines, turns, 1, Delivery(cfg), test.1);
    LoopResult([Deliver(Canned, test.0)] + loop.events, loop.state, loop.quit)
  }

  /** After the loop: in Bluetooth mode nothing; in robot mode, after
      "salir", quit_program, release and stopping the server, and when input
      ran out, the handler's stop. */
  function Closing(robot: Robot, bound: bool, mode: Mode, quit: bool): (r: Close)
    ensures forall i :: 0 <= i < |r.events| ==> !r.events[i].Deliver? && !r.events[i].StartServer?
    ensures mode == BluetoothMode ==> r.events == [] && (r.exit == Completed <==> quit)
    ensures mode == RobotMode ==> |r.events| >= 1 && r.events[|r.events| - 1] == StopServer(bound)
    ensures mode == RobotMode ==> CountWhere(r.events, IsStop) == 1
    ensures QuitProgram in r.events <==> mode == RobotMode && quit
    ensures mode == RobotMode && quit && robot.quit != Threw && robot.release != Threw ==>
      r == Close([QuitProgram, ReleaseRobot, StopServer(bound)], Completed)
    ensures r.exit == Completed ==> quit
  {
    match mode
    case BluetoothMode => Close([], if quit then Completed else Crashed)
    case RobotMode =>
      AfterLoopFacts(robot, quit, [StopServer(bound)]);
      assert [StopServer(bound)][1..] == [];
      AfterLoop(robot, quit, [StopServer(bound)])
  }

  /** The talk delivers once for the test and once per line before the
      first "salir", in order, and ends at that line or at the end of input. */
  lemma TalkShape(turns: nat -> Turn, cfg: Config, lines: seq<string>, cwd: Tree)
    ensures var t := Talk(turns, cfg, lines, cwd);
      var q := FirstQuit(lines);
      && |t.events| == 1 + q
      && (forall i :: 0 <= i < |t.events| ==> t.events[i].Deliver?)
      && t.events[0].prompt == Canned
      && DeliveredPrompts(t.events) == [Canned] + TypedPrompts(lines[..q])
      && (t.quit <==> q < |lines|)
  {
    var test := GenerateAndPlay(cfg, turns(0), cwd);
    ChatLoopStopsAtFirstQuit(lines, turns, 1, Delivery(cfg), test.1);
    ChatLoopPrompts(lines, turns, 1, Delivery(cfg), test.1);
    var loop := ChatLoop(lines, turns, 1, Delivery(cfg), test.1);
    DeliveredPromptsAppend([Deliver(Canned, test.0)], loop.events);
  }

  /** The talk consists of deliveries only. */
  lemma TalkOnlyDelivers(turns: nat -> Turn, cfg: Config, lines: seq<string>, cwd: Tree)
    ensures var t := Talk(turns, cfg, lines, cwd);
      |t.events| >= 1 && forall i :: 0 <= i < |t.events| ==> t.events[i].Deliver?
  {
    var test := GenerateAndPlay(cfg, turns(0), cwd);
    ChatLoopStopsAtFirstQuit(lines, turns, 1, Delivery(cfg), test.1);
  }

  /** In robot mode a failed search, connection or program-mode entry stops
      the server and ends the run: no delivery, no quit_program and no
      release. */
  lemma RobotSetupFailure(env: Env, cwd: Tree)
    requires var c := ChooseMode(env.stdin, env.pairOk);
      !c.eof && c.mode == RobotMode && ConnectToRobot(env.robot).end != Ready
    ensures var c := ChooseMode(env.stdin, env.pairOk);
      var setup := ConnectToRobot(env.robot);
      var r := Run(env, cwd);
      && r.events == c.events + [StartServer(env.bindOk)] + setup.events + [StopServer(env.bindOk)]
      && (forall e :: e in r.events ==> !e.Deliver? && !e.QuitProgram? && !e.ReleaseRobot?)
      && (r.exit == Crashed <==> setup.end == SetupThrew)
      && r.exit != Completed
      && r.state == cwd
  {
  }

  /** The events before the test delivery of a run that got past setup. */
  function Preamble(env: Env, c: Choice): seq<Event> {
    if c.mode == BluetoothMode then c.events
    else c.events + [StartServer(env.bindOk)] + ConnectToRobot(env.robot).events
  }

  /** Whether a run gets past setup: standard input did not end while the
      mode was chosen, and in robot mode the robot is ready. */
  predicate Talks(env: Env) {
    var c := ChooseMode(env.stdin, env.pairOk);
    !c.eof && (c.mode == BluetoothMode || ConnectToRobot(env.robot).end == Ready)
  }

  /** A run that gets past setup is the talk after its preamble. */
  lemma RunReachesTalk(env: Env, cwd: Tree)
    requires Talks(env)
    ensures var c := ChooseMode(env.stdin, env.pairOk);
      Run(env, cwd) == Converse(env, c, Preamble(env, c), cwd)
  {
  }

  /** A run that does not get past setup makes no delivery. */
  lemma NoTalkNoDelivery(env: Env, cwd: Tree)
    requires !Talks(env)
    ensures forall e :: e in Run(env, cwd).events ==> !e.Deliver?
  {
    var c := ChooseMode(env.stdin, env.pairOk);
    PreambleQuiet(env);
    if c.eof {
      assert Run(env, cwd).events == c.events + if c.mode == RobotMode then [StopServer(false)] else [];
    } else {
      assert Run(env, cwd).events == Preamble(env, c) + [StopServer(env.bindOk)];
    }
  }

  /** The preamble holds no delivery, no stop of the server and no
      quit_program. */
  lemma PreambleQuiet(env: Env)
    ensures var c := ChooseMode(env.stdin, env.pairOk);
      forall e :: e in Preamble(env, c) ==> !e.Deliver? && !e.StopServer? && !e.QuitProgram?
  {
  }

  /** Within a run that reaches the talk after the events `pre`: the test
      delivery comes right after them, and there is one delivery for the
      test and one per line before the first "salir". */
  lemma ConverseTurns(env: Env, c: Choice, pre: seq<Event>, cwd: Tree)
    requires forall j :: 0 <= j < |pre| ==> !pre[j].Deliver?
    ensures var r := Converse(env, c, pre, cwd);
      && |pre| < |r.events|
      && r.events[..|pre|] == pre
      && r.events[|pre|].Deliver? && r.events[|pre|].prompt == Canned
      && CountWhere(r.events, IsDelivery) == 1 + FirstQuit(c.rest)
  {
    var cfg := Config(c.mode, c.device, env.localIp);
    var talk := Talk(env.turns, cfg, c.rest, cwd);
    TalkShape(env.turns, cfg, c.rest, cwd);
    var close := Closing(env.robot, env.bindOk, c.mode, talk.quit);
    EventsAroundTalk(pre, talk.events, close.events);
    assert Converse(env, c, pre, cwd).events == pre + talk.events + close.events;
  }

  /** Deliveries between two stretches without any: the stretch starts
      right after `pre` and is all the count. */
  lemma EventsAroundTalk(pre: seq<Event>, talk: seq<Event>, post: seq<Event>)
    requires forall j :: 0 <= j < |pre| ==> !pre[j].Deliver?
    requires forall j :: 0 <= j < |post| ==> !post[j].Deliver?
    requires |talk| >= 1 && forall j :: 0 <= j < |talk| ==> talk[j].Deliver?
    ensures var ev := pre + talk + post;
      && |pre| < |ev| && ev[..|pre|] == pre && ev[|pre|] == talk[0]
      && CountWhere(ev, IsDelivery) == |talk|
  {
    CountAroundStretch(pre, talk, post, IsDelivery);
    var ev := pre + talk + post;
    assert ev[..|pre|] == pre;
  }

  /** The deliveries of such a run answer the test prompt and then exactly
      the lines before the first "salir", in order. */
  lemma ConversePrompts(env: Env, c: Choice, pre: seq<Event>, cwd: Tree)
    requires forall j :: 0 <= j < |pre| ==> !pre[j].Deliver?
    ensures DeliveredPrompts(Converse(env, c, pre, cwd).events) == [Canned] + TypedPrompts(c.rest[..FirstQuit(c.rest)])
  {
    var cfg := Config(c.mode, c.device, env.localIp);
    var talk := Talk(env.turns, cfg, c.rest, cwd);
    TalkShape(env.turns, cfg, c.rest, cwd);
    var close := Closing(env.robot, env.bindOk, c.mode, talk.quit);
    assert Converse(env, c, pre, cwd).events == pre + talk.events + close.events;
    PromptsAround(pre, talk.events, close.events);
  }

  /** After the talk: the teardown comes only in robot mode and only after
      "salir"; a run completes only after "salir". */
  lemma ConverseTeardown(env: Env, c: Choice, pre: seq<Event>, cwd: Tree)
    requires QuitProgram !in pre
    ensures var r := Converse(env, c, pre, cwd);
      var q := FirstQuit(c.rest);
      && (QuitProgram in r.events <==> c.mode == RobotMode && q < |c.rest|)
      && (r.exit == Completed ==> q < |c.rest|)
      && (c.mode == BluetoothMode ==> (r.exit == Completed <==> q < |c.rest|))
      && (c.mode == RobotMode && q < |c.rest| && env.robot.quit != Threw && env.robot.release != Threw ==>
            r.exit == Completed && r.events[|r.events| - 3..] == [QuitProgram, ReleaseRobot, StopServer(env.bindOk)])
  {
    var cfg := Config(c.mode, c.device, env.localIp);
    var talk := Talk(env.turns, cfg, c.rest, cwd);
    TalkShape(env.turns, cfg, c.rest, cwd);
    var close := Closing(env.robot, env.bindOk, c.mode, talk.quit);
    var r := Converse(env, c, pre, cwd);
    assert r.events == (pre + talk.events) + close.events;
    assert QuitProgram !in pre + talk.events;
  }

  /** A run that gets past setup: the test delivery right after the setup
      events, then deliveries answering exactly the lines before the first
      "salir", in order, and no other delivery. */
  lemma TurnsInOrder(env: Env, cwd: Tree)
    requires Talks(env)
    ensures var c := ChooseMode(env.stdin, env.pairOk);
      var r := Run(env, cwd);
      var q := FirstQuit(c.rest);
      var k := |Preamble(env, c)|;
      && k < |r.events|
      && r.events[..k] == Preamble(env, c)
      && r.events[k].Deliver? && r.events[k].prompt == Canned
      && DeliveredPrompts(r.events) == [Canned] + TypedPrompts(c.rest[..q])
      && CountWhere(r.events, IsDelivery) == 1 + q
  {
    var c := ChooseMode(env.stdin, env.pairOk);
    RunReachesTalk(env, cwd);
    PreambleQuiet(env);
    ConverseTurns(env, c, Preamble(env, c), cwd);
    ConversePrompts(env, c, Preamble(env, c), cwd);
  }

  /** A run that gets past setup tears the robot down (quit_program,
      release, then stopping the server) only in robot mode and only after
      "salir"; in Bluetooth mode it never starts or stops the server. */
  lemma TeardownAfterQuit(env: Env, cwd: Tree)
    requires Talks(env)
    ensures var c := ChooseMode(env.stdin, env.pairOk);
      var r := Run(env, cwd);
      var q := FirstQuit(c.rest);
      && (QuitProgram in r.events <==> c.mode == RobotMode && q < |c.rest|)
      && (c.mode == BluetoothMode ==> forall e :: e in r.events ==> !IsTeardown(e) && !e.StartServer?)
      && (r.exit == Completed ==> q < |c.rest|)
      && (c.mode == BluetoothMode ==> (r.exit == Completed <==> q < |c.rest|))
      && (c.mode == RobotMode && q < |c.rest| && env.robot.quit != Threw && env.robot.release != Threw ==>
            r.exit == Completed && r.events[|r.events| - 3..] == [QuitProgram, ReleaseRobot, StopServer(env.bindOk)])
  {
    var c := ChooseMode(env.stdin, env.pairOk);
    RunReachesTalk(env, cwd);
    PreambleQuiet(env);
    ConverseTeardown(env, c, Preamble(env, c), cwd);
    if c.mode == BluetoothMode {
      var cfg := Config(c.mode, c.device, env.localIp);
      TalkDeliveriesSatisfy(env.turns, cfg, c.rest, cwd, (steps: seq<Step>) => true);
    }
  }

  /** After setup, the server is stopped once, last, in robot mode, and never
      in Bluetooth mode. */
  lemma ConverseStops(env: Env, c: Choice, pre: seq<Event>, cwd: Tree)
    requires forall j :: 0 <= j < |pre| ==> !IsStop(pre[j])
    ensures var r := Converse(env, c, pre, cwd);
      && (c.mode == RobotMode ==> |r.events| >= 1 && r.events[|r.events| - 1].StopServer? && CountWhere(r.events, IsStop) == 1)
      && (c.mode == BluetoothMode ==> CountWhere(r.events, IsStop) == 0)
  {
    var cfg := Config(c.mode, c.device, env.localIp);
    var talk := Talk(env.turns, cfg, c.rest, cwd);
    TalkOnlyDelivers(env.turns, cfg, c.rest, cwd);
    var close := Closing(env.robot, env.bindOk, c.mode, talk.quit);
    var before := pre + talk.events;
    assert forall i :: 0 <= i < |before| ==> !IsStop(before[i]);
    StopsAfterQuiet(before, close.events);
    assert Converse(env, c, pre, cwd).events == before + close.events;
  }

  /** A run that never reaches the talk stops the server once, as its last
      event, in robot mode, and not at all in Bluetooth mode. */
  lemma StoppedWithoutTalk(env: Env, cwd: Tree)
    requires !Talks(env)
    ensures var c := ChooseMode(env.stdin, env.pairOk);
      var r := Run(env, cwd);
      && (c.mode == RobotMode ==> |r.events| >= 1 && r.events[|r.events| - 1].StopServer? && CountWhere(r.events, IsStop) == 1)
      && (c.mode == BluetoothMode ==> CountWhere(r.events, IsStop) == 0)
  {
    var c := ChooseMode(env.stdin, env.pairOk);
    var r := Run(env, cwd);
    if c.eof {
      var stop := if c.mode == RobotMode then [StopServer(false)] else [];
      assert r.events == c.events + stop + [];
      CountAroundStretch(c.events, stop, [], IsStop);
    } else {
      var stop := [StopServer(env.bindOk)];
      assert r.events == Preamble(env, c) + stop + [];
      CountAroundStretch(Preamble(env, c), stop, [], IsStop);
    }
  }

  /** The same for a run that reaches the talk. */
  lemma StoppedAfterTalk(env: Env, cwd: Tree)
    requires Talks(env)
    ensures var c := ChooseMode(env.stdin, env.pairOk);
      var r := Run(env, cwd);
      && (c.mode == RobotMode ==> |r.events| >= 1 && r.events[|r.events| - 1].StopServer? && CountWhere(r.events, IsStop) == 1)
      && (c.mode == BluetoothMode ==> CountWhere(r.events, IsStop) == 0)
  {
    var c := ChooseMode(env.stdin, env.pairOk);
    RunReachesTalk(env, cwd);
    PreambleQuiet(env);
    ConverseStops(env, c, Preamble(env, c), cwd);
  }

  /** In robot mode every run stops the server exactly once, as its last
      event, whichever way it ends; in Bluetooth mode no run touches it. */
  lemma ServerStoppedOnce(env: Env, cwd: Tree)
    ensures var c := ChooseMode(env.stdin, env.pairOk);
      var r := Run(env, cwd);
      && (c.mode == RobotMode ==> |r.events| >= 1 && r.events[|r.events| - 1].StopServer? && CountWhere(r.events, IsStop) == 1)
      && (c.mode == BluetoothMode ==> CountWhere(r.events, IsStop) == 0)
  {
    if Talks(env) {
      StoppedAfterTalk(env, cwd);
    } else {
      StoppedWithoutTalk(env, cwd);
    }
  }

  /** No OS player and no robot command in a delivery. */
  predicate Silent(steps: seq<Step>) {
    forall st :: st in steps ==> !st.PlayLocal? && !st.PlayUrl?
  }

  /** A property of every delivery `cfg` makes holds of every delivery of
      the talk. */
  lemma TalkDeliveriesSatisfy(turns: nat -> Turn, cfg: Config, lines: seq<string>, cwd: Tree, p: seq<Step> -> bool)
    requires forall t: Turn, s: Tree :: p(GenerateAndPlay(cfg, t, s).0)
    ensures forall e :: e in Talk(turns, cfg, lines, cwd).events ==> e.Deliver? && p(e.steps)
  {
    var test := GenerateAndPlay(cfg, turns(0), cwd);
    forall n: nat, s: Tree ensures p(Delivery(cfg)(turns(n), s).0) {
      var t := turns(n);
      assert p(GenerateAndPlay(cfg, t, s).0);
    }
    ChatLoopDeliveriesSatisfy(lines, turns, 1, Delivery(cfg), test.1, p);
  }

  /** A blank MAC leaves Bluetooth mode on with no device recorded, so no
      delivery of the run ever plays anything. */
  lemma BlankMacNeverPlays(env: Env, cwd: Tree)
    requires |env.stdin| >= 2 && ChoosesBluetooth(env.stdin[0]) && env.stdin[1] == ""
    ensures forall e :: e in Run(env, cwd).events ==> e.Deliver? && Silent(e.steps)
  {
    var c := ChooseMode(env.stdin, env.pairOk);
    var cfg := Config(c.mode, c.device, env.localIp);
    assert cfg == Config(BluetoothMode, None, env.localIp);
    forall t: Turn, s: Tree ensures Silent(GenerateAndPlay(cfg, t, s).0) {
      if t.audio.Some? { BluetoothModeDelivery(cfg, t, s); }
    }
    TalkDeliveriesSatisfy(env.turns, cfg, c.rest, cwd, Silent);
    assert Talks(env);
    RunReachesTalk(env, cwd);
    assert Preamble(env, c) == [];
  }

  /** At most one removal in a delivery. */
  predicate RemovesAtMostOnce(steps: seq<Step>) {
    CountWhere(steps, IsRemoval) <= 1
  }

  /** No delivery of a run removes its file more than once. */
  lemma EveryDeliveryRemovesAtMostOnce(env: Env, cwd: Tree)
    ensures forall e :: e in Run(env, cwd).events && e.Deliver? ==> RemovesAtMostOnce(e.steps)
  {
    var c := ChooseMode(env.stdin, env.pairOk);
    if Talks(env) {
      var cfg := Config(c.mode, c.device, env.localIp);
      var talk := Talk(env.turns, cfg, c.rest, cwd);
      var close := Closing(env.robot, env.bindOk, c.mode, talk.quit);
      RunReachesTalk(env, cwd);
      PreambleQuiet(env);
      DeliveriesRemoveAtMostOnce(cfg);
      TalkDeliveriesSatisfy(env.turns, cfg, c.rest, cwd, RemovesAtMostOnce);
      assert Run(env, cwd).events == Preamble(env, c) + talk.events + close.events;
    } else {
      NoTalkNoDelivery(env, cwd);
    }
  }

  /** Whatever the mode and the outside world, one delivery removes its
      file at most once. */
  lemma DeliveriesRemoveAtMostOnce(cfg: Config)
    ensures forall t: Turn, s: Tree :: RemovesAtMostOnce(GenerateAndPlay(cfg, t, s).0)
  {
    forall t: Turn, s: Tree ensures RemovesAtMostOnce(GenerateAndPlay(cfg, t, s).0) {
      if t.audio.Some? { GenerateAndPlayCleansUp(cfg, t, s); }
    }
  }
}
