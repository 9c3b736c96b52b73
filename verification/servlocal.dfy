/** `test/servlocal.py`: the chat client that always plays on the robot,
    serving each reply's audio from the local HTTP server. The file is named
    by the second it was made in, and removed as soon as the retry loop ends. */
module ServLocalScript {
  import opened Options
  import opened Effects
  import opened Naming
  import opened Playback
  import opened Session

  /** What one delivery meets outside the script: the clock, the audio gTTS
      produces (None: it raised), the robot's replies, and whether
      `os.remove` succeeded (it raises, for one, while the HTTP handler still
      holds the file open on Windows). */
  datatype Turn = Turn(timestamp: nat, audio: Option<Content>, replies: Replies, removeOk: bool)

  /** `GenerarReproducirTTS`: save the audio as `respuesta_<second>.mp3`, run
      the retry loop on its URL, then remove the file straight away. An
      exception ends the delivery where it was raised; a removal that raises
      leaves the file on disk. */
  function GenerateAndPlay(localIp: string, turn: Turn, cwd: Tree): (r: (seq<Step>, Tree))
    ensures turn.audio.None? ==> r == ([], cwd)
    ensures turn.audio.Some? ==> |r.0| >= 2 && r.0[0] == Saved(LocalName(turn.timestamp))
    ensures turn.audio.Some? ==> r.0[1] == PlayUrl(1, RobotUrl(localIp, LocalName(turn.timestamp)))
    ensures r.1 - {LocalName(turn.timestamp)} == cwd - {LocalName(turn.timestamp)}
  {
    match turn.audio
    case None => ([], cwd)
    case Some(audio) =>
      var name := LocalName(turn.timestamp);
      var run := RetryLoop(RobotUrl(localIp, name), turn.replies);
      var played := [Saved(name)] + run.steps;
      if run.end == Aborted || !turn.removeOk then (played, cwd[name := audio])
      else (played + [Deleted(name)], cwd[name := audio] - {name})
  }

  function Delivery(localIp: string): (Turn, Tree) -> (seq<Step>, Tree) {
    (t: Turn, s: Tree) => GenerateAndPlay(localIp, t, s)
  }

  /** The delivery's steps: the save, the scheduled attempts and pauses, and
      unless an exception ended the loop or `os.remove` raised the removal,
      right after the last attempt. The only pauses are the two-second retry
      pauses: there is no grace wait. Either exception leaves the file on
      disk. */
  lemma {:induction false} RemovedRightAfterLoop(localIp: string, turn: Turn, cwd: Tree)
    requires turn.audio.Some?
    ensures var name := LocalName(turn.timestamp);
      var n := AttemptsMade(turn.replies);
      var aborted := Verdict(turn.replies) == Aborted;
      var r := GenerateAndPlay(localIp, turn, cwd);
      var removed := !aborted && turn.removeOk;
      && r.0 == [Saved(name)] + Schedule(RobotUrl(localIp, name), n) + (if removed then [Deleted(name)] else [])
      && (forall i :: 0 <= i < |r.0| && r.0[i].Sleep? ==> r.0[i].seconds == RetryDelaySeconds)
      && (removed ==> r.1 == cwd - {name})
      && (!removed ==> r.1 == cwd[name := turn.audio.value])
  {
    var name := LocalName(turn.timestamp);
    var url := RobotUrl(localIp, name);
    RetryLoopFollowsSchedule(url, turn.replies);
    var s := Schedule(url, AttemptsMade(turn.replies));
    var r := GenerateAndPlay(localIp, turn, cwd);
    forall i | 0 <= i < |r.0| && r.0[i].Sleep? ensures r.0[i].seconds == RetryDelaySeconds {
      assert r.0[i] == s[i - 1];
    }
  }

  /** The module-level `http_server`: whether a server was ever recorded
      there, and how many times it has been shut down. */
  datatype Server = Server(recorded: bool, shutdowns: nat)

  /** `StartHTTPServer`: the variable is set only when binding the port
      worked. */
  function StartHttpServer(bindOk: bool): (s: Server)
    ensures s.recorded <==> bindOk
    ensures s.shutdowns == 0
  {
    Server(bindOk, 0)
  }

  /** `StopHTTPServer`: shut the recorded server down, if there is one. The
      variable is never cleared. */
  function StopHttpServer(s: Server): (r: (Event, Server))
    ensures r.0 == StopServer(s.recorded)
    ensures r.1.recorded == s.recorded
    ensures r.1.shutdowns == s.shutdowns + (if s.recorded then 1 else 0)
  {
    (StopServer(s.recorded), s.(shutdowns := s.shutdowns + if s.recorded then 1 else 0))
  }

  /** Stopping does nothing without a server, and since the variable is never
      reset a second stop shuts the same server down again. */
  lemma StopNeverResets(bindOk: bool)
    ensures var once := StopHttpServer(StartHttpServer(bindOk));
      var twice := StopHttpServer(once.1);
      && (!bindOk ==> once.1.shutdowns == 0 && twice.1.shutdowns == 0)
      && (bindOk ==> twice.0 == StopServer(true) && twice.1.shutdowns == 2)
  {
  }

  /** Everything `_run` meets outside the script. */
  datatype Env = Env(localIp: string, stdin: seq<string>, bindOk: bool, robot: Robot, turns: nat -> Turn)

  /** `_run`: start the server, find, connect and enter program mode; a failed
      connection or program-mode entry stops the server and returns, while a
      robot that is not found falls through to the final stop. With the robot
      ready: the chat loop, quit_program, release, stop. The exception
      handler stops the server too. */
  function Run(env: Env, cwd: Tree): SessionRun<Tree> {
    var server := StartHttpServer(env.bindOk);
    var stop := StopHttpServer(server).0;
    var setup := ConnectToRobot(env.robot);
    var pre := [StartServer(env.bindOk)] + setup.events;
    match setup.end
    case NotFound => SessionRun(pre + [stop], Completed, cwd)
    case Refused => SessionRun(pre + [stop], ReturnedEarly, cwd)
    case SetupThrew => SessionRun(pre + [stop], Crashed, cwd)
    case Ready => Chat(env, pre, cwd)
  }

  /** The chat loop, then quit_program and release after "salir", then the
      stop; running out of input goes straight to the handler's stop. */
  function Chat(env: Env, pre: seq<Event>, cwd: Tree): SessionRun<Tree> {
    var loop := ChatLoop(env.stdin, env.turns, 0, Delivery(env.localIp), cwd);
    var close := AfterLoop(env.robot, loop.quit, [StopServer(env.bindOk)]);
    SessionRun(pre + loop.events + close.events, close.exit, loop.state)
  }

  /** The chat loop holds deliveries only, so the chat after `pre` stops the
      server once, last. */
  lemma ChatStopsOnce(env: Env, pre: seq<Event>, cwd: Tree)
    requires forall i :: 0 <= i < |pre| ==> !IsStop(pre[i])
    ensures var r := Chat(env, pre, cwd);
      && |r.events| >= 1
      && r.events[|r.events| - 1] == StopServer(env.bindOk)
      && CountWhere(r.events, IsStop) == 1
  {
    var loop := ChatLoop(env.stdin, env.turns, 0, Delivery(env.localIp), cwd);
    ChatLoopStopsAtFirstQuit(env.stdin, env.turns, 0, Delivery(env.localIp), cwd);
    var close := AfterLoop(env.robot, loop.quit, [StopServer(env.bindOk)]);
    AfterLoopFacts(env.robot, loop.quit, [StopServer(env.bindOk)]);
    assert [StopServer(env.bindOk)][1..] == [];
    var before := pre + loop.events;
    assert forall i :: 0 <= i < |before| ==> !IsStop(before[i]);
    StopsAfterQuiet(before, close.events);
    assert Chat(env, pre, cwd).events == before + close.events;
  }

  /** Every run stops the server exactly once, as its last event, whichever
      way it ends; the stop shuts a server down exactly when binding worked. */
  lemma StopCalledExactlyOnce(env: Env, cwd: Tree)
    ensures var r := Run(env, cwd);
      && |r.events| >= 1
      && r.events[|r.events| - 1] == StopServer(env.bindOk)
      && CountWhere(r.events, IsStop) == 1
  {
    var setup := ConnectToRobot(env.robot);
    var pre := [StartServer(env.bindOk)] + setup.events;
    var r := Run(env, cwd);
    assert forall i :: 0 <= i < |pre| ==> !IsStop(pre[i]);
    if setup.end == Ready {
      assert r == Chat(env, pre, cwd);
      ChatStopsOnce(env, pre, cwd);
    } else {
      assert r.events == pre + [StopServer(env.bindOk)] + [];
      CountAroundStretch(pre, [StopServer(env.bindOk)], [], IsStop);
    }
  }

  /** A robot that is not found is not an early return: the run goes on to
      the final stop and completes, with no delivery. A refused connection or
      program-mode entry returns early after stopping. */
  lemma SetupFailurePaths(env: Env, cwd: Tree)
    requires ConnectToRobot(env.robot).end != Ready
    ensures var r := Run(env, cwd);
      var setup := ConnectToRobot(env.robot);
      && r.events == [StartServer(env.bindOk)] + setup.events + [StopServer(env.bindOk)]
      && (env.robot.search == No ==> r.exit == Completed && r.events == [StartServer(env.bindOk), SearchRobot(RobotName, SearchSeconds), StopServer(env.bindOk)])
      && (r.exit == ReturnedEarly <==> setup.end == Refused)
      && r.state == cwd
  {
  }

  /** The chat after the events `pre` answers exactly the typed lines before
      the first "salir", in order. */
  lemma ChatPrompts(env: Env, pre: seq<Event>, cwd: Tree)
    requires forall i :: 0 <= i < |pre| ==> !pre[i].Deliver?
    ensures DeliveredPrompts(Chat(env, pre, cwd).events) == TypedPrompts(env.stdin[..FirstQuit(env.stdin)])
  {
    var loop := ChatLoop(env.stdin, env.turns, 0, Delivery(env.localIp), cwd);
    ChatLoopPrompts(env.stdin, env.turns, 0, Delivery(env.localIp), cwd);
    var close := AfterLoop(env.robot, loop.quit, [StopServer(env.bindOk)]);
    AfterLoopFacts(env.robot, loop.quit, [StopServer(env.bindOk)]);
    assert Chat(env, pre, cwd).events == pre + loop.events + close.events;
    PromptsAround(pre, loop.events, close.events);
  }

  /** After the chat loop, quit_program and release follow only when it
      ended at "salir", and then in that order just before the stop. */
  lemma ChatTeardown(env: Env, pre: seq<Event>, cwd: Tree)
    requires QuitProgram !in pre
    ensures var r := Chat(env, pre, cwd);
      var q := FirstQuit(env.stdin);
      && (QuitProgram in r.events <==> q < |env.stdin|)
      && (r.exit == Completed ==> q < |env.stdin|)
      && (q < |env.stdin| && env.robot.quit != Threw && env.robot.release != Threw ==>
            r.exit == Completed && r.events[|r.events| - 3..] == [QuitProgram, ReleaseRobot, StopServer(env.bindOk)])
  {
    var loop := ChatLoop(env.stdin, env.turns, 0, Delivery(env.localIp), cwd);
    ChatLoopStopsAtFirstQuit(env.stdin, env.turns, 0, Delivery(env.localIp), cwd);
    var close := AfterLoop(env.robot, loop.quit, [StopServer(env.bindOk)]);
    AfterLoopFacts(env.robot, loop.quit, [StopServer(env.bindOk)]);
    assert Chat(env, pre, cwd).events == (pre + loop.events) + close.events;
    assert QuitProgram !in pre + loop.events;
  }

  /** With the robot ready, the run is the chat after the setup events. */
  lemma LoopAndTeardown(env: Env, cwd: Tree)
    requires ConnectToRobot(env.robot).end == Ready
    ensures var r := Run(env, cwd);
      var q := FirstQuit(env.stdin);
      && r.events[..4] == [StartServer(env.bindOk), SearchRobot(RobotName, SearchSeconds), ConnectRobot, EnterProgram]
      && DeliveredPrompts(r.events) == TypedPrompts(env.stdin[..q])
      && (QuitProgram in r.events <==> q < |env.stdin|)
      && (r.exit == Completed ==> q < |env.stdin|)
      && (q < |env.stdin| && env.robot.quit != Threw && env.robot.release != Threw ==>
            r.exit == Completed && r.events[|r.events| - 3..] == [QuitProgram, ReleaseRobot, StopServer(env.bindOk)])
  {
    var pre := [StartServer(env.bindOk)] + ConnectToRobot(env.robot).events;
    assert pre == [StartServer(env.bindOk), SearchRobot(RobotName, SearchSeconds), ConnectRobot, EnterProgram];
    ChatPrompts(env, pre, cwd);
    ChatTeardown(env, pre, cwd);
    assert Run(env, cwd) == Chat(env, pre, cwd);
  }
}
