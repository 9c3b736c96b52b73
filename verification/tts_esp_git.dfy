/** `test/tts_esp_git.py`: a one-shot greeting. The script connects to the
    robot, speaks one fixed Spanish greeting from the public page after
    publishing its audio with `copiarARepo`, and leaves program mode. */
module TtsEspGitScript {
  import opened Options
  import opened Effects
  import opened Naming
  import opened Playback
  import opened Publish
  import opened Session

  /** Where gTTS writes the greeting: the working directory. */
  const AudioPath := "mensaje_es.mp3"

  /** The outside world during the greeting: the text-to-speech engine (None:
      it raised), the git steps, the clock in whole seconds, and the robot's
      answer to the PlayAudio command. */
  datatype Greeting = Greeting(audio: Option<Content>, git: GitEnv, timestamp: nat, reply: Reply)

  /** `generarReproducirTTS`: save the greeting in the working directory,
      publish it as the clone's `mensaje_es.mp3`, then play its public URL
      once. Only a failing engine ends the delivery early; `copiarARepo`
      swallows its own failures. */
  function GenerateAndPlay(g: Greeting, w: World): (seq<Step>, World) {
    if g.audio.None? then ([], w)
    else
      var saved := Disk(w.disk.cwd[AudioPath := g.audio.value], w.disk.clone);
      var pub := GreetingPublish(InWorkdir(AudioPath), saved, w.remote, g.git);
      var play := SinglePlay(CacheBustUrl(GreetingPage, g.timestamp), g.reply);
      ([Saved(AudioPath)] + pub.steps + play.steps, World(pub.disk, pub.remote))
  }

  datatype Env = Env(robot: Robot, greeting: Greeting)

  /** `_run`: connect and enter program mode, returning at the first refusal;
      then the greeting, quit_program and release. */
  function Run(env: Env, w: World): SessionRun<World> {
    var setup := ConnectToRobot(env.robot);
    match setup.end
    case NotFound => SessionRun(setup.events, Completed, w)
    case Refused => SessionRun(setup.events, ReturnedEarly, w)
    case SetupThrew => SessionRun(setup.events, Crashed, w)
    case Ready =>
      var d := GenerateAndPlay(env.greeting, w);
      var close := AfterLoop(env.robot, true, []);
      SessionRun(setup.events + [Deliver(Canned, d.0)] + close.events, close.exit, d.1)
  }

  /** The greeting is played whatever the publish did: when the engine
      produced audio, the delivery saves it, keeps it in the working
      directory, and ends with exactly one PlayAudio command to the page's
      URL for that second; otherwise it does nothing. */
  lemma GreetingAlwaysPlayed(g: Greeting, w: World)
    ensures var r := GenerateAndPlay(g, w);
      && (r.0 != [] <==> g.audio.Some?)
      && (r.0 == [] ==> r.1 == w)
      && (r.0 != [] ==> r.0[0] == Saved(AudioPath)
                        && r.0[|r.0| - 1] == PlayUrl(1, CacheBustUrl(GreetingPage, g.timestamp))
                        && CountWhere(r.0, IsPlay) == 1
                        && r.1.disk.cwd == w.disk.cwd[AudioPath := g.audio.value])
  {
    if g.audio.Some? {
      var saved := Disk(w.disk.cwd[AudioPath := g.audio.value], w.disk.clone);
      var pub := GreetingPublish(InWorkdir(AudioPath), saved, w.remote, g.git);
      GreetingPublishStepsOnly(InWorkdir(AudioPath), saved, w.remote, g.git);
      GreetingCloneOnlyIfAbsent(InWorkdir(AudioPath), saved, w.remote, g.git);
      OnePlayAfterPublish(Saved(AudioPath), pub.steps, CacheBustUrl(GreetingPage, g.timestamp));
    }
  }

  /** When every git step succeeds, the remote ends with the greeting as
      `mensaje_es.mp3`; whatever happens, the clone's other files are as
      they were before the publish opened it. */
  lemma GreetingPublished(g: Greeting, w: World)
    requires g.audio.Some?
    ensures var r := GenerateAndPlay(g, w);
      && (g.git == GitEnv(true, true, true, true, true, true) ==>
            GreetingTarget in r.1.remote && r.1.remote[GreetingTarget] == g.audio.value)
      && (w.disk.clone.Some? ==>
            r.1.disk.clone.Some?
            && r.1.disk.clone.value.work - {GreetingTarget} == w.disk.clone.value.work - {GreetingTarget})
  {
    var saved := Disk(w.disk.cwd[AudioPath := g.audio.value], w.disk.clone);
    if g.git == GitEnv(true, true, true, true, true, true) {
      GreetingPublishDelivers(AudioPath, saved, w.remote, g.git);
    }
    if w.disk.clone.Some? {
      GreetingPublishTouchesOnlyTarget(InWorkdir(AudioPath), saved, w.remote, g.git);
    }
  }

  /** The one-shot lifecycle with the robot ready: exactly one delivery, of
      the fixed greeting, between entering program mode and quit_program;
      the run completes exactly when neither quit_program nor release
      raised, and then ends with both, in that order. */
  lemma ReadyLifecycle(env: Env, w: World)
    requires ConnectToRobot(env.robot).end == Ready
    ensures var r := Run(env, w);
      && |r.events| >= 5
      && r.events[..4] == [SearchRobot(RobotName, SearchSeconds), ConnectRobot, EnterProgram, Deliver(Canned, GenerateAndPlay(env.greeting, w).0)]
      && r.events[4] == QuitProgram
      && CountWhere(r.events, IsDelivery) == 1
      && (r.exit == Completed <==> env.robot.quit != Threw && env.robot.release != Threw)
      && (r.exit == Completed ==> r.events[4..] == [QuitProgram, ReleaseRobot])
      && (r.exit != Completed ==> r.exit == Crashed)
  {
    var d := GenerateAndPlay(env.greeting, w);
    var close := AfterLoop(env.robot, true, []);
    assert Run(env, w) == SessionRun(ConnectToRobot(env.robot).events + [Deliver(Canned, d.0)] + close.events, close.exit, d.1);
    OneDeliveryThenQuit(env.robot, d.0);
  }

  /** The events of a ready run around one delivery of `steps`. */
  lemma OneDeliveryThenQuit(robot: Robot, steps: seq<Step>)
    requires ConnectToRobot(robot).end == Ready
    ensures var close := AfterLoop(robot, true, []);
      var ev := ConnectToRobot(robot).events + [Deliver(Canned, steps)] + close.events;
      && |ev| >= 5
      && ev[..4] == [SearchRobot(RobotName, SearchSeconds), ConnectRobot, EnterProgram, Deliver(Canned, steps)]
      && ev[4] == QuitProgram
      && CountWhere(ev, IsDelivery) == 1
      && (close.exit == Completed <==> robot.quit != Threw && robot.release != Threw)
      && (close.exit == Completed ==> ev[4..] == [QuitProgram, ReleaseRobot])
      && (close.exit != Completed ==> close.exit == Crashed)
  {
    var setup := ConnectToRobot(robot);
    assert setup.events == [SearchRobot(RobotName, SearchSeconds), ConnectRobot, EnterProgram];
    var close := AfterLoop(robot, true, []);
    AfterLoopFacts(robot, true, []);
    CountAroundStretch(setup.events, [Deliver(Canned, steps)], close.events, IsDelivery);
  }

  /** A failed setup delivers nothing, tears nothing down and leaves the
      world alone; only a refusal is an early return. */
  lemma FailedSetup(env: Env, w: World)
    requires ConnectToRobot(env.robot).end != Ready
    ensures var r := Run(env, w);
      var setup := ConnectToRobot(env.robot);
      && r.events == setup.events
      && QuitProgram !in r.events && ReleaseRobot !in r.events
      && CountWhere(r.events, IsDelivery) == 0
      && r.state == w
      && (r.exit == ReturnedEarly <==> setup.end == Refused)
  {
    var setup := ConnectToRobot(env.robot);
    assert forall i :: 0 <= i < |setup.events| ==>
      setup.events[i] == [SearchRobot(RobotName, SearchSeconds), ConnectRobot, EnterProgram][i];
  }
}
