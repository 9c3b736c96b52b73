/** `test/chat2.py`: a chat session in which every reply is spoken by the
    robot from a public page. Each reply's audio is saved inside the local
    clone of the audio repository, handed to `copiarARepo`, and then played
    once from its cache-busting URL, however the publish went. As written,
    `copiarARepo` first deletes every `.mp3` of the clone, the fresh audio
    included, so it never publishes that audio; `Run` is the script as
    written and `RunCorrected` the same session with a sweep that spares
    the fresh audio. */
module Chat2Script {
  import opened Options
  import opened Effects
  import opened Naming
  import opened Playback
  import opened GitClone
  import opened Publish
  import opened Strings
  import opened Session

  /** Where gTTS writes every reply: inside the clone directory. */
  const SavedPath := "audio_repo/respuesta_chatbot.mp3"

  /** The outside world during one reply: the text-to-speech engine (None:
      it raised), the git steps, the clock in whole seconds, and the robot's
      answer to the PlayAudio command. */
  datatype Turn = Turn(audio: Option<Content>, git: GitEnv, timestamp: nat, reply: Reply)

  /** Which `copiarARepo` a delivery runs: the script's, whose sweep removes
      every `.mp3` of the clone, or the corrected one, whose sweep spares the
      file being published. */
  datatype Sweep = AsWritten | Corrected

  /** The files of the clone the sweep leaves alone. */
  function Spared(sweep: Sweep): set<string> {
    match sweep
    case AsWritten => {}
    case Corrected => SourceInClone(InClone(ChatTarget))
  }

  /** `copiarARepo(audio_path)` on the reply saved in the clone. */
  function PublishReply(sweep: Sweep, saved: Disk, remote: Tree, git: GitEnv): PublishRun {
    match sweep
    case AsWritten => CopyToRepoAsWritten(InClone(ChatTarget), saved, remote, git)
    case Corrected => CopyToRepo(InClone(ChatTarget), saved, remote, git)
  }

  /** The disk right after `tts.save` wrote the reply into the clone. */
  function SaveReply(d: Disk, audio: Content): Disk
    requires d.clone.Some?
  {
    var repo := d.clone.value;
    Disk(d.cwd, Some(repo.(work := repo.work[ChatTarget := audio])))
  }

  /** `generar_reproducir_tts`: save the audio into the clone, publish it, then
      play its public URL once. Saving raises when the clone directory does
      not exist yet or the engine fails, and the handler ends the delivery
      with nothing done. `copiarARepo` swallows its own failures, so the
      PlayAudio command follows whatever the publish did. */
  function GenerateAndPlay(sweep: Sweep, t: Turn, w: World): (seq<Step>, World) {
    if w.disk.clone.None? || t.audio.None? then ([], w)
    else
      var pub := PublishReply(sweep, SaveReply(w.disk, t.audio.value), w.remote, t.git);
      var play := SinglePlay(CacheBustUrl(ChatbotPage, t.timestamp), t.reply);
      ([Saved(SavedPath)] + pub.steps + play.steps, World(pub.disk, pub.remote))
  }

  /** The delivery as the function the chat loop calls. */
  function Delivery(sweep: Sweep): (Turn, World) -> (seq<Step>, World) {
    (t: Turn, w: World) => GenerateAndPlay(sweep, t, w)
  }

  /** Standard input, the robot's answers, and the world of the `n`-th
      reply. */
  datatype Env = Env(stdin: seq<string>, robot: Robot, turns: nat -> Turn)

  /** `_run`: connect and enter program mode, returning at the first refusal
      with no teardown; then chat until "salir" and leave program mode. The
      script starts no server. */
  function RunWith(sweep: Sweep, env: Env, w: World): SessionRun<World> {
    var setup := ConnectToRobot(env.robot);
    match setup.end
    case NotFound => SessionRun(setup.events, Completed, w)
    case Refused => SessionRun(setup.events, ReturnedEarly, w)
    case SetupThrew => SessionRun(setup.events, Crashed, w)
    case Ready => Chat(sweep, env, setup.events, w)
  }

  /** The script's `_run`, as written. */
  function Run(env: Env, w: World): SessionRun<World> {
    RunWith(AsWritten, env, w)
  }

  /** The same session with the corrected sweep. */
  function RunCorrected(env: Env, w: World): SessionRun<World> {
    RunWith(Corrected, env, w)
  }

  /** The session after the events `pre`: the chat loop, then quit_program and
      release when it ended at "salir". */
  function Chat(sweep: Sweep, env: Env, pre: seq<Event>, w: World): SessionRun<World> {
    var loop := ChatLoop(env.stdin, env.turns, 0, Delivery(sweep), w);
    var close := AfterLoop(env.robot, loop.quit, []);
    SessionRun(pre + loop.events + close.events, close.exit, loop.state)
  }

  /** Playback does not depend on the publish: with either sweep, a delivery
      does something exactly when the clone exists and the engine produced
      audio, whatever the git steps do; it then starts with the save, makes
      exactly one PlayAudio command, as its last step, to the page's URL for
      that second, and leaves the working directory alone. */
  lemma PlaybackIndependentOfPublish(sweep: Sweep, t: Turn, w: World)
    ensures var r := GenerateAndPlay(sweep, t, w);
      && (r.0 != [] <==> w.disk.clone.Some? && t.audio.Some?)
      && (r.0 == [] ==> r.1 == w)
      && (r.0 != [] ==> r.0[0] == Saved(SavedPath)
                        && r.0[|r.0| - 1] == PlayUrl(1, CacheBustUrl(ChatbotPage, t.timestamp))
                        && CountWhere(r.0, IsPlay) == 1)
      && r.1.disk.cwd == w.disk.cwd
  {
    if w.disk.clone.Some? && t.audio.Some? {
      var saved := SaveReply(w.disk, t.audio.value);
      var pub := PublishReply(sweep, saved, w.remote, t.git);
      assert pub == ChatPublish(InClone(ChatTarget), saved, w.remote, t.git, Spared(sweep));
      ChatPublishStepsOnly(InClone(ChatTarget), saved, w.remote, t.git, Spared(sweep));
      ChatCloneOnlyIfAbsent(InClone(ChatTarget), saved, w.remote, t.git, Spared(sweep));
      OnePlayAfterPublish(Saved(SavedPath), pub.steps, CacheBustUrl(ChatbotPage, t.timestamp));
    }
  }

  /** The script as written never publishes a reply: once the clone exists,
      a delivery with audio leaves the clone with no `.mp3` at all, its copy
      finds no source, and a push happens exactly when staging, commit and
      push all succeed, publishing a remote with no `.mp3` and so without
      `respuesta_chatbot.mp3`; otherwise the remote is as it was. When the
      sweep's removal raises, the fresh audio stays in the clone and nothing
      is published. */
  lemma DeliverySweepsFreshAudio(t: Turn, w: World)
    requires w.disk.clone.Some? && t.audio.Some?
    ensures var r := GenerateAndPlay(AsWritten, t, w);
      var clone := r.1.disk.clone;
      var pushed := t.git.removeOk && t.git.stageOk && t.git.commitOk && t.git.pushOk;
      && clone.Some?
      && (t.git.removeOk ==> forall f :: f in clone.value.work ==> !IsMp3(f))
      && (t.git.removeOk ==> Copied(false) in r.0)
      && (!t.git.removeOk ==> ChatTarget in clone.value.work && clone.value.work[ChatTarget] == t.audio.value)
      && (pushed ==> ChatTarget !in r.1.remote && forall f :: f in r.1.remote ==> !IsMp3(f))
      && (!pushed ==> r.1.remote == w.remote)
  {
    var saved := SaveReply(w.disk, t.audio.value);
    var pub := CopyToRepoAsWritten(InClone(ChatTarget), saved, w.remote, t.git);
    SweepDeletesFreshAudio(saved, w.remote, t.git);
    assert IsMp3(ChatTarget);
    assert SweepRaises(saved.clone.value.work, {}, t.git) <==> !t.git.removeOk;
    ChatPublishPushes(InClone(ChatTarget), saved, w.remote, t.git, {});
    ChatCloneOnlyIfAbsent(InClone(ChatTarget), saved, w.remote, t.git, {});
    if t.git.removeOk {
      assert Copied(false) in pub.steps;
    }
  }

  /** With the corrected sweep, a delivery leaves its fresh audio in the clone,
      as the clone's only `.mp3` unless removing an older one raised; a push
      happens exactly when the sweep did not raise and staging, commit and
      push all succeed, and publishes that audio; otherwise the remote is as
      it was. */
  lemma CorrectedDeliveryKeepsFreshAudio(t: Turn, w: World)
    requires w.disk.clone.Some? && t.audio.Some?
    ensures var r := GenerateAndPlay(Corrected, t, w);
      var clone := r.1.disk.clone;
      var raised := SweepRaises(w.disk.clone.value.work, {ChatTarget}, t.git);
      var pushed := !raised && t.git.stageOk && t.git.commitOk && t.git.pushOk;
      && clone.Some?
      && ChatTarget in clone.value.work && clone.value.work[ChatTarget] == t.audio.value
      && (!raised ==> forall f :: f in clone.value.work && IsMp3(f) ==> f == ChatTarget)
      && (pushed ==> ChatTarget in r.1.remote && r.1.remote[ChatTarget] == t.audio.value)
      && (!pushed ==> r.1.remote == w.remote)
  {
    var saved := SaveReply(w.disk, t.audio.value);
    assert StaleMp3(saved.clone.value.work, {ChatTarget}) == StaleMp3(w.disk.clone.value.work, {ChatTarget});
    CopyToRepoKeepsFreshAudio(saved, w.remote, t.git, t.audio.value);
    ChatCloneOnlyIfAbsent(InClone(ChatTarget), saved, w.remote, t.git, SourceInClone(InClone(ChatTarget)));
  }

  /** Before the clone directory exists no reply can be saved, so a whole
      chat loop does nothing: every delivery is empty and the world,
      remote included, is as before. */
  lemma {:induction false} NoCloneLoopDoesNothing(sweep: Sweep, lines: seq<string>, turns: nat -> Turn, next: nat, w: World)
    requires w.disk.clone.None?
    ensures var r := ChatLoop(lines, turns, next, Delivery(sweep), w);
      && r.state == w
      && forall i :: 0 <= i < |r.events| ==> r.events[i].Deliver? && r.events[i].steps == []
    decreases |lines|
  {
    if |lines| > 0 && !IsQuit(lines[0]) {
      NoCloneLoopDoesNothing(sweep, lines[1..], turns, next + 1, w);
      var rest := ChatLoop(lines[1..], turns, next + 1, Delivery(sweep), w);
      var r := ChatLoop(lines, turns, next, Delivery(sweep), w);
      assert Delivery(sweep)(turns(next), w) == ([], w);
      assert r.events == [Deliver(Typed(lines[0]), [])] + rest.events;
      forall i | 1 <= i < |r.events|
        ensures r.events[i].Deliver? && r.events[i].steps == []
      {
        assert r.events[i] == rest.events[i - 1];
      }
    }
  }

  /** A session started before the clone exists never clones, publishes or
      plays: every delivery it makes is empty and it leaves the world as it
      found it. */
  lemma FirstRunNeverPlays(sweep: Sweep, env: Env, w: World)
    requires w.disk.clone.None?
    ensures var r := RunWith(sweep, env, w);
      && r.state == w
      && forall e :: e in r.events && e.Deliver? ==> e.steps == []
  {
    var setup := ConnectToRobot(env.robot);
    assert forall i :: 0 <= i < |setup.events| ==>
      setup.events[i] == [SearchRobot(RobotName, SearchSeconds), ConnectRobot, EnterProgram][i];
    assert forall e :: e in setup.events ==> !e.Deliver?;
    if setup.end == Ready {
      var loop := ChatLoop(env.stdin, env.turns, 0, Delivery(sweep), w);
      NoCloneLoopDoesNothing(sweep, env.stdin, env.turns, 0, w);
      assert forall e :: e in loop.events ==> e.Deliver? && e.steps == [];
      var close := AfterLoop(env.robot, loop.quit, []);
      AfterLoopFacts(env.robot, loop.quit, []);
      assert forall e :: e in close.events ==> !e.Deliver?;
      assert RunWith(sweep, env, w) == Chat(sweep, env, setup.events, w);
    }
  }

  /** When the robot is not found, refuses the connection or refuses program
      mode, the session ends there: no delivery, no quit_program, no
      release, the world untouched; only a refusal is an early return, and a
      missing robot ends the run normally. */
  lemma SetupFailureNoTeardown(sweep: Sweep, env: Env, w: World)
    requires ConnectToRobot(env.robot).end != Ready
    ensures var r := RunWith(sweep, env, w);
      && r.events == ConnectToRobot(env.robot).events
      && QuitProgram !in r.events && ReleaseRobot !in r.events
      && (forall i :: 0 <= i < |r.events| ==> !r.events[i].Deliver?)
      && r.state == w
      && (r.exit == ReturnedEarly <==> ConnectToRobot(env.robot).end == Refused)
      && (r.exit == Completed <==> env.robot.search == No)
  {
    var setup := ConnectToRobot(env.robot);
    assert forall i :: 0 <= i < |setup.events| ==>
      setup.events[i] == [SearchRobot(RobotName, SearchSeconds), ConnectRobot, EnterProgram][i];
  }

  /** The chat after the events `pre` answers exactly the typed lines before
      the first "salir", in order. */
  lemma ChatPrompts(sweep: Sweep, env: Env, pre: seq<Event>, w: World)
    requires forall i :: 0 <= i < |pre| ==> !pre[i].Deliver?
    ensures var r := Chat(sweep, env, pre, w);
      && |pre| <= |r.events| && r.events[..|pre|] == pre
      && DeliveredPrompts(r.events) == TypedPrompts(env.stdin[..FirstQuit(env.stdin)])
  {
    var loop := ChatLoop(env.stdin, env.turns, 0, Delivery(sweep), w);
    ChatLoopPrompts(env.stdin, env.turns, 0, Delivery(sweep), w);
    var close := AfterLoop(env.robot, loop.quit, []);
    AfterLoopFacts(env.robot, loop.quit, []);
    assert Chat(sweep, env, pre, w).events == pre + loop.events + close.events;
    PromptsAround(pre, loop.events, close.events);
  }

  /** The chat ends with quit_program then release exactly when it reached
      "salir" and neither call raised; quit_program is issued exactly when
      it reached "salir"; any other ending goes through the handler. */
  lemma ChatTeardown(sweep: Sweep, env: Env, pre: seq<Event>, w: World)
    requires QuitProgram !in pre
    ensures var r := Chat(sweep, env, pre, w);
      var q := FirstQuit(env.stdin);
      && (QuitProgram in r.events <==> q < |env.stdin|)
      && (r.exit == Completed <==> q < |env.stdin| && env.robot.quit != Threw && env.robot.release != Threw)
      && (r.exit == Completed ==> |r.events| >= 2 && r.events[|r.events| - 2..] == [QuitProgram, ReleaseRobot])
      && (r.exit != Completed ==> r.exit == Crashed)
  {
    var loop := ChatLoop(env.stdin, env.turns, 0, Delivery(sweep), w);
    ChatLoopStopsAtFirstQuit(env.stdin, env.turns, 0, Delivery(sweep), w);
    var close := AfterLoop(env.robot, loop.quit, []);
    AfterLoopFacts(env.robot, loop.quit, []);
    assert Chat(sweep, env, pre, w).events == (pre + loop.events) + close.events;
    assert QuitProgram !in pre + loop.events;
    assert close.events == [QuitProgram, ReleaseRobot] + [] ==> close.events == [QuitProgram, ReleaseRobot];
  }

  /** With the robot ready, the session answers the typed lines before the
      first "salir", in order, and leaves program mode after it: quit_program
      then release, exactly when "salir" was typed and neither raised. */
  lemma TeardownAfterSalir(sweep: Sweep, env: Env, w: World)
    requires ConnectToRobot(env.robot).end == Ready
    ensures var r := RunWith(sweep, env, w);
      var q := FirstQuit(env.stdin);
      && |r.events| >= 3 && r.events[..3] == [SearchRobot(RobotName, SearchSeconds), ConnectRobot, EnterProgram]
      && DeliveredPrompts(r.events) == TypedPrompts(env.stdin[..q])
      && (QuitProgram in r.events <==> q < |env.stdin|)
      && (r.exit == Completed <==> q < |env.stdin| && env.robot.quit != Threw && env.robot.release != Threw)
      && (r.exit == Completed ==> r.events[|r.events| - 2..] == [QuitProgram, ReleaseRobot])
      && (r.exit != Completed ==> r.exit == Crashed)
  {
    var pre := ConnectToRobot(env.robot).events;
    assert pre == [SearchRobot(RobotName, SearchSeconds), ConnectRobot, EnterProgram];
    assert RunWith(sweep, env, w) == Chat(sweep, env, pre, w);
    ChatPrompts(sweep, env, pre, w);
    ChatTeardown(sweep, env, pre, w);
  }
}
