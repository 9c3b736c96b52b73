/** `copiarARepo`, the step of both git-publishing scripts that puts the new
    audio file into a local clone of the audio repository and pushes it, so
    that the public page serves it. Every step may raise; the function
    catches and prints any exception, so a failed step simply ends the
    sequence and the caller never learns of it. */
module Publish {
  import opened Options
  import opened Effects
  import opened GitClone

  /** Where the file to publish lives: the working directory, or the clone. */
  datatype Place = InWorkdir(name: string) | InClone(name: string)

  /** The local files publishing can see: the working directory, and the
      clone directory when it exists. */
  datatype Disk = Disk(cwd: Tree, clone: Option<Repo>)

  /** Whether each external step succeeds: cloning, `os.remove` of the old
      audio in the clone, the shell `copy` command itself, `git add`, the
      commit and the push. */
  datatype GitEnv = GitEnv(cloneOk: bool, removeOk: bool, copyOk: bool, stageOk: bool, commitOk: bool, pushOk: bool)

  /** The steps made, the local files afterwards, the remote branch
      afterwards, and whether the push went through. */
  datatype PublishRun = PublishRun(steps: seq<Step>, disk: Disk, remote: Tree, pushed: bool)

  /** The local files and the remote branch, as a git-publishing script's
      deliveries see and leave them. */
  datatype World = World(disk: Disk, remote: Tree)

  /** A step a publish can record: nothing but file and git operations. */
  predicate IsPublishStep(s: Step) {
    s.Cloned? || s.SweptStale? || s.RemovedOld? || s.Copied? || s.StagedAll? || s.Staged? || s.Committed? || s.Pushed?
  }

  const AudioRepoUrl := "https://github.com/pecec1to/audio.git"
  /** The name the chat script's audio has in the clone (`audio_repo`). */
  const ChatTarget := "respuesta_chatbot.mp3"
  const ChatMessage := "Actualizar archivo de audio: respuesta_chatbot.mp3"
  /** The name the greeting script's audio has in the clone (`audio`). */
  const GreetingTarget := "mensaje_es.mp3"
  const GreetingMessage := "Actualizar archivo de audio"

  function Read(cwd: Tree, repo: Repo, p: Place): (r: Option<Content>)
    ensures p.InWorkdir? ==> (r.Some? <==> p.name in cwd)
    ensures p.InClone? ==> (r.Some? <==> p.name in repo.work)
  {
    match p
    case InWorkdir(n) => if n in cwd then Some(cwd[n]) else None
    case InClone(n) => if n in repo.work then Some(repo.work[n]) else None
  }

  /** Clone-if-absent: the existing clone, a fresh clone of the remote, or
      None when the clone raised. */
  function Opened(d: Disk, remote: Tree, env: GitEnv): (r: Option<Repo>)
    ensures d.clone.Some? ==> r == d.clone
    ensures d.clone.None? ==> (r.Some? <==> env.cloneOk)
    ensures d.clone.None? && env.cloneOk ==> r.value == CloneOf(remote)
  {
    if d.clone.Some? then d.clone
    else if env.cloneOk then Some(CloneOf(remote))
    else None
  }

  function CloneSteps(d: Disk): seq<Step> {
    if d.clone.Some? then [] else [Cloned(AudioRepoUrl)]
  }

  /** The shell `copy` into the clone: its exit status is never looked at; it
      takes effect when the command works and the source file exists. */
  function CopyInto(cwd: Tree, repo: Repo, src: Place, target: string, commandOk: bool): (r: (bool, Repo))
    ensures r.0 <==> commandOk && Read(cwd, repo, src).Some?
    ensures r.1.index == repo.index && r.1.head == repo.head
    ensures r.0 ==> r.1.work == repo.work[target := Read(cwd, repo, src).value]
    ensures !r.0 ==> r.1 == repo
  {
    var source := Read(cwd, repo, src);
    if commandOk && source.Some? then (true, repo.(work := repo.work[target := source.value]))
    else (false, repo)
  }

  /** Commit, then push; either may raise, which ends the sequence. */
  function CommitAndPush(steps: seq<Step>, cwd: Tree, staged: Repo, message: string, env: GitEnv, remote: Tree): (r: PublishRun)
    ensures r.disk.cwd == cwd && r.disk.clone.Some?
    ensures r.disk.clone.value.work == staged.work && r.disk.clone.value.index == staged.index
    ensures r.disk.clone.value.head == if env.commitOk then staged.index else staged.head
    ensures r.pushed <==> env.commitOk && env.pushOk
    ensures r.remote == if r.pushed then staged.index else remote
    ensures r.steps == steps + if !env.commitOk then [] else [Committed(message)] + if env.pushOk then [Pushed] else []
  {
    if !env.commitOk then PublishRun(steps, Disk(cwd, Some(staged)), remote, false)
    else
      var committed := Commit(staged);
      var done := steps + [Committed(message)];
      if !env.pushOk then PublishRun(done, Disk(cwd, Some(committed)), remote, false)
      else PublishRun(done + [Pushed], Disk(cwd, Some(committed)), committed.head, true)
  }

  /** Whether the sweep of the chat script's clone raises: it has a file to
      remove and `os.remove` fails. */
  predicate SweepRaises(work: Tree, spared: set<string>, env: GitEnv) {
    StaleMp3(work, spared) != {} && !env.removeOk
  }

  /** The chat script's sequence (`test/chat2.py`): clone if absent, remove
      every `.mp3` of the clone except those in `spared`, copy the source to
      `respuesta_chatbot.mp3`, add everything, commit, push. A removal that
      raises ends the sequence with the clone as it was. */
  function ChatPublish(src: Place, d: Disk, remote: Tree, env: GitEnv, spared: set<string>): PublishRun {
    match Opened(d, remote, env)
    case None => PublishRun([], d, remote, false)
    case Some(repo) =>
      if SweepRaises(repo.work, spared, env) then PublishRun(CloneSteps(d), Disk(d.cwd, Some(repo)), remote, false)
      else
      var stale := StaleMp3(repo.work, spared);
      var swept := repo.(work := repo.work - stale);
      var copy := CopyInto(d.cwd, swept, src, ChatTarget, env.copyOk);
      var steps := CloneSteps(d) + [SweptStale(stale), Copied(copy.0)];
      if !env.stageOk then PublishRun(steps, Disk(d.cwd, Some(copy.1)), remote, false)
      else CommitAndPush(steps + [StagedAll], d.cwd, StageAll(copy.1), ChatMessage, env, remote)
  }

  /** `copiarARepo` of `test/chat2.py` as written: the sweep spares nothing. */
  function CopyToRepoAsWritten(src: Place, d: Disk, remote: Tree, env: GitEnv): PublishRun {
    ChatPublish(src, d, remote, env, {})
  }

  /** The source itself, when it lives in the clone. */
  function SourceInClone(src: Place): set<string> {
    if src.InClone? then {src.name} else {}
  }

  /** `copiarARepo` of `test/chat2.py` with the sweep corrected to spare the
      file being published; the rest of the model uses this one. */
  function CopyToRepo(src: Place, d: Disk, remote: Tree, env: GitEnv): PublishRun {
    ChatPublish(src, d, remote, env, SourceInClone(src))
  }

  /** The greeting script's sequence (`test/tts_esp_git.py`): clone if
      absent, remove the old `mensaje_es.mp3` of the clone if there is one,
      copy the source over it, add that one file, commit, push. A removal
      that raises ends the sequence with the clone as it was. */
  function GreetingPublish(src: Place, d: Disk, remote: Tree, env: GitEnv): PublishRun {
    match Opened(d, remote, env)
    case None => PublishRun([], d, remote, false)
    case Some(repo) =>
      var hadOld := GreetingTarget in repo.work;
      if hadOld && !env.removeOk then PublishRun(CloneSteps(d), Disk(d.cwd, Some(repo)), remote, false)
      else
      var cleared := repo.(work := repo.work - {GreetingTarget});
      var steps := CloneSteps(d) + (if hadOld then [RemovedOld(GreetingTarget)] else []);
      GreetingCopyAndPush(steps, d.cwd, cleared, src, env, remote)
  }

  /** The greeting script from the copy on: copy over `mensaje_es.mp3`, add
      that one file (git refuses a name found neither in the working tree
      nor in the index), commit, push. */
  function GreetingCopyAndPush(steps: seq<Step>, cwd: Tree, cleared: Repo, src: Place, env: GitEnv, remote: Tree): (r: PublishRun)
    ensures r.disk.cwd == cwd && r.disk.clone.Some?
    ensures |steps| <= |r.steps| && r.steps == steps + r.steps[|steps|..]
    ensures forall st :: st in r.steps[|steps|..] ==> !st.Cloned?
    ensures r.pushed ==> r.remote == r.disk.clone.value.head
    ensures !r.pushed ==> r.remote == remote
  {
    var copy := CopyInto(cwd, cleared, src, GreetingTarget, env.copyOk);
    var copied := steps + [Copied(copy.0)];
    var filled := copy.1;
    if !env.stageOk || (GreetingTarget !in filled.work && GreetingTarget !in filled.index) then
      PublishRun(copied, Disk(cwd, Some(filled)), remote, false)
    else
      CommitAndPush(copied + [Staged(GreetingTarget)], cwd, StagePath(filled, GreetingTarget), GreetingMessage, env, remote)
  }

  /** The chat script's sequence clones only when the clone is absent; a
      failed clone ends the publish with nothing changed; it never touches the
      working directory; and the remote changes only by a push of the new
      commit. */
  lemma ChatCloneOnlyIfAbsent(src: Place, d: Disk, remote: Tree, env: GitEnv, spared: set<string>)
    ensures var r := ChatPublish(src, d, remote, env, spared);
      && (Cloned(AudioRepoUrl) in r.steps <==> d.clone.None? && env.cloneOk)
      && (d.clone.None? && !env.cloneOk ==> r == PublishRun([], d, remote, false))
      && (Opened(d, remote, env).Some? ==> r.disk.clone.Some?)
      && r.disk.cwd == d.cwd
      && (r.pushed ==> r.remote == r.disk.clone.value.head)
      && (!r.pushed ==> r.remote == remote)
  {
    match Opened(d, remote, env)
    case None =>
    case Some(repo) =>
      if SweepRaises(repo.work, spared, env) {
        assert ChatPublish(src, d, remote, env, spared) == PublishRun(CloneSteps(d), Disk(d.cwd, Some(repo)), remote, false);
      } else {
        var stale := StaleMp3(repo.work, spared);
        var swept := repo.(work := repo.work - stale);
        var copy := CopyInto(d.cwd, swept, src, ChatTarget, env.copyOk);
        var steps := CloneSteps(d) + [SweptStale(stale), Copied(copy.0)];
        assert Cloned(AudioRepoUrl) in steps <==> d.clone.None?;
        if env.stageOk {
          var r := CommitAndPush(steps + [StagedAll], d.cwd, StageAll(copy.1), ChatMessage, env, remote);
          assert Cloned(AudioRepoUrl) in r.steps <==> Cloned(AudioRepoUrl) in steps;
        }
      }
  }

  /** The same clone, working-directory and remote facts for the greeting
      script's sequence. */
  lemma GreetingCloneOnlyIfAbsent(src: Place, d: Disk, remote: Tree, env: GitEnv)
    ensures var r := GreetingPublish(src, d, remote, env);
      && (Cloned(AudioRepoUrl) in r.steps <==> d.clone.None? && env.cloneOk)
      && (d.clone.None? && !env.cloneOk ==> r == PublishRun([], d, remote, false))
      && (Opened(d, remote, env).Some? ==> r.disk.clone.Some?)
      && r.disk.cwd == d.cwd
      && (r.pushed ==> r.remote == r.disk.clone.value.head)
      && (!r.pushed ==> r.remote == remote)
  {
    if Opened(d, remote, env).Some? {
      var repo := Opened(d, remote, env).value;
      if GreetingTarget !in repo.work || env.removeOk {
        var cleared := repo.(work := repo.work - {GreetingTarget});
        var steps := CloneSteps(d) + (if GreetingTarget in repo.work then [RemovedOld(GreetingTarget)] else []);
        assert Cloned(AudioRepoUrl) in steps <==> d.clone.None?;
        GreetingCopyClonesNothing(steps, d.cwd, cleared, src, env, remote);
        assert GreetingPublish(src, d, remote, env) == GreetingCopyAndPush(steps, d.cwd, cleared, src, env, remote);
      }
    }
  }

  /** The greeting script's steps from the copy on include no clone. */
  lemma GreetingCopyClonesNothing(steps: seq<Step>, cwd: Tree, cleared: Repo, src: Place, env: GitEnv, remote: Tree)
    ensures var r := GreetingCopyAndPush(steps, cwd, cleared, src, env, remote);
      Cloned(AudioRepoUrl) in r.steps <==> Cloned(AudioRepoUrl) in steps
  {
    var r := GreetingCopyAndPush(steps, cwd, cleared, src, env, remote);
    var tail := r.steps[|steps|..];
    assert r.steps == steps + tail;
    assert Cloned(AudioRepoUrl) !in tail;
  }

  /** The defect of `test/chat2.py`: the chat script saves its audio as
      `audio_repo/respuesta_chatbot.mp3`, inside the clone, and the sweep
      removes every `.mp3` there, that file included, so the copy finds no
      source. Afterwards the clone holds no `.mp3` at all, and a successful
      push removes the published audio from the remote. When the removal
      raises instead, nothing after it happens and nothing changes. */
  lemma SweepDeletesFreshAudio(d: Disk, remote: Tree, env: GitEnv)
    requires d.clone.Some? && ChatTarget in d.clone.value.work
    ensures var r := CopyToRepoAsWritten(InClone(ChatTarget), d, remote, env);
      && r.disk.clone.Some?
      && (env.removeOk ==> forall f :: f in r.disk.clone.value.work ==> !IsMp3(f))
      && (env.removeOk ==> Copied(false) in r.steps)
      && (r.pushed ==> forall f :: f in r.remote ==> !IsMp3(f))
      && (r.pushed ==> ChatTarget !in r.remote)
      && (!env.removeOk ==> r == PublishRun([], d, remote, false))
  {
    var repo := d.clone.value;
    var stale := StaleMp3(repo.work, {});
    assert IsMp3(ChatTarget);
    assert ChatTarget in stale;
    var swept := repo.(work := repo.work - stale);
    assert ChatTarget !in swept.work;
  }

  /** The corrected sweep keeps the file being published: when the chat
      script's fresh audio is in the clone, the clone keeps it, as its only
      `.mp3` unless removing an older one raised, and a successful push
      publishes exactly that audio. */
  lemma CopyToRepoKeepsFreshAudio(d: Disk, remote: Tree, env: GitEnv, audio: Content)
    requires d.clone.Some? && ChatTarget in d.clone.value.work && d.clone.value.work[ChatTarget] == audio
    ensures var r := CopyToRepo(InClone(ChatTarget), d, remote, env);
      var raised := SweepRaises(d.clone.value.work, {ChatTarget}, env);
      && r.disk.clone.Some?
      && ChatTarget in r.disk.clone.value.work && r.disk.clone.value.work[ChatTarget] == audio
      && (!raised ==> forall f :: f in r.disk.clone.value.work && IsMp3(f) ==> f == ChatTarget)
      && (raised ==> r == PublishRun([], d, remote, false))
      && (r.pushed <==> !raised && env.stageOk && env.commitOk && env.pushOk)
      && (r.pushed ==> ChatTarget in r.remote && r.remote[ChatTarget] == audio)
      && (r.pushed ==> forall f :: f in r.remote && IsMp3(f) ==> f == ChatTarget)
  {
    var repo := d.clone.value;
    var stale := StaleMp3(repo.work, {ChatTarget});
    assert ChatTarget !in stale;
    var swept := repo.(work := repo.work - stale);
    assert swept.work[ChatTarget] == audio;
  }

  /** The greeting script touches one file of the clone: apart from
      `mensaje_es.mp3`, the working tree and the index are as they were, and
      a push publishes the index it staged. */
  lemma GreetingPublishTouchesOnlyTarget(src: Place, d: Disk, remote: Tree, env: GitEnv)
    requires Opened(d, remote, env).Some?
    ensures var before := Opened(d, remote, env).value;
      var r := GreetingPublish(src, d, remote, env);
      && r.disk.clone.Some?
      && r.disk.clone.value.work - {GreetingTarget} == before.work - {GreetingTarget}
      && r.disk.clone.value.index - {GreetingTarget} == before.index - {GreetingTarget}
      && (r.pushed ==> r.remote - {GreetingTarget} == before.index - {GreetingTarget})
  {
    var before := Opened(d, remote, env).value;
    if GreetingTarget !in before.work || env.removeOk {
      var cleared := before.(work := before.work - {GreetingTarget});
      assert cleared.work - {GreetingTarget} == before.work - {GreetingTarget};
      var steps := CloneSteps(d) + (if GreetingTarget in before.work then [RemovedOld(GreetingTarget)] else []);
      assert GreetingPublish(src, d, remote, env) == GreetingCopyAndPush(steps, d.cwd, cleared, src, env, remote);
      GreetingCopyTouchesOnlyTarget(steps, d.cwd, cleared, src, env, remote);
    }
  }

  /** From the copy on, the greeting script changes only `mensaje_es.mp3`
      in the clone's working tree and index, and a push publishes that
      index. */
  lemma GreetingCopyTouchesOnlyTarget(steps: seq<Step>, cwd: Tree, cleared: Repo, src: Place, env: GitEnv, remote: Tree)
    ensures var r := GreetingCopyAndPush(steps, cwd, cleared, src, env, remote);
      && r.disk.clone.value.work - {GreetingTarget} == cleared.work - {GreetingTarget}
      && r.disk.clone.value.index - {GreetingTarget} == cleared.index - {GreetingTarget}
      && (r.pushed ==> r.remote - {GreetingTarget} == cleared.index - {GreetingTarget})
  {
    var copy := CopyInto(cwd, cleared, src, GreetingTarget, env.copyOk);
    assert copy.1.work - {GreetingTarget} == cleared.work - {GreetingTarget};
  }

  /** When every step succeeds and the source file exists, the remote ends
      with the new audio as `mensaje_es.mp3`. */
  lemma GreetingPublishDelivers(name: string, d: Disk, remote: Tree, env: GitEnv)
    requires env == GitEnv(true, true, true, true, true, true)
    requires name in d.cwd
    ensures var r := GreetingPublish(InWorkdir(name), d, remote, env);
      && r.pushed
      && GreetingTarget in r.remote && r.remote[GreetingTarget] == d.cwd[name]
  {
  }

  /** Committing and pushing adds file and git steps only. */
  lemma CommitAndPushStepsOnly(steps: seq<Step>, cwd: Tree, staged: Repo, message: string, env: GitEnv, remote: Tree)
    requires forall i :: 0 <= i < |steps| ==> IsPublishStep(steps[i])
    ensures var r := CommitAndPush(steps, cwd, staged, message, env, remote);
      forall i :: 0 <= i < |r.steps| ==> IsPublishStep(r.steps[i])
  {
    var tail := if !env.commitOk then [] else [Committed(message)] + if env.pushOk then [Pushed] else [];
    assert forall i :: 0 <= i < |tail| ==> IsPublishStep(tail[i]);
    assert CommitAndPush(steps, cwd, staged, message, env, remote).steps == steps + tail;
  }

  /** The chat script's publish records file and git steps only: no
      playback, no pause, no save. */
  lemma ChatPublishStepsOnly(src: Place, d: Disk, remote: Tree, env: GitEnv, spared: set<string>)
    ensures var r := ChatPublish(src, d, remote, env, spared);
      forall i :: 0 <= i < |r.steps| ==> IsPublishStep(r.steps[i])
  {
    match Opened(d, remote, env)
    case None =>
    case Some(repo) =>
      var stale := StaleMp3(repo.work, spared);
      var swept := repo.(work := repo.work - stale);
      var copy := CopyInto(d.cwd, swept, src, ChatTarget, env.copyOk);
      var steps := CloneSteps(d) + [SweptStale(stale), Copied(copy.0)];
      assert forall i :: 0 <= i < |steps| ==> IsPublishStep(steps[i]);
      if !SweepRaises(repo.work, spared, env) && env.stageOk {
        assert forall i :: 0 <= i < |steps + [StagedAll]| ==> IsPublishStep((steps + [StagedAll])[i]);
        CommitAndPushStepsOnly(steps + [StagedAll], d.cwd, StageAll(copy.1), ChatMessage, env, remote);
      }
  }

  lemma GreetingCopyAndPushStepsOnly(steps: seq<Step>, cwd: Tree, cleared: Repo, src: Place, env: GitEnv, remote: Tree)
    requires forall i :: 0 <= i < |steps| ==> IsPublishStep(steps[i])
    ensures var r := GreetingCopyAndPush(steps, cwd, cleared, src, env, remote);
      forall i :: 0 <= i < |r.steps| ==> IsPublishStep(r.steps[i])
  {
    var copy := CopyInto(cwd, cleared, src, GreetingTarget, env.copyOk);
    var copied := steps + [Copied(copy.0)];
    var filled := copy.1;
    if env.stageOk && (GreetingTarget in filled.work || GreetingTarget in filled.index) {
      var staged := copied + [Staged(GreetingTarget)];
      assert forall i :: 0 <= i < |staged| ==> IsPublishStep(staged[i]);
      CommitAndPushStepsOnly(staged, cwd, StagePath(filled, GreetingTarget), GreetingMessage, env, remote);
    } else {
      assert forall i :: 0 <= i < |copied| ==> IsPublishStep(copied[i]);
    }
  }

  /** So does the greeting script's publish. */
  lemma GreetingPublishStepsOnly(src: Place, d: Disk, remote: Tree, env: GitEnv)
    ensures var r := GreetingPublish(src, d, remote, env);
      forall i :: 0 <= i < |r.steps| ==> IsPublishStep(r.steps[i])
  {
    match Opened(d, remote, env)
    case None =>
    case Some(repo) =>
      var hadOld := GreetingTarget in repo.work;
      var cleared := repo.(work := repo.work - {GreetingTarget});
      var steps := CloneSteps(d) + (if hadOld then [RemovedOld(GreetingTarget)] else []);
      assert forall i :: 0 <= i < |steps| ==> IsPublishStep(steps[i]);
      if !hadOld || env.removeOk {
        GreetingCopyAndPushStepsOnly(steps, d.cwd, cleared, src, env, remote);
      }
  }

  /** A delivery that saves, publishes and then sends one play command makes
      exactly one play command, whatever the publish recorded. */
  lemma OnePlayAfterPublish(save: Step, publish: seq<Step>, url: string)
    requires save.Saved?
    requires forall i :: 0 <= i < |publish| ==> IsPublishStep(publish[i])
    ensures CountWhere([save] + publish + [PlayUrl(1, url)], IsPlay) == 1
  {
    var before := [save] + publish;
    forall i | 0 <= i < |before| ensures !IsPlay(before[i]) {
      if i > 0 { assert before[i] == publish[i - 1]; }
    }
    CountOnlyLast(before, PlayUrl(1, url), IsPlay);
  }

  /** Commit and push run in that order after the given steps, and the
      sequence stops at the first of them that fails. */
  lemma CommitAndPushOrder(steps: seq<Step>, cwd: Tree, staged: Repo, message: string, env: GitEnv, remote: Tree)
    ensures var r := CommitAndPush(steps, cwd, staged, message, env, remote);
      var done := if !env.commitOk then 0 else if !env.pushOk then 1 else 2;
      r.steps == (steps + [Committed(message), Pushed])[..|steps| + done]
  {
    var plan := steps + [Committed(message), Pushed];
    assert plan[..|steps|] == steps;
    assert plan[..|steps| + 1] == steps + [Committed(message)];
    assert plan[..|steps| + 2] == plan;
  }

  /** The chat script's publish follows its order: clone if absent, sweep,
      copy, add everything, commit, push, stopping at the first step that
      fails; a failed clone ends it before any step is recorded, and a
      sweep whose removal raises before the sweep is recorded. */
  lemma ChatPublishOrder(src: Place, d: Disk, remote: Tree, env: GitEnv, spared: set<string>)
    ensures var r := ChatPublish(src, d, remote, env, spared);
      && (Opened(d, remote, env).None? ==> r.steps == [])
      && (Opened(d, remote, env).Some? ==>
            var repo := Opened(d, remote, env).value;
            var stale := StaleMp3(repo.work, spared);
            var copied := CopyInto(d.cwd, repo.(work := repo.work - stale), src, ChatTarget, env.copyOk).0;
            var plan := CloneSteps(d) + [SweptStale(stale), Copied(copied), StagedAll, Committed(ChatMessage), Pushed];
            var done := if SweepRaises(repo.work, spared, env) then 0
              else if !env.stageOk then 2 else if !env.commitOk then 3 else if !env.pushOk then 4 else 5;
            r.steps == plan[..|CloneSteps(d)| + done])
  {
    if Opened(d, remote, env).Some? {
      var repo := Opened(d, remote, env).value;
      var stale := StaleMp3(repo.work, spared);
      var copy := CopyInto(d.cwd, repo.(work := repo.work - stale), src, ChatTarget, env.copyOk);
      var steps := CloneSteps(d) + [SweptStale(stale), Copied(copy.0)];
      var plan := CloneSteps(d) + [SweptStale(stale), Copied(copy.0), StagedAll, Committed(ChatMessage), Pushed];
      assert plan == steps + [StagedAll] + [Committed(ChatMessage), Pushed];
      assert plan[..|CloneSteps(d)|] == CloneSteps(d);
      assert plan[..|CloneSteps(d)| + 2] == steps;
      if !SweepRaises(repo.work, spared, env) && env.stageOk {
        CommitAndPushOrder(steps + [StagedAll], d.cwd, StageAll(copy.1), ChatMessage, env, remote);
      }
    }
  }

  /** The greeting script's publish follows its order: clone if absent,
      remove the old `mensaje_es.mp3` if there is one, copy, add that file,
      commit, push, stopping at the first step that fails; a removal that
      raises ends it before the removal is recorded, and `git add` fails
      when the file is neither in the working tree nor in the index. */
  lemma GreetingPublishOrder(src: Place, d: Disk, remote: Tree, env: GitEnv)
    ensures var r := GreetingPublish(src, d, remote, env);
      && (Opened(d, remote, env).None? ==> r.steps == [])
      && (Opened(d, remote, env).Some? && GreetingTarget in Opened(d, remote, env).value.work && !env.removeOk ==>
            r.steps == CloneSteps(d))
      && (Opened(d, remote, env).Some? && (GreetingTarget !in Opened(d, remote, env).value.work || env.removeOk) ==>
            var repo := Opened(d, remote, env).value;
            var cleared := repo.(work := repo.work - {GreetingTarget});
            var copy := CopyInto(d.cwd, cleared, src, GreetingTarget, env.copyOk);
            var added := env.stageOk && (GreetingTarget in copy.1.work || GreetingTarget in copy.1.index);
            var head := CloneSteps(d) + (if GreetingTarget in repo.work then [RemovedOld(GreetingTarget)] else []);
            var plan := head + [Copied(copy.0), Staged(GreetingTarget), Committed(GreetingMessage), Pushed];
            var done := if !added then 1 else if !env.commitOk then 2 else if !env.pushOk then 3 else 4;
            r.steps == plan[..|head| + done])
  {
    if Opened(d, remote, env).Some? {
      var repo := Opened(d, remote, env).value;
      if GreetingTarget !in repo.work || env.removeOk {
        var cleared := repo.(work := repo.work - {GreetingTarget});
        var head := CloneSteps(d) + (if GreetingTarget in repo.work then [RemovedOld(GreetingTarget)] else []);
        var r := GreetingCopyAndPush(head, d.cwd, cleared, src, env, remote);
        GreetingCopyAndPushOrder(head, d.cwd, cleared, src, env, remote);
        assert GreetingPublish(src, d, remote, env) == r;
      }
    }
  }

  /** The greeting script's steps from the copy on, in order, stopping at
      the first that fails. */
  lemma GreetingCopyAndPushOrder(steps: seq<Step>, cwd: Tree, cleared: Repo, src: Place, env: GitEnv, remote: Tree)
    ensures var r := GreetingCopyAndPush(steps, cwd, cleared, src, env, remote);
      var copy := CopyInto(cwd, cleared, src, GreetingTarget, env.copyOk);
      var added := env.stageOk && (GreetingTarget in copy.1.work || GreetingTarget in copy.1.index);
      var plan := steps + [Copied(copy.0), Staged(GreetingTarget), Committed(GreetingMessage), Pushed];
      var done := if !added then 1 else if !env.commitOk then 2 else if !env.pushOk then 3 else 4;
      r.steps == plan[..|steps| + done]
  {
    var copy := CopyInto(cwd, cleared, src, GreetingTarget, env.copyOk);
    var copied := steps + [Copied(copy.0)];
    var plan := steps + [Copied(copy.0), Staged(GreetingTarget), Committed(GreetingMessage), Pushed];
    assert plan == copied + [Staged(GreetingTarget)] + [Committed(GreetingMessage), Pushed];
    assert plan[..|steps| + 1] == copied;
    if env.stageOk && (GreetingTarget in copy.1.work || GreetingTarget in copy.1.index) {
      CommitAndPushOrder(copied + [Staged(GreetingTarget)], cwd, StagePath(copy.1, GreetingTarget), GreetingMessage, env, remote);
    }
  }

  /** Once the clone is open, the chat script's publish pushes exactly when
      the sweep does not raise and adding, committing and pushing all
      succeed. */
  lemma ChatPublishPushes(src: Place, d: Disk, remote: Tree, env: GitEnv, spared: set<string>)
    requires Opened(d, remote, env).Some?
    ensures ChatPublish(src, d, remote, env, spared).pushed <==>
      !SweepRaises(Opened(d, remote, env).value.work, spared, env) && env.stageOk && env.commitOk && env.pushOk
  {
  }
}
