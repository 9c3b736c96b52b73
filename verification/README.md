# Audio delivery to the AlphaMini robot, modelled in Dafny

The scripts under `test/` drive a Ubtech AlphaMini robot. Each one turns a text
(a Gemini reply or a fixed greeting) into an mp3 with gTTS. It then makes the
audio reachable and commands the robot to play it. The reachable copy comes from
one of three places:

- the script's own HTTP server on port 8000 (`test/servlocal.py`, and the robot
  mode of `test/bluetooth.py`);
- a paired Bluetooth speaker driven by the operating system's player (the
  Bluetooth mode of `test/bluetooth.py`);
- a git clone of an audio repository, pushed so that GitHub Pages serves the
  file under a cache-busting URL (`test/chat2.py`, `test/tts_esp_git.py`).

This project models the control flow of that delivery as pure functions from
the outcomes of every external call to a trace of effects:

- the three-attempt PlayAudio retry loop, with its two-second pauses;
- the five-second grace wait and the removal of the file;
- the `_run` session drivers, from setup through the chat loop to teardown;
- the file names and URLs;
- the `copiarARepo` publish sequences over the clone's files.

Every external call is an input to the model:

- Gemini, gTTS, PlayAudio and the MiniSdk calls;
- git, the shell `copy`, the OS player and Bluetooth pairing;
- the clock, uuids and standard input.

Each module has one job:

- `Effects`: the trace vocabulary.
- `Playback`: the retry policy, single play and Bluetooth playback.
- `Naming`: file names and URLs, each with a parser and a round-trip lemma.
- `Strings`: decimal rendering and the case-insensitive "salir" test.
- `Session`: robot setup, the generic chat loop and the robot teardown.
- `GitClone` and `Publish`: the clone and the two publish sequences.
- `BluetoothScript`, `ServLocalScript`, `Chat2Script` and `TtsEspGitScript`: one module per script.

## Model

| member | source | states |
|---|---|---|
| Naming.BluetoothName | test/bluetooth.py:289-291 | The Bluetooth script's file name `respuesta_<uuid8>_<second>.mp3`; its parser and `BluetoothNameRoundTrip` are its partner. |
| Naming.LocalName | test/servlocal.py:109-110 | The local-server script's file name `respuesta_<second>.mp3`; `LocalNameRoundTrip` is its partner. |
| Naming.RobotUrl | test/bluetooth.py:314 | The URL `http://<ip>:8000/<file>` the robot fetches from the local server; `RobotUrlRoundTrip` is its partner. |
| Naming.CacheBustUrl | test/chat2.py:108-109 | The public URL `<page>?cache_bust=<second>`; `CacheBustRoundTrip` is its partner. |
| Naming.UuidPrefix | test/bluetooth.py:289 | The uuid part of a name is its first 8 characters, or the whole text when it is shorter. |
| Naming.BluetoothNameRoundTrip | test/bluetooth.py:289-291 | `respuesta_<uuid8>_<second>.mp3` parses back to the uuid prefix and the second it was built from. |
| Naming.BluetoothNamesCollide | test/bluetooth.py:289-291 | Two Bluetooth-script names are equal exactly when the uuid prefix and the second are equal. |
| Naming.LocalNameRoundTrip | test/servlocal.py:109-110 | `respuesta_<second>.mp3` parses back to its second. |
| Naming.LocalNamesCollide | test/servlocal.py:109-110 | The local-server name depends on the second alone: two deliveries in the same second share a file name. |
| Naming.PortText | test/bluetooth.py:24 | The port appears in URLs as "8000". |
| Naming.RobotUrlRoundTrip | test/bluetooth.py:314 | `http://<ip>:8000/<file>` starts with `http://`. For an IPv4 host it parses back to the host and the file name. |
| Naming.CacheBustRoundTrip | test/chat2.py:108-109 | The public URL `<page>?cache_bust=<second>` gives back its second. |
| Naming.CacheBustUrlsDiffer | test/tts_esp_git.py:33-34 | Two public URLs for the same page differ exactly when they were made in different seconds. |
| Strings.DecRoundTrip | test/servlocal.py:110 | The decimal text of a timestamp reads back as that timestamp. |
| Strings.DecInjective | test/servlocal.py:110 | Different timestamps give different decimal texts. |
| Strings.QuitIgnoresCase | test/servlocal.py:187-189 | A line ends the chat exactly when it is "salir" in any mix of upper- and lower-case letters. |
| Strings.BluetoothAnswers | test/bluetooth.py:356-357 | The mode question selects Bluetooth for "B" and "b" and for nothing else. |
| Playback.RetryFrom | test/bluetooth.py:318-336 | Attempt k of the loop and those after it: play, stop on a confirmed reply or an exception, else pause 2 seconds unless it was the third; proved equal to `Playback.Schedule` by `RetryLoopFollowsSchedule`. |
| Playback.RetryLoop | test/servlocal.py:127-145 | The whole `for intento in range(1, 4)` loop, starting at attempt 1. |
| Playback.AttemptsMade | test/servlocal.py:127-145 | The loop makes between 1 and 3 attempts. Every attempt before the last got a non-decisive reply. Fewer than 3 attempts means the last reply was decisive (confirmed, or an exception). |
| Playback.Schedule | test/servlocal.py:127-145 | The reference trace of n attempts has attempt k at position 2(k-1), and a 2-second pause between consecutive attempts. |
| Playback.RetryLoopFollowsSchedule | test/bluetooth.py:318-336 | The retry loop equals the reference schedule for the number of attempts the policy makes, and ends with the verdict of the last reply read. |
| Playback.RunRetryLoop | test/servlocal.py:127-145 | The loop written as `for intento in range(1, 4)` produces the same trace and outcome as the reference schedule. |
| Playback.ScheduleCounts | test/bluetooth.py:318-336 | A trace of n attempts numbers them 1..n in order and holds n-1 pauses, 2(n-1) seconds in total. |
| Playback.RetryRules | test/bluetooth.py:318-336 | There are at most 3 attempts, numbered 1, 2, 3 in order, with a pause only between two attempts. The loop confirms exactly when some reply has both success flags and no earlier reply was decisive. Three refusals mean 3 attempts, 2 pauses and giving up. |
| Playback.SinglePlay | test/chat2.py:112-122 | One PlayAudio command with no retry. It is confirmed exactly when the result type is Success and isSuccess holds, and aborted exactly when the call raised. |
| Playback.PlayViaBluetooth | test/bluetooth.py:238-254 | With no recorded device, it reports failure and plays nothing. Otherwise it makes one OS-player call and reports its result. |
| Publish.ChatPublish | test/chat2.py:45-86 | The chat script's `copiarARepo` with the set of files the sweep spares as a parameter; `ChatPublishOrder` states its step order. |
| Publish.CopyToRepoAsWritten | test/chat2.py:45-86 | `copiarARepo` of the chat script as written: the sweep spares nothing. |
| Publish.CopyToRepo | test/chat2.py:45-86 | The same sequence with the sweep corrected to spare the file being published. |
| Publish.GreetingPublish | test/tts_esp_git.py:51-87 | The greeting script's `copiarARepo`; `GreetingPublishOrder` states its step order. |
| Publish.Opened | test/chat2.py:50-57 | An existing clone is reused. Otherwise the remote is cloned, and a failed clone gives no repository. |
| Publish.CopyInto | test/chat2.py:66-68 | The copy takes effect exactly when the command works and the source exists. Its status is never read, and the index and commit are untouched. |
| Publish.CommitAndPush | test/chat2.py:74-81 | The commit records the staged index. The remote becomes that index exactly when both commit and push succeed, and is unchanged otherwise. |
| Publish.CommitAndPushOrder | test/chat2.py:74-81 | Commit then push follow the earlier steps, and the sequence stops at the first of them that fails. |
| Publish.ChatPublishOrder | test/chat2.py:49-86 | The chat publish records clone-if-absent, sweep, copy, add everything, commit and push in that order, stopping at the first failure. A failed clone records nothing. A sweep whose `os.remove` raises ends it before the sweep is recorded. |
| Publish.ChatPublishPushes | test/chat2.py:72-81 | Once the clone is open, the chat publish pushes exactly when the sweep does not raise and add, commit and push all succeed. |
| Publish.GreetingPublishOrder | test/tts_esp_git.py:52-87 | The greeting publish records clone-if-absent, removal of the old file when there is one, copy, add, commit and push in that order, stopping at the first failure. A raising removal ends it after the clone. `git add` fails when the file is in neither the working tree nor the index. |
| Publish.GreetingCopyAndPushOrder | test/tts_esp_git.py:64-87 | From the copy on: copy, add, commit, push, in that order, stopping at the first failure. |
| Publish.GreetingCopyAndPush | test/tts_esp_git.py:64-87 | From the copy on, only later steps are appended, none of them a clone. The remote changes only by pushing the clone's commit. |
| Publish.ChatCloneOnlyIfAbsent | test/chat2.py:49-86 | Cloning happens exactly when `audio_repo` is absent and cloning works. A failed clone changes nothing. The working directory is untouched, and the remote changes only by a push. |
| Publish.GreetingCloneOnlyIfAbsent | test/tts_esp_git.py:52-87 | The same clone-if-absent, working-directory and remote facts, for the `audio` clone. |
| Publish.SweepDeletesFreshAudio | test/chat2.py:59-68 | As written, a sweep whose removals succeed removes the freshly saved `respuesta_chatbot.mp3`, so the copy finds no source. The clone ends with no `.mp3`, and a push removes the audio from the remote. A raising removal changes nothing and publishes nothing. |
| Publish.CopyToRepoKeepsFreshAudio | test/chat2.py:59-81 | With the corrected sweep, the fresh audio stays in the clone, and it is the only `.mp3` unless removing an older one raised. A push happens exactly when the sweep did not raise and staging, commit and push succeed, and it publishes exactly that audio. |
| Publish.GreetingCopyClonesNothing | test/tts_esp_git.py:64-87 | The steps from the copy on never clone. |
| Publish.GreetingCopyTouchesOnlyTarget | test/tts_esp_git.py:64-84 | From the copy on, only `mensaje_es.mp3` changes in the clone's working tree and index, and a push publishes that index. |
| Publish.GreetingPublishTouchesOnlyTarget | test/tts_esp_git.py:58-73 | Apart from `mensaje_es.mp3`, the clone's working tree and index are unchanged, and a push publishes the previous index for all other files. |
| Publish.GreetingPublishDelivers | test/tts_esp_git.py:51-84 | When every step succeeds and the source exists, the remote ends with the new audio as `mensaje_es.mp3`. |
| Publish.ChatPublishStepsOnly | test/chat2.py:45-86 | The chat publish records only file and git steps: it never plays, pauses or saves. |
| Publish.GreetingPublishStepsOnly | test/tts_esp_git.py:51-87 | The greeting publish records only file and git steps. |
| Publish.OnePlayAfterPublish | test/chat2.py:104-117 | A save, any publish and then the play command together hold exactly one play command. |
| Session.ChatLoop | test/servlocal.py:186-196 | `while True`: read a line, stop at "salir", deliver the reply, with input running out as an exception; `ChatLoopStopsAtFirstQuit` relates it to `FirstQuit`. |
| Session.AfterLoop | test/servlocal.py:198-211 | After the loop: quit_program and release after "salir", then the final events; when input ran out, only the handler's final events. |
| Session.ConnectToRobot | test/chat2.py:130-143 | Search, connect and enter program mode run in that order, stopping at the first refusal or exception. The result is Ready only when all three succeed. |
| Session.RobotTeardown | test/chat2.py:158-162 | quit_program, then release. An exception from quit_program skips release. The teardown fails exactly when either call raises. |
| Session.AfterLoopFacts | test/servlocal.py:198-211 | quit_program is issued exactly when the loop ended at "salir". The session completes exactly when it ended there and neither call raised. Every other ending goes through the handler, and the final events come last. |
| Session.FirstQuit | test/servlocal.py:186-189 | The position of the first line that is "salir" in any letter case, or the number of lines when there is none. |
| Session.ChatLoopStopsAtFirstQuit | test/servlocal.py:186-196 | The loop delivers once per line before the first "salir", in order, and for no other line. It ends at that line, or by running out of input when there is none. |
| Session.ChatLoopPrompts | test/chat2.py:146-156 | The loop's deliveries answer exactly the lines before the first "salir", in order. |
| Session.ChatLoopDeliveriesSatisfy | test/bluetooth.py:406-416 | A property of every single delivery holds of every delivery in the loop. |
| BluetoothScript.Run | test/bluetooth.py:349-432 | `_run`: mode choice, in robot mode the server and the robot setup, then the test delivery, the chat loop and the teardown. The handler stops the server in robot mode. |
| BluetoothScript.Converse | test/bluetooth.py:400-432 | The part of `_run` after setup: the talk, then the closing. |
| BluetoothScript.Talk | test/bluetooth.py:400-416 | The test delivery followed by the chat loop. |
| BluetoothScript.Play | test/bluetooth.py:302-336 | Bluetooth mode makes one player call and never raises. Robot mode follows the retry schedule on `http://<ip>:8000/<file>`, and raises exactly when a PlayAudio call raised. |
| BluetoothScript.GenerateAndPlay | test/bluetooth.py:283-346 | A failed gTTS does nothing. Otherwise the delivery starts by saving the fresh name and touches no other file. |
| BluetoothScript.GenerateAndPlayCleansUp | test/bluetooth.py:338-346 | The file is removed at most once, right after the 5-second wait. Removal happens exactly when no exception left playback and `os.remove` did not raise. Either exception leaves the file on disk. |
| BluetoothScript.RobotModeDelivery | test/bluetooth.py:312-343 | In robot mode: save, the scheduled attempts and pauses, then the wait unless an exception ended the loop, and after it the removal unless `os.remove` raised. |
| BluetoothScript.BluetoothModeDelivery | test/bluetooth.py:303-343 | In Bluetooth mode: save, one OS-player call only when a device is recorded, no robot command, then the wait. The removal follows unless `os.remove` raised, for example while the player still holds the file; then the file stays. |
| BluetoothScript.ChooseMode | test/bluetooth.py:355-373 | "B" or "b" followed by a blank MAC gives Bluetooth mode with no device. A MAC pairs, and a failed pairing falls back to robot mode. Any other answer gives robot mode. Input running out is reported. |
| BluetoothScript.Closing | test/bluetooth.py:418-432 | Bluetooth mode has no teardown. Robot mode stops the server once, last, after quit_program and release when the loop ended at "salir". |
| BluetoothScript.TalkShape | test/bluetooth.py:400-416 | One test delivery, then one delivery per line before the first "salir", in order. |
| BluetoothScript.RobotSetupFailure | test/bluetooth.py:376-398 | A failed search, connect or program-mode entry starts and then stops the server. The run ends with no delivery, no quit_program and no release, and it never completes. |
| BluetoothScript.RunReachesTalk | test/bluetooth.py:349-416 | A run that gets past mode choice and setup is the test delivery and the chat loop, right after the setup events. |
| BluetoothScript.NoTalkNoDelivery | test/bluetooth.py:355-398 | A run that runs out of input while choosing the mode, or whose robot setup fails, makes no delivery at all. |
| BluetoothScript.ConverseTurns | test/bluetooth.py:400-416 | The test delivery comes right after the setup events. There is one delivery for the test and one per line before the first "salir". |
| BluetoothScript.ConversePrompts | test/bluetooth.py:400-416 | The deliveries answer the test prompt and then exactly the lines before the first "salir", in order. |
| BluetoothScript.ConverseTeardown | test/bluetooth.py:418-432 | Teardown happens only in robot mode and only after "salir". The run completes only after "salir". |
| BluetoothScript.TurnsInOrder | test/bluetooth.py:400-416 | At run level: the setup events, the test delivery, then one delivery per line before the first "salir", and no other delivery. |
| BluetoothScript.TeardownAfterQuit | test/bluetooth.py:418-432 | At run level: quit_program, release and stopping the server, in that order, only in robot mode after "salir". Bluetooth mode never starts or stops the server. |
| BluetoothScript.ConverseStops | test/bluetooth.py:418-432 | After setup, robot mode stops the server exactly once, last, and Bluetooth mode never does. |
| BluetoothScript.StoppedWithoutTalk | test/bluetooth.py:375-398 | A run that ends during mode choice or robot setup stops the server exactly once, last, in robot mode, and never in Bluetooth mode. |
| BluetoothScript.StoppedAfterTalk | test/bluetooth.py:375-432 | The same for a run that reaches the talk. |
| BluetoothScript.ServerStoppedOnce | test/bluetooth.py:375-432 | In robot mode every run that ends normally, by an early return or through the `except Exception` handler stops the server exactly once, as its last event. In Bluetooth mode no run stops it. |
| BluetoothScript.TalkDeliveriesSatisfy | test/bluetooth.py:400-416 | A property of every single delivery holds of every delivery in the talk. |
| BluetoothScript.BlankMacNeverPlays | test/bluetooth.py:365-373 | After a blank MAC, no delivery of the run plays anything. |
| BluetoothScript.EveryDeliveryRemovesAtMostOnce | test/bluetooth.py:338-343 | No delivery of any run removes its file more than once. |
| BluetoothScript.DeliveriesRemoveAtMostOnce | test/bluetooth.py:341-343 | Whatever the mode and the outside world, one delivery removes its file at most once. |
| ServLocalScript.Run | test/servlocal.py:154-211 | `_run`: start the server, set up the robot, then the chat; a refusal stops the server and returns, a missing robot falls through to the final stop, and the handler stops the server. |
| ServLocalScript.Chat | test/servlocal.py:185-211 | The chat loop, quit_program and release after "salir", then the stop. |
| ServLocalScript.GenerateAndPlay | test/servlocal.py:104-151 | A failed gTTS does nothing. Otherwise the delivery saves `respuesta_<second>.mp3`, its next step is attempt 1 on the robot URL of that file, and it touches no other file. |
| ServLocalScript.RemovedRightAfterLoop | test/servlocal.py:127-151 | Save, the scheduled attempts, then the removal with no grace wait, unless an exception ended the loop or `os.remove` raised. In either of those cases the file stays. The only pauses are the 2-second retry pauses. |
| ServLocalScript.StartHttpServer | test/servlocal.py:78-91 | A server is recorded exactly when binding the port worked. |
| ServLocalScript.StopHttpServer | test/servlocal.py:94-101 | Stopping shuts the server down only when one is recorded, and never clears the record. |
| ServLocalScript.StopNeverResets | test/servlocal.py:94-101 | Without a server, stopping does nothing. With one, a second stop shuts it down again. |
| ServLocalScript.ChatStopsOnce | test/servlocal.py:185-211 | After setup, the chat stops the server exactly once, as its last event. |
| ServLocalScript.StopCalledExactlyOnce | test/servlocal.py:154-211 | Every run that ends normally, by an early return or through the `except Exception` handler stops the server exactly once, as its last event. |
| ServLocalScript.SetupFailurePaths | test/servlocal.py:161-207 | A failed setup starts and stops the server around the setup events. A missing robot falls through and completes, and only a refusal returns early. |
| ServLocalScript.ChatPrompts | test/servlocal.py:186-196 | The chat answers exactly the lines before the first "salir", in order. |
| ServLocalScript.ChatTeardown | test/servlocal.py:198-211 | quit_program is issued exactly after "salir". With no exception, the run ends with quit_program, release and the stop. |
| ServLocalScript.LoopAndTeardown | test/servlocal.py:154-202 | With the robot ready: the start and setup events, the deliveries for the lines before "salir", then the teardown in order. |
| Chat2Script.GenerateAndPlay | test/chat2.py:89-125 | `generar_reproducir_tts` with the given sweep: save into the clone, `copiarARepo`, then one PlayAudio; any exception ends the delivery. |
| Chat2Script.PublishReply | test/chat2.py:45-86 | The `copiarARepo` the delivery calls: `Publish.CopyToRepoAsWritten` as written, `Publish.CopyToRepo` when corrected. |
| Chat2Script.RunWith | test/chat2.py:128-166 | `_run` with the given sweep: setup, returning at the first refusal, then the chat and the teardown. |
| Chat2Script.Run | test/chat2.py:128-166 | The script's `_run` as written: every delivery runs the sweep that removes the fresh audio. |
| Chat2Script.RunCorrected | test/chat2.py:128-166 | The same session with the corrected sweep. |
| Chat2Script.Chat | test/chat2.py:145-166 | The chat loop, then quit_program and release after "salir". |
| Chat2Script.PlaybackIndependentOfPublish | test/chat2.py:89-125 | With either sweep, a delivery acts exactly when the clone exists and gTTS worked, whatever git does. It starts with the save and ends with exactly one PlayAudio to that second's public URL. |
| Chat2Script.DeliverySweepsFreshAudio | test/chat2.py:59-105 | As written, when the sweep's removals succeed a delivery leaves the clone with no `.mp3`, its copy finds no source, and a full git success pushes a remote without `respuesta_chatbot.mp3`. A raising removal leaves the fresh audio in the clone unpublished. Any failure leaves the remote as it was. |
| Chat2Script.CorrectedDeliveryKeepsFreshAudio | test/chat2.py:93-105 | With the corrected sweep, the fresh audio stays in the clone, as its only `.mp3` unless removing an older one raised. The audio is published exactly when the sweep did not raise and git fully succeeds. Otherwise the remote is as it was. |
| Chat2Script.NoCloneLoopDoesNothing | test/chat2.py:94-97 | Before `audio_repo` exists no reply can be saved, so with either sweep every delivery of the loop is empty and nothing changes. |
| Chat2Script.FirstRunNeverPlays | test/chat2.py:94-105 | With either sweep, a session started without the clone never clones, publishes or plays, and leaves everything as it was. |
| Chat2Script.SetupFailureNoTeardown | test/chat2.py:128-143 | A failed setup ends the session with no delivery, no quit_program and no release. Only a refusal is an early return. |
| Chat2Script.ChatPrompts | test/chat2.py:146-156 | The chat answers exactly the lines before the first "salir", in order. |
| Chat2Script.ChatTeardown | test/chat2.py:158-166 | The session completes exactly when "salir" was typed and neither teardown call raised, and then ends with quit_program, release. |
| Chat2Script.TeardownAfterSalir | test/chat2.py:128-166 | With the robot ready and either sweep: the setup events, the deliveries for the lines before "salir", then quit_program and release in order. |
| TtsEspGitScript.GenerateAndPlay | test/tts_esp_git.py:15-49 | `generarReproducirTTS`: save the greeting in the working directory, `copiarARepo`, then one PlayAudio of the page's URL for that second. |
| TtsEspGitScript.Run | test/tts_esp_git.py:89-117 | `_run`: setup, returning at the first refusal, then the greeting, quit_program and release. |
| TtsEspGitScript.GreetingAlwaysPlayed | test/tts_esp_git.py:15-49 | When gTTS works, the greeting is saved, kept, and played by exactly one PlayAudio to that second's public URL, whatever the publish did. |
| TtsEspGitScript.GreetingPublished | test/tts_esp_git.py:51-87 | A full git success leaves the greeting on the remote as `mensaje_es.mp3`. No other file of the clone changes. |
| TtsEspGitScript.ReadyLifecycle | test/tts_esp_git.py:89-114 | With the robot ready, exactly one delivery of the greeting runs between enter_program and quit_program. The run completes exactly when neither quit_program nor release raised, and then ends with both, in that order. |
| TtsEspGitScript.FailedSetup | test/tts_esp_git.py:89-117 | A failed setup delivers nothing, tears nothing down and leaves the files and the remote alone. Only a refusal is an early return. |

## Left out

- Gemini (`ObtenerRespuestaChatbot`, `obtener_respuesta_chatbot`) and gTTS: external services. The reply text is not modelled, and the audio is an input that may be missing (gTTS raised).
- The HTTP server, its thread and `AudioHandler`: socket I/O and concurrency. Only starting and stopping appear, as events.
- `GetIPLocal`: socket probing. The local address is a parameter.
- `ListarDispBluetooth` and the Windows PowerShell pairing inside `ConectarDispBluetooth`: subprocesses. The other systems' branches are commented out in the script, so they return False. Pairing is a boolean input.
- The platform branches of `ReproducirAudioBluetooth` (start, mpg123 or mplayer, afplay): their combined outcome is the `osPlayed` input.
- Sleep durations are events carrying whole seconds, not elapsed time; uuids and the clock are inputs.
- git internals, such as the state of a directory that exists but is not a repository, and the Windows `copy` of a file onto itself: each git step is a success flag, and the copy's effect is modelled whatever its exit status.
- `.lower()` and `.upper()` are modelled on ASCII letters only. No other character maps onto the letters of "salir" or "B", so the comparisons the scripts make come out the same.
- `test/chat.py`, `test/tts_demo/play_tts/tts_esp.py` and `test/tts_demo/tts_esp2.py`: one-shot linear git sequences with fixed names. `test/bxcvb.py`: SDK call examples that are not valid Python. None of them is part of this model.
- Outcomes the scripts never produce, so the model has none of them either:
  - no publish step is ever retried;
  - no Succeeded or Failed result is returned, only printed;
  - the file is not removed on exception paths;
  - `test/servlocal.py` removes the file with no grace wait and no existence check.
- Publish.ChatPublish: a sweep whose `os.remove` raises part-way is modelled as raising on its first removal, so the clone keeps all its `.mp3` files. Which files `os.listdir` order would have removed before the failing one is not modelled.
- BluetoothScript.ServerStoppedOnce, ServLocalScript.StopCalledExactlyOnce: Ctrl+C at `input()` raises `KeyboardInterrupt`, which is not an `Exception`. It skips the handler and its `StopHTTPServer`, and the model has no such ending.
- BluetoothScript.ChooseMode: the global `bluetooth_device` is only written by a successful pairing, so the model takes it as absent at start-up, which is the value the script sets at import.

## Findings

| source | as written | input that shows it | evidently intended | confidence | as-written member | corrected member |
|---|---|---|---|---|---|---|
| test/chat2.py:59-68 | `copiarARepo` removes every `.mp3` in `audio_repo` before copying, but `generar_reproducir_tts` saved the new audio as `audio_repo/respuesta_chatbot.mp3`, which is also the copy source | any delivery with the clone present and `os.remove` succeeding: after the sweep the clone holds no `.mp3`, the copy fails, and a successful push deletes `respuesta_chatbot.mp3` from the published repository | the sweep spares the file being published, which then stays in the clone and is pushed | not executed | Publish.SweepDeletesFreshAudio | Publish.CopyToRepoKeepsFreshAudio |

`Chat2Script.Run` is the script as written: every delivery calls
`Publish.CopyToRepoAsWritten`, and `Chat2Script.DeliverySweepsFreshAudio`
states what that does to the clone and the published repository.
`Chat2Script.RunCorrected` is the same session calling the corrected
`Publish.CopyToRepo`, and `Chat2Script.CorrectedDeliveryKeepsFreshAudio`
states that the fresh audio is then kept and published.
