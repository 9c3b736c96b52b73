/** The vocabulary of observable effects. A delivery of one audio file is a
    sequence of `Step`s; a run of a script is a sequence of `Event`s, one of
    which wraps the steps of each delivery it made. */
module Effects {

  /** The bytes of a file. Nothing in the scripts inspects them. */
  type Content = seq<bv8>

  /** The files of one directory, by name. */
  type Tree = map<string, Content>

  /** One effect inside a delivery. Git steps are recorded when they complete;
      a step that raises ends the publish without a record. */
  datatype Step =
    | Saved(path: string)                   // the text-to-speech engine wrote the file
    | PlayUrl(attempt: nat, url: string)    // one PlayAudio command sent to the robot
    | Sleep(seconds: nat)                   // an `asyncio.sleep`
    | PlayLocal(path: string)               // the OS player, routed to the Bluetooth device
    | Deleted(path: string)                 // `os.remove`
    | Cloned(url: string)                   // `git clone` of the audio repository
    | SweptStale(names: set<string>)        // the stale .mp3 files removed from the clone
    | RemovedOld(name: string)              // the one old copy removed from the clone
    | Copied(ok: bool)                      // the shell `copy`; its status is never read
    | StagedAll                             // `git add --all`
    | Staged(name: string)                  // `git add <name>`
    | Committed(message: string)
    | Pushed

  /** What a delivery speaks: a fixed text of the script, or the reply to a
      line the user typed. */
  datatype Prompt = Canned | Typed(line: string)

  /** One effect of a script run. Robot calls are recorded when issued,
      whatever they return. */
  datatype Event =
    | StartServer(bound: bool)              // StartHTTPServer; `bound` when the port was free
    | StopServer(shutdown: bool)            // StopHTTPServer; `shutdown` when a server was recorded
    | PairBluetooth(mac: string)            // ConectarDispBluetooth
    | SearchRobot(name: string, timeoutSeconds: nat)
    | ConnectRobot
    | EnterProgram
    | QuitProgram
    | ReleaseRobot
    | Deliver(prompt: Prompt, steps: seq<Step>)

  /** How `_run` ended: by reaching its end, by an early `return`, or through
      its exception handler. */
  datatype Exit = Completed | ReturnedEarly | Crashed

  function CountWhere<X>(xs: seq<X>, p: X -> bool): (n: nat)
    ensures n <= |xs|
    ensures n == 0 <==> forall i :: 0 <= i < |xs| ==> !p(xs[i])
  {
    if |xs| == 0 then 0 else (if p(xs[0]) then 1 else 0) + CountWhere(xs[1..], p)
  }

  lemma {:induction false} CountWhereAppend<X>(xs: seq<X>, ys: seq<X>, p: X -> bool)
    ensures CountWhere(xs + ys, p) == CountWhere(xs, p) + CountWhere(ys, p)
    decreases |xs|
  {
    if |xs| > 0 {
      assert (xs + ys)[1..] == xs[1..] + ys;
      CountWhereAppend(xs[1..], ys, p);
    } else {
      assert xs + ys == ys;
    }
  }

  /** A count that takes every element is the length. */
  lemma {:induction false} CountWhereAll<X>(xs: seq<X>, p: X -> bool)
    requires forall i :: 0 <= i < |xs| ==> p(xs[i])
    ensures CountWhere(xs, p) == |xs|
    decreases |xs|
  {
    if |xs| > 0 {
      CountWhereAll(xs[1..], p);
    }
  }

  /** A sequence whose only counted element is its last counts one. */
  lemma CountOnlyLast<X>(xs: seq<X>, last: X, p: X -> bool)
    requires forall i :: 0 <= i < |xs| ==> !p(xs[i])
    requires p(last)
    ensures CountWhere(xs + [last], p) == 1
  {
    CountWhereAppend(xs, [last], p);
    assert [last][1..] == [];
  }

  /** Elements before the first counted one add nothing to the count. */
  lemma CountAfterNone<X>(xs: seq<X>, ys: seq<X>, p: X -> bool)
    requires forall i :: 0 <= i < |xs| ==> !p(xs[i])
    ensures CountWhere(xs + ys, p) == CountWhere(ys, p)
  {
    CountWhereAppend(xs, ys, p);
  }

  predicate IsPlay(s: Step) {
    s.PlayUrl?
  }

  predicate IsRemoval(s: Step) {
    s.Deleted?
  }

  predicate IsStop(e: Event) {
    e.StopServer?
  }

  predicate IsDelivery(e: Event) {
    e.Deliver?
  }

  predicate IsTeardown(e: Event) {
    e.QuitProgram? || e.ReleaseRobot? || e.StopServer?
  }
}
