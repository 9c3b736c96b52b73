/** A local clone of the audio repository, reduced to what publishing
    touches: the working tree, the index and the last commit, each a map from
    a top-level file name to its bytes. */
module GitClone {
  import opened Effects
  import opened Strings

  datatype Repo = Repo(work: Tree, index: Tree, head: Tree)

  /** A fresh clone: working tree, index and commit all equal the remote. */
  function CloneOf(remote: Tree): (r: Repo)
    ensures r.work == remote && r.index == remote && r.head == remote
  {
    Repo(remote, remote, remote)
  }

  /** `git add --all`: the index becomes the working tree, deletions included. */
  function StageAll(r: Repo): (s: Repo)
    ensures s.index == r.work && s.work == r.work && s.head == r.head
  {
    r.(index := r.work)
  }

  /** `git add <name>`: the index takes the working tree's version of that one
      file, or drops it when the working tree has none. Git refuses a name
      found in neither. */
  function StagePath(r: Repo, name: string): (s: Repo)
    requires name in r.work || name in r.index
    ensures s.work == r.work && s.head == r.head
    ensures s.index - {name} == r.index - {name}
    ensures name in s.index <==> name in r.work
    ensures name in r.work ==> s.index[name] == r.work[name]
  {
    r.(index := if name in r.work then r.index[name := r.work[name]] else r.index - {name})
  }

  /** A commit records the index as it stands. */
  function Commit(r: Repo): (s: Repo)
    ensures s.head == r.index && s.index == r.index && s.work == r.work
  {
    r.(head := r.index)
  }

  predicate IsMp3(name: string) {
    EndsWith(name, ".mp3")
  }

  /** The `.mp3` files of a tree, except those in `spared`. */
  function StaleMp3(t: Tree, spared: set<string>): (stale: set<string>)
    ensures forall f :: f in stale <==> f in t && IsMp3(f) && f !in spared
  {
    set f | f in t && IsMp3(f) && f !in spared
  }
}
