/** Local files that a project's worktrees get besides what git checks out. */
module Seeding {
  import Guard

  /** What a seed path is in the project directory, links followed. */
  datatype Source = Missing | Escaping | File | Directory | Special

  /** A seed path when its turn comes; `there` says that the worktree has the destination already. */
  datatype Seed = Seed(path: string, source: Source, there: bool)

  predicate SafePath(path: string) {
    var p := Guard.Parse(path);
    p.anchor == 0 && ".." !in p.names && ".git" !in p.names
  }

  predicate AllSafe(seeds: seq<Seed>) {
    forall i :: 0 <= i < |seeds| ==> SafePath(seeds[i].path)
  }

  /** The seed is a file or a directory of the project, or something else that need not be copied. */
  predicate Seedable(s: Seed) {
    s.source.File? || s.source.Directory? || (s.source.Special? && s.there)
  }

  predicate AllSeedable(seeds: seq<Seed>) {
    forall i :: 0 <= i < |seeds| ==> Seedable(seeds[i])
  }

  method RequireSafeSeedPaths(seeds: seq<Seed>) returns (ok: bool)
    ensures ok <==> AllSafe(seeds)
  {
    hide SafePath;
    for i := 0 to |seeds|
      invariant AllSafe(seeds[..i])
    {
      if !SafePath(seeds[i].path) {
        return false;
      }
    }
    ok := true;
  }

  /** The seeds that the worktree does not have yet. */
  function NewPaths(seeds: seq<Seed>): seq<string> {
    if seeds == [] then []
    else
      var last := seeds[|seeds| - 1];
      NewPaths(seeds[..|seeds| - 1]) + (if last.there then [] else [last.path])
  }

  /** The new paths are those of the seeds that are not there, each once for every such seed, in order. */
  lemma {:induction false} NewPathsAreThoseMissing(seeds: seq<Seed>) returns (at: seq<nat>)
    ensures |at| == |NewPaths(seeds)|
    ensures forall i :: 0 <= i < |at| ==>
              at[i] < |seeds| && !seeds[at[i]].there && NewPaths(seeds)[i] == seeds[at[i]].path
    ensures forall i, j :: 0 <= i < j < |at| ==> at[i] < at[j]
    ensures forall k :: 0 <= k < |seeds| && !seeds[k].there ==> k in at
    decreases |seeds|
  {
    at := [];
    if seeds != [] {
      at := NewPathsAreThoseMissing(seeds[..|seeds| - 1]);
      if !seeds[|seeds| - 1].there {
        at := at + [|seeds| - 1];
      }
    }
  }

  /** Seeding succeeds exactly when every seed can be had, and copies the new ones in order; otherwise it
      stops at the first that cannot. */
  method SeedWorkspace(seeds: seq<Seed>) returns (ok: bool, copied: seq<string>)
    ensures ok <==> AllSeedable(seeds)
    ensures ok ==> copied == NewPaths(seeds)
    ensures !ok ==>
              exists k :: 0 <= k < |seeds| && !Seedable(seeds[k]) && AllSeedable(seeds[..k])
                          && copied == NewPaths(seeds[..k])
  {
    copied := [];
    for k := 0 to |seeds|
      invariant AllSeedable(seeds[..k]) && copied == NewPaths(seeds[..k])
    {
      var s := seeds[k];
      assert seeds[..k + 1][..k] == seeds[..k];
      if s.source.Missing? || s.source.Escaping? {
        assert !Seedable(seeds[k]);
        return false, copied;
      }
      if !s.there {
        if s.source.Special? {
          assert !Seedable(seeds[k]);
          return false, copied;
        }
        copied := copied + [s.path];
      }
    }
    assert seeds[..|seeds|] == seeds;
    ok := true;
  }

  /** A path that passes the check leads to a place below the project directory, whatever that is, and to
      none in a `.git`; and every such place has a path that passes the check and leads there. */
  lemma SafePathsStayBelow(root: Guard.Place, path: string, below: seq<string>)
    requires Guard.RootOk(root)
    ensures SafePath(path) ==>
              var p := Guard.Resolved(Guard.Joined(root, Guard.Parse(path)));
              exists names :: p == Guard.Place(root.anchor, Guard.Up(root.names) + names) && ".git" !in names
    ensures Guard.AllProper(below) && Guard.NoDots(below) && ".git" !in below ==>
              && SafePath(Guard.Slashed(below))
              && Guard.Resolved(Guard.Joined(root, Guard.Parse(Guard.Slashed(below)))) ==
                   Guard.Place(root.anchor, Guard.Up(root.names) + below)
  {
    hide Guard.Pieces, Guard.Kept, Guard.Up, Guard.Slashed;
    if SafePath(path) {
      BelowRoot(root, Guard.Parse(path).names);
    }
    if Guard.AllProper(below) && Guard.NoDots(below) {
      Guard.NamesOfSlashed(below);
      SlashedIsRelative(below);
      BelowRoot(root, below);
    }
  }

  lemma SlashedIsRelative(names: seq<string>)
    requires Guard.AllProper(names)
    ensures Guard.Anchor(Guard.Slashed(names)) == 0
  {
    if names != [] {
      assert Guard.Proper(names[0]) && Guard.Slashed(names)[0] == names[0][0];
    }
  }

  lemma BelowRoot(root: Guard.Place, names: seq<string>)
    requires ".." !in names
    ensures Guard.Up(root.names + names) == Guard.Up(root.names) + names
  {
    hide Guard.Up;
    Guard.UpOfConcat(root.names, names);
    Guard.UpHasNoDots(root.names);
    Guard.UpOfResolved(Guard.Up(root.names) + names);
  }

  /** A path that passes the check may still be missing when the worktree has been created. */
  lemma SafeSeedMayBeMissing()
    ensures AllSafe([Seed(".env", Missing, false)]) && !AllSeedable([Seed(".env", Missing, false)])
  {
    Guard.PiecesOfPlainName(".env");
    Guard.KeptOfCons(".env", []);
    assert [".env"] + [] == [".env"] && |".git"| == 4 && ".env"[1] != ".git"[1];
    assert !Seedable([Seed(".env", Missing, false)][0]);
  }
}
