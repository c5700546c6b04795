/** Discovery of Git repositories below the authorised roots, and their initialised submodules. Paths are
    resolved: lists of names from the file system's root, without links. */
module Discovery {
  import opened Policy

  /** A section of `.gitmodules`: where it leads, whether that is a link, and whether a `.git` is there. */
  datatype Entry = Entry(path: Path, link: bool, git: bool)

  predicate Under(path: Path, root: Path) {
    root <= path
  }

  predicate WithinAny(path: Path, roots: seq<Path>) {
    exists i :: 0 <= i < |roots| && Under(path, roots[i])
  }

  /** What discovery is given: the sections of `.gitmodules` per repository, the excluded paths and the
      largest number of projects. */
  datatype Setting = Setting(modules: Path -> seq<Entry>, excluded: seq<Path>, limit: nat)

  predicate Admissible(s: Setting, root: Path, e: Entry) {
    !e.link && Under(e.path, root) && !WithinAny(e.path, s.excluded) && e.git
  }

  function Filter(s: Setting, root: Path, entries: seq<Entry>): (paths: seq<Path>)
    ensures forall p :: p in paths <==> exists e :: e in entries && e.path == p && Admissible(s, root, e)
  {
    if entries == [] then []
    else
      var rest := Filter(s, root, entries[1..]);
      assert entries == [entries[0]] + entries[1..];
      if Admissible(s, root, entries[0]) then [entries[0].path] + rest else rest
  }

  /** `_initialized_submodules`: what the sections lead to without a link, below the root, outside the excluded
      paths, and with a `.git`. */
  function Submodules(s: Setting, root: Path, repository: Path): (paths: seq<Path>)
    ensures forall p :: p in paths <==>
              exists e :: e in s.modules(repository) && e.path == p && !e.link && e.git
                          && Under(e.path, root) && !WithinAny(e.path, s.excluded)
    ensures forall p :: p in paths ==> Under(p, root) && !WithinAny(p, s.excluded)
  {
    Filter(s, root, s.modules(repository))
  }

  // ---------- What is reachable through submodules ----------

  /** `x` is `n` submodule steps below `start`, each step leaving a repository outside `known`. */
  ghost predicate ReachedIn(s: Setting, root: Path, known: set<Path>, start: Path, n: nat, x: Path)
    decreases n, 1
  {
    if n == 0 then x == start else exists y :: LastStep(s, root, known, start, n, y, x)
  }

  ghost predicate LastStep(s: Setting, root: Path, known: set<Path>, start: Path, n: nat, y: Path, x: Path)
    requires n > 0
    decreases n, 0
  {
    y !in known && x in Submodules(s, root, y) && ReachedIn(s, root, known, start, n - 1, y)
  }

  ghost predicate Reached(s: Setting, root: Path, known: set<Path>, start: Path, x: Path) {
    exists n: nat :: ReachedIn(s, root, known, start, n, x)
  }

  lemma ReachedStep(s: Setting, root: Path, known: set<Path>, start: Path, y: Path, x: Path)
    requires Reached(s, root, known, start, y) && y !in known && x in Submodules(s, root, y)
    ensures Reached(s, root, known, start, x)
  {
    var n: nat :| ReachedIn(s, root, known, start, n, y);
    assert LastStep(s, root, known, start, n + 1, y, x);
    assert ReachedIn(s, root, known, start, n + 1, x);
  }

  ghost predicate ClosedBut(s: Setting, root: Path, known: set<Path>, closed: set<Path>, pending: seq<Path>) {
    forall y, z :: y in closed && y !in known && z in Submodules(s, root, y) ==> z in closed || z in pending
  }

  /** A set with the start that is closed under the steps outside `known` holds everything reached. */
  lemma {:induction false} ClosedHoldsReached(s: Setting, root: Path, known: set<Path>, start: Path, closed: set<Path>,
      n: nat, x: Path)
    requires start in closed && ClosedBut(s, root, known, closed, [])
    requires ReachedIn(s, root, known, start, n, x)
    ensures x in closed
  {
    if n > 0 {
      var y :| LastStep(s, root, known, start, n, y, x);
      ClosedHoldsReached(s, root, known, start, closed, n - 1, y);
    }
  }

  lemma ClosedHoldsAllReached(s: Setting, root: Path, known: set<Path>, start: Path, closed: set<Path>)
    requires start in closed && ClosedBut(s, root, known, closed, [])
    ensures forall x :: Reached(s, root, known, start, x) ==> x in closed
  {
    forall x | Reached(s, root, known, start, x) ensures x in closed {
      var n: nat :| ReachedIn(s, root, known, start, n, x);
      ClosedHoldsReached(s, root, known, start, closed, n, x);
    }
  }

  lemma StartIsReached(s: Setting, root: Path, known: set<Path>, start: Path)
    ensures Reached(s, root, known, start, start)
  {
    assert ReachedIn(s, root, known, start, 0, start);
  }

  /** What still has to be looked at is reached, and stays inside the root and outside the exclusions. */
  ghost predicate PendingOk(s: Setting, root: Path, known: set<Path>, start: Path, pending: seq<Path>) {
    forall p :: p in pending ==> Reached(s, root, known, start, p) && Under(p, root) && !WithinAny(p, s.excluded)
  }

  lemma StartIsPending(s: Setting, root: Path, known: set<Path>, start: Path)
    requires Under(start, root) && !WithinAny(start, s.excluded)
    ensures PendingOk(s, root, known, start, [start])
    ensures ClosedBut(s, root, known, known, [start])
  {
    StartIsReached(s, root, known, start);
  }

  lemma LastIsPending(s: Setting, root: Path, known: set<Path>, start: Path, pending: seq<Path>)
    requires pending != [] && PendingOk(s, root, known, start, pending)
    ensures var last := pending[|pending| - 1];
            Reached(s, root, known, start, last) && Under(last, root) && !WithinAny(last, s.excluded)
    ensures PendingOk(s, root, known, start, pending[..|pending| - 1])
  {
  }

  lemma SubmodulesArePending(s: Setting, root: Path, known: set<Path>, start: Path, y: Path, pending: seq<Path>)
    requires Reached(s, root, known, start, y) && y !in known && PendingOk(s, root, known, start, pending)
    ensures PendingOk(s, root, known, start, pending + Submodules(s, root, y))
  {
    hide Reached, WithinAny;
    forall x | x in Submodules(s, root, y) ensures Reached(s, root, known, start, x) {
      ReachedStep(s, root, known, start, y, x);
    }
  }

  lemma ClosedButLess(s: Setting, root: Path, known: set<Path>, closed: set<Path>, pending: seq<Path>)
    requires pending != [] && ClosedBut(s, root, known, closed, pending)
    ensures var last, less := pending[|pending| - 1], pending[..|pending| - 1];
            if last in closed then ClosedBut(s, root, known, closed, less)
            else ClosedBut(s, root, known, closed + {last}, less + Submodules(s, root, last))
  {
    hide Submodules;
    var last, less := pending[|pending| - 1], pending[..|pending| - 1];
    assert pending == less + [last];
  }

  lemma {:induction false} ReachedFromLess(s: Setting, root: Path, known: set<Path>, start: Path, n: nat, x: Path)
    requires ReachedIn(s, root, known, start, n, x)
    ensures ReachedIn(s, root, {}, start, n, x)
  {
    if n > 0 {
      var y :| LastStep(s, root, known, start, n, y, x);
      ReachedFromLess(s, root, known, start, n - 1, y);
      assert LastStep(s, root, {}, start, n, y, x);
    }
  }

  // ---------- The directory walk ----------

  datatype Dir = Dir(git: bool, children: seq<Child>)
  datatype Child = Child(name: string, link: bool, dir: Dir)

  const IGNORED: set<string> := {
    ".cache", ".dart_tool", ".git", ".gradle", ".runtime", ".venv", "Pods", "build", "coverage", "dist",
    "node_modules", "out", "target", "venv", "worktrees", "wt"
  }

  predicate Retained(s: Setting, current: Path, c: Child) {
    c.name !in IGNORED && !c.link && !WithinAny(current + [c.name], s.excluded)
  }

  /** The walk from `current` comes upon the repository `at`: every directory on the way is retained and has
      no `.git`, and `at` has one. */
  ghost predicate Found(s: Setting, current: Path, dir: Dir, at: Path)
    decreases dir, 1
  {
    if dir.git then at == current
    else exists i :: 0 <= i < |dir.children| && FoundBelow(s, current, dir, i, at)
  }

  ghost predicate FoundBelow(s: Setting, current: Path, dir: Dir, i: nat, at: Path)
    requires i < |dir.children|
    decreases dir, 0
  {
    var c := dir.children[i];
    && c.name !in IGNORED && !c.link && !WithinAny(current + [c.name], s.excluded)
    && Found(s, current + [c.name], c.dir, at)
  }

  lemma {:induction false} FoundIsUnder(s: Setting, current: Path, dir: Dir, at: Path)
    requires Found(s, current, dir, at) && !WithinAny(current, s.excluded)
    ensures Under(at, current) && !WithinAny(at, s.excluded)
    decreases dir
  {
    if !dir.git {
      var i :| 0 <= i < |dir.children| && FoundBelow(s, current, dir, i, at);
      FoundIsUnder(s, current + [dir.children[i].name], dir.children[i].dir, at);
    }
  }

  // ---------- The recorded repositories ----------

  /** Every repository is under its recorded root and outside the excluded paths. */
  predicate Placed(s: Setting, repositories: map<Path, Path>) {
    forall p :: p in repositories ==> Under(p, repositories[p]) && !WithinAny(p, s.excluded)
  }

  /** The admissible submodules of every repository, relative to its own root, are recorded too, and under a
      root that is no longer. */
  predicate Closed(s: Setting, repositories: map<Path, Path>) {
    forall p :: p in repositories ==>
      forall z :: z in Submodules(s, repositories[p], p) ==> z in repositories && |repositories[z]| <= |repositories[p]|
  }

  predicate RootsUpTo(repositories: map<Path, Path>, n: nat) {
    forall p :: p in repositories ==> |repositories[p]| <= n
  }

  /** `after` is `before` with more repositories, all of them under `root`. */
  predicate Extends(before: map<Path, Path>, after: map<Path, Path>, root: Path) {
    && (forall p :: p in before ==> p in after && after[p] == before[p])
    && (forall p :: p in after && p !in before ==> after[p] == root)
  }

  lemma NothingYet(repositories: map<Path, Path>, root: Path)
    ensures Extends(repositories, repositories, root)
  {
  }

  lemma OneMore(repositories: map<Path, Path>, root: Path, p: Path)
    requires p !in repositories
    ensures repositories[p := root].Keys == repositories.Keys + {p}
    ensures |repositories[p := root]| == |repositories| + 1
  {
  }

  lemma ExtendsByOne(before: map<Path, Path>, repositories: map<Path, Path>, root: Path, p: Path)
    requires Extends(before, repositories, root) && p !in repositories
    ensures Extends(before, repositories[p := root], root) && p !in before
  {
  }

  lemma PlacedByOne(s: Setting, repositories: map<Path, Path>, root: Path, p: Path)
    requires Placed(s, repositories) && Under(p, root) && !WithinAny(p, s.excluded)
    ensures Placed(s, repositories[p := root])
  {
    hide WithinAny;
  }

  lemma ExtendsExtends(a: map<Path, Path>, b: map<Path, Path>, c: map<Path, Path>, root: Path)
    requires Extends(a, b, root) && Extends(b, c, root)
    ensures Extends(a, c, root)
    ensures forall p :: p in a ==> p in b
    ensures forall p :: p in b ==> p in c
  {
  }

  lemma ExtendsUpTo(before: map<Path, Path>, after: map<Path, Path>, root: Path)
    requires Extends(before, after, root) && RootsUpTo(before, |root|)
    ensures RootsUpTo(after, |root|)
  {
  }

  lemma ClosedAgain(s: Setting, before: map<Path, Path>, after: map<Path, Path>, root: Path)
    requires Closed(s, before) && RootsUpTo(before, |root|) && Extends(before, after, root)
        && ClosedBut(s, root, before.Keys, after.Keys, [])
    ensures Closed(s, after)
  {
    hide Submodules;
  }

  class Discoverer {
    const setting: Setting
    var repositories: map<Path, Path>

    constructor (setting: Setting)
      ensures this.setting == setting && repositories == map[]
    {
      this.setting := setting;
      repositories := map[];
    }

    /** Records a repository and whatever is reached from it through submodules, cycles included: exactly
        that when the limit allows, and a repository too many when it does not. */
    method RecordRepository(path: Path, root: Path) returns (ok: bool)
      requires |repositories| <= setting.limit
      requires Under(path, root) && !WithinAny(path, setting.excluded)
      modifies this
      ensures Extends(old(repositories), repositories, root)
      ensures ok <==> |repositories| <= setting.limit
      ensures forall p :: p in repositories && p !in old(repositories) ==>
                Reached(setting, root, old(repositories.Keys), path, p)
      ensures ok ==> forall p :: p in repositories <==>
                p in old(repositories) || Reached(setting, root, old(repositories.Keys), path, p)
      ensures old(Placed(setting, repositories)) ==> Placed(setting, repositories)
      ensures ok && old(Closed(setting, repositories) && RootsUpTo(repositories, |root|)) ==>
          Closed(setting, repositories)
    {
      hide Reached, Submodules, WithinAny, PendingOk, ClosedBut, Extends, Placed, Closed, RootsUpTo;
      ghost var known := repositories.Keys;
      var pending := [path];
      StartIsReached(setting, root, known, path);
      StartIsPending(setting, root, known, path);
      NothingYet(repositories, root);
      while pending != []
        invariant Extends(old(repositories), repositories, root)
        invariant |repositories| <= setting.limit
        invariant path in repositories || path in pending
        invariant forall p :: p in repositories && p !in known ==> Reached(setting, root, known, path, p)
        invariant PendingOk(setting, root, known, path, pending)
        invariant ClosedBut(setting, root, known, repositories.Keys, pending)
        invariant old(Placed(setting, repositories)) ==> Placed(setting, repositories)
        decreases setting.limit - |repositories|, |pending|
      {
        var repository := pending[|pending| - 1];
        LastIsPending(setting, root, known, path, pending);
        ClosedButLess(setting, root, known, repositories.Keys, pending);
        pending := pending[..|pending| - 1];
        if repository in repositories {
          continue;
        }
        OneMore(repositories, root, repository);
        ExtendsByOne(old(repositories), repositories, root, repository);
        if Placed(setting, repositories) {
          PlacedByOne(setting, repositories, root, repository);
        }
        SubmodulesArePending(setting, root, known, path, repository, pending);
        repositories := repositories[repository := root];
        if |repositories| > setting.limit {
          return false;
        }
        pending := pending + Submodules(setting, root, repository);
      }
      ClosedHoldsAllReached(setting, root, known, path, repositories.Keys);
      ExtendsExtends(old(repositories), old(repositories), repositories, root);
      if old(Closed(setting, repositories) && RootsUpTo(repositories, |root|)) {
        ClosedAgain(setting, old(repositories), repositories, root);
      }
      ok := true;
    }

    /** `os.walk` from one directory down, with the pruning that discovery does. */
    method Walk(root: Path, current: Path, dir: Dir) returns (ok: bool)
      requires |repositories| <= setting.limit && Under(current, root)
      modifies this
      ensures Extends(old(repositories), repositories, root)
      ensures ok <==> |repositories| <= setting.limit
      ensures forall p :: p in repositories && p !in old(repositories) ==> ComesFrom(setting, root, current, dir, p)
      ensures ok && !WithinAny(current, setting.excluded) ==> forall at :: Found(setting, current, dir, at) ==>
          at in repositories
      ensures old(Placed(setting, repositories)) ==> Placed(setting, repositories)
      ensures ok && old(Closed(setting, repositories) && RootsUpTo(repositories, |root|)) ==>
          Closed(setting, repositories)
      decreases dir
    {
      hide WithinAny, Submodules, Reached, Retained, Extends, Placed, Closed, RootsUpTo, ComesFrom, FoundBelow;
      NothingYet(repositories, root);
      if WithinAny(current, setting.excluded) {
        return true;
      }
      if dir.git {
        ok := RecordRepository(current, root);
        StartIsReached(setting, root, old(repositories.Keys), current);
        forall p | p in repositories && p !in old(repositories) ensures ComesFrom(setting, root, current, dir, p) {
          ReachedFromFound(setting, root, old(repositories.Keys), current, dir, current, p);
        }
        return;
      }
      for i := 0 to |dir.children|
        invariant Extends(old(repositories), repositories, root)
        invariant |repositories| <= setting.limit
        invariant forall p :: p in repositories && p !in old(repositories) ==> ComesFrom(setting, root, current, dir, p)
        invariant forall j, at :: 0 <= j < i && FoundBelow(setting, current, dir, j, at) ==> at in repositories
        invariant old(Placed(setting, repositories)) ==> Placed(setting, repositories)
        invariant old(Closed(setting, repositories) && RootsUpTo(repositories, |root|)) ==>
                    Closed(setting, repositories) && RootsUpTo(repositories, |root|)
      {
        var c := dir.children[i];
        ghost var before := repositories;
        NothingYet(before, root);
        if Retained(setting, current, c) {
          ok := Walk(root, current + [c.name], c.dir);
          ExtendsExtends(old(repositories), before, repositories, root);
          forall p | p in repositories && p !in before ensures ComesFrom(setting, root, current, dir, p) {
            ComesFromChild(setting, root, current, dir, i, p);
          }
          if !ok {
            return;
          }
        }
        ExtendsExtends(old(repositories), before, repositories, root);
        if RootsUpTo(before, |root|) {
          ExtendsUpTo(before, repositories, root);
        }
        ChildIsFound(setting, current, dir, i);
      }
      ok := true;
    }
  }

  lemma ChildIsFound(s: Setting, current: Path, dir: Dir, i: nat)
    requires i < |dir.children|
    ensures var c := dir.children[i];
            Retained(s, current, c) ==>
              && !WithinAny(current + [c.name], s.excluded)
              && forall at :: FoundBelow(s, current, dir, i, at) ==> Found(s, current + [c.name], c.dir, at)
    ensures !Retained(s, current, dir.children[i]) ==> forall at :: !FoundBelow(s, current, dir, i, at)
  {
  }

  /** The walk finds a repository from which `p` is reached. */
  ghost predicate ComesFrom(s: Setting, root: Path, current: Path, dir: Dir, p: Path) {
    exists at :: Found(s, current, dir, at) && Reached(s, root, {}, at, p)
  }

  lemma ReachedFromFound(s: Setting, root: Path, known: set<Path>, current: Path, dir: Dir, at: Path, p: Path)
    requires Found(s, current, dir, at) && Reached(s, root, known, at, p)
    ensures ComesFrom(s, root, current, dir, p)
  {
    var n: nat :| ReachedIn(s, root, known, at, n, p);
    ReachedFromLess(s, root, known, at, n, p);
  }

  lemma ComesFromChild(s: Setting, root: Path, current: Path, dir: Dir, i: nat, p: Path)
    requires i < |dir.children| && !dir.git && Retained(s, current, dir.children[i])
    requires ComesFrom(s, root, current + [dir.children[i].name], dir.children[i].dir, p)
    ensures ComesFrom(s, root, current, dir, p)
  {
    var at :| Found(s, current + [dir.children[i].name], dir.children[i].dir, at) && Reached(s, root, {}, at, p);
    assert FoundBelow(s, current, dir, i, at);
    assert Found(s, current, dir, at);
  }

  // ---------- discover_git_repositories ----------

  datatype Root = Root(path: Path, dir: Dir)

  /** A repository that discovery is meant to give: the walk of an authorised root finds it, or finds one
      from which it is reached through submodules. */
  ghost predicate Belongs(s: Setting, root: Root, p: Path) {
    !WithinAny(root.path, s.excluded) && ComesFrom(s, root.path, root.path, root.dir, p)
  }

  ghost predicate BelongsToAny(s: Setting, roots: seq<Root>, p: Path) {
    exists i :: 0 <= i < |roots| && Belongs(s, roots[i], p)
  }

  ghost predicate AllBelong(s: Setting, roots: seq<Root>, paths: set<Path>) {
    forall p :: p in paths ==> BelongsToAny(s, roots, p)
  }

  predicate ShortestFirst(roots: seq<Root>) {
    forall i, j :: 0 <= i < j < |roots| ==> |roots[i].path| <= |roots[j].path|
  }

  /** A submodule that is admissible below a root is admissible below any root above it. */
  lemma AdmissibleAbove(s: Setting, above: Path, below: Path, y: Path, x: Path)
    requires Under(below, above) && x in Submodules(s, below, y)
    ensures x in Submodules(s, above, y)
  {
    var e :| e in s.modules(y) && e.path == x && Admissible(s, below, e);
    assert Admissible(s, above, e);
  }

  /** Whatever root a repository was recorded under, everything reached from it below a root that is no
      shorter is recorded as well. */
  lemma {:induction false} ReachedIsRecorded(s: Setting, repositories: map<Path, Path>, root: Path, at: Path, n: nat,
      x: Path)
    requires Placed(s, repositories) && Closed(s, repositories)
    requires at in repositories && |repositories[at]| <= |root| && Under(at, root)
    requires ReachedIn(s, root, {}, at, n, x)
    ensures x in repositories && |repositories[x]| <= |root| && Under(x, root)
  {
    if n > 0 {
      hide Submodules;
      var y :| LastStep(s, root, {}, at, n, y, x);
      ReachedIsRecorded(s, repositories, root, at, n - 1, y);
      AdmissibleAbove(s, repositories[y], root, y, x);
      SubmodulesAreUnder(s, root, y, x);
    }
  }

  lemma SubmodulesAreUnder(s: Setting, root: Path, y: Path, x: Path)
    requires x in Submodules(s, root, y)
    ensures Under(x, root)
  {
  }

  /** Every repository that belongs to one of the first `i` roots is recorded. */
  ghost predicate Covers(s: Setting, roots: seq<Root>, i: nat, repositories: map<Path, Path>)
    requires i <= |roots|
  {
    forall j, p :: 0 <= j < i && Belongs(s, roots[j], p) ==> p in repositories
  }

  /** Of the first `i` roots, the `j`-th is the first that the repository belongs to. */
  ghost predicate FirstRoot(s: Setting, roots: seq<Root>, i: nat, p: Path, j: nat)
    requires i <= |roots|
  {
    j < i && Belongs(s, roots[j], p) && forall k :: 0 <= k < j ==> !Belongs(s, roots[k], p)
  }

  /** Every repository is recorded under the first root that it belongs to. */
  ghost predicate RecordedUnder(s: Setting, roots: seq<Root>, i: nat, repositories: map<Path, Path>)
    requires i <= |roots|
  {
    forall p :: p in repositories ==> exists j: nat :: FirstRoot(s, roots, i, p, j) && repositories[p] == roots[j].path
  }

  lemma EarlierRootsAreShorter(s: Setting, roots: seq<Root>, i: nat, repositories: map<Path, Path>)
    requires i < |roots| && ShortestFirst(roots) && RecordedUnder(s, roots, i, repositories)
    ensures RootsUpTo(repositories, |roots[i].path|)
  {
    hide Belongs;
    forall p | p in repositories ensures |repositories[p]| <= |roots[i].path| {
      var j: nat :| FirstRoot(s, roots, i, p, j) && repositories[p] == roots[j].path;
    }
  }

  /** What one more root adds. */
  lemma RootAdds(s: Setting, roots: seq<Root>, i: nat, before: map<Path, Path>, after: map<Path, Path>)
    requires i < |roots| && !WithinAny(roots[i].path, s.excluded) && Extends(before, after, roots[i].path)
    requires forall p :: p in after && p !in before ==> ComesFrom(s, roots[i].path, roots[i].path, roots[i].dir, p)
    requires AllBelong(s, roots, before.Keys) && RecordedUnder(s, roots, i, before) && Covers(s, roots, i, before)
    ensures AllBelong(s, roots, after.Keys) && RecordedUnder(s, roots, i + 1, after)
  {
    hide ComesFrom, WithinAny;
    forall p | p in after ensures BelongsToAny(s, roots, p) {
      if p !in before {
        assert Belongs(s, roots[i], p);
      }
    }
  }

  lemma RootIsCovered(s: Setting, roots: seq<Root>, i: nat, before: map<Path, Path>, after: map<Path, Path>)
    requires i < |roots| && Extends(before, after, roots[i].path) && Covers(s, roots, i, before)
    requires Placed(s, after) && Closed(s, after) && RootsUpTo(after, |roots[i].path|)
    requires forall at :: Found(s, roots[i].path, roots[i].dir, at) ==> at in after
    ensures Covers(s, roots, i + 1, after)
  {
    hide Closed, Reached, Found, Extends, Placed;
    ExtendsKeeps(before, after, roots[i].path);
    forall j, p | 0 <= j < i + 1 && Belongs(s, roots[j], p) ensures p in after {
      if j == i {
        AllReachedAreRecorded(s, after, roots[i], p);
      }
    }
  }

  lemma ExtendsKeeps(before: map<Path, Path>, after: map<Path, Path>, root: Path)
    requires Extends(before, after, root)
    ensures forall p :: p in before ==> p in after
  {
  }

  lemma AllReachedAreRecorded(s: Setting, repositories: map<Path, Path>, root: Root, p: Path)
    requires Placed(s, repositories) && Closed(s, repositories) && RootsUpTo(repositories, |root.path|)
    requires forall at :: Found(s, root.path, root.dir, at) ==> at in repositories
    requires Belongs(s, root, p)
    ensures p in repositories
  {
    hide Closed, Placed, Found;
    var at :| Found(s, root.path, root.dir, at) && Reached(s, root.path, {}, at, p);
    var n: nat :| ReachedIn(s, root.path, {}, at, n, p);
    FoundIsUnder(s, root.path, root.dir, at);
    ReachedIsRecorded(s, repositories, root.path, at, n, p);
  }

  lemma ExcludedRootIsCovered(s: Setting, roots: seq<Root>, i: nat, repositories: map<Path, Path>)
    requires i < |roots| && WithinAny(roots[i].path, s.excluded)
    requires Covers(s, roots, i, repositories) && RecordedUnder(s, roots, i, repositories)
    ensures Covers(s, roots, i + 1, repositories) && RecordedUnder(s, roots, i + 1, repositories)
  {
  }

  /** Discovery gives exactly the repositories that belong to an authorised root, each under the first root
      that it belongs to; it refuses exactly when there are more of them than the limit. */
  method Discover(setting: Setting, roots: seq<Root>) returns (ok: bool, repositories: map<Path, Path>)
    requires ShortestFirst(roots)
    ensures AllBelong(setting, roots, repositories.Keys)
    ensures ok <==> |repositories| <= setting.limit
    ensures ok ==> Placed(setting, repositories) && Closed(setting, repositories)
    ensures ok ==> forall p :: p in repositories <==> BelongsToAny(setting, roots, p)
    ensures ok ==> RecordedUnder(setting, roots, |roots|, repositories)
  {
    hide Placed, Closed, AllBelong, RecordedUnder, RootsUpTo, Covers, Extends, WithinAny, ComesFrom, Found;
    var discoverer := new Discoverer(setting);
    NothingRecorded(setting, roots);
    assert discoverer.repositories.Keys == {};
    for i := 0 to |roots|
      invariant discoverer.setting == setting && |discoverer.repositories| <= setting.limit
      invariant Placed(setting, discoverer.repositories) && Closed(setting, discoverer.repositories)
      invariant AllBelong(setting, roots, discoverer.repositories.Keys)
      invariant Covers(setting, roots, i, discoverer.repositories)
      invariant RecordedUnder(setting, roots, i, discoverer.repositories)
    {
      var root := roots[i];
      ghost var before := discoverer.repositories;
      if WithinAny(root.path, setting.excluded) {
        ExcludedRootIsCovered(setting, roots, i, before);
      } else {
        ok := discoverer.Walk(root.path, root.path, root.dir);
        RootAdds(setting, roots, i, before, discoverer.repositories);
        if !ok {
          return false, discoverer.repositories;
        }
        EarlierRootsAreShorter(setting, roots, i, before);
        ExtendsUpTo(before, discoverer.repositories, root.path);
        RootIsCovered(setting, roots, i, before, discoverer.repositories);
      }
    }
    ok, repositories := true, discoverer.repositories;
    ExactlyThoseThatBelong(setting, roots, repositories);
  }

  lemma NothingRecorded(s: Setting, roots: seq<Root>)
    ensures Placed(s, map[]) && Closed(s, map[]) && AllBelong(s, roots, {})
    ensures Covers(s, roots, 0, map[]) && RecordedUnder(s, roots, 0, map[])
  {
  }

  lemma ExactlyThoseThatBelong(s: Setting, roots: seq<Root>, repositories: map<Path, Path>)
    requires AllBelong(s, roots, repositories.Keys) && Covers(s, roots, |roots|, repositories)
    ensures forall p :: p in repositories <==> BelongsToAny(s, roots, p)
  {
    hide Belongs;
  }
}
