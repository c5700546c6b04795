/** The part of git that the worktree life cycle relies on: a commit graph, branches, the checkout of
    the project directory, and linked worktrees. Commits are numbered in the order in which they are
    made, so a parent always has a smaller number than its child. */
module Git {

  type CommitId = nat

  /** The tracked and untracked, but not ignored, files of a commit or of a worktree. */
  type Tree = map<string, string>

  datatype Commit = Commit(parents: seq<CommitId>, tree: Tree)

  type Graph = seq<Commit>

  /** What the project directory has checked out. */
  datatype Head = OnBranch(branch: string) | Detached(commit: CommitId)

  /** `runtime_root / project_id / task_id`, kept as its two variable components. */
  datatype WorktreePath = WorktreePath(projectId: string, taskId: string)

  datatype Worktree = Worktree(branch: string, files: Tree)

  datatype Repo = Repo(
    graph: Graph,
    branches: map<string, CommitId>,
    head: Head,
    dirty: bool,
    worktrees: map<WorktreePath, Worktree>)

  // ---------- The commit graph ----------

  ghost predicate Acyclic(g: Graph) {
    forall c, k :: 0 <= c < |g| && 0 <= k < |g[c].parents| ==> g[c].parents[k] < c
  }

  /** Commit `a` is `c` itself or an ancestor of `c`. */
  predicate Reaches(g: Graph, c: CommitId, a: CommitId)
    decreases c
  {
    c < |g| &&
    (a == c || exists k :: 0 <= k < |g[c].parents| && g[c].parents[k] < c && Reaches(g, g[c].parents[k], a))
  }

  lemma {:induction false} ReachesIsOlder(g: Graph, c: CommitId, a: CommitId)
    requires Reaches(g, c, a)
    ensures a <= c < |g|
    decreases c
  {
    if a != c {
      var k :| 0 <= k < |g[c].parents| && g[c].parents[k] < c && Reaches(g, g[c].parents[k], a);
      ReachesIsOlder(g, g[c].parents[k], a);
    }
  }

  lemma {:induction false} ReachesIsTransitive(g: Graph, c: CommitId, b: CommitId, a: CommitId)
    requires Reaches(g, c, b) && Reaches(g, b, a)
    ensures Reaches(g, c, a)
    decreases c
  {
    if b != c {
      var k :| 0 <= k < |g[c].parents| && g[c].parents[k] < c && Reaches(g, g[c].parents[k], b);
      ReachesIsTransitive(g, g[c].parents[k], b, a);
    }
  }

  /** New commits change nothing about the ancestry of the old ones. */
  lemma {:induction false} ReachesSurvivesGrowth(g: Graph, g': Graph, c: CommitId, a: CommitId)
    requires g <= g' && c < |g|
    ensures Reaches(g', c, a) == Reaches(g, c, a)
    decreases c
  {
    assert g'[c] == g[c];
    forall k | 0 <= k < |g[c].parents| && g[c].parents[k] < c
      ensures Reaches(g', g[c].parents[k], a) == Reaches(g, g[c].parents[k], a)
    {
      ReachesSurvivesGrowth(g, g', g[c].parents[k], a);
    }
  }

  // ---------- Counting changes ----------

  predicate Differs(before: Tree, after: Tree, path: string) {
    (path in before) != (path in after) || (path in before && before[path] != after[path])
  }

  function Changed(before: Tree, after: Tree): set<string> {
    set p | p in before.Keys + after.Keys && Differs(before, after, p)
  }

  function Deleted(before: Tree, after: Tree): set<string> {
    set p | p in before && p !in after
  }

  lemma SubsetIsNoLarger<T>(small: set<T>, large: set<T>)
    requires small <= large
    ensures |small| <= |large|
  {
    assert large == small + (large - small);
  }

  lemma ChangesCompose(a: Tree, b: Tree, c: Tree)
    ensures |Changed(a, c)| <= |Changed(a, b)| + |Changed(b, c)|
    ensures |Deleted(a, c)| <= |Deleted(a, b)| + |Deleted(b, c)|
  {
    SubsetIsNoLarger(Changed(a, c), Changed(a, b) + Changed(b, c));
    SubsetIsNoLarger(Deleted(a, c), Deleted(a, b) + Deleted(b, c));
  }

  // ---------- Repositories ----------

  /** A branch that some linked worktree has checked out; git then refuses it to every other checkout. */
  predicate Held(r: Repo, branch: string) {
    exists w :: w in r.worktrees && r.worktrees[w].branch == branch
  }

  ghost predicate RepoOk(r: Repo) {
    && Acyclic(r.graph)
    && (forall b :: b in r.branches ==> r.branches[b] < |r.graph|)
    && (match r.head
        case OnBranch(b) => b in r.branches && !Held(r, b)
        case Detached(c) => c < |r.graph|)
    && (forall w :: w in r.worktrees ==> r.worktrees[w].branch in r.branches)
    && (forall w, v :: w in r.worktrees && v in r.worktrees && r.worktrees[w].branch == r.worktrees[v].branch ==>
        w == v)
  }

  function HeadCommit(r: Repo): (c: CommitId)
    requires RepoOk(r)
    ensures c < |r.graph|
  {
    match r.head
    case OnBranch(b) => r.branches[b]
    case Detached(c) => c
  }

  function TipTree(r: Repo, branch: string): Tree
    requires RepoOk(r) && branch in r.branches
  {
    r.graph[r.branches[branch]].tree
  }

  predicate Clean(r: Repo, path: WorktreePath)
    requires RepoOk(r) && path in r.worktrees
  {
    r.worktrees[path].files == TipTree(r, r.worktrees[path].branch)
  }

  // ---------- Commands of the governor ----------

  /** `git worktree add -b branch path base`: the new branch starts at the tip `base` has right now. */
  function WorktreeAdd(r: Repo, path: WorktreePath, branch: string, base: string): (r': Repo)
    requires RepoOk(r) && base in r.branches && branch !in r.branches && path !in r.worktrees
    ensures RepoOk(r')
  {
    r.(branches := r.branches[branch := r.branches[base]],
       worktrees := r.worktrees[path := Worktree(branch, TipTree(r, base))])
  }

  /** `git add --all` and `git commit` in a worktree. */
  function CommitAll(r: Repo, path: WorktreePath): (r': Repo)
    requires RepoOk(r) && path in r.worktrees
    ensures RepoOk(r') && r.graph <= r'.graph
  {
    var w := r.worktrees[path];
    r.(graph := r.graph + [Commit([r.branches[w.branch]], w.files)],
       branches := r.branches[w.branch := |r.graph|])
  }

  /** `git merge --ff-only` moves HEAD only along ancestry, in one direction or not at all. */
  predicate CanFastForward(r: Repo, branch: string)
    requires RepoOk(r) && branch in r.branches
  {
    || Reaches(r.graph, HeadCommit(r), r.branches[branch])
    || Reaches(r.graph, r.branches[branch], HeadCommit(r))
  }

  function MergeFastForward(r: Repo, branch: string): (r': Repo)
    requires RepoOk(r) && branch in r.branches && CanFastForward(r, branch)
    ensures RepoOk(r') && r'.graph == r.graph
  {
    if Reaches(r.graph, HeadCommit(r), r.branches[branch]) then r  // already up to date
    else
      match r.head
      case OnBranch(b) => r.(branches := r.branches[b := r.branches[branch]])
      case Detached(_) => r.(head := Detached(r.branches[branch]))
  }

  /** `git worktree remove` without force. */
  function WorktreeRemove(r: Repo, path: WorktreePath): (r': Repo)
    requires RepoOk(r) && path in r.worktrees
    ensures RepoOk(r') && r'.graph == r.graph
  {
    r.(worktrees := r.worktrees - {path})
  }

  /** `git branch -d` refuses a branch that is checked out or whose tip is not contained in HEAD. */
  predicate CanDelete(r: Repo, branch: string)
    requires RepoOk(r)
  {
    && branch in r.branches
    && r.head != OnBranch(branch)
    && !Held(r, branch)
    && Reaches(r.graph, HeadCommit(r), r.branches[branch])
  }

  function BranchDelete(r: Repo, branch: string): (r': Repo)
    requires RepoOk(r) && CanDelete(r, branch)
    ensures RepoOk(r') && r'.graph == r.graph
  {
    r.(branches := r.branches - {branch})
  }

  function EditFiles(r: Repo, path: WorktreePath, files: Tree): (r': Repo)
    requires RepoOk(r) && path in r.worktrees
    ensures RepoOk(r') && r'.graph == r.graph
  {
    r.(worktrees := r.worktrees[path := r.worktrees[path].(files := files)])
  }

  // ---------- Everybody else ----------

  /** Outsiders add commits, move branches forward, create branches, switch the project checkout and
      edit it. They rewrite no history, delete no branch and stay out of the governor's worktrees. */
  datatype Move =
    | Append(branch: string, others: seq<CommitId>, tree: Tree)
    | AppendDetached(tree: Tree)
    | Forward(branch: string, target: CommitId)
    | Fork(branch: string, at: CommitId)
    | Switch(head: Head)
    | Touch(dirty: bool)

  predicate CanMove(r: Repo, m: Move) {
    match m
    case Append(b, others, _) => b in r.branches && !Held(r, b) && forall k :: 0 <= k < |others| ==>
        others[k] < |r.graph|
    case AppendDetached(_) => r.head.Detached?
    case Forward(b, target) => b in r.branches && !Held(r, b) && Reaches(r.graph, target, r.branches[b])
    case Fork(b, at) => b !in r.branches && at < |r.graph|
    case Switch(OnBranch(b)) => b in r.branches && !Held(r, b)
    case Switch(Detached(c)) => c < |r.graph|
    case Touch(_) => true
  }

  function MoveBy(r: Repo, m: Move): (r': Repo)
    requires RepoOk(r) && CanMove(r, m)
    ensures RepoOk(r') && r.graph <= r'.graph
  {
    match m
    case Append(b, others, tree) =>
      r.(graph := r.graph + [Commit([r.branches[b]] + others, tree)], branches := r.branches[b := |r.graph|])
    case AppendDetached(tree) =>
      r.(graph := r.graph + [Commit([r.head.commit], tree)], head := Detached(|r.graph|))
    case Forward(b, target) =>
      ReachesIsOlder(r.graph, target, r.branches[b]);
      r.(branches := r.branches[b := target])
    case Fork(b, at) => r.(branches := r.branches[b := at])
    case Switch(h) => r.(head := h)
    case Touch(d) => r.(dirty := d)
  }

  ghost predicate CanBecome(r: Repo, r': Repo)
    requires RepoOk(r)
  {
    exists m :: CanMove(r, m) && MoveBy(r, m) == r'
  }

  lemma MoveBecomes(r: Repo, m: Move)
    requires RepoOk(r) && CanMove(r, m)
    ensures CanBecome(r, MoveBy(r, m))
  {
  }

  /** Outsiders can bring about each of these at any time, for a branch that no linked worktree holds. */
  lemma OutsidersCan(r: Repo, b: string, others: seq<CommitId>, tree: Tree, c: CommitId, dirty: bool)
    requires RepoOk(r) && c < |r.graph| && forall k :: 0 <= k < |others| ==> others[k] < |r.graph|
    ensures CanBecome(r, r.(dirty := dirty)) && CanBecome(r, r.(head := Detached(c)))
    ensures b !in r.branches ==> CanBecome(r, r.(branches := r.branches[b := c]))
    ensures b in r.branches && !Held(r, b) ==>
              && CanBecome(r, r.(head := OnBranch(b)))
              && CanBecome(r, r.(graph := r.graph + [Commit([r.branches[b]] + others, tree)],
                                 branches := r.branches[b := |r.graph|]))
              && (Reaches(r.graph, c, r.branches[b]) ==> CanBecome(r, r.(branches := r.branches[b := c])))
    ensures r.head.Detached? ==>
              CanBecome(r, r.(graph := r.graph + [Commit([r.head.commit], tree)], head := Detached(|r.graph|)))
  {
    hide CanBecome, RepoOk;
    MoveBecomes(r, Touch(dirty));
    MoveBecomes(r, Switch(Detached(c)));
    if b !in r.branches {
      MoveBecomes(r, Fork(b, c));
    } else if !Held(r, b) {
      MoveBecomes(r, Switch(OnBranch(b)));
      MoveBecomes(r, Append(b, others, tree));
      if Reaches(r.graph, c, r.branches[b]) {
        MoveBecomes(r, Forward(b, c));
      }
    }
    if r.head.Detached? {
      MoveBecomes(r, AppendDetached(tree));
    }
  }
}
