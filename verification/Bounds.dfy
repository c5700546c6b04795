/** How much a merge lands: exactly when it keeps the limits, and that the bound over several attempts is
    reached. */
module Bounds {
  import opened Git
  import opened Protocol
  import opened Guarantees
  import opened Scenarios

  // ---------- When a merge keeps the limits ----------

  /** The base branch is checked out and where it was when the work began. */
  ghost predicate BaseUnmoved(r: Repo, k: Ticket) {
    r.head == OnBranch(k.baseBranch) && k.baseBranch in r.branches && r.branches[k.baseBranch] == k.baseCommit
  }

  /** What a merge changes on the unmoved base branch is the difference between the recorded base commit and
      the last commit of the task. */
  lemma LandsFromBase(s: Sys, p: Pid)
    requires Inv(s) && p in s.tasks && s.tasks[p].pc == Merging && BaseUnmoved(s.repo, s.tasks[p].ticket)
    requires BranchOf(s.tasks[p].ticket) in s.repo.branches
    requires s.repo.branches[BranchOf(s.tasks[p].ticket)] == Tip(s.tasks[p])
    ensures Can(s, Act(p, Merge))
    ensures var r, r', k := s.repo, Do(s, Act(p, Merge)).repo, s.tasks[p].ticket;
            && k.baseCommit < |r.graph| && Tip(s.tasks[p]) < |r.graph|
            && TipTree(r, k.baseBranch) == r.graph[k.baseCommit].tree
            && k.baseBranch in r'.branches && TipTree(r', k.baseBranch) == r.graph[Tip(s.tasks[p])].tree
  {
    hide Within, MadeOk, Distinct;
    CommittedWorkStartsAtBase(s, p);
    InvMeansRepoOk(s);
    OlderIsNoDescendant(s.repo.graph, Tip(s.tasks[p]), s.tasks[p].ticket.baseCommit);
  }

  lemma OlderIsNoDescendant(g: Graph, c: CommitId, a: CommitId)
    requires Reaches(g, c, a)
    ensures Reaches(g, a, c) ==> a == c
  {
    ReachesIsOlder(g, c, a);
    if Reaches(g, a, c) {
      ReachesIsOlder(g, a, c);
    }
  }

  /** The work of a task that is about to commit, compared with the recorded base commit. */
  ghost predicate WithinFromBase(s: Sys, p: Pid)
    requires RepoOk(s.repo) && p in s.tasks && PathOf(s.tasks[p].ticket) in s.repo.worktrees
  {
    var k := s.tasks[p].ticket;
    k.baseCommit < |s.repo.graph|
        && Within(s.limits, s.repo.graph[k.baseCommit].tree, s.repo.worktrees[PathOf(k)].files)
  }

  /** What `Merge` changes on the base branch is within the limits. */
  ghost predicate LandsWithin(s: Sys, p: Pid)
    requires RepoOk(s.repo) && Can(s, Act(p, Merge)) && s.tasks[p].ticket.baseBranch in s.repo.branches
  {
    var base, r' := s.tasks[p].ticket.baseBranch, Do(s, Act(p, Merge)).repo;
    base in r'.branches && Within(s.limits, TipTree(s.repo, base), TipTree(r', base))
  }

  lemma CommitHoldsTheWork(s: Sys, p: Pid)
    requires Inv(s) && Can(s, Act(p, CommitWork))
    ensures var s1 := Do(s, Act(p, CommitWork));
            && p in s.tasks && p in s1.tasks && s1.tasks[p].pc == Merging && s1.tasks[p].ticket == s.tasks[p].ticket
            && PathOf(s.tasks[p].ticket) in s.repo.worktrees
            && Tip(s1.tasks[p]) == |s.repo.graph| < |s1.repo.graph|
            && s1.repo.graph[|s.repo.graph|].tree == s.repo.worktrees[PathOf(s.tasks[p].ticket)].files
            && s1.limits == s.limits && s.repo.graph <= s1.repo.graph
  {
    hide Within, Inv, RepoOk;
    InvMeansRepoOk(s);
  }

  lemma MergingEndsInTip(s: Sys, p: Pid)
    requires Inv(s) && p in s.tasks && s.tasks[p].pc == Merging
    ensures var k := s.tasks[p].ticket;
            && k.baseBranch in s.repo.branches && k.baseCommit < |s.repo.graph|
            && BranchOf(k) in s.repo.branches && s.repo.branches[BranchOf(k)] == Tip(s.tasks[p])
  {
    hide Within, MadeOk, Distinct;
    CommittedWorkStartsAtBase(s, p);
  }

  /** However many attempts were made: what a task that is about to commit will land on the unmoved base
      branch is within the limits exactly when its work is within them against the recorded base commit,
      and not only against the tip of its own branch, whatever others do before the merge. */
  lemma LandsWithinLimitsIff(s: Sys, p: Pid, es: seq<Event>)
    requires Inv(s) && Can(s, Act(p, CommitWork)) && PathOf(s.tasks[p].ticket) in s.repo.worktrees
    requires Runs(Do(s, Act(p, CommitWork)), es) && forall i :: 0 <= i < |es| ==> !By(es[i], p)
    requires BaseUnmoved(Exec(Do(s, Act(p, CommitWork)), es).repo, s.tasks[p].ticket)
    ensures var end := Exec(Do(s, Act(p, CommitWork)), es);
            && Can(end, Act(p, Merge)) && end.tasks[p].ticket.baseBranch in end.repo.branches
            && (LandsWithin(end, p) <==> WithinFromBase(s, p))
  {
    hide Inv, Within, Can, CanStep, Do, RepoOk, Runs, Exec, LandsWithin, BaseUnmoved;
    InvMeansRepoOk(s);
    var s1 := Do(s, Act(p, CommitWork));
    CommitHoldsTheWork(s, p);
    StepKeepsInv(s, Act(p, CommitWork));
    OthersKeepCallOver(s1, es, p);
    LimitsAreFixed(s1, es);
    var end := Exec(s1, es);
    MergingEndsInTip(end, p);
    MergingEndsInTip(s1, p);
    LandsWithinMeans(end, p);
    BaseIsOld(s, p);
    var g, g' := s.repo.graph, end.repo.graph;
    assert g'[s.tasks[p].ticket.baseCommit] == g[s.tasks[p].ticket.baseCommit];
    assert g'[|g|] == s1.repo.graph[|g|];
  }

  lemma LandsWithinMeans(s: Sys, p: Pid)
    requires Inv(s) && p in s.tasks && s.tasks[p].pc == Merging && BaseUnmoved(s.repo, s.tasks[p].ticket)
    ensures Can(s, Act(p, Merge)) && s.tasks[p].ticket.baseBranch in s.repo.branches
    ensures var g, k := s.repo.graph, s.tasks[p].ticket;
            && k.baseCommit < |g| && Tip(s.tasks[p]) < |g|
            && (LandsWithin(s, p) <==> Within(s.limits, g[k.baseCommit].tree, g[Tip(s.tasks[p])].tree))
  {
    hide Inv, Within, Can, CanStep, Do, RepoOk;
    InvMeansRepoOk(s);
    MergingEndsInTip(s, p);
    LandsFromBase(s, p);
  }

  lemma BaseIsOld(s: Sys, p: Pid)
    requires Inv(s) && Can(s, Act(p, CommitWork))
    ensures s.tasks[p].ticket.baseCommit < |s.repo.graph|
  {
    hide Within, MadeOk, Distinct;
    assert TaskOk(s.repo, s.limits, s.tasks[p]);
    ReachesIsOlder(s.repo.graph, s.tasks[p].start, s.tasks[p].ticket.baseCommit);
  }

  // ---------- The bound is reached ----------

  /** A name for every number. */
  function Name(i: nat): (s: string)
    ensures |s| == i
  {
    seq(i, _ => 'f')
  }

  function NamesFrom(lo: nat, hi: nat): set<string> {
    set i | lo <= i < hi :: Name(i)
  }

  lemma {:induction false} SizeOfNames(lo: nat, hi: nat)
    requires lo <= hi
    ensures |NamesFrom(lo, hi)| == hi - lo
    decreases hi
  {
    if lo < hi {
      SizeOfNames(lo, hi - 1);
      assert NamesFrom(lo, hi) == NamesFrom(lo, hi - 1) + {Name(hi - 1)};
      assert forall i :: lo <= i < hi - 1 ==> |Name(i)| != |Name(hi - 1)|;
    } else {
      assert NamesFrom(lo, hi) == {};
    }
  }

  /** A tree with the files of these numbers. */
  function Window(lo: nat, hi: nat): Tree {
    map n | n in NamesFrom(lo, hi) :: ""
  }

  /** Moving a window up deletes the files at its lower end and adds as many as its upper end moves. */
  lemma WindowMoves(lo: nat, hi: nat, lo': nat, hi': nat)
    requires lo <= lo' <= hi <= hi'
    ensures |Changed(Window(lo, hi), Window(lo', hi'))| == (lo' - lo) + (hi' - hi)
    ensures |Deleted(Window(lo, hi), Window(lo', hi'))| == lo' - lo
  {
    SizeOfNames(lo, lo');
    SizeOfNames(hi, hi');
    NamesSplit(lo, lo', hi, hi');
    SetsOfMove(lo, hi, lo', hi');
    assert |NamesFrom(lo, lo') + NamesFrom(hi, hi')| == |NamesFrom(lo, lo')| + |NamesFrom(hi, hi')|;
  }

  lemma SetsOfMove(lo: nat, hi: nat, lo': nat, hi': nat)
    requires lo <= lo' <= hi <= hi'
    ensures Deleted(Window(lo, hi), Window(lo', hi')) == NamesFrom(lo, lo')
    ensures Changed(Window(lo, hi), Window(lo', hi')) == NamesFrom(lo, lo') + NamesFrom(hi, hi')
    ensures NamesFrom(lo, lo') !! NamesFrom(hi, hi')
  {
    hide NamesFrom;
    NamesSplit(lo, lo', hi, hi');
    assert Window(lo, hi).Keys == NamesFrom(lo, hi) && Window(lo', hi').Keys == NamesFrom(lo', hi');
  }

  lemma NamesSplit(lo: nat, lo': nat, hi: nat, hi': nat)
    requires lo <= lo' <= hi <= hi'
    ensures NamesFrom(lo, hi) == NamesFrom(lo, lo') + NamesFrom(lo', hi)
    ensures NamesFrom(lo', hi') == NamesFrom(lo', hi) + NamesFrom(hi, hi')
    ensures NamesFrom(lo, lo') !! NamesFrom(lo', hi') && NamesFrom(hi, hi') !! NamesFrom(lo, hi)
  {
    NamesAreNumbered(lo, lo');
    NamesAreNumbered(lo', hi);
    NamesAreNumbered(hi, hi');
    NamesAreNumbered(lo, hi);
    NamesAreNumbered(lo', hi');
  }

  lemma NamesAreNumbered(lo: nat, hi: nat)
    ensures forall n :: n in NamesFrom(lo, hi) <==> lo <= |n| < hi && n == Name(|n|)
  {
  }

  /** The first `n` commits of the example end in `tree`; it stands at `pc`, with `dev` checked out and
      unmoved at the commit with `base`. */
  ghost predicate StandsAt(s: Sys, limits: Limits, base: Tree, n: nat, tree: Tree, pc: Pc) {
    && Inv(s) && s.limits == limits
    && 0 in s.tasks && s.tasks[0].ticket == TICKET && s.tasks[0].pc == pc && |s.tasks[0].bot| == n
    && HasWorktree(s.repo, TICKET) && BranchOf(TICKET) in s.repo.branches && TipTree(s.repo, BranchOf(TICKET)) == tree
    && BaseUnmoved(s.repo, TICKET) && !s.repo.dirty && s.repo.graph[0].tree == base
  }

  /** One attempt commits `files` and gets to its merge. */
  lemma NextAttempt(s0: Sys, es: seq<Event>, s: Sys, limits: Limits, base: Tree, n: nat, tree: Tree, pc: Pc,
      files: Tree)
    returns (es': seq<Event>, s': Sys)
    requires Inv(s0) && Goes(s0, es, s) && StandsAt(s, limits, base, n, tree, pc)
    requires pc.Resting? && !Finished(pc) && files != tree && Within(limits, tree, files)
    ensures Goes(s0, es', s') && StandsAt(s', limits, base, n + 1, files, Merging)
  {
    hide Inv, Within, RepoOk, Runs, Exec;
    InvMeansRepoOk(s0);
    InvMeansRepoOk(s);
    var fs := UndisturbedChangeIsCommitted(s, 0, files);
    RunsConcat(s0, es, s, fs);
    es', s' := es + fs, AfterReview(s, 0, files);
    RunKeepsInv(s0, es');
    AttemptStands(s, limits, base, n, tree, pc, files);
  }

  lemma AttemptStands(s: Sys, limits: Limits, base: Tree, n: nat, tree: Tree, pc: Pc, files: Tree)
    requires StandsAt(s, limits, base, n, tree, pc) && Inv(AfterReview(s, 0, files))
    ensures StandsAt(AfterReview(s, 0, files), limits, base, n + 1, files, Merging)
  {
    hide Inv, Within, RepoOk;
    InvMeansRepoOk(s);
    InvMeansRepoOk(AfterReview(s, 0, files));
    Names();
  }

  const AFTER_FAILURE := Resting(Returned(MergeFailed))

  /** The merge of an attempt may fail, and leaves everything for the next one. */
  lemma FailedAttempt(s0: Sys, es: seq<Event>, s: Sys, limits: Limits, base: Tree, n: nat, tree: Tree)
    returns (es': seq<Event>, s': Sys)
    requires Inv(s0) && Goes(s0, es, s) && StandsAt(s, limits, base, n, tree, Merging)
    ensures Goes(s0, es', s') && StandsAt(s', limits, base, n, tree, AFTER_FAILURE)
  {
    hide Inv, Within, RepoOk, Runs, Exec;
    InvMeansRepoOk(s0);
    InvMeansRepoOk(s);
    es' := GoesOn(s0, es, s, Act(0, Fail));
    s' := Do(s, Act(0, Fail));
    StepKeepsInv(s, Act(0, Fail));
  }

  lemma Beginning(limits: Limits, base: Tree) returns (es: seq<Event>, s: Sys)
    ensures Init(Root(base, limits)) && Inv(Root(base, limits))
    ensures Goes(Root(base, limits), es, s) && StandsAt(s, limits, base, 0, base, Resting(Fresh))
  {
    hide Within, RepoOk, Runs, Exec;
    RootIsOk(base, limits);
    es := OpenedTask(base, limits);
    s := Sys(BegunOn(base), limits, map[0 := TASK], {});
    RunKeepsInv(Root(base, limits), es);
    BegunIsOk(base);
  }

  function Smaller(a: nat, b: nat): nat {
    if a < b then a else b
  }

  /** The files after `k` of `n` commits that each change and delete as many as they may. */
  function TreeAfter(limits: Limits, n: nat, k: nat): Tree {
    var d := Smaller(limits.deleted, limits.changed);
    Window(k * d, n * d + k * (limits.changed - d))
  }

  lemma StepIsWithin(limits: Limits, n: nat, k: nat)
    requires k < n && limits.changed >= 1
    ensures Within(limits, TreeAfter(limits, n, k), TreeAfter(limits, n, k + 1))
    ensures TreeAfter(limits, n, k) != TreeAfter(limits, n, k + 1)
  {
    TreesDiffer(limits, n, k, k + 1);
    if TreeAfter(limits, n, k) == TreeAfter(limits, n, k + 1) {
      NothingChanged(TreeAfter(limits, n, k));
    }
  }

  /** From one commit to a later one. */
  lemma TreesDiffer(limits: Limits, n: nat, k: nat, l: nat)
    requires k <= l <= n
    ensures |Changed(TreeAfter(limits, n, k), TreeAfter(limits, n, l))| == (l - k) * limits.changed
    ensures |Deleted(TreeAfter(limits, n, k), TreeAfter(limits, n, l))| ==
        (l - k) * Smaller(limits.deleted, limits.changed)
  {
    hide Window, Changed, Deleted;
    var d := Smaller(limits.deleted, limits.changed);
    var a := limits.changed - d;
    Times(k, l, d);
    Times(l, n, d);
    Times(k, l, a);
    WindowMoves(k * d, n * d + k * a, l * d, n * d + l * a);
    Distributes(l - k, d, a);
  }

  lemma Times(k: nat, l: nat, d: nat)
    requires k <= l
    ensures 0 <= k * d <= l * d && l * d - k * d == (l - k) * d
  {
    Distributes(d, k, l - k);
  }

  lemma Distributes(m: nat, a: nat, b: nat)
    ensures m * (a + b) == m * a + m * b && 0 <= m * a && 0 <= m * b
  {
  }

  /** `k` attempts, all but the last of which end in a failed merge. */
  lemma {:induction false} Attempts(limits: Limits, n: nat, k: nat) returns (es: seq<Event>, s: Sys)
    requires 1 <= k <= n && limits.changed >= 1
    ensures Init(Root(TreeAfter(limits, n, 0), limits))
    ensures Goes(Root(TreeAfter(limits, n, 0), limits), es, s)
    ensures StandsAt(s, limits, TreeAfter(limits, n, 0), k, TreeAfter(limits, n, k), Merging)
    decreases k
  {
    hide StandsAt, TreeAfter, Within, RepoOk, Inv;
    var base := TreeAfter(limits, n, 0);
    StepIsWithin(limits, n, k - 1);
    var before, begun := Beginning(limits, base);
    if k == 1 {
      es, s := NextAttempt(Root(base, limits), before, begun, limits, base, 0, base, Resting(Fresh),
          TreeAfter(limits, n, 1));
    } else {
      es, s := Attempts(limits, n, k - 1);
      es, s := FailedAttempt(Root(base, limits), es, s, limits, base, k - 1, TreeAfter(limits, n, k - 1));
      es, s := NextAttempt(Root(base, limits), es, s, limits, base, k - 1, TreeAfter(limits, n, k - 1), AFTER_FAILURE,
          TreeAfter(limits, n, k));
    }
  }

  lemma LandedDifference(s: Sys, limits: Limits, base: Tree, n: nat, tree: Tree)
    requires StandsAt(s, limits, base, n, tree, Merging)
    ensures RepoOk(s.repo) && Can(s, Act(0, Merge)) && s.repo.head == OnBranch("dev") && "dev" in s.repo.branches
    ensures var r' := Do(s, Act(0, Merge)).repo;
            "dev" in r'.branches && TipTree(s.repo, "dev") == base && TipTree(r', "dev") == tree
  {
    hide Inv, Within, RepoOk, Can, CanStep, Do;
    InvMeansRepoOk(s);
    MergingEndsInTip(s, 0);
    LandsFromBase(s, 0);
  }

  /** For all limits and every number of attempts there is a run whose merge lands exactly that many times
      what one commit may change, and deletes as much as the limits allow. */
  lemma BoundIsReached(limits: Limits, n: nat) returns (s0: Sys, es: seq<Event>, s: Sys)
    requires n >= 1 && limits.changed >= 1
    ensures Init(s0) && Goes(s0, es, s) && s.limits == limits
    ensures RepoOk(s.repo) && Can(s, Act(0, Merge)) && s.tasks[0].ticket == TICKET && |s.tasks[0].bot| == n
    ensures s.repo.head == OnBranch("dev") && "dev" in s.repo.branches
    ensures var after := Do(s, Act(0, Merge)).repo;
            && "dev" in after.branches
            && |Changed(TipTree(s.repo, "dev"), TipTree(after, "dev"))| == n * limits.changed
            && |Deleted(TipTree(s.repo, "dev"), TipTree(after, "dev"))| == n * Smaller(limits.deleted, limits.changed)
  {
    hide TreeAfter, Within, RepoOk, Inv, Can, Do, Changed, Deleted;
    var base, tree := TreeAfter(limits, n, 0), TreeAfter(limits, n, n);
    s0 := Root(base, limits);
    es, s := Attempts(limits, n, n);
    LandedDifference(s, limits, base, n, tree);
    TreesDiffer(limits, n, 0, n);
  }

  /** In particular a second attempt may land more than the limit, whatever the limit is. */
  lemma SecondAttemptExceedsTheLimit(limits: Limits) returns (s0: Sys, es: seq<Event>, s: Sys)
    requires limits.changed >= 1
    ensures Init(s0) && Goes(s0, es, s) && s.limits == limits
    ensures RepoOk(s.repo) && Can(s, Act(0, Merge)) && |s.tasks[0].bot| == 2
    ensures s.repo.head == OnBranch("dev") && "dev" in s.repo.branches && s.tasks[0].ticket.baseBranch == "dev"
    ensures !LandsWithin(s, 0)
  {
    hide RepoOk, Can, Do;
    s0, es, s := BoundIsReached(limits, 2);
  }
}
