/** Concrete runs: an undisturbed change is committed, and two expectations that the protocol does not meet
    in general. */
module Scenarios {
  import opened Git
  import opened Protocol
  import opened Guarantees
  import opened Seeding

  // ---------- From an edit to its commit, undisturbed ----------

  /** The task can commit `files`: its checkout is on the base branch, clean and unmoved. */
  ghost predicate ReadyToCommit(r: Repo, limits: Limits, t: Task, files: Tree)
    requires RepoOk(r)
  {
    var k := t.ticket;
    && t.pc.Resting? && !Finished(t.pc) && HasWorktree(r, k) && BranchOf(k) in r.branches
    && files != TipTree(r, BranchOf(k)) && Within(limits, TipTree(r, BranchOf(k)), files)
    && r.head == OnBranch(k.baseBranch) && !r.dirty
    && k.baseBranch in r.branches && r.branches[k.baseBranch] == k.baseCommit
  }

  ghost predicate Takes(r: Repo, limits: Limits, t: Task, a: Action, r': Repo, pc: Pc)
    requires RepoOk(r)
  {
    CanStep(r, t, a) && RepoAfter(r, t, a) == r' && TaskAfter(r, limits, t, a) == t.(pc := pc)
  }

  lemma EditedIsReady(r: Repo, limits: Limits, t: Task, files: Tree)
    requires RepoOk(r) && ReadyToCommit(r, limits, t, files)
    ensures PathOf(t.ticket) in r.worktrees
    ensures var r' := EditFiles(r, PathOf(t.ticket), files);
            && RepoOk(r') && Takes(r, limits, t, Edit(files), r', t.pc)
            && ReadyToCommit(r', limits, t, files) && r'.worktrees[PathOf(t.ticket)].files == files
  {
    hide Within;
  }

  lemma ReviewPasses(r: Repo, limits: Limits, t: Task, files: Tree)
    requires RepoOk(r) && ReadyToCommit(r, limits, t, files) && r.worktrees[PathOf(t.ticket)].files == files
    ensures Takes(r, limits, t, Start, r, Counting)
    ensures Takes(r, limits, t.(pc := Counting), Count, r, Validating)
    ensures Takes(r, limits, t.(pc := Validating), Validate(true), r, Recounting)
    ensures Takes(r, limits, t.(pc := Recounting), Recount, r, ReadingHead)
  {
    hide Within;
  }

  lemma PreconditionsPass(r: Repo, limits: Limits, t: Task, files: Tree)
    requires RepoOk(r) && ReadyToCommit(r, limits, t, files) && r.worktrees[PathOf(t.ticket)].files == files
    ensures Takes(r, limits, t.(pc := ReadingHead), ReadHead, r, ReadingStatus)
    ensures Takes(r, limits, t.(pc := ReadingStatus), ReadStatus, r, ReadingBase)
    ensures Takes(r, limits, t.(pc := ReadingBase), ReadBase, r, Committing)
    ensures CanStep(r, t.(pc := Committing), CommitWork)
  {
    hide Within;
  }

  lemma Proceed(s0: Sys, es: seq<Event>, s: Sys, p: Pid, a: Action, r': Repo, pc: Pc) returns (es': seq<Event>, s': Sys)
    requires RepoOk(s0.repo) && Goes(s0, es, s) && RepoOk(s.repo)
    requires p in s.tasks && !s.tasks[p].pc.Opening? && !a.CommitWork? && Takes(s.repo, s.limits, s.tasks[p], a, r', pc)
    ensures s' == s.(repo := r', tasks := s.tasks[p := s.tasks[p].(pc := pc)]) && Goes(s0, es', s') && RepoOk(r')
  {
    hide PcAfter, CanStep, RepoAfter;
    es' := GoesOn(s0, es, s, Act(p, a));
    s' := Do(s, Act(p, a));
  }

  ghost function AfterReview(s: Sys, p: Pid, files: Tree): Sys
    requires RepoOk(s.repo) && p in s.tasks && PathOf(s.tasks[p].ticket) in s.repo.worktrees
  {
    var t := s.tasks[p];
    var r := EditFiles(s.repo, PathOf(t.ticket), files);
    Sys(CommitAll(r, PathOf(t.ticket)), s.limits,
        s.tasks[p := t.(pc := Merging, bot := t.bot + [|r.graph|])], s.made + {|r.graph|})
  }

  /** A change within the limits that nobody disturbs passes every check and is committed. */
  lemma UndisturbedChangeIsCommitted(s: Sys, p: Pid, files: Tree) returns (es: seq<Event>)
    requires RepoOk(s.repo) && p in s.tasks && ReadyToCommit(s.repo, s.limits, s.tasks[p], files)
    ensures PathOf(s.tasks[p].ticket) in s.repo.worktrees && Goes(s, es, AfterReview(s, p, files))
  {
    hide PcAfter, CanStep, RepoAfter, RepoOk;
    var t := s.tasks[p];
    EditedIsReady(s.repo, s.limits, t, files);
    var r := EditFiles(s.repo, PathOf(t.ticket), files);
    ReviewPasses(r, s.limits, t, files);
    PreconditionsPass(r, s.limits, t, files);
    assert Goes(s, [], s);
    var s1: Sys;
    es, s1 := Proceed(s, [], s, p, Edit(files), r, t.pc);
    es, s1 := Proceed(s, es, s1, p, Start, r, Counting);
    es, s1 := Proceed(s, es, s1, p, Count, r, Validating);
    es, s1 := Proceed(s, es, s1, p, Validate(true), r, Recounting);
    es, s1 := Proceed(s, es, s1, p, Recount, r, ReadingHead);
    es, s1 := Proceed(s, es, s1, p, ReadHead, r, ReadingStatus);
    es, s1 := Proceed(s, es, s1, p, ReadStatus, r, ReadingBase);
    es, s1 := Proceed(s, es, s1, p, ReadBase, r, Committing);
    CommitStep(s1.repo, s.limits, s1.tasks[p]);
    es := GoesOn(s, es, s1, Act(p, CommitWork));
    assert s1.tasks == s.tasks[p := t.(pc := Committing)];
    assert Do(s1, Act(p, CommitWork)) == AfterReview(s, p, files);
  }

  lemma CommitStep(r: Repo, limits: Limits, t: Task)
    requires RepoOk(r) && CanStep(r, t, CommitWork)
    ensures RepoAfter(r, t, CommitWork) == CommitAll(r, PathOf(t.ticket))
    ensures TaskAfter(r, limits, t, CommitWork) == t.(pc := Merging, bot := t.bot + [|r.graph|])
  {
    hide Within;
  }

  // ---------- A small repository ----------

  const TICKET := Ticket("demo", "fix", "dev", 0)
  const TASK := Task(TICKET, Resting(Fresh), 0, [])

  /** Two branches at the only commit, and `dev` checked out. */
  function Root(tree: Tree, limits: Limits): Sys {
    Sys(Repo([Commit([], tree)], map["dev" := 0, "main" := 0], OnBranch("dev"), false, map[]), limits, map[], {})
  }

  /** One task just begun on `dev`. */
  function BegunOn(tree: Tree): Repo {
    Repo([Commit([], tree)], map["dev" := 0, "main" := 0, "bot/fix" := 0], OnBranch("dev"), false,
         map[WorktreePath("demo", "fix") := Worktree("bot/fix", tree)])
  }

  const BEFORE: Tree := map["a" := "0"]
  const FIRST: Tree := map["a" := "1"]
  const LIMITS := Limits(1, 0)
  const ROOT := Root(BEFORE, LIMITS)
  const BEGUN := BegunOn(BEFORE)

  /** The task after its first commit, about to merge. */
  const COMMITTED := Repo(
    [Commit([], BEFORE), Commit([0], FIRST)], map["dev" := 0, "main" := 0, "bot/fix" := 1], OnBranch("dev"), false,
    map[WorktreePath("demo", "fix") := Worktree("bot/fix", FIRST)])

  const MERGING := Sys(COMMITTED, LIMITS, map[0 := TASK.(pc := Merging, bot := [1])], {1})

  lemma Names()
    ensures BranchOf(TICKET) == "bot/fix" && PathOf(TICKET) == WorktreePath("demo", "fix")
    ensures !IsTaskBranch("dev") && !IsTaskBranch("main")
  {
    assert |TASK_PREFIX| == 4 && |"dev"| == 3;
    assert TASK_PREFIX[0] == 'b' && "main"[0] == 'm';
  }

  lemma Edits()
    ensures |Changed(BEFORE, FIRST)| <= 1 && |Deleted(BEFORE, FIRST)| == 0
  {
    assert Changed(BEFORE, FIRST) == {"a"} && Deleted(BEFORE, FIRST) == {};
  }

  lemma RootIsOk(tree: Tree, limits: Limits)
    ensures RepoOk(Root(tree, limits).repo) && Init(Root(tree, limits))
  {
  }

  lemma BegunIsOk(tree: Tree)
    ensures RepoOk(BegunOn(tree)) && HasWorktree(BegunOn(tree), TICKET)
    ensures BranchOf(TICKET) in BegunOn(tree).branches && TipTree(BegunOn(tree), BranchOf(TICKET)) == tree
  {
    Names();
    assert PathOf(TICKET) in BegunOn(tree).worktrees;
  }

  lemma FirstIsReady()
    ensures RepoOk(BEGUN) && ReadyToCommit(BEGUN, LIMITS, TASK, FIRST)
  {
    hide Changed, Deleted;
    BegunIsOk(BEFORE);
    Edits();
    assert BEFORE["a"] == "0" && FIRST["a"] == "1" && "0"[0] != "1"[0];
  }

  lemma OpenedTask(tree: Tree, limits: Limits) returns (es: seq<Event>)
    ensures RepoOk(Root(tree, limits).repo)
        && Goes(Root(tree, limits), es, Sys(BegunOn(tree), limits, map[0 := TASK], {}))
  {
    hide RepoOk, Runs, Exec;
    var root := Root(tree, limits);
    RootIsOk(tree, limits);
    Names();
    var s1 := root.(tasks := map[0 := Task(TICKET, Opening, 0, [])]);
    assert Goes(root, [], root) by { StandStill(root); }
    es := GoesOn(root, [], root, Open(0, TICKET));
    assert Do(root, Open(0, TICKET)) == s1;
    es := GoesOn(root, es, s1, Act(0, AddWorktree));
    assert Do(s1, Act(0, AddWorktree)) == Sys(BegunOn(tree), limits, map[0 := TASK], {}) by {
      assert WorktreeAdd(root.repo, PathOf(TICKET), BranchOf(TICKET), "dev") == BegunOn(tree);
    }
  }

  lemma StandStill(s: Sys)
    requires RepoOk(s.repo)
    ensures Goes(s, [], s)
  {
  }

  lemma FirstCommit() returns (es: seq<Event>)
    ensures RepoOk(ROOT.repo)
    ensures Goes(ROOT, es, MERGING)
  {
    hide RepoOk, ReadyToCommit, Runs, Exec;
    var s2 := Sys(BEGUN, LIMITS, map[0 := TASK], {});
    es := OpenedTask(BEFORE, LIMITS);
    FirstIsReady();
    var fs := UndisturbedChangeIsCommitted(s2, 0, FIRST);
    RunsConcat(ROOT, es, s2, fs);
    es := es + fs;
    CommittedByHand();
  }

  lemma CommittedByHand()
    ensures RepoOk(BEGUN) && PathOf(TICKET) in BEGUN.worktrees
    ensures AfterReview(Sys(BEGUN, LIMITS, map[0 := TASK], {}), 0, FIRST) == MERGING
  {
    BegunIsOk(BEFORE);
    Names();
    FirstCommitted();
    assert [] + [1] == [1];
    assert map[0 := TASK][0 := TASK.(pc := Merging, bot := [1])] == MERGING.tasks;
  }

  lemma FirstCommitted()
    requires RepoOk(BEGUN) && PathOf(TICKET) == WorktreePath("demo", "fix") && BranchOf(TICKET) == "bot/fix"
    ensures var r := EditFiles(BEGUN, PathOf(TICKET), FIRST);
            PathOf(TICKET) in r.worktrees && |r.graph| == 1 && CommitAll(r, PathOf(TICKET)) == COMMITTED
  {
    hide RepoOk, PathOf, BranchOf;
  }

  lemma {:induction false} RunsConcat(s: Sys, es: seq<Event>, s': Sys, fs: seq<Event>)
    requires RepoOk(s.repo) && Goes(s, es, s') && RepoOk(s'.repo) && Runs(s', fs)
    ensures Goes(s, es + fs, Exec(s', fs))
    decreases |es|
  {
    hide Can, Do, RepoOk;
    if es == [] {
      assert es + fs == fs;
    } else {
      RunsConcat(Do(s, es[0]), es[1..], s', fs);
      assert (es + fs)[0] == es[0] && (es + fs)[1..] == es[1..] + fs;
    }
  }

  lemma CommittedIsOk()
    ensures RepoOk(COMMITTED) && BranchOf(TICKET) == "bot/fix" && PathOf(TICKET) == WorktreePath("demo", "fix")
    ensures Reaches(COMMITTED.graph, 1, 0) && !Reaches(COMMITTED.graph, 0, 1)
  {
    Names();
    assert COMMITTED.graph[1].parents[0] == 0 && Reaches(COMMITTED.graph, 0, 0);
  }

  /** From the merge to the end of `complete`, once `merged` is the outcome of the merge command. */
  lemma MergeToEnd(es0: seq<Event>, r: Repo, merged: Repo) returns (es: seq<Event>, s: Sys)
    requires RepoOk(ROOT.repo) && Goes(ROOT, es0, Sys(r, LIMITS, MERGING.tasks, {1})) && RepoOk(r) && RepoOk(merged)
    requires Takes(r, LIMITS, MERGING.tasks[0], Merge, merged, Pushing)
    requires HasWorktree(merged, TICKET) && Clean(merged, PathOf(TICKET)) && merged.head != OnBranch("bot/fix")
    requires "bot/fix" in merged.branches && Reaches(merged.graph, HeadCommit(merged), merged.branches["bot/fix"])
    ensures RepoOk(s.repo) && Goes(ROOT, es, s)
    ensures s.tasks == map[0 := TASK.(pc := Resting(Returned(Merged)), bot := [1])] && s.made == {1}
    ensures s.repo ==
              merged.(branches := merged.branches - {"bot/fix"}, worktrees := merged.worktrees - {PathOf(TICKET)})
  {
    hide RepoOk, Runs, Exec, PcAfter, CanStep, RepoAfter;
    Names();
    var t := TASK.(bot := [1]);
    EndSteps(merged, LIMITS, t);
    es, s := Proceed(ROOT, es0, Sys(r, LIMITS, MERGING.tasks, {1}), 0, Merge, merged, Pushing);
    es, s := Proceed(ROOT, es, s, 0, Push, merged, Removing(Merged));
    es, s := Proceed(ROOT, es, s, 0, Remove, WorktreeRemove(merged, PathOf(TICKET)), Deleting(Merged));
    es, s := Proceed(ROOT, es, s, 0, Delete, BranchDelete(s.repo, "bot/fix"), Resting(Returned(Merged)));
  }

  lemma EndSteps(r: Repo, limits: Limits, t: Task)
    requires RepoOk(r) && HasWorktree(r, t.ticket) && Clean(r, PathOf(t.ticket)) && BranchOf(t.ticket) in r.branches
    requires r.head != OnBranch(BranchOf(t.ticket)) && Reaches(r.graph, HeadCommit(r), r.branches[BranchOf(t.ticket)])
    ensures Takes(r, limits, t.(pc := Pushing), Push, r, Removing(Merged))
    ensures var r' := WorktreeRemove(r, PathOf(t.ticket));
            && RepoOk(r') && CanDelete(r', BranchOf(t.ticket))
            && Takes(r, limits, t.(pc := Removing(Merged)), Remove, r', Deleting(Merged))
            && Takes(r', limits, t.(pc := Deleting(Merged)), Delete, BranchDelete(r', BranchOf(t.ticket)),
                Resting(Returned(Merged)))
  {
    hide Within;
    RemovedBranchIsFree(r, t.ticket);
  }

  /** When somebody detaches HEAD in the project directory before the merge, the call reports MERGED and
      deletes the only branch that contained the commit. */
  lemma DetachedHeadLosesTheCommit() returns (es: seq<Event>, s: Sys)
    ensures Init(ROOT) && Conserved(ROOT) && Goes(ROOT, es, s)
    ensures 0 in s.tasks && s.tasks[0].pc == Resting(Returned(Merged)) && !Conserved(s)
  {
    hide Runs, Exec, PcAfter;
    RootIsOk(BEFORE, LIMITS);
    CommittedIsOk();
    es := FirstCommit();
    var r := COMMITTED.(head := Detached(0));
    es := GoesOn(ROOT, es, MERGING, Outside(Switch(Detached(0))));
    assert Do(MERGING, Outside(Switch(Detached(0)))) == Sys(r, LIMITS, MERGING.tasks, {1});
    DetachedMerge();
    es, s := MergeToEnd(es, r, COMMITTED.(head := Detached(1)));
    assert !Contained(s.repo, 1);
  }

  lemma DetachedMerge()
    ensures RepoOk(COMMITTED.(head := Detached(0))) && RepoOk(COMMITTED.(head := Detached(1)))
    ensures Takes(COMMITTED.(head := Detached(0)), LIMITS, MERGING.tasks[0], Merge, COMMITTED.(head := Detached(1)),
        Pushing)
  {
    CommittedIsOk();
  }

  /** A merge fails behind the commit, and with the unmoved base branch checked out the retry leaves the task
      branch without a worktree: no later call can end the task. */
  lemma RetryStrandsTheTask() returns (es: seq<Event>, s: Sys)
    ensures Init(ROOT) && Goes(ROOT, es, s) && Inv(s)
    ensures Stranded(s, 0) && s.tasks[0].bot == [1] && 1 in s.made
    ensures "dev" in s.repo.branches && s.repo.head == OnBranch("dev")
    ensures !Reaches(s.repo.graph, s.repo.branches["dev"], 1)
  {
    hide Runs, Exec, PcAfter, RepoOk, Inv;
    RootIsOk(BEFORE, LIMITS);
    CommittedIsOk();
    es := FirstCommit();
    var failed := MERGING.(tasks := map[0 := TASK.(pc := Resting(Returned(MergeFailed)), bot := [1])]);
    MergeFails(failed);
    es := GoesOn(ROOT, es, MERGING, Act(0, Fail));
    RunKeepsInv(ROOT, es);
    InvGivesTask(failed, 0);
    var fs, s1 := RetryEndsWellIff(failed, 0);
    RunsConcat(ROOT, es, failed, fs);
    es := GoesOn(ROOT, es + fs, s1, Act(0, Fail));
    s := Do(s1, Act(0, Fail));
    RunKeepsInv(ROOT, es);
  }

  lemma MergeFails(failed: Sys)
    requires failed == MERGING.(tasks := map[0 := TASK.(pc := Resting(Returned(MergeFailed)), bot := [1])])
    ensures RepoOk(COMMITTED) && Can(MERGING, Act(0, Fail)) && Do(MERGING, Act(0, Fail)) == failed
    ensures Clean(failed.repo, PathOf(failed.tasks[0].ticket))
  {
    CommittedIsOk();
  }

  lemma InvGivesTask(s: Sys, p: Pid)
    requires Inv(s) && p in s.tasks
    ensures RepoOk(s.repo) && TaskOk(s.repo, s.limits, s.tasks[p])
  {
  }

  /** When somebody switches to another branch at the same commit between the preconditions and the merge,
      the call reports MERGED, but the recorded base branch does not contain the commit. */
  lemma SwitchedCheckoutTakesTheMerge() returns (es: seq<Event>, s: Sys)
    ensures Init(ROOT) && Goes(ROOT, es, s)
    ensures 0 in s.tasks && s.tasks[0].pc == Resting(Returned(Merged)) && s.tasks[0].ticket.baseBranch == "dev"
    ensures "dev" in s.repo.branches && "main" in s.repo.branches && 1 in s.made
    ensures Reaches(s.repo.graph, s.repo.branches["main"], 1) && !Reaches(s.repo.graph, s.repo.branches["dev"], 1)
  {
    hide Runs, Exec, PcAfter;
    RootIsOk(BEFORE, LIMITS);
    CommittedIsOk();
    es := FirstCommit();
    var r := COMMITTED.(head := OnBranch("main"));
    SwitchedMerge();
    es := GoesOn(ROOT, es, MERGING, Outside(Switch(OnBranch("main"))));
    assert Do(MERGING, Outside(Switch(OnBranch("main")))) == Sys(r, LIMITS, MERGING.tasks, {1});
    es, s := MergeToEnd(es, r, r.(branches := r.branches["main" := 1]));
  }

  lemma SwitchedMerge()
    ensures !Held(COMMITTED, "main")
    ensures var r := COMMITTED.(head := OnBranch("main"));
            RepoOk(r) && RepoOk(r.(branches := r.branches["main" := 1]))
            && Takes(r, LIMITS, MERGING.tasks[0], Merge, r.(branches := r.branches["main" := 1]), Pushing)
  {
    CommittedIsOk();
  }

  /** When a seed passes the check but is missing, `begin` fails with its worktree and branch in place; no
      record mentions them, and the name stays taken. */
  lemma MissingSeedLeavesTheWorktree() returns (es: seq<Event>, seeds: seq<Seed>, s: Sys)
    ensures AllSafe(seeds) && !AllSeedable(seeds)
    ensures Init(ROOT) && Goes(ROOT, es, s) && s.tasks == map[0 := TASK] && TASK.pc == Resting(Fresh)
    ensures RepoOk(s.repo) && HasWorktree(s.repo, TICKET) && BranchOf(TICKET) in s.repo.branches
  {
    hide Runs, Exec, RepoOk;
    SafeSeedMayBeMissing();
    RootIsOk(BEFORE, LIMITS);
    BegunIsOk(BEFORE);
    seeds := [Seed(".env", Missing, false)];
    es := OpenedTask(BEFORE, LIMITS);
    s := Sys(BEGUN, LIMITS, map[0 := TASK], {});
  }
}
