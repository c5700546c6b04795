/** Any number of `begin` and `complete` calls running at once on one repository, each a program
    counter that advances one git command at a time, with outsiders acting between any two commands. */
module Protocol {
  import opened Git

  type Pid = nat

  datatype Limits = Limits(changed: nat, deleted: nat)

  /** What an ActiveWorktree record says about git. */
  datatype Ticket = Ticket(projectId: string, taskId: string, baseBranch: string, baseCommit: CommitId)

  const TASK_PREFIX := "bot/"

  predicate IsTaskBranch(b: string) {
    TASK_PREFIX <= b
  }

  function BranchOf(k: Ticket): (b: string)
    ensures IsTaskBranch(b)
  {
    TASK_PREFIX + k.taskId
  }

  function PathOf(k: Ticket): WorktreePath {
    WorktreePath(k.projectId, k.taskId)
  }

  datatype Status = Merged | NoChanges | ValidationFailed | SafetyBlocked | MergeFailed

  datatype Outcome = Fresh | Returned(status: Status) | Raised

  /** The next git command of a task; `Resting` is between two tool calls. */
  datatype Pc =
    | Opening
    | Resting(last: Outcome)
    | Counting
    | Validating
    | Recounting
    | ReadingHead
    | ReadingStatus
    | ReadingBase
    | Committing
    | Merging
    | Pushing
    | Removing(next: Status)
    | Deleting(next: Status)

  /** `start` is where the task branch was cut and `bot` the commits made on it, oldest first. */
  datatype Task = Task(ticket: Ticket, pc: Pc, start: CommitId, bot: seq<CommitId>)

  datatype Sys = Sys(repo: Repo, limits: Limits, tasks: map<Pid, Task>, made: set<CommitId>)

  datatype Action =
    | AddWorktree
    | Edit(files: Tree)
    | Start
    | Count
    | Validate(passed: bool)
    | Recount
    | ReadHead
    | ReadStatus
    | ReadBase
    | CommitWork
    | Merge
    | Push
    | Remove
    | Delete
    | Fail

  datatype Event =
    | Outside(move: Move)
    | Open(p: Pid, ticket: Ticket)
    | Act(p: Pid, action: Action)

  predicate Finished(pc: Pc) {
    pc == Resting(Returned(Merged)) || pc == Resting(Returned(NoChanges))
  }

  /** The task branch exists and belongs to the task. */
  predicate Owns(t: Task) {
    !t.pc.Opening? && !Finished(t.pc)
  }

  function Last(start: CommitId, bot: seq<CommitId>): CommitId {
    if bot == [] then start else bot[|bot| - 1]
  }

  function Tip(t: Task): CommitId {
    Last(t.start, t.bot)
  }

  predicate HasWorktree(r: Repo, k: Ticket) {
    PathOf(k) in r.worktrees && r.worktrees[PathOf(k)].branch == BranchOf(k)
  }

  predicate Within(limits: Limits, before: Tree, after: Tree) {
    |Changed(before, after)| <= limits.changed && |Deleted(before, after)| <= limits.deleted
  }

  predicate WorkWithin(r: Repo, limits: Limits, k: Ticket)
    requires RepoOk(r) && HasWorktree(r, k)
  {
    Within(limits, TipTree(r, BranchOf(k)), r.worktrees[PathOf(k)].files)
  }

  // ---------- One step ----------

  predicate CanStep(r: Repo, t: Task, e: Action)
    requires RepoOk(r)
  {
    var k := t.ticket;
    match e
    case AddWorktree =>
      && t.pc.Opening? && k.baseBranch in r.branches
      && BranchOf(k) !in r.branches && PathOf(k) !in r.worktrees
    case Edit(_) => ((t.pc.Resting? && !Finished(t.pc)) || t.pc.Validating?) && HasWorktree(r, k)
    case Start => t.pc.Resting? && !Finished(t.pc)
    case Count => t.pc.Counting? && HasWorktree(r, k)
    case Validate(_) => t.pc.Validating?
    case Recount => t.pc.Recounting? && HasWorktree(r, k)
    case ReadHead => t.pc.ReadingHead?
    case ReadStatus => t.pc.ReadingStatus?
    case ReadBase => t.pc.ReadingBase? && k.baseBranch in r.branches
    case CommitWork => t.pc.Committing? && HasWorktree(r, k) && !Clean(r, PathOf(k))
    case Merge => t.pc.Merging? && BranchOf(k) in r.branches && CanFastForward(r, BranchOf(k))
    case Push => t.pc.Pushing?
    case Remove => t.pc.Removing? && HasWorktree(r, k) && Clean(r, PathOf(k))
    case Delete => t.pc.Deleting? && CanDelete(r, BranchOf(k))
    case Fail => !t.pc.Resting? && !t.pc.Validating?
  }

  /** The repository after a command of a task. */
  function RepoAfter(r: Repo, t: Task, e: Action): (r': Repo)
    requires RepoOk(r) && CanStep(r, t, e)
    ensures RepoOk(r') && r.graph <= r'.graph
  {
    var k := t.ticket;
    match e
    case AddWorktree => WorktreeAdd(r, PathOf(k), BranchOf(k), k.baseBranch)
    case Edit(files) => EditFiles(r, PathOf(k), files)
    case CommitWork => CommitAll(r, PathOf(k))
    case Merge => MergeFastForward(r, BranchOf(k))
    case Remove => WorktreeRemove(r, PathOf(k))
    case Delete => BranchDelete(r, BranchOf(k))
    case _ => r
  }

  /** Where a task goes next, with the branches in the order in which `complete` takes them. */
  function PcAfter(r: Repo, limits: Limits, t: Task, e: Action): Pc
    requires RepoOk(r) && CanStep(r, t, e)
  {
    var k := t.ticket;
    match e
    case AddWorktree => Resting(Fresh)
    case Edit(_) => t.pc
    case Start => Counting
    case Count =>
      if !WorkWithin(r, limits, k) then Resting(Returned(SafetyBlocked))
      else if Clean(r, PathOf(k)) then Removing(NoChanges)
      else Validating
    case Validate(passed) => if passed then Recounting else Resting(Returned(ValidationFailed))
    case Recount => if WorkWithin(r, limits, k) then ReadingHead else Resting(Returned(SafetyBlocked))
    case ReadHead => if r.head == OnBranch(k.baseBranch) then ReadingStatus else Resting(Returned(MergeFailed))
    case ReadStatus => if r.dirty then Resting(Returned(MergeFailed)) else ReadingBase
    case ReadBase =>
      if r.branches[k.baseBranch] == k.baseCommit then Committing else Resting(Returned(MergeFailed))
    case CommitWork => Merging
    case Merge => Pushing
    case Push => Removing(Merged)
    case Remove => Deleting(t.pc.next)
    case Delete => Resting(Returned(t.pc.next))
    case Fail => if t.pc.Merging? then Resting(Returned(MergeFailed)) else Resting(Raised)
  }

  function TaskAfter(r: Repo, limits: Limits, t: Task, e: Action): Task
    requires RepoOk(r) && CanStep(r, t, e)
  {
    var t' := t.(pc := PcAfter(r, limits, t, e));
    if e.AddWorktree? then t'.(start := r.branches[t.ticket.baseBranch])
    else if e.CommitWork? then t'.(bot := t.bot + [|r.graph|])
    else t'
  }

  predicate Can(s: Sys, e: Event)
    requires RepoOk(s.repo)
  {
    match e
    case Outside(m) => CanMove(s.repo, m)
    case Open(p, k) =>
      && p !in s.tasks && !IsTaskBranch(k.baseBranch)
      && k.baseBranch in s.repo.branches && k.baseCommit == s.repo.branches[k.baseBranch]
    case Act(p, a) => p in s.tasks && CanStep(s.repo, s.tasks[p], a)
  }

  function Do(s: Sys, e: Event): (s': Sys)
    requires RepoOk(s.repo) && Can(s, e)
    ensures RepoOk(s'.repo) && s.repo.graph <= s'.repo.graph
  {
    match e
    case Outside(m) => s.(repo := MoveBy(s.repo, m))
    case Open(p, k) => s.(tasks := s.tasks[p := Task(k, Opening, k.baseCommit, [])])
    case Act(p, a) =>
      var t := s.tasks[p];
      Sys(
        RepoAfter(s.repo, t, a),
        s.limits,
        if t.pc.Opening? && a.Fail? then s.tasks - {p}
        else s.tasks[p := TaskAfter(s.repo, s.limits, t, a)],
        if a.CommitWork? then s.made + {|s.repo.graph|} else s.made)
  }

  // ---------- Runs ----------

  ghost predicate Runs(s: Sys, es: seq<Event>)
    requires RepoOk(s.repo)
    decreases |es|
  {
    es == [] || (Can(s, es[0]) && Runs(Do(s, es[0]), es[1..]))
  }

  ghost function Exec(s: Sys, es: seq<Event>): (s': Sys)
    requires RepoOk(s.repo) && Runs(s, es)
    ensures RepoOk(s'.repo)
    decreases |es|
  {
    if es == [] then s else Exec(Do(s, es[0]), es[1..])
  }

  lemma {:induction false} RunsAppend(s: Sys, es: seq<Event>, e: Event)
    requires RepoOk(s.repo) && Runs(s, es) && Can(Exec(s, es), e)
    ensures Runs(s, es + [e]) && Exec(s, es + [e]) == Do(Exec(s, es), e)
    decreases |es|
  {
    if es == [] {
      assert [] + [e] == [e];
      assert [e][1..] == [];
    } else {
      RunsAppend(Do(s, es[0]), es[1..], e);
      assert (es + [e])[0] == es[0] && (es + [e])[1..] == es[1..] + [e];
    }
  }

  // ---------- What every state of every run satisfies ----------

  ghost predicate LinkOk(g: Graph, limits: Limits, before: CommitId, c: CommitId) {
    && c < |g| && before < |g| && g[c].parents == [before] && g[c].tree != g[before].tree
    && Within(limits, g[before].tree, g[c].tree)
  }

  /** The commits of a task form a line from `start`, and each differs from its parent within the limits. */
  ghost predicate ChainOk(g: Graph, limits: Limits, start: CommitId, bot: seq<CommitId>) {
    if bot == [] then start < |g|
    else
      var older := bot[..|bot| - 1];
      ChainOk(g, limits, start, older) && LinkOk(g, limits, Last(start, older), bot[|bot| - 1])
  }

  predicate NeedsWorktree(pc: Pc) {
    match pc
    case Opening => false
    case Resting(last) => !last.Raised?
    case Counting => false
    case Deleting(_) => false
    case _ => true
  }

  /** The counts were retaken and found within the limits. */
  predicate Reviewed(pc: Pc) {
    pc.ReadingHead? || pc.ReadingStatus? || pc.ReadingBase? || pc.Committing?
  }

  predicate AfterCommit(pc: Pc) {
    pc in {Merging, Pushing, Removing(Merged), Deleting(Merged), Resting(Returned(Merged))}
  }

  ghost predicate OwnerOk(r: Repo, limits: Limits, t: Task)
    requires RepoOk(r)
  {
    var k := t.ticket;
    && BranchOf(k) in r.branches
    && k.baseBranch in r.branches
    && Reaches(r.graph, r.branches[BranchOf(k)], Tip(t))
    && Reaches(r.graph, r.branches[k.baseBranch], t.start)
    && (HasWorktree(r, k) ==> r.branches[BranchOf(k)] == Tip(t))
    && (NeedsWorktree(t.pc) ==> HasWorktree(r, k))
    && (Reviewed(t.pc) && HasWorktree(r, k) ==> WorkWithin(r, limits, k))
    && (t.pc.Deleting? ==> t.pc.next in {Merged, NoChanges})
    && (t.pc.Removing? ==> t.pc.next in {Merged, NoChanges})
  }

  ghost predicate TaskOk(r: Repo, limits: Limits, t: Task)
    requires RepoOk(r)
  {
    var k := t.ticket;
    && !IsTaskBranch(k.baseBranch)
    && (if t.pc.Opening? then
          t.bot == [] && k.baseBranch in r.branches && Reaches(r.graph, r.branches[k.baseBranch], k.baseCommit)
        else
          && ChainOk(r.graph, limits, t.start, t.bot)
          && Reaches(r.graph, t.start, k.baseCommit)
          && (t.pc.Committing? || AfterCommit(t.pc) ==> t.start == k.baseCommit)
          && (AfterCommit(t.pc) ==> t.bot != [])
          && (!Finished(t.pc) ==> OwnerOk(r, limits, t)))
  }

  ghost predicate MadeOk(g: Graph, limits: Limits, c: CommitId) {
    c < |g| && |g[c].parents| == 1 && LinkOk(g, limits, g[c].parents[0], c)
  }

  ghost predicate Distinct(tasks: map<Pid, Task>) {
    forall p, q :: p in tasks && q in tasks && p != q && Owns(tasks[p]) && Owns(tasks[q]) ==>
      BranchOf(tasks[p].ticket) != BranchOf(tasks[q].ticket)
  }

  ghost predicate Inv(s: Sys) {
    && RepoOk(s.repo)
    && (forall p :: p in s.tasks ==> TaskOk(s.repo, s.limits, s.tasks[p]))
    && Distinct(s.tasks)
    && (forall c :: c in s.made ==> MadeOk(s.repo.graph, s.limits, c))
    && (forall p, c :: p in s.tasks && c in s.tasks[p].bot ==> c in s.made)
  }

  lemma InvMeansRepoOk(s: Sys)
    requires Inv(s)
    ensures RepoOk(s.repo)
  {
  }

  /** Before the governor does anything. */
  ghost predicate Init(s: Sys) {
    RepoOk(s.repo) && s.tasks == map[] && s.made == {}
  }

  /** Branch `b` stays where it is or moves to a descendant of its tip. */
  ghost predicate Advances(r: Repo, r': Repo, b: string) {
    b in r.branches ==> b in r'.branches && Reaches(r'.graph, r'.branches[b], r.branches[b])
  }

  /** What one task can count on when somebody else acts. */
  ghost predicate Undisturbed(r: Repo, r': Repo, k: Ticket) {
    && r.graph <= r'.graph
    && Advances(r, r', k.baseBranch)
    && Advances(r, r', BranchOf(k))
    && HasWorktree(r, k) == HasWorktree(r', k)
    && (HasWorktree(r, k) && BranchOf(k) in r.branches ==>
          && r'.worktrees[PathOf(k)] == r.worktrees[PathOf(k)]
          && r'.branches[BranchOf(k)] == r.branches[BranchOf(k)])
  }

  lemma {:induction false} ChainSurvives(g: Graph, g': Graph, limits: Limits, start: CommitId, bot: seq<CommitId>)
    requires ChainOk(g, limits, start, bot) && g <= g'
    ensures ChainOk(g', limits, start, bot)
  {
    hide Within;
    if bot != [] {
      ChainSurvives(g, g', limits, start, bot[..|bot| - 1]);
    }
  }

  lemma TaskSurvives(r: Repo, r': Repo, limits: Limits, t: Task)
    requires RepoOk(r) && RepoOk(r') && TaskOk(r, limits, t)
    requires r.graph <= r'.graph
    requires t.pc.Opening? ==> Advances(r, r', t.ticket.baseBranch)
    requires Owns(t) ==> Undisturbed(r, r', t.ticket)
    ensures TaskOk(r', limits, t)
  {
    hide Within;
    var k := t.ticket;
    if t.pc.Opening? {
      ReachesSurvivesGrowth(r.graph, r'.graph, r.branches[k.baseBranch], k.baseCommit);
      ReachesIsTransitive(r'.graph, r'.branches[k.baseBranch], r.branches[k.baseBranch], k.baseCommit);
    } else {
      ChainSurvives(r.graph, r'.graph, limits, t.start, t.bot);
      ReachesSurvivesGrowth(r.graph, r'.graph, t.start, k.baseCommit);
      if Owns(t) {
        ReachesSurvivesGrowth(r.graph, r'.graph, r.branches[BranchOf(k)], Tip(t));
        ReachesSurvivesGrowth(r.graph, r'.graph, r.branches[k.baseBranch], t.start);
        ReachesIsTransitive(r'.graph, r'.branches[BranchOf(k)], r.branches[BranchOf(k)], Tip(t));
        ReachesIsTransitive(r'.graph, r'.branches[k.baseBranch], r.branches[k.baseBranch], t.start);
      }
    }
  }

  /** Outsiders move every branch forward and leave every worktree, and the branch in it, alone. */
  lemma MoveDisturbsNobody(r: Repo, m: Move, k: Ticket)
    requires RepoOk(r) && CanMove(r, m)
    ensures Undisturbed(r, MoveBy(r, m), k)
  {
    var r' := MoveBy(r, m);
    forall b | b in r.branches ensures Advances(r, r', b) {
      MoveAdvances(r, m, b);
    }
  }

  lemma MoveAdvances(r: Repo, m: Move, b: string)
    requires RepoOk(r) && CanMove(r, m)
    ensures Advances(r, MoveBy(r, m), b)
  {
    var r' := MoveBy(r, m);
    if b in r.branches && r'.branches[b] != r.branches[b] && m.Append? {
      assert r'.graph[|r.graph|].parents[0] == r.branches[b];
      assert Reaches(r'.graph, r.branches[b], r.branches[b]);
    }
  }

  /** A command of a task changes no branch but the task's own, except that a fast-forward moves the
      branch the project directory has checked out, and only to a descendant. */
  lemma StepAdvances(r: Repo, t: Task, e: Action, b: string)
    requires RepoOk(r) && CanStep(r, t, e)
    requires e.Delete? ==> b != BranchOf(t.ticket)
    ensures Advances(r, RepoAfter(r, t, e), b)
  {
    var r' := RepoAfter(r, t, e);
    if b in r.branches && r'.branches[b] != r.branches[b] && e.CommitWork? {
      assert r'.graph[|r.graph|].parents[0] == r.branches[b];
      assert Reaches(r'.graph, r.branches[b], r.branches[b]);
    }
  }

  /** A command of a task leaves the worktree of every other task, and the branch in it, as they are. */
  lemma StepLeavesOtherWorktrees(r: Repo, t: Task, e: Action, k: Ticket)
    requires RepoOk(r) && CanStep(r, t, e)
    requires BranchOf(k) in r.branches && BranchOf(t.ticket) != BranchOf(k)
    ensures HasWorktree(r, k) == HasWorktree(RepoAfter(r, t, e), k)
    ensures HasWorktree(r, k) ==>
              && RepoAfter(r, t, e).worktrees[PathOf(k)] == r.worktrees[PathOf(k)]
              && BranchOf(k) in RepoAfter(r, t, e).branches
              && RepoAfter(r, t, e).branches[BranchOf(k)] == r.branches[BranchOf(k)]
  {
    if HasWorktree(r, k) {
      assert Held(r, BranchOf(k));
    }
  }

  lemma StepDisturbsNobodyElse(r: Repo, t: Task, e: Action, k: Ticket)
    requires RepoOk(r) && CanStep(r, t, e)
    requires BranchOf(k) in r.branches && !IsTaskBranch(k.baseBranch)
    requires BranchOf(t.ticket) != BranchOf(k)
    ensures Undisturbed(r, RepoAfter(r, t, e), k)
  {
    hide Within;
    StepAdvances(r, t, e, k.baseBranch);
    StepAdvances(r, t, e, BranchOf(k));
    StepLeavesOtherWorktrees(r, t, e, k);
  }

  /** What must hold for a task to stand at `pc`. */
  ghost predicate MayBeAt(r: Repo, limits: Limits, t: Task, pc: Pc)
    requires RepoOk(r)
  {
    && !pc.Opening?
    && (!Finished(pc) ==> !Finished(t.pc))
    && (pc.Committing? || AfterCommit(pc) ==> t.start == t.ticket.baseCommit)
    && (AfterCommit(pc) ==> t.bot != [])
    && (NeedsWorktree(pc) ==> HasWorktree(r, t.ticket))
    && (Reviewed(pc) && HasWorktree(r, t.ticket) && BranchOf(t.ticket) in r.branches ==>
        WorkWithin(r, limits, t.ticket))
    && (pc.Deleting? ==> pc.next in {Merged, NoChanges})
    && (pc.Removing? ==> pc.next in {Merged, NoChanges})
  }

  lemma MovesTo(r: Repo, limits: Limits, t: Task, pc: Pc)
    requires RepoOk(r) && TaskOk(r, limits, t) && !t.pc.Opening? && MayBeAt(r, limits, t, pc)
    ensures TaskOk(r, limits, t.(pc := pc))
  {
    hide Within;
  }

  /** The commands that only look. */
  lemma LookKeepsTask(r: Repo, limits: Limits, t: Task, e: Action)
    requires RepoOk(r) && TaskOk(r, limits, t) && CanStep(r, t, e) && !t.pc.Opening?
    requires !(e.Edit? || e.CommitWork? || e.Merge? || e.Remove? || e.Delete?)
    ensures TaskOk(r, limits, t.(pc := PcAfter(r, limits, t, e)))
  {
    hide Within;
    if e.ReadBase? {
      ReachesIsOlder(r.graph, r.branches[t.ticket.baseBranch], t.start);
      ReachesIsOlder(r.graph, t.start, t.ticket.baseCommit);
    }
    assert MayBeAt(r, limits, t, PcAfter(r, limits, t, e));
    MovesTo(r, limits, t, PcAfter(r, limits, t, e));
  }

  lemma AddWorktreeKeepsTask(r: Repo, limits: Limits, t: Task)
    requires RepoOk(r) && TaskOk(r, limits, t) && CanStep(r, t, AddWorktree)
    ensures TaskOk(RepoAfter(r, t, AddWorktree), limits, TaskAfter(r, limits, t, AddWorktree))
  {
    hide Within;
  }

  lemma EditKeepsTask(r: Repo, limits: Limits, t: Task, files: Tree)
    requires RepoOk(r) && TaskOk(r, limits, t) && CanStep(r, t, Edit(files))
    ensures TaskOk(EditFiles(r, PathOf(t.ticket), files), limits, t)
  {
    hide Within;
  }

  lemma MergeKeepsTask(r: Repo, limits: Limits, t: Task)
    requires RepoOk(r) && TaskOk(r, limits, t) && CanStep(r, t, Merge)
    ensures TaskOk(MergeFastForward(r, BranchOf(t.ticket)), limits, t.(pc := Pushing))
  {
    hide Within;
    var r' := MergeFastForward(r, BranchOf(t.ticket));
    StepAdvances(r, t, Merge, t.ticket.baseBranch);
    StepAdvances(r, t, Merge, BranchOf(t.ticket));
    TaskSurvives(r, r', limits, t);
    MovesTo(r', limits, t, Pushing);
  }

  lemma RemoveKeepsTask(r: Repo, limits: Limits, t: Task)
    requires RepoOk(r) && TaskOk(r, limits, t) && CanStep(r, t, Remove)
    ensures TaskOk(WorktreeRemove(r, PathOf(t.ticket)), limits, t.(pc := Deleting(t.pc.next)))
  {
    hide Within;
  }

  lemma DeleteKeepsTask(r: Repo, limits: Limits, t: Task)
    requires RepoOk(r) && TaskOk(r, limits, t) && CanStep(r, t, Delete)
    ensures TaskOk(BranchDelete(r, BranchOf(t.ticket)), limits, t.(pc := Resting(Returned(t.pc.next))))
  {
    hide Within;
  }

  lemma ChainGrows(g: Graph, limits: Limits, start: CommitId, bot: seq<CommitId>, files: Tree)
    requires ChainOk(g, limits, start, bot) && Last(start, bot) < |g| && Within(limits, g[Last(start, bot)].tree, files)
    requires files != g[Last(start, bot)].tree
    ensures ChainOk(g + [Commit([Last(start, bot)], files)], limits, start, bot + [|g|])
    ensures LinkOk(g + [Commit([Last(start, bot)], files)], limits, Last(start, bot), |g|)
  {
    hide Within;
    ChainSurvives(g, g + [Commit([Last(start, bot)], files)], limits, start, bot);
    assert (bot + [|g|])[..|bot|] == bot;
  }

  /** A commit continues the line of its task and keeps the limits against its parent. */
  lemma CommitContinuesChain(r: Repo, limits: Limits, t: Task)
    requires RepoOk(r) && TaskOk(r, limits, t) && CanStep(r, t, CommitWork)
    ensures ChainOk(CommitAll(r, PathOf(t.ticket)).graph, limits, t.start, t.bot + [|r.graph|])
    ensures LinkOk(CommitAll(r, PathOf(t.ticket)).graph, limits, Tip(t), |r.graph|)
  {
    hide Within;
    ChainGrows(r.graph, limits, t.start, t.bot, r.worktrees[PathOf(t.ticket)].files);
  }

  lemma CommitKeepsTask(r: Repo, limits: Limits, t: Task)
    requires RepoOk(r) && TaskOk(r, limits, t) && CanStep(r, t, CommitWork)
    ensures TaskOk(CommitAll(r, PathOf(t.ticket)), limits, t.(pc := Merging, bot := t.bot + [|r.graph|]))
  {
    hide Within, ChainOk, LinkOk;
    var k := t.ticket;
    var g' := CommitAll(r, PathOf(k)).graph;
    CommitContinuesChain(r, limits, t);
    ReachesSurvivesGrowth(r.graph, g', t.start, k.baseCommit);
    ReachesSurvivesGrowth(r.graph, g', r.branches[k.baseBranch], t.start);
  }

  /** A task's own command keeps everything that is known about the task. */
  lemma OwnStepKeepsTask(r: Repo, limits: Limits, t: Task, e: Action)
    requires RepoOk(r) && TaskOk(r, limits, t) && CanStep(r, t, e)
    requires !(t.pc.Opening? && e.Fail?)
    ensures TaskOk(RepoAfter(r, t, e), limits, TaskAfter(r, limits, t, e))
  {
    hide Within;
    match e
    case AddWorktree => AddWorktreeKeepsTask(r, limits, t);
    case CommitWork => CommitKeepsTask(r, limits, t);
    case Merge => MergeKeepsTask(r, limits, t);
    case Edit(files) => EditKeepsTask(r, limits, t, files);
    case Remove => RemoveKeepsTask(r, limits, t);
    case Delete => DeleteKeepsTask(r, limits, t);
    case _ => LookKeepsTask(r, limits, t, e);
  }

  lemma StepKeepsTasks(s: Sys, e: Event)
    requires Inv(s) && Can(s, e)
    ensures forall p :: p in Do(s, e).tasks ==> TaskOk(Do(s, e).repo, s.limits, Do(s, e).tasks[p])
  {
    hide Within;
    var s' := Do(s, e);
    forall p | p in s'.tasks ensures TaskOk(s'.repo, s.limits, s'.tasks[p]) {
      match e
      case Outside(m) =>
        MoveDisturbsNobody(s.repo, m, s.tasks[p].ticket);
        TaskSurvives(s.repo, s'.repo, s.limits, s.tasks[p]);
      case Open(_, _) =>
      case Act(q, a) =>
        if q == p {
          OwnStepKeepsTask(s.repo, s.limits, s.tasks[p], a);
        } else {
          OthersSurvive(s, q, a, p);
        }
    }
  }

  lemma OwnershipStep(r: Repo, limits: Limits, t: Task, e: Action)
    requires RepoOk(r) && CanStep(r, t, e) && !(t.pc.Opening? && e.Fail?)
    ensures Owns(TaskAfter(r, limits, t, e)) ==> Owns(t) || e.AddWorktree?
    ensures TaskAfter(r, limits, t, e).ticket == t.ticket
  {
  }

  lemma StepKeepsDistinct(s: Sys, e: Event)
    requires Inv(s) && Can(s, e)
    ensures Distinct(Do(s, e).tasks)
  {
    hide Within;
    if e.Act? && e.p in Do(s, e).tasks {
      OwnershipStep(s.repo, s.limits, s.tasks[e.p], e.action);
      forall q | q in s.tasks && Owns(s.tasks[q]) ensures BranchOf(s.tasks[q].ticket) in s.repo.branches {
        assert TaskOk(s.repo, s.limits, s.tasks[q]);
      }
    }
  }

  lemma MadeSurvives(g: Graph, g': Graph, limits: Limits, c: CommitId)
    requires MadeOk(g, limits, c) && g <= g'
    ensures MadeOk(g', limits, c)
  {
  }

  /** The new commit has the old tip of the task as its only parent, and keeps the limits against it. */
  lemma NewCommitIsMadeOk(r: Repo, limits: Limits, t: Task)
    requires RepoOk(r) && TaskOk(r, limits, t) && CanStep(r, t, CommitWork)
    ensures MadeOk(CommitAll(r, PathOf(t.ticket)).graph, limits, |r.graph|)
  {
    hide Within;
    CommitContinuesChain(r, limits, t);
  }

  lemma StepKeepsMade(s: Sys, e: Event)
    requires Inv(s) && Can(s, e)
    ensures forall c :: c in Do(s, e).made ==> MadeOk(Do(s, e).repo.graph, s.limits, c)
  {
    hide MadeOk;
    var s' := Do(s, e);
    forall c | c in s.made ensures MadeOk(s'.repo.graph, s.limits, c) {
      MadeSurvives(s.repo.graph, s'.repo.graph, s.limits, c);
    }
    if e.Act? && e.action.CommitWork? {
      NewCommitIsMadeOk(s.repo, s.limits, s.tasks[e.p]);
    }
  }

  lemma StepKeepsBotMade(s: Sys, e: Event)
    requires Inv(s) && Can(s, e)
    ensures forall p, c :: p in Do(s, e).tasks && c in Do(s, e).tasks[p].bot ==> c in Do(s, e).made
  {
    hide Within;
  }

  lemma StepKeepsInv(s: Sys, e: Event)
    requires Inv(s) && Can(s, e)
    ensures Inv(Do(s, e))
  {
    hide Within;
    StepKeepsTasks(s, e);
    StepKeepsDistinct(s, e);
    StepKeepsMade(s, e);
    StepKeepsBotMade(s, e);
  }

  /** Owners have different branches, and a task that is still opening or is finished either changes
      nothing or creates a branch that did not exist. */
  lemma OthersSurvive(s: Sys, p: Pid, a: Action, q: Pid)
    requires Inv(s) && Can(s, Act(p, a)) && q in s.tasks && q != p
    ensures TaskOk(RepoAfter(s.repo, s.tasks[p], a), s.limits, s.tasks[q])
  {
    hide Within;
    var t, u := s.tasks[p], s.tasks[q];
    if Owns(u) && (Owns(t) || a.AddWorktree?) {
      StepDisturbsNobodyElse(s.repo, t, a, u.ticket);
      TaskSurvives(s.repo, RepoAfter(s.repo, t, a), s.limits, u);
    } else if Owns(t) || a.AddWorktree? {
      StepAdvances(s.repo, t, a, u.ticket.baseBranch);
      TaskSurvives(s.repo, RepoAfter(s.repo, t, a), s.limits, u);
    }
  }

  lemma {:induction false} RunKeepsInv(s: Sys, es: seq<Event>)
    requires Inv(s) && Runs(s, es)
    ensures Inv(Exec(s, es))
    decreases |es|
  {
    if es != [] {
      StepKeepsInv(s, es[0]);
      RunKeepsInv(Do(s, es[0]), es[1..]);
    }
  }
}
