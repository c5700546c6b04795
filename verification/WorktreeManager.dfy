/** `begin` and `complete` of the worktree manager, command by command. Between any two commands other
    calls and outsiders may act, any command may fail, and the manager keeps a log of everything that
    happens, which is shown to be a run of the protocol. */
module Worktrees {
  import opened Git
  import opened Protocol
  import opened Guarantees
  import TaskId
  import opened Seeding

  datatype BeginError =
    | BadTaskId
    | UnsafeSeed
    | NoBaseBranch
    | WrongBranch(current: Head)
    | NotClean
    | BranchExists
    | PathExists
    | CommandFailed
    | SeedingFailed

  datatype BeginResult = Begun(ticket: Ticket) | NotBegun(error: BeginError)

  datatype BaseBranch = NoBase | Base(name: string)

  /** A configured branch is taken or nothing is; without one, the first of dev, main and master that exists. */
  function SelectBaseBranch(r: Repo, configured: BaseBranch): (b: BaseBranch)
    ensures b.Base? ==> b.name in r.branches
    ensures configured.Base? ==> (b == configured <==> configured.name in r.branches) && (b == configured || b.NoBase?)
    ensures configured.NoBase? ==>
        (b.NoBase? <==> "dev" !in r.branches && "main" !in r.branches && "master" !in r.branches)
    ensures configured.NoBase? && b.Base? ==> b.name in {"dev", "main", "master"}
    ensures configured.NoBase? && b == Base("main") ==> "dev" !in r.branches
    ensures configured.NoBase? && b == Base("master") ==> "dev" !in r.branches && "main" !in r.branches
  {
    match configured
    case Base(name) => if name in r.branches then configured else NoBase
    case NoBase =>
      if "dev" in r.branches then Base("dev")
      else if "main" in r.branches then Base("main")
      else if "master" in r.branches then Base("master")
      else NoBase
  }

  /** The refusal for counts above a limit, if any. */
  predicate SafetyBlocks(changed: nat, deleted: nat, limits: Limits) {
    changed > limits.changed || deleted > limits.deleted
  }

  lemma NoChangesMeansEqual(before: Tree, after: Tree)
    ensures |Changed(before, after)| == 0 <==> before == after
  {
    if Changed(before, after) == {} {
      forall p ensures (p in before <==> p in after) && (p in before ==> before[p] == after[p]) {
        assert p !in Changed(before, after);
        if p in before || p in after {
          assert p in before.Keys + after.Keys;
        }
      }
      assert before == after;
    }
  }

  /** The commands of call `p` in a log, without the edits that happen in its worktree. */
  ghost function Commands(es: seq<Event>, p: Pid): seq<Action> {
    if es == [] then []
    else
      var e := es[|es| - 1];
      Commands(es[..|es| - 1], p) + (if e.Act? && e.p == p && !e.action.Edit? then [e.action] else [])
  }

  lemma CommandsOfAppend(es: seq<Event>, e: Event, p: Pid)
    ensures Commands(es + [e], p) == Commands(es, p)
        + (if e.Act? && e.p == p && !e.action.Edit? then [e.action] else [])
  {
    assert (es + [e])[..|es|] == es;
  }

  lemma DefaultBasesAreNoTaskBranches()
    ensures !IsTaskBranch("dev") && !IsTaskBranch("main") && !IsTaskBranch("master")
  {
    assert |TASK_PREFIX| == 4 && |"dev"| == 3;
    assert TASK_PREFIX[0] == 'b' && "main"[0] == 'm' && "master"[0] == 'm';
  }

  const REVIEW: seq<Action> := [Start, Count, Validate(true), Recount, ReadHead, ReadStatus, ReadBase]

  /** From the commit to the end. */
  predicate IsLanding(trace: seq<Action>, o: Outcome) {
    match o
    case Returned(Merged) => trace == [CommitWork, Merge, Push, Remove, Delete]
    case Returned(MergeFailed) => trace == [CommitWork, Fail]
    case Raised =>
      || trace == [Fail]
      || trace == [CommitWork, Merge, Fail]
      || trace == [CommitWork, Merge, Push, Fail]
      || trace == [CommitWork, Merge, Push, Remove, Fail]
    case _ => false
  }

  /** Calls that end before a commit. */
  ghost predicate IsStop(trace: seq<Action>, o: Outcome) {
    match o
    case Returned(NoChanges) => trace == [Start, Count, Remove, Delete]
    case Returned(ValidationFailed) => trace == [Start, Count, Validate(false)]
    case Returned(SafetyBlocked) => trace == [Start, Count] || trace == [Start, Count, Validate(true), Recount]
    case Returned(MergeFailed) => exists n :: 5 <= n <= 7 && trace == REVIEW[..n]
    case Raised =>
      || trace == [Start, Fail]
      || trace == [Start, Count, Fail]
      || trace == [Start, Count, Remove, Fail]
      || exists n :: 3 <= n <= 6 && trace == REVIEW[..n] + [Fail]
    case _ => false
  }

  /** The commands of one `complete` in order, for each way in which it can end. */
  ghost predicate IsTraceOf(trace: seq<Action>, o: Outcome) {
    IsStop(trace, o) || exists t :: IsLanding(t, o) && trace == REVIEW + t
  }

  class WorktreeManager {
    var repo: Repo
    const limits: Limits
    const alnum: char -> bool
    var tasks: map<Pid, Task>
    var made: set<CommitId>
    ghost const origin: Sys
    ghost var log: seq<Event>

    function State(): Sys
      reads this
    {
      Sys(repo, limits, tasks, made)
    }

    ghost predicate Valid()
      reads this
    {
      && Inv(origin) && Runs(origin, log) && Exec(origin, log) == State() && Inv(State())
    }

    constructor (repo: Repo, limits: Limits, alnum: char -> bool)
      requires RepoOk(repo)
      ensures Valid() && log == [] && State() == Sys(repo, limits, map[], {}) && this.alnum == alnum
    {
      this.alnum := alnum;
      this.repo, this.limits, this.tasks, this.made := repo, limits, map[], {};
      this.log := [];
      this.origin := Sys(repo, limits, map[], {});
    }

    /** One command has been carried out and has left the repository as `after`. */
    method Record(e: Event, after: Repo)
      requires Valid() && Can(State(), e) && after == Do(State(), e).repo
      modifies this
      ensures Valid() && log == old(log) + [e] && State() == Do(old(State()), e)
    {
      hide Can, TaskOk, RepoOk, MadeOk, Distinct;
      RunsAppend(origin, log, e);
      StepKeepsInv(State(), e);
      var next := Do(State(), e);
      repo, tasks, made, log := after, next.tasks, next.made, log + [e];
    }

    /** Anything that anybody but call `p` may do meanwhile. */
    method Interfere(p: Pid)
      requires Valid()
      modifies this
      ensures Valid() && Commands(log, p) == Commands(old(log), p) && old(log) <= log
      ensures p in tasks <==> p in old(tasks)
      ensures p in tasks ==> tasks[p] == old(tasks[p])
      ensures forall b :: b in old(repo.branches) && !IsTaskBranch(b) ==> b in repo.branches
    {
      hide Can, Inv, RepoOk, Runs, Exec;
      var steps: nat := *;
      while steps > 0
        invariant Valid() && Commands(log, p) == Commands(old(log), p) && old(log) <= log
        invariant p in tasks <==> p in old(tasks)
        invariant p in tasks ==> tasks[p] == old(tasks[p])
        invariant forall b :: b in old(repo.branches) && !IsTaskBranch(b) ==> b in repo.branches
      {
        var e: Event := *;
        InvMeansRepoOk(State());
        if Can(State(), e) && !By(e, p) {
          OthersKeepCall(State(), e, p);
          Record(e, Do(State(), e).repo);
        }
        steps := steps - 1;
      }
    }

    method CommandFails() returns (fails: bool) {
      fails := *;
    }

    /** The facts about call `p` that its next command may rely on. */
    ghost predicate At(p: Pid, k: Ticket, pc: Pc)
      reads this
    {
      p in tasks && tasks[p].ticket == k && tasks[p].pc == pc
    }

    /** Carries out a command of call `p`. */
    method Take(p: Pid, a: Action, after: Repo)
      requires Valid() && p in tasks && !tasks[p].pc.Opening?
      requires CanStep(repo, tasks[p], a) && after == RepoAfter(repo, tasks[p], a)
      modifies this
      ensures Valid() && p in tasks && tasks[p] == TaskAfter(old(repo), limits, old(tasks[p]), a)
      ensures repo == after
      ensures Commands(log, p) == Commands(old(log), p) + (if a.Edit? then [] else [a])
    {
      hide PcAfter, CanStep, RepoAfter, TaskAfter, Inv, RepoOk, Runs, Exec;
      InvMeansRepoOk(State());
      Record(Act(p, a), after);
    }

    /** The command of call `p` that comes next fails. */
    method TakeFailure(p: Pid)
      requires Valid() && p in tasks && !tasks[p].pc.Opening? && !tasks[p].pc.Resting? && !tasks[p].pc.Validating?
      modifies this
      ensures Valid() && repo == old(repo)
      ensures At(p, old(tasks[p].ticket), Resting(if old(tasks[p].pc.Merging?) then Returned(MergeFailed) else Raised))
      ensures Commands(log, p) == Commands(old(log), p) + [Fail]
    {
      hide Inv, RepoOk, Runs, Exec;
      InvMeansRepoOk(State());
      Take(p, Fail, repo);
    }

    // ---------- The commands of one call. Each tells whether it succeeded. ----------

    method RemoveWorktree(p: Pid, k: Ticket, status: Status) returns (ok: bool)
      requires Valid() && At(p, k, Removing(status))
      modifies this
      ensures Valid() && At(p, k, if ok then Deleting(status) else Resting(Raised))
      ensures Commands(log, p) == Commands(old(log), p) + [if ok then Remove else Fail]
    {
      hide Inv, RepoOk, Runs, Exec, Commands;
      Interfere(p);
      InvMeansRepoOk(State());
      var fails := CommandFails();
      ok := !fails && HasWorktree(repo, k) && Clean(repo, PathOf(k));
      if ok {
        Take(p, Remove, WorktreeRemove(repo, PathOf(k)));
      } else {
        TakeFailure(p);
      }
    }

    method DeleteBranch(p: Pid, k: Ticket, status: Status) returns (ok: bool)
      requires Valid() && At(p, k, Deleting(status))
      modifies this
      ensures Valid() && At(p, k, Resting(if ok then Returned(status) else Raised))
      ensures Commands(log, p) == Commands(old(log), p) + [if ok then Delete else Fail]
    {
      hide Inv, RepoOk, Runs, Exec, Commands;
      Interfere(p);
      InvMeansRepoOk(State());
      var fails := CommandFails();
      ok := !fails && CanDelete(repo, BranchOf(k));
      if ok {
        Take(p, Delete, BranchDelete(repo, BranchOf(k)));
      } else {
        TakeFailure(p);
      }
    }

    method Cleanup(p: Pid, k: Ticket, status: Status) returns (o: Outcome)
      requires Valid() && At(p, k, Removing(status))
      modifies this
      ensures Valid() && At(p, k, Resting(o)) && o in {Raised, Returned(status)}
      ensures o == Returned(status) ==> Commands(log, p) == Commands(old(log), p) + [Remove, Delete]
      ensures o == Raised ==>
                || Commands(log, p) == Commands(old(log), p) + [Fail]
                || Commands(log, p) == Commands(old(log), p) + [Remove, Fail]
    {
      hide Inv, RepoOk, Runs, Exec, Commands;
      var ok := RemoveWorktree(p, k, status);
      if !ok {
        return Raised;
      }
      ok := DeleteBranch(p, k, status);
      o := if ok then Returned(status) else Raised;
    }

    /** The numbers of changed and deleted paths between the tip of the task branch and its worktree. */
    ghost predicate IsCountOf(r: Repo, k: Ticket, changed: nat, deleted: nat) {
      && RepoOk(r) && HasWorktree(r, k)
      && var before, after := TipTree(r, BranchOf(k)), r.worktrees[PathOf(k)].files;
         changed == |Changed(before, after)| && deleted == |Deleted(before, after)|
    }

    /** `git status` in the worktree, counted. */
    method ChangeCounts(p: Pid, k: Ticket, first: bool) returns (ok: bool, changed: nat, deleted: nat)
      requires Valid() && At(p, k, if first then Counting else Recounting)
      modifies this
      ensures Valid() && Commands(log, p) == Commands(old(log), p)
          + [if !ok then Fail else if first then Count else Recount]
      ensures !ok ==> At(p, k, Resting(Raised))
      ensures ok ==> At(p, k,
                        if SafetyBlocks(changed, deleted, limits) then Resting(Returned(SafetyBlocked))
                        else if !first then ReadingHead
                        else if changed == 0 then Removing(NoChanges)
                        else Validating)
      ensures ok ==> IsCountOf(repo, k, changed, deleted)
    {
      hide Inv, RepoOk, Runs, Exec, Commands, Changed, Deleted;
      Interfere(p);
      InvMeansRepoOk(State());
      var fails := CommandFails();
      ok, changed, deleted := !fails && HasWorktree(repo, k), 0, 0;
      if ok {
        var before, after := TipTree(repo, BranchOf(k)), repo.worktrees[PathOf(k)].files;
        changed, deleted := |Changed(before, after)|, |Deleted(before, after)|;
        NoChangesMeansEqual(before, after);
        Take(p, if first then Count else Recount, repo);
      } else {
        TakeFailure(p);
      }
    }

    /** `results` tells what the diff check and each configured command would end in. All of them run, each
        may write to the worktree, unless one fails; the first that fails ends the validation. */
    method RunValidation(p: Pid, k: Ticket, results: seq<bool>) returns (passed: bool, ghost ran: nat)
      requires Valid() && At(p, k, Validating)
      modifies this
      ensures Valid() && At(p, k, if passed then Recounting else Resting(Returned(ValidationFailed)))
      ensures Commands(log, p) == Commands(old(log), p) + [Validate(passed)]
      ensures ran <= |results| && forall i :: 0 <= i < ran ==> results[i]
      ensures passed <==> ran == |results|
      ensures !passed ==> !results[ran]
    {
      hide Inv, RepoOk, Runs, Exec, Commands;
      passed := true;
      var i := 0;
      while i < |results| && passed
        invariant Valid() && At(p, k, Validating) && Commands(log, p) == Commands(old(log), p)
        invariant 0 <= i <= |results| && forall j :: 0 <= j < i ==> results[j]
        invariant !passed ==> i < |results| && !results[i]
        decreases |results| - i, passed
      {
        Interfere(p);
        InvMeansRepoOk(State());
        if HasWorktree(repo, k) {
          var files: Tree := *;
          Take(p, Edit(files), EditFiles(repo, PathOf(k), files));
        }
        passed := results[i];
        if passed {
          i := i + 1;
        }
      }
      ran := i;
      InvMeansRepoOk(State());
      Take(p, Validate(passed), repo);
    }

    method ReadCurrentBranch(p: Pid, k: Ticket) returns (ok: bool, current: Head)
      requires Valid() && At(p, k, ReadingHead)
      modifies this
      ensures Valid() && Commands(log, p) == Commands(old(log), p) + [if ok then ReadHead else Fail]
      ensures At(p, k,
                 if !ok then Resting(Raised)
                 else if current == OnBranch(k.baseBranch) then ReadingStatus
                 else Resting(Returned(MergeFailed)))
      ensures ok ==> current == repo.head
    {
      hide Inv, RepoOk, Runs, Exec, Commands;
      Interfere(p);
      InvMeansRepoOk(State());
      current := repo.head;
      var fails := CommandFails();
      ok := !fails;
      if ok {
        Take(p, ReadHead, repo);
      } else {
        TakeFailure(p);
      }
    }

    method ReadCheckoutStatus(p: Pid, k: Ticket) returns (ok: bool, dirty: bool)
      requires Valid() && At(p, k, ReadingStatus)
      modifies this
      ensures Valid() && Commands(log, p) == Commands(old(log), p) + [if ok then ReadStatus else Fail]
      ensures At(p, k,
                 if !ok then Resting(Raised) else if dirty then Resting(Returned(MergeFailed)) else ReadingBase)
      ensures ok ==> dirty == repo.dirty
    {
      hide Inv, RepoOk, Runs, Exec, Commands;
      Interfere(p);
      InvMeansRepoOk(State());
      dirty := repo.dirty;
      var fails := CommandFails();
      ok := !fails;
      if ok {
        Take(p, ReadStatus, repo);
      } else {
        TakeFailure(p);
      }
    }

    method ReadBaseCommit(p: Pid, k: Ticket) returns (ok: bool, commit: CommitId)
      requires Valid() && At(p, k, ReadingBase)
      modifies this
      ensures Valid() && Commands(log, p) == Commands(old(log), p) + [if ok then ReadBase else Fail]
      ensures At(p, k,
                 if !ok then Resting(Raised)
                 else if commit == k.baseCommit then Committing
                 else Resting(Returned(MergeFailed)))
      ensures ok ==> k.baseBranch in repo.branches && commit == repo.branches[k.baseBranch]
    {
      hide Inv, RepoOk, Runs, Exec, Commands;
      Interfere(p);
      InvMeansRepoOk(State());
      var fails := CommandFails();
      ok, commit := !fails && k.baseBranch in repo.branches, 0;
      if ok {
        commit := repo.branches[k.baseBranch];
        Take(p, ReadBase, repo);
      } else {
        TakeFailure(p);
      }
    }

    method Commit(p: Pid, k: Ticket) returns (ok: bool)
      requires Valid() && At(p, k, Committing)
      modifies this
      ensures Valid() && At(p, k, if ok then Merging else Resting(Raised))
      ensures Commands(log, p) == Commands(old(log), p) + [if ok then CommitWork else Fail]
    {
      hide Inv, RepoOk, Runs, Exec, Commands;
      Interfere(p);
      InvMeansRepoOk(State());
      var fails := CommandFails();
      ok := !fails && HasWorktree(repo, k) && !Clean(repo, PathOf(k));
      if ok {
        Take(p, CommitWork, CommitAll(repo, PathOf(k)));
      } else {
        TakeFailure(p);
      }
    }

    method MergeIntoCheckout(p: Pid, k: Ticket) returns (ok: bool)
      requires Valid() && At(p, k, Merging)
      modifies this
      ensures Valid() && At(p, k, if ok then Pushing else Resting(Returned(MergeFailed)))
      ensures Commands(log, p) == Commands(old(log), p) + [if ok then Merge else Fail]
    {
      hide Inv, RepoOk, Runs, Exec, Commands;
      Interfere(p);
      InvMeansRepoOk(State());
      var fails := CommandFails();
      ok := !fails && BranchOf(k) in repo.branches && CanFastForward(repo, BranchOf(k));
      if ok {
        Take(p, Merge, MergeFastForward(repo, BranchOf(k)));
      } else {
        TakeFailure(p);
      }
    }

    /** `accepts` tells whether the remote takes a push. A push that fails is only reported; not finding a
        base branch to push ends the call. */
    method PushBase(p: Pid, k: Ticket, enabled: bool, configured: BaseBranch, accepts: bool)
        returns (ok: bool, pushed: bool)
      requires Valid() && At(p, k, Pushing)
      modifies this
      ensures Valid() && At(p, k, if ok then Removing(Merged) else Resting(Raised))
      ensures Commands(log, p) == Commands(old(log), p) + [if ok then Push else Fail]
      ensures ok <==> !enabled || SelectBaseBranch(repo, configured).Base?
      ensures pushed <==> ok && enabled && accepts
    {
      hide Inv, RepoOk, Runs, Exec, Commands;
      Interfere(p);
      InvMeansRepoOk(State());
      ok := !enabled || SelectBaseBranch(repo, configured).Base?;
      pushed := ok && enabled && accepts;
      if ok {
        Take(p, Push, repo);
      } else {
        TakeFailure(p);
      }
    }

    method CheckMergePreconditions(p: Pid, k: Ticket) returns (o: Outcome)
      requires Valid() && At(p, k, ReadingHead)
      modifies this
      ensures Valid() && o in {Fresh, Raised, Returned(MergeFailed)}
      ensures At(p, k, if o == Fresh then Committing else Resting(o))
      ensures o == Fresh ==> Commands(log, p) == Commands(old(log), p) + [ReadHead, ReadStatus, ReadBase]
      ensures o == Returned(MergeFailed) ==>
                exists n :: 1 <= n <= 3 && Commands(log, p) == Commands(old(log), p)
                    + [ReadHead, ReadStatus, ReadBase][..n]
      ensures o == Raised ==>
                exists n :: 0 <= n <= 2 && Commands(log, p) == Commands(old(log), p)
                    + [ReadHead, ReadStatus, ReadBase][..n] + [Fail]
    {
      hide Inv, RepoOk, Runs, Exec, Commands;
      ghost var done := Commands(log, p);
      var ok, current := ReadCurrentBranch(p, k);
      assert done + [Fail] == done + [ReadHead, ReadStatus, ReadBase][..0] + [Fail];
      assert done + [ReadHead] == done + [ReadHead, ReadStatus, ReadBase][..1];
      if !ok || current != OnBranch(k.baseBranch) {
        return if ok then Returned(MergeFailed) else Raised;
      }
      var dirty: bool;
      ok, dirty := ReadCheckoutStatus(p, k);
      assert done + [ReadHead] + [ReadStatus] == done + [ReadHead, ReadStatus, ReadBase][..2];
      if !ok || dirty {
        return if ok then Returned(MergeFailed) else Raised;
      }
      var commit: CommitId;
      ok, commit := ReadBaseCommit(p, k);
      assert done + [ReadHead] + [ReadStatus] + [ReadBase] == done + [ReadHead, ReadStatus, ReadBase][..3];
      if !ok || commit != k.baseCommit {
        return if ok then Returned(MergeFailed) else Raised;
      }
      o := Fresh;
    }

    // ---------- complete ----------

    /** Commit, merge, optional push and cleanup. */
    method Land(p: Pid, k: Ticket, push: bool, configured: BaseBranch, accepts: bool)
        returns (o: Outcome, ghost trace: seq<Action>)
      requires Valid() && At(p, k, Committing)
      modifies this
      ensures Valid() && At(p, k, Resting(o)) && IsLanding(trace, o)
      ensures o in {Returned(Merged), Returned(MergeFailed), Raised}
      ensures Commands(log, p) == Commands(old(log), p) + trace
    {
      hide Inv, RepoOk, Runs, Exec, Commands;
      ghost var done := Commands(log, p);
      var ok := Commit(p, k);
      if !ok {
        return Raised, [Fail];
      }
      ok := MergeIntoCheckout(p, k);
      trace := [CommitWork, if ok then Merge else Fail];
      assert Commands(log, p) == done + trace;
      if !ok {
        return Returned(MergeFailed), trace;
      }
      var pushed;
      ok, pushed := PushBase(p, k, push, configured, accepts);
      trace := [CommitWork, Merge, if ok then Push else Fail];
      assert Commands(log, p) == done + trace;
      if !ok {
        return Raised, trace;
      }
      o := Cleanup(p, k, Merged);
      trace := Commands(log, p)[|done|..];
    }

    /** Ends a tool call for a task: whatever happens in between, the call issues exactly one of the
        sequences of commands that belong to its outcome, in this order and nothing else. */
    method Complete(p: Pid, results: seq<bool>, push: bool, configured: BaseBranch, accepts: bool) returns (o: Outcome)
      requires Valid() && p in tasks && tasks[p].pc.Resting? && !Finished(tasks[p].pc)
      modifies this
      ensures Valid() && At(p, old(tasks[p].ticket), Resting(o))
      ensures exists trace :: IsTraceOf(trace, o) && Commands(log, p) == Commands(old(log), p) + trace
      ensures o == Returned(Merged) ==> forall i :: 0 <= i < |results| ==> results[i]
      ensures o == Returned(ValidationFailed) ==> exists i :: 0 <= i < |results| && !results[i]
    {
      hide Inv, RepoOk, Runs, Exec, Commands, IsLanding;
      var k := tasks[p].ticket;
      ghost var done := Commands(log, p);
      InvMeansRepoOk(State());
      Take(p, Start, repo);
      var ok, changed, deleted := ChangeCounts(p, k, true);
      assert Commands(log, p) == done + [Start, if ok then Count else Fail];
      if !ok {
        o := Raised;
      } else if SafetyBlocks(changed, deleted, limits) {
        o := Returned(SafetyBlocked);
      } else if changed == 0 {
        o := Cleanup(p, k, NoChanges);
        assert Commands(log, p) == done + Commands(log, p)[|done|..];
      } else {
        o := FinishChanged(p, k, results, push, configured, accepts, done);
      }
    }

    method FinishChanged(
      p: Pid, k: Ticket, results: seq<bool>, push: bool, configured: BaseBranch, accepts: bool, ghost done: seq<Action>)
      returns (o: Outcome)
      requires Valid() && At(p, k, Validating) && Commands(log, p) == done + [Start, Count]
      modifies this
      ensures Valid() && At(p, k, Resting(o))
      ensures o == Returned(Merged) ==> forall i :: 0 <= i < |results| ==> results[i]
      ensures o == Returned(ValidationFailed) ==> exists i :: 0 <= i < |results| && !results[i]
      ensures exists trace :: IsTraceOf(trace, o) && Commands(log, p) == done + trace
    {
      hide Inv, RepoOk, Runs, Exec, Commands, IsLanding;
      var passed, ran := RunValidation(p, k, results);
      assert Commands(log, p) == done + [Start, Count, Validate(passed)];
      if !passed {
        return Returned(ValidationFailed);
      }
      var ok, changed, deleted := ChangeCounts(p, k, false);
      assert Commands(log, p) == done + [Start, Count, Validate(true), if ok then Recount else Fail];
      if !ok {
        assert [Start, Count, Validate(true), Fail] == REVIEW[..3] + [Fail];
        o := Raised;
      } else if SafetyBlocks(changed, deleted, limits) {
        o := Returned(SafetyBlocked);
      } else {
        o := FinishReviewed(p, k, push, configured, accepts, done);
      }
    }

    method FinishReviewed(p: Pid, k: Ticket, push: bool, configured: BaseBranch, accepts: bool, ghost done: seq<Action>)
      returns (o: Outcome)
      requires Valid() && At(p, k, ReadingHead) && Commands(log, p) == done + [Start, Count, Validate(true), Recount]
      modifies this
      ensures Valid() && At(p, k, Resting(o)) && o != Returned(ValidationFailed)
      ensures exists trace :: IsTraceOf(trace, o) && Commands(log, p) == done + trace
    {
      hide Inv, RepoOk, Runs, Exec, Commands, IsLanding;
      o := CheckMergePreconditions(p, k);
      assert forall n :: 0 <= n <= 3 ==>
          REVIEW[..4 + n] == [Start, Count, Validate(true), Recount] + [ReadHead, ReadStatus, ReadBase][..n];
      if o != Fresh {
        ghost var trace := Commands(log, p)[|done|..];
        assert Commands(log, p) == done + trace;
        if o == Raised {
          ghost var n :| 0 <= n <= 2
              && trace == [Start, Count, Validate(true), Recount] + [ReadHead, ReadStatus, ReadBase][..n] + [Fail];
          assert trace == REVIEW[..4 + n] + [Fail];
        } else {
          ghost var n :| 1 <= n <= 3
              && trace == [Start, Count, Validate(true), Recount] + [ReadHead, ReadStatus, ReadBase][..n];
          assert trace == REVIEW[..4 + n];
        }
        assert IsTraceOf(trace, o);
        return;
      }
      assert Commands(log, p) == done + REVIEW;
      ghost var trace;
      o, trace := Land(p, k, push, configured, accepts);
      assert Commands(log, p) == done + (REVIEW + trace);
      assert IsTraceOf(REVIEW + trace, o);
    }

    // ---------- begin ----------

    /** `git rev-parse` of the base branch: from here on the call is on record. */
    method ReadStartCommit(p: Pid, projectId: string, taskId: string, base: string) returns (k: Ticket)
      requires Valid() && p !in tasks && base in repo.branches && !IsTaskBranch(base)
      modifies this
      ensures Valid() && At(p, k, Opening)
      ensures k.projectId == projectId && k.taskId == taskId && k.baseBranch == base
      ensures base in repo.branches && k.baseCommit == repo.branches[base]
      ensures Commands(log, p) == Commands(old(log), p) && old(log) <= log
    {
      hide Inv, RepoOk, Runs, Exec, Commands;
      Interfere(p);
      InvMeansRepoOk(State());
      k := Ticket(projectId, taskId, base, repo.branches[base]);
      CommandsOfAppend(log, Open(p, k), p);
      Record(Open(p, k), repo);
    }

    /** `begin` gives up: the call leaves the record, and nothing else changes. */
    method GiveUp(p: Pid, k: Ticket)
      requires Valid() && At(p, k, Opening)
      modifies this
      ensures Valid() && p !in tasks && repo == old(repo) && Commands(log, p) == Commands(old(log), p) + [Fail]
      ensures old(log) <= log
    {
      hide Inv, RepoOk, Runs, Exec, Commands;
      InvMeansRepoOk(State());
      CommandsOfAppend(log, Act(p, Fail), p);
      Record(Act(p, Fail), repo);
    }

    /** The checks for a free branch and a free path, and `git worktree add -b`. */
    method AddTaskWorktree(p: Pid, k: Ticket) returns (error: BeginError, ok: bool)
      requires Valid() && At(p, k, Opening)
      modifies this
      ensures Valid() && (if ok then At(p, k, Resting(Fresh)) else p !in tasks)
      ensures Commands(log, p) == Commands(old(log), p) + [if ok then AddWorktree else Fail] && old(log) <= log
      ensures error in {BranchExists, PathExists, CommandFailed}
    {
      hide Inv, RepoOk, Runs, Exec, Commands;
      ok, error := false, CommandFailed;
      Interfere(p);
      if BranchOf(k) in repo.branches {
        GiveUp(p, k);
        return BranchExists, false;
      }
      Interfere(p);
      var leftover := CommandFails();
      if PathOf(k) in repo.worktrees || leftover {
        GiveUp(p, k);
        return PathExists, false;
      }
      Interfere(p);
      InvMeansRepoOk(State());
      var fails := CommandFails();
      ok := !fails && k.baseBranch in repo.branches && BranchOf(k) !in repo.branches && PathOf(k) !in repo.worktrees;
      if ok {
        CommandsOfAppend(log, Act(p, AddWorktree), p);
        Record(Act(p, AddWorktree), WorktreeAdd(repo, PathOf(k), BranchOf(k), k.baseBranch));
      } else {
        GiveUp(p, k);
      }
    }

    /** Selects the base branch and sees it checked out, and then a clean checkout. */
    method SeeBaseReady(p: Pid, configured: BaseBranch) returns (ok: bool, error: BeginError, base: string)
      requires Valid() && p !in tasks && (configured.Base? ==> !IsTaskBranch(configured.name))
      modifies this
      ensures Valid() && p !in tasks && Commands(log, p) == Commands(old(log), p) && old(log) <= log
      ensures ok ==> SawReady(origin, log, |old(log)|, base) && base in repo.branches && !IsTaskBranch(base)
      ensures ok && configured.Base? ==> base == configured.name
      ensures ok && configured.NoBase? ==> base in {"dev", "main", "master"}
      ensures !ok ==> error in {CommandFailed, NoBaseBranch, NotClean} || error.WrongBranch?
    {
      hide Inv, RepoOk, Runs, Exec, Commands, SawReady, Moment;
      ok, error, base := false, CommandFailed, "";
      Interfere(p);
      var fails := CommandFails();
      var selected := SelectBaseBranch(repo, configured);
      if fails || selected.NoBase? {
        return false, if fails then CommandFailed else NoBaseBranch, base;
      }
      base := selected.name;
      DefaultBasesAreNoTaskBranches();
      Interfere(p);
      MomentIsNow(origin, log, State());
      fails := CommandFails();
      if fails || repo.head != OnBranch(base) {
        return false, if fails then CommandFailed else WrongBranch(repo.head), base;
      }
      ghost var seen, dirtyThen := log, repo.dirty;
      Interfere(p);
      MomentIsNow(origin, log, State());
      fails := CommandFails();
      if fails || repo.dirty {
        return false, if fails then CommandFailed else NotClean, base;
      }
      MomentStays(origin, seen, log, |seen|, OnBranch(base), dirtyThen);
      ReadyWasSeen(origin, log, |old(log)|, |seen|, |log|, base, dirtyThen, repo.head);
      ok := true;
    }

    /** Creates the task branch and its worktree, after having seen the base branch checked out and then
        clean. Every failure but one leaves no trace of the call; when a seed cannot be had, which shows only
        after the worktree has been created, branch and worktree stay behind. */
    method Begin(p: Pid, projectId: string, taskId: string, seeds: seq<Seed>, configured: BaseBranch)
        returns (result: BeginResult)
      requires Valid() && p !in tasks && (configured.Base? ==> !IsTaskBranch(configured.name))
      modifies this
      ensures Valid()
      ensures result.Begun? ==>
                && At(p, result.ticket, Resting(Fresh)) && TaskId.IsSafe(alnum, taskId) && AllSafe(seeds)
                && result.ticket.projectId == projectId && result.ticket.taskId == taskId
                && (configured.Base? ==> result.ticket.baseBranch == configured.name)
                && (configured.NoBase? ==> result.ticket.baseBranch in {"dev", "main", "master"})
                && Commands(log, p) == Commands(old(log), p) + [AddWorktree]
                && old(log) <= log && SawReady(origin, log, |old(log)|, result.ticket.baseBranch)
      ensures p in tasks <==> result.Begun? || result == NotBegun(SeedingFailed)
      ensures p in tasks ==> (result.Begun? <==> AllSeedable(seeds))
      ensures p !in tasks ==>
                Commands(log, p) == Commands(old(log), p) || Commands(log, p) == Commands(old(log), p) + [Fail]
      ensures result == NotBegun(SeedingFailed) ==>
                && tasks[p].pc == Resting(Fresh) && tasks[p].ticket.taskId == taskId
                && Commands(log, p) == Commands(old(log), p) + [AddWorktree]
      ensures !TaskId.IsSafe(alnum, taskId) ==> result == NotBegun(BadTaskId) && repo == old(repo)
      ensures TaskId.IsSafe(alnum, taskId) && !AllSafe(seeds) ==> result == NotBegun(UnsafeSeed) && repo == old(repo)
    {
      hide Inv, RepoOk, Runs, Exec, Commands, SawReady;
      if !TaskId.IsSafe(alnum, taskId) {
        return NotBegun(BadTaskId);
      }
      var safe := RequireSafeSeedPaths(seeds);
      if !safe {
        return NotBegun(UnsafeSeed);
      }
      var ok, error, base := SeeBaseReady(p, configured);
      if !ok {
        return NotBegun(error);
      }
      ghost var ready := log;
      var k := ReadStartCommit(p, projectId, taskId, base);
      error, ok := AddTaskWorktree(p, k);
      if !ok {
        return NotBegun(error);
      }
      ReadyStays(origin, ready, log, |old(log)|, base);
      var copied;
      ok, copied := SeedWorkspace(seeds);
      result := if ok then Begun(k) else NotBegun(SeedingFailed);
    }
  }

  /** After `i` events of the log, the project directory had this checkout. */
  ghost predicate Moment(origin: Sys, log: seq<Event>, i: nat, head: Head, dirty: bool) {
    && Inv(origin) && i <= |log| && Runs(origin, log[..i])
    && var r := Exec(origin, log[..i]).repo; r.head == head && r.dirty == dirty
  }

  /** From event `from` on, the base branch was seen checked out, and at that time or later a clean checkout. */
  ghost predicate SawReady(origin: Sys, log: seq<Event>, from: nat, base: string) {
    exists i: nat, j: nat, dirty, head ::
      from <= i <= j && Moment(origin, log, i, OnBranch(base), dirty) && Moment(origin, log, j, head, false)
  }

  lemma MomentIsNow(origin: Sys, log: seq<Event>, now: Sys)
    requires Inv(origin) && Runs(origin, log) && Exec(origin, log) == now
    ensures Moment(origin, log, |log|, now.repo.head, now.repo.dirty)
  {
    assert log[..|log|] == log;
  }

  lemma MomentStays(origin: Sys, log: seq<Event>, log': seq<Event>, i: nat, head: Head, dirty: bool)
    requires Moment(origin, log, i, head, dirty) && log <= log'
    ensures Moment(origin, log', i, head, dirty)
  {
    assert log'[..i] == log[..i];
  }

  lemma ReadyWasSeen(origin: Sys, log: seq<Event>, from: nat, i: nat, j: nat, base: string, dirty: bool, head: Head)
    requires from <= i <= j && Moment(origin, log, i, OnBranch(base), dirty) && Moment(origin, log, j, head, false)
    ensures SawReady(origin, log, from, base)
  {
  }

  lemma ReadyStays(origin: Sys, log: seq<Event>, log': seq<Event>, from: nat, base: string)
    requires SawReady(origin, log, from, base) && log <= log'
    ensures SawReady(origin, log', from, base)
  {
    var i: nat, j: nat, dirty, head :|
      from <= i <= j && Moment(origin, log, i, OnBranch(base), dirty) && Moment(origin, log, j, head, false);
    MomentStays(origin, log, log', i, OnBranch(base), dirty);
    MomentStays(origin, log, log', j, head, false);
  }
}
