/** What MERGED means for a whole run: the moment of the merge, and what has become of the commit since. */
module History {
  import opened Git
  import opened Protocol
  import opened Guarantees

  /** A run cut before its last event. */
  lemma {:induction false} RunsSplit(s: Sys, es: seq<Event>)
    requires RepoOk(s.repo) && Runs(s, es) && es != []
    ensures var older, e := es[..|es| - 1], es[|es| - 1];
            Runs(s, older) && Can(Exec(s, older), e) && Exec(s, es) == Do(Exec(s, older), e)
    decreases |es|
  {
    hide Can, Do, RepoOk;
    var older := es[..|es| - 1];
    if |es| > 1 {
      RunsSplit(Do(s, es[0]), es[1..]);
      assert es[1..][..|es| - 2] == older[1..] && older[0] == es[0];
      assert es[1..][|es| - 2] == es[|es| - 1];
    }
  }

  predicate BehindMerge(pc: Pc) {
    pc in {Pushing, Removing(Merged), Deleting(Merged), Resting(Returned(Merged))}
  }

  /** A task gets behind its merge by the merge command only, and makes no commit from there on. */
  lemma OnlyMergeGetsBehind(s: Sys, e: Event, p: Pid)
    requires Inv(s) && Can(s, e) && p in Do(s, e).tasks && BehindMerge(Do(s, e).tasks[p].pc)
    ensures p in s.tasks && Do(s, e).tasks[p].bot == s.tasks[p].bot && Do(s, e).tasks[p].start == s.tasks[p].start
    ensures e == Act(p, Merge) || BehindMerge(s.tasks[p].pc)
  {
    hide Inv, BehindMerge, CanStep, TaskAfter, RepoAfter;
    InvMeansRepoOk(s);
    OpeningIsNotBehind();
    if e.Act? && e.p == p && !(s.tasks[p].pc.Opening? && e.action.Fail?) {
      OwnStepBehind(s.repo, s.limits, s.tasks[p], e.action);
    }
  }

  lemma OpeningIsNotBehind()
    ensures !BehindMerge(Opening)
  {
  }

  lemma OwnStepBehind(r: Repo, limits: Limits, t: Task, a: Action)
    requires RepoOk(r) && CanStep(r, t, a) && BehindMerge(TaskAfter(r, limits, t, a).pc)
    ensures TaskAfter(r, limits, t, a).bot == t.bot && TaskAfter(r, limits, t, a).start == t.start
    ensures a == Merge || BehindMerge(t.pc)
  {
    hide WorkWithin, Clean, RepoOk;
  }

  /** The checkout of the project directory when event `i` of the run happens. */
  ghost function CheckoutAt(s: Sys, es: seq<Event>, i: nat): Head
    requires RepoOk(s.repo) && i <= |es| && Runs(s, es[..i])
  {
    Exec(s, es[..i]).repo.head
  }

  lemma {:induction false} RunsPrefix(s: Sys, es: seq<Event>, i: nat)
    requires RepoOk(s.repo) && Runs(s, es) && i <= |es|
    ensures Runs(s, es[..i])
    decreases |es|
  {
    if i < |es| {
      RunsSplit(s, es);
      RunsPrefix(s, es[..|es| - 1], i);
      assert es[..|es| - 1][..i] == es[..i];
    } else {
      assert es[..i] == es;
    }
  }

  /** Event `i` merges the task into the checked-out branch, and if that is not a task branch, it contains
      the last commit of the task at the end of the run. */
  ghost predicate Landed(s: Sys, es: seq<Event>, p: Pid, i: nat)
    requires RepoOk(s.repo) && Runs(s, es)
  {
    && i < |es| && es[i] == Act(p, Merge) && Runs(s, es[..i])
    && var end := Exec(s, es);
       p in end.tasks
       && match CheckoutAt(s, es, i)
          case Detached(_) => true
          case OnBranch(b) =>
            !IsTaskBranch(b) ==>
              b in end.repo.branches && Reaches(end.repo.graph, end.repo.branches[b], Tip(end.tasks[p]))
  }

  lemma JustLanded(s: Sys, es: seq<Event>, p: Pid)
    requires Inv(s) && Runs(s, es) && es != [] && es[|es| - 1] == Act(p, Merge)
    ensures Landed(s, es, p, |es| - 1)
  {
    hide Inv, Within, CanStep;
    var older := es[..|es| - 1];
    InvMeansRepoOk(s);
    RunsSplit(s, es);
    RunKeepsInv(s, older);
    MergeGoesToCheckout(Exec(s, older), p);
    MergeChangesOnlyPc(Exec(s, older), p);
  }

  lemma MergeChangesOnlyPc(s: Sys, p: Pid)
    requires RepoOk(s.repo) && Can(s, Act(p, Merge))
    ensures p in Do(s, Act(p, Merge)).tasks && Tip(Do(s, Act(p, Merge)).tasks[p]) == Tip(s.tasks[p])
    ensures s.repo.head.OnBranch? ==>
        HeadCommit(Do(s, Act(p, Merge)).repo) == Do(s, Act(p, Merge)).repo.branches[s.repo.head.branch]
  {
    hide Within, RepoOk;
  }

  lemma StillLanded(s: Sys, es: seq<Event>, p: Pid, i: nat)
    requires Inv(s) && Runs(s, es) && es != [] && Runs(s, es[..|es| - 1])
    requires Landed(s, es[..|es| - 1], p, i) && p in Exec(s, es).tasks
        && Tip(Exec(s, es).tasks[p]) == Tip(Exec(s, es[..|es| - 1]).tasks[p])
    ensures Landed(s, es, p, i)
  {
    hide Inv, Within, CanStep, Can;
    var older, e := es[..|es| - 1], es[|es| - 1];
    InvMeansRepoOk(s);
    RunsSplit(s, es);
    var before := Exec(s, older);
    assert older[..i] == es[..i] && older[i] == es[i];
    var head := CheckoutAt(s, es, i);
    if head.OnBranch? && !IsTaskBranch(head.branch) {
      StaysContained(before, e, head.branch, Tip(before.tasks[p]));
    }
  }

  lemma StaysContained(s: Sys, e: Event, b: string, c: CommitId)
    requires RepoOk(s.repo) && Can(s, e) && !IsTaskBranch(b) && b in s.repo.branches
        && Reaches(s.repo.graph, s.repo.branches[b], c)
    ensures var r := Do(s, e).repo; b in r.branches && Reaches(r.graph, r.branches[b], c)
  {
    hide Within;
    var r := Do(s, e).repo;
    EventAdvances(s, e, b);
    ReachesSurvivesGrowth(s.repo.graph, r.graph, s.repo.branches[b], c);
    ReachesIsTransitive(r.graph, r.branches[b], s.repo.branches[b], c);
  }

  /** A task that is behind its merge after a run, in particular one that reports MERGED, was merged at some
      point of the run; the branch that was checked out at that point contains its last commit since then. */
  lemma {:induction false} MergedMeansLanded(s: Sys, es: seq<Event>, p: Pid) returns (i: nat)
    requires Init(s) && Runs(s, es)
    requires p in Exec(s, es).tasks && BehindMerge(Exec(s, es).tasks[p].pc)
    ensures Landed(s, es, p, i)
    decreases |es|
  {
    hide Within, Landed, Can, Do, BehindMerge;
    var older, e := es[..|es| - 1], es[|es| - 1];
    RunsSplit(s, es);
    RunKeepsInv(s, older);
    OnlyMergeGetsBehind(Exec(s, older), e, p);
    if e == Act(p, Merge) {
      JustLanded(s, es, p);
      i := |es| - 1;
    } else {
      i := MergedMeansLanded(s, older, p);
      StillLanded(s, es, p, i);
    }
  }

  lemma {:induction false} CheckoutBetween(s: Sys, es: seq<Event>, j: nat, i: nat)
    requires Inv(s) && Runs(s, es) && j <= i <= |es| && Runs(s, es[..j]) && Runs(s, es[..i])
    requires CheckoutAt(s, es, j).OnBranch? && forall k :: j <= k < i ==> !IsSwitch(es[k])
    ensures CheckoutAt(s, es, i) == CheckoutAt(s, es, j)
    decreases i
  {
    hide Inv, Can, Do, IsSwitch, RepoOk;
    InvMeansRepoOk(s);
    if j < i {
      RunsSplit(s, es[..i]);
      assert es[..i][..i - 1] == es[..i - 1] && es[..i][i - 1] == es[i - 1];
      CheckoutBetween(s, es, j, i - 1);
      EventKeepsCheckout(Exec(s, es[..i - 1]), es[i - 1]);
    }
  }

  /** Right behind a merge command of the run, the recorded base branch contains the task's last commit
      exactly when it was checked out at that moment, or contained the commit already; and then it still
      does at the end of the run. */
  lemma MergedIsInBaseIff(s: Sys, es: seq<Event>, p: Pid, i: nat)
    requires Inv(s) && Runs(s, es) && i < |es| && es[i] == Act(p, Merge)
    requires Runs(s, es[..i]) && Runs(s, es[..i + 1]) && p in Exec(s, es[..i]).tasks
    ensures var at, behind, end := Exec(s, es[..i]), Exec(s, es[..i + 1]).repo, Exec(s, es).repo;
            var base, tip := at.tasks[p].ticket.baseBranch, Tip(at.tasks[p]);
            && base in at.repo.branches && base in behind.branches
            && (Reaches(behind.graph, behind.branches[base], tip) <==>
                  CheckoutAt(s, es, i) == OnBranch(base) || Reaches(at.repo.graph, at.repo.branches[base], tip))
            && (Reaches(behind.graph, behind.branches[base], tip) ==>
                  base in end.branches && Reaches(end.graph, end.branches[base], tip))
  {
    hide Inv, Can, Do, CanStep;
    var older, merged := es[..i], es[..i + 1];
    InvMeansRepoOk(s);
    assert merged[..|merged| - 1] == older && merged[|merged| - 1] == es[i];
    RunsSplit(s, merged);
    RunKeepsInv(s, older);
    var at := Exec(s, older);
    MergedIntoBaseIff(at, p);
    TicketOk(at, p);
    var base, tip := at.tasks[p].ticket.baseBranch, Tip(at.tasks[p]);
    if Reaches(Exec(s, merged).repo.graph, Exec(s, merged).repo.branches[base], tip) {
      StaysContainedOver(s, es, i + 1, base, tip);
    }
  }

  lemma {:induction false} StaysContainedOver(s: Sys, es: seq<Event>, i: nat, b: string, c: CommitId)
    requires Inv(s) && Runs(s, es) && i <= |es| && Runs(s, es[..i]) && !IsTaskBranch(b)
    requires var r := Exec(s, es[..i]).repo; b in r.branches && Reaches(r.graph, r.branches[b], c)
    ensures var r := Exec(s, es).repo; b in r.branches && Reaches(r.graph, r.branches[b], c)
    decreases |es|
  {
    hide Inv, Can, Do;
    InvMeansRepoOk(s);
    if i == |es| {
      assert es[..i] == es;
    } else {
      RunsSplit(s, es);
      var older := es[..|es| - 1];
      assert older[..i] == es[..i];
      StaysContainedOver(s, older, i, b, c);
      StaysContained(Exec(s, older), es[|es| - 1], b, c);
    }
  }

  /** When the base branch was checked out at some point before the merge, as the branch check demands, and
      nobody switched the checkout until the merge, the base branch contains the task's last commit. */
  lemma MergedIsInBase(s: Sys, es: seq<Event>, p: Pid, j: nat, i: nat)
    requires Inv(s) && Runs(s, es) && j <= i && Landed(s, es, p, i) && Runs(s, es[..j])
    requires CheckoutAt(s, es, j) == OnBranch(Exec(s, es).tasks[p].ticket.baseBranch)
    requires forall k :: j <= k < i ==> !IsSwitch(es[k])
    ensures var end := Exec(s, es);
            var base := end.tasks[p].ticket.baseBranch;
            base in end.repo.branches && Reaches(end.repo.graph, end.repo.branches[base], Tip(end.tasks[p]))
  {
    hide Inv, Can;
    InvMeansRepoOk(s);
    CheckoutBetween(s, es, j, i);
    RunKeepsInv(s, es);
    TicketOk(Exec(s, es), p);
  }

  lemma TicketOk(s: Sys, p: Pid)
    requires Inv(s) && p in s.tasks
    ensures !IsTaskBranch(s.tasks[p].ticket.baseBranch)
  {
    assert TaskOk(s.repo, s.limits, s.tasks[p]);
  }
}
