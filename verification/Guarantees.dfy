/** What the protocol promises over every run, whatever outsiders and other tasks do in between. */
module Guarantees {
  import opened Git
  import opened Protocol

  // ---------- No outside commit is lost ----------

  lemma EventAdvances(s: Sys, e: Event, b: string)
    requires RepoOk(s.repo) && Can(s, e) && !IsTaskBranch(b)
    ensures Advances(s.repo, Do(s, e).repo, b)
  {
    hide Within;
    match e
    case Outside(m) => MoveAdvances(s.repo, m, b);
    case Open(_, _) =>
    case Act(p, a) => StepAdvances(s.repo, s.tasks[p], a, b);
  }

  lemma AdvancesIsTransitive(r: Repo, r': Repo, r'': Repo, b: string)
    requires RepoOk(r) && RepoOk(r') && RepoOk(r'')
    requires Advances(r, r', b) && Advances(r', r'', b) && r'.graph <= r''.graph
    ensures Advances(r, r'', b)
  {
    if b in r.branches {
      ReachesSurvivesGrowth(r'.graph, r''.graph, r'.branches[b], r.branches[b]);
      ReachesIsTransitive(r''.graph, r''.branches[b], r'.branches[b], r.branches[b]);
    }
  }

  /** Over a whole run, a branch that is not a task branch only ever moves to descendants of its tip. */
  lemma {:induction false} BranchesOnlyAdvance(s: Sys, es: seq<Event>, b: string)
    requires RepoOk(s.repo) && Runs(s, es) && !IsTaskBranch(b)
    ensures Advances(s.repo, Exec(s, es).repo, b) && s.repo.graph <= Exec(s, es).repo.graph
    decreases |es|
  {
    if es != [] {
      var s1 := Do(s, es[0]);
      EventAdvances(s, es[0], b);
      BranchesOnlyAdvance(s1, es[1..], b);
      AdvancesIsTransitive(s.repo, s1.repo, Exec(s1, es[1..]).repo, b);
    }
  }

  /** A commit that such a branch once contained stays contained in it. */
  lemma NoOutsideCommitLost(s: Sys, es: seq<Event>, b: string, c: CommitId)
    requires RepoOk(s.repo) && Runs(s, es) && !IsTaskBranch(b)
    requires b in s.repo.branches && Reaches(s.repo.graph, s.repo.branches[b], c)
    ensures var r' := Exec(s, es).repo; b in r'.branches && Reaches(r'.graph, r'.branches[b], c)
  {
    var r' := Exec(s, es).repo;
    BranchesOnlyAdvance(s, es, b);
    ReachesSurvivesGrowth(s.repo.graph, r'.graph, s.repo.branches[b], c);
    ReachesIsTransitive(r'.graph, r'.branches[b], s.repo.branches[b], c);
  }

  // ---------- No commit of the governor is lost ----------

  ghost predicate Contained(r: Repo, c: CommitId) {
    exists b :: b in r.branches && Reaches(r.graph, r.branches[b], c)
  }

  ghost predicate Conserved(s: Sys) {
    forall c :: c in s.made ==> Contained(s.repo, c)
  }

  predicate IsDelete(e: Event) {
    e.Act? && e.action.Delete?
  }

  lemma ContainedSurvives(r: Repo, r': Repo, c: CommitId)
    requires RepoOk(r) && RepoOk(r') && r.graph <= r'.graph && Contained(r, c)
    requires forall b :: b in r.branches ==> Advances(r, r', b)
    ensures Contained(r', c)
  {
    var b :| b in r.branches && Reaches(r.graph, r.branches[b], c);
    assert Advances(r, r', b);
    ReachesSurvivesGrowth(r.graph, r'.graph, r.branches[b], c);
    ReachesIsTransitive(r'.graph, r'.branches[b], r.branches[b], c);
  }

  /** `git branch -d` found the tip in HEAD; when HEAD is on a branch, that branch contains it. */
  lemma AttachedDeleteKeeps(r: Repo, branch: string, c: CommitId)
    requires RepoOk(r) && CanDelete(r, branch) && r.head.OnBranch? && Contained(r, c)
    ensures Contained(BranchDelete(r, branch), c)
  {
    var r' := BranchDelete(r, branch);
    var b :| b in r.branches && Reaches(r.graph, r.branches[b], c);
    if b == branch {
      ReachesIsTransitive(r.graph, HeadCommit(r), r.branches[branch], c);
      assert r.head.branch in r'.branches && Reaches(r'.graph, r'.branches[r.head.branch], c);
    } else {
      assert b in r'.branches && Reaches(r'.graph, r'.branches[b], c);
    }
  }

  lemma StepConserves(s: Sys, e: Event)
    requires Inv(s) && Can(s, e) && Conserved(s)
    requires IsDelete(e) ==> s.repo.head.OnBranch?
    ensures Conserved(Do(s, e))
  {
    hide Within, ChainOk, MadeOk;
    var s' := Do(s, e);
    forall c | c in s'.made ensures Contained(s'.repo, c) {
      if c !in s.made {
        var b := BranchOf(s.tasks[e.p].ticket);
        assert b in s'.repo.branches && Reaches(s'.repo.graph, s'.repo.branches[b], c);
      } else if IsDelete(e) {
        AttachedDeleteKeeps(s.repo, BranchOf(s.tasks[e.p].ticket), c);
      } else {
        forall b | b in s.repo.branches ensures Advances(s.repo, s'.repo, b) {
          match e
          case Outside(m) => MoveAdvances(s.repo, m, b);
          case Open(_, _) =>
          case Act(p, a) => StepAdvances(s.repo, s.tasks[p], a, b);
        }
        ContainedSurvives(s.repo, s'.repo, c);
      }
    }
  }

  /** Whenever a task branch is deleted, the project directory has a branch checked out. */
  ghost predicate DeletesAttached(s: Sys, es: seq<Event>)
    requires RepoOk(s.repo) && Runs(s, es)
    decreases |es|
  {
    es == [] || ((IsDelete(es[0]) ==> s.repo.head.OnBranch?) && DeletesAttached(Do(s, es[0]), es[1..]))
  }

  /** Then every commit that the governor ever made is contained in some branch, at every point of the run:
      also after a merge that failed behind a commit, a retry that saw no changes and a cleanup. */
  lemma {:induction false} BotWorkIsConserved(s: Sys, es: seq<Event>)
    requires Inv(s) && Conserved(s) && Runs(s, es) && DeletesAttached(s, es)
    ensures Conserved(Exec(s, es))
    decreases |es|
  {
    hide Within;
    if es != [] {
      StepConserves(s, es[0]);
      StepKeepsInv(s, es[0]);
      BotWorkIsConserved(Do(s, es[0]), es[1..]);
    }
  }

  ghost predicate ContainedElsewhere(r: Repo, branch: string, c: CommitId) {
    exists b :: b in r.branches && b != branch && Reaches(r.graph, r.branches[b], c)
  }

  lemma DeletionKeepsIff(r: Repo, branch: string, c: CommitId)
    requires RepoOk(r) && CanDelete(r, branch)
    ensures Contained(BranchDelete(r, branch), c) <==> ContainedElsewhere(r, branch, c)
  {
    var r' := BranchDelete(r, branch);
    if b :| b in r'.branches && Reaches(r'.graph, r'.branches[b], c) {
      assert b in r.branches && b != branch && Reaches(r.graph, r.branches[b], c);
    }
    if b :| b in r.branches && b != branch && Reaches(r.graph, r.branches[b], c) {
      assert b in r'.branches && Reaches(r'.graph, r'.branches[b], c);
    }
  }

  lemma TipElsewhereSuffices(r: Repo, branch: string, c: CommitId)
    requires RepoOk(r) && branch in r.branches && Contained(r, c)
    requires ContainedElsewhere(r, branch, r.branches[branch])
    ensures ContainedElsewhere(r, branch, c)
  {
    var b :| b in r.branches && b != branch && Reaches(r.graph, r.branches[b], r.branches[branch]);
    var d :| d in r.branches && Reaches(r.graph, r.branches[d], c);
    if d == branch {
      ReachesIsTransitive(r.graph, r.branches[b], r.branches[branch], c);
    }
  }

  /** Every commit of the governor that the branch contains is contained in another branch as well. */
  ghost predicate KeptElsewhere(s: Sys, branch: string)
    requires branch in s.repo.branches
  {
    forall c :: c in s.made && Reaches(s.repo.graph, s.repo.branches[branch], c) ==>
        ContainedElsewhere(s.repo, branch, c)
  }

  /** A deletion conserves all commits of the governor exactly when other branches contain those of the
      deleted branch, whoever has moved it in the meantime. */
  lemma DeletionConservesIff(s: Sys, p: Pid)
    requires Inv(s) && Conserved(s) && Can(s, Act(p, Delete))
    ensures Conserved(Do(s, Act(p, Delete))) <==> KeptElsewhere(s, BranchOf(s.tasks[p].ticket))
  {
    hide Within, ContainedElsewhere, TaskOk;
    var branch := BranchOf(s.tasks[p].ticket);
    InvMeansRepoOk(s);
    assert CanDelete(s.repo, branch);
    forall c | c in s.made
      ensures Contained(BranchDelete(s.repo, branch), c) <==> ContainedElsewhere(s.repo, branch, c)
      ensures !Reaches(s.repo.graph, s.repo.branches[branch], c) ==> ContainedElsewhere(s.repo, branch, c)
    {
      DeletionKeepsIff(s.repo, branch, c);
      if !Reaches(s.repo.graph, s.repo.branches[branch], c) {
        ElsewhereIfNotHere(s.repo, branch, c);
      }
    }
  }

  lemma ElsewhereIfNotHere(r: Repo, branch: string, c: CommitId)
    requires branch in r.branches && Contained(r, c) && !Reaches(r.graph, r.branches[branch], c)
    ensures ContainedElsewhere(r, branch, c)
  {
  }

  /** For a branch that ends in the task's own last commit, one question is enough. */
  lemma OwnTipElsewhereIff(s: Sys, p: Pid)
    requires Inv(s) && Conserved(s) && Can(s, Act(p, Delete))
    requires s.tasks[p].bot != [] && s.repo.branches[BranchOf(s.tasks[p].ticket)] == Tip(s.tasks[p])
    ensures KeptElsewhere(s, BranchOf(s.tasks[p].ticket)) <==>
              ContainedElsewhere(s.repo, BranchOf(s.tasks[p].ticket), Tip(s.tasks[p]))
  {
    hide Within, ContainedElsewhere, TaskOk;
    var branch, tip := BranchOf(s.tasks[p].ticket), Tip(s.tasks[p]);
    assert tip in s.tasks[p].bot;
    InTip(s, tip);
    forall c | c in s.made && ContainedElsewhere(s.repo, branch, tip) ensures ContainedElsewhere(s.repo, branch, c) {
      TipElsewhereSuffices(s.repo, branch, c);
    }
  }

  lemma InTip(s: Sys, c: CommitId)
    requires Inv(s) && c in s.made
    ensures Reaches(s.repo.graph, c, c)
  {
    assert MadeOk(s.repo.graph, s.limits, c);
  }

  ghost predicate DeletionsFindElsewhere(s: Sys, es: seq<Event>)
    requires RepoOk(s.repo) && Runs(s, es)
    decreases |es|
  {
    es == [] ||
    (&& (IsDelete(es[0]) ==> KeptElsewhere(s, BranchOf(s.tasks[es[0].p].ticket)))
     && DeletionsFindElsewhere(Do(s, es[0]), es[1..]))
  }

  ghost predicate ConservedThroughout(s: Sys, es: seq<Event>)
    requires RepoOk(s.repo) && Runs(s, es)
    decreases |es|
  {
    Conserved(s) && (es == [] || ConservedThroughout(Do(s, es[0]), es[1..]))
  }

  /** Over any run, the commits of the governor are conserved throughout exactly when every deletion finds
      those of the deleted branch in other branches. */
  lemma {:induction false} BotWorkIsConservedIff(s: Sys, es: seq<Event>)
    requires Inv(s) && Conserved(s) && Runs(s, es)
    ensures ConservedThroughout(s, es) <==> DeletionsFindElsewhere(s, es)
    decreases |es|
  {
    hide Within, Conserved, KeptElsewhere, Inv, Do, Can, RepoOk;
    InvMeansRepoOk(s);
    if es != [] {
      StepKeepsInv(s, es[0]);
      if IsDelete(es[0]) {
        DeletionStep(s, es[0]);
      } else {
        StepConserves(s, es[0]);
      }
      if Conserved(Do(s, es[0])) {
        BotWorkIsConservedIff(Do(s, es[0]), es[1..]);
      } else {
        assert !ConservedThroughout(Do(s, es[0]), es[1..]);
      }
    }
  }

  lemma DeletionStep(s: Sys, e: Event)
    requires Inv(s) && Conserved(s) && Can(s, e) && IsDelete(e)
    ensures e.p in s.tasks && BranchOf(s.tasks[e.p].ticket) in s.repo.branches
    ensures Conserved(Do(s, e)) <==> KeptElsewhere(s, BranchOf(s.tasks[e.p].ticket))
  {
    DeletionConservesIff(s, e.p);
  }

  // ---------- Bounded diffs ----------

  /** Every commit ever made has one parent, differs from it, and keeps both limits against it. */
  lemma EveryCommitIsBounded(s: Sys, es: seq<Event>, c: CommitId)
    requires Init(s) && Runs(s, es) && c in Exec(s, es).made
    ensures var g := Exec(s, es).repo.graph;
            && c < |g| && |g[c].parents| == 1 && g[c].parents[0] < |g|
            && g[c].tree != g[g[c].parents[0]].tree
            && |Changed(g[g[c].parents[0]].tree, g[c].tree)| <= s.limits.changed
            && |Deleted(g[g[c].parents[0]].tree, g[c].tree)| <= s.limits.deleted
  {
    RunKeepsInv(s, es);
    LimitsAreFixed(s, es);
    assert MadeOk(Exec(s, es).repo.graph, s.limits, c);
  }

  lemma {:induction false} LimitsAreFixed(s: Sys, es: seq<Event>)
    requires RepoOk(s.repo) && Runs(s, es)
    ensures Exec(s, es).limits == s.limits
    decreases |es|
  {
    if es != [] {
      LimitsAreFixed(Do(s, es[0]), es[1..]);
    }
  }

  /** From any commit between `start` and the end of the line, the line changes at most its length
      times the limit. */
  lemma {:induction false} LineIsBounded(g: Graph, limits: Limits, start: CommitId, bot: seq<CommitId>, x: CommitId)
    requires ChainOk(g, limits, start, bot)
    requires Reaches(g, Last(start, bot), x) && Reaches(g, x, start)
    ensures Last(start, bot) < |g| && x < |g|
    ensures |Changed(g[x].tree, g[Last(start, bot)].tree)| <= |bot| * limits.changed
    ensures |Deleted(g[x].tree, g[Last(start, bot)].tree)| <= |bot| * limits.deleted
    decreases |bot|
  {
    ReachesIsOlder(g, Last(start, bot), x);
    ReachesIsOlder(g, x, start);
    if x == Last(start, bot) {
      NothingChanged(g[x].tree);
    } else {
      var older := bot[..|bot| - 1];
      var last := bot[|bot| - 1];
      assert LinkOk(g, limits, Last(start, older), last);
      assert Reaches(g, Last(start, older), x);
      LineIsBounded(g, limits, start, older, x);
      ChangesCompose(g[x].tree, g[Last(start, older)].tree, g[last].tree);
      assert |bot| * limits.changed == |older| * limits.changed + limits.changed;
      assert |bot| * limits.deleted == |older| * limits.deleted + limits.deleted;
    }
  }

  lemma NothingChanged(tree: Tree)
    ensures Changed(tree, tree) == {} && Deleted(tree, tree) == {}
  {
  }

  /** What a successful merge onto the recorded base branch changes there, for any number of attempts:
      with one commit the limits themselves, with `n` commits `n` times the limits. */
  lemma LandingIsBounded(s: Sys, p: Pid)
    requires Inv(s) && Can(s, Act(p, Merge)) && s.repo.head == OnBranch(s.tasks[p].ticket.baseBranch)
    ensures var base := s.tasks[p].ticket.baseBranch;
            var n := |s.tasks[p].bot|;
            var before, after := TipTree(s.repo, base), TipTree(Do(s, Act(p, Merge)).repo, base);
            && n >= 1
            && |Changed(before, after)| <= n * s.limits.changed
            && |Deleted(before, after)| <= n * s.limits.deleted
  {
    hide RepoOk, TaskOk, MadeOk, Changed, Deleted;
    LandingStep(s.repo, s.limits, s.tasks[p]);
  }

  lemma LandingStep(r: Repo, limits: Limits, t: Task)
    requires RepoOk(r) && TaskOk(r, limits, t) && CanStep(r, t, Merge) && r.head == OnBranch(t.ticket.baseBranch)
    ensures var base := t.ticket.baseBranch;
            var before, after := TipTree(r, base), TipTree(MergeFastForward(r, BranchOf(t.ticket)), base);
            && |t.bot| >= 1
            && |Changed(before, after)| <= |t.bot| * limits.changed
            && |Deleted(before, after)| <= |t.bot| * limits.deleted
  {
    hide Within, Changed, Deleted;
    var base := t.ticket.baseBranch;
    if Reaches(r.graph, r.branches[base], Tip(t)) {
      NothingChanged(TipTree(r, base));
    } else {
      LineIsBounded(r.graph, limits, t.start, t.bot, r.branches[base]);
    }
  }

  /** A task that got past the precondition reads was cut exactly at the recorded base commit, although
      `begin` reads that commit and cuts the branch in two commands. */
  lemma CommittedWorkStartsAtBase(s: Sys, p: Pid)
    requires Inv(s) && p in s.tasks && AfterCommit(s.tasks[p].pc)
    ensures var t := s.tasks[p];
            var g := s.repo.graph;
            && t.start == t.ticket.baseCommit && t.bot != []
            && t.start < |g| && Tip(t) < |g| && Reaches(g, Tip(t), t.ticket.baseCommit)
            && |Changed(g[t.ticket.baseCommit].tree, g[Tip(t)].tree)| <= |t.bot| * s.limits.changed
            && |Deleted(g[t.ticket.baseCommit].tree, g[Tip(t)].tree)| <= |t.bot| * s.limits.deleted
  {
    hide Within, MadeOk;
    var t := s.tasks[p];
    assert TaskOk(s.repo, s.limits, t);
    LineReachesStart(s.repo.graph, s.limits, t.start, t.bot);
    LineIsBounded(s.repo.graph, s.limits, t.start, t.bot, t.start);
  }

  lemma {:induction false} LineReachesStart(g: Graph, limits: Limits, start: CommitId, bot: seq<CommitId>)
    requires ChainOk(g, limits, start, bot) && Acyclic(g)
    ensures Reaches(g, Last(start, bot), start)
    decreases |bot|
  {
    hide Within;
    if bot != [] {
      LineReachesStart(g, limits, start, bot[..|bot| - 1]);
      assert g[bot[|bot| - 1]].parents[0] == Last(start, bot[..|bot| - 1]);
    }
  }

  // ---------- Where a merge goes ----------

  /** A successful merge puts the task's last commit into whatever the project directory has checked out
      at that moment, and moves nothing else. */
  lemma MergeGoesToCheckout(s: Sys, p: Pid)
    requires Inv(s) && Can(s, Act(p, Merge))
    ensures var r, r' := s.repo, Do(s, Act(p, Merge)).repo;
            && s.tasks[p].bot != []
            && Reaches(r'.graph, HeadCommit(r'), Tip(s.tasks[p]))
            && Reaches(r'.graph, HeadCommit(r'), HeadCommit(r))
            && r'.branches.Keys == r.branches.Keys
            && (r.head.OnBranch? ==> r'.head == r.head)
            && forall b :: b in r.branches && r.head != OnBranch(b) ==> r'.branches[b] == r.branches[b]
  {
    hide Within, MadeOk;
    assert TaskOk(s.repo, s.limits, s.tasks[p]);
  }

  /** A merge is possible exactly when the checkout and the task's last commit are on one line; when the checkout
      contains the commit already, the merge changes nothing. */
  lemma MergeIsPossibleIff(s: Sys, p: Pid)
    requires Inv(s) && p in s.tasks && s.tasks[p].pc.Merging?
    ensures var g, head, tip := s.repo.graph, HeadCommit(s.repo), Tip(s.tasks[p]);
            && (Can(s, Act(p, Merge)) <==> Reaches(g, head, tip) || Reaches(g, tip, head))
            && (Reaches(g, head, tip) ==> Do(s, Act(p, Merge)).repo == s.repo)
  {
    hide Within, ChainOk, Reaches, MadeOk;
    assert TaskOk(s.repo, s.limits, s.tasks[p]);
  }

  predicate IsSwitch(e: Event) {
    e.Outside? && e.move.Switch?
  }

  lemma {:induction false} CheckoutStays(s: Sys, es: seq<Event>)
    requires RepoOk(s.repo) && Runs(s, es) && s.repo.head.OnBranch?
    requires forall i :: 0 <= i < |es| ==> !IsSwitch(es[i])
    ensures Exec(s, es).repo.head == s.repo.head
    decreases |es|
  {
    hide Within;
    if es != [] {
      EventKeepsCheckout(s, es[0]);
      CheckoutStays(Do(s, es[0]), es[1..]);
    }
  }

  lemma EventKeepsCheckout(s: Sys, e: Event)
    requires RepoOk(s.repo) && Can(s, e) && s.repo.head.OnBranch? && !IsSwitch(e)
    ensures Do(s, e).repo.head == s.repo.head
  {
    hide Within;
  }

  /** A successful merge leaves the commit in the recorded base branch exactly when that branch is checked
      out at the merge, or contains the commit already. */
  lemma MergedIntoBaseIff(s: Sys, p: Pid)
    requires Inv(s) && Can(s, Act(p, Merge))
    ensures var base, tip := s.tasks[p].ticket.baseBranch, Tip(s.tasks[p]);
            var r, r' := s.repo, Do(s, Act(p, Merge)).repo;
            && base in r.branches && base in r'.branches
            && (Reaches(r'.graph, r'.branches[base], tip) <==>
                  r.head == OnBranch(base) || Reaches(r.graph, r.branches[base], tip))
  {
    hide Within, MadeOk;
    assert TaskOk(s.repo, s.limits, s.tasks[p]);
    MergeGoesToCheckout(s, p);
  }

  /** In particular when the branch check found the base branch checked out and nobody switched since. */
  lemma MergedIntoBase(s: Sys, es: seq<Event>, p: Pid)
    requires Inv(s) && Runs(s, es)
    requires p in s.tasks && s.repo.head == OnBranch(s.tasks[p].ticket.baseBranch)
    requires forall i :: 0 <= i < |es| ==> !IsSwitch(es[i])
    requires Can(Exec(s, es), Act(p, Merge)) && Exec(s, es).tasks[p].ticket == s.tasks[p].ticket
    ensures var s2 := Exec(s, es);
            var r' := Do(s2, Act(p, Merge)).repo;
            var base := s.tasks[p].ticket.baseBranch;
            base in r'.branches && Reaches(r'.graph, r'.branches[base], Tip(s2.tasks[p]))
  {
    CheckoutStays(s, es);
    RunKeepsInv(s, es);
    MergedIntoBaseIff(Exec(s, es), p);
  }

  // ---------- What others do ----------

  predicate By(e: Event, p: Pid) {
    match e
    case Outside(_) => false
    case Open(q, _) => q == p
    case Act(q, _) => q == p
  }

  lemma OthersKeepCall(s: Sys, e: Event, p: Pid)
    requires Inv(s) && Can(s, e) && !By(e, p)
    ensures p in Do(s, e).tasks <==> p in s.tasks
    ensures p in s.tasks ==> Do(s, e).tasks[p] == s.tasks[p]
    ensures forall b :: b in s.repo.branches && !IsTaskBranch(b) ==> b in Do(s, e).repo.branches
  {
    hide Within, TaskOk, RepoOk, MadeOk;
    forall b | b in s.repo.branches && !IsTaskBranch(b) ensures b in Do(s, e).repo.branches {
      EventAdvances(s, e, b);
    }
  }

  lemma {:induction false} OthersKeepCallOver(s: Sys, es: seq<Event>, p: Pid)
    requires Inv(s) && Runs(s, es) && p in s.tasks && forall i :: 0 <= i < |es| ==> !By(es[i], p)
    ensures Inv(Exec(s, es)) && s.repo.graph <= Exec(s, es).repo.graph
    ensures p in Exec(s, es).tasks && Exec(s, es).tasks[p] == s.tasks[p]
    decreases |es|
  {
    hide Inv, Can;
    InvMeansRepoOk(s);
    if es != [] {
      StepKeepsInv(s, es[0]);
      OthersKeepCall(s, es[0], p);
      OthersKeepCallOver(Do(s, es[0]), es[1..], p);
    }
  }

  /** As long as a task owns its branch, nobody can create a worktree under its name, whatever others do. */
  lemma OwnedNameIsTaken(s: Sys, es: seq<Event>, p: Pid, q: Pid)
    requires Inv(s) && Runs(s, es) && p in s.tasks && Owns(s.tasks[p])
    requires forall i :: 0 <= i < |es| ==> !By(es[i], p)
    ensures var end := Exec(s, es);
            && BranchOf(s.tasks[p].ticket) in end.repo.branches
            && (q in end.tasks && BranchOf(end.tasks[q].ticket) == BranchOf(s.tasks[p].ticket) ==>
                !Can(end, Act(q, AddWorktree)))
  {
    hide Within, MadeOk, Distinct;
    OthersKeepCallOver(s, es, p);
    assert TaskOk(Exec(s, es).repo, Exec(s, es).limits, Exec(s, es).tasks[p]);
  }

  // ---------- Refusals ----------

  predicate Refused(pc: Pc) {
    pc == Resting(Returned(ValidationFailed)) || pc == Resting(Returned(SafetyBlocked))
        || pc == Resting(Returned(MergeFailed))
  }

  /** A refusal changes no branch and no worktree, and the task keeps its worktree and its branch,
      which ends in the task's own last commit, so that the next call resumes there. */
  lemma RefusalKeepsEverything(s: Sys, p: Pid, a: Action)
    requires Inv(s) && Can(s, Act(p, a)) && !s.tasks[p].pc.Resting?
    requires p in Do(s, Act(p, a)).tasks && Refused(Do(s, Act(p, a)).tasks[p].pc)
    ensures var s' := Do(s, Act(p, a));
            var k := s.tasks[p].ticket;
            && s'.repo == s.repo && s'.made == s.made
            && HasWorktree(s'.repo, k)
            && BranchOf(k) in s'.repo.branches && s'.repo.branches[BranchOf(k)] == Tip(s'.tasks[p])
            && Can(s', Act(p, Start)) && forall files :: Can(s', Act(p, Edit(files)))
  {
    hide RepoOk, TaskOk, MadeOk, Distinct, PcAfter;
    RefusalOnlyReads(s.repo, s.limits, s.tasks[p], a);
    var t' := s.tasks[p].(pc := PcAfter(s.repo, s.limits, s.tasks[p], a));
    assert Do(s, Act(p, a)) == s.(tasks := s.tasks[p := t']);
  }

  lemma RefusalOnlyReads(r: Repo, limits: Limits, t: Task, a: Action)
    requires RepoOk(r) && CanStep(r, t, a) && !t.pc.Resting? && TaskOk(r, limits, t)
    requires Refused(PcAfter(r, limits, t, a))
    ensures RepoAfter(r, t, a) == r && !a.CommitWork? && HasWorktree(r, t.ticket)
    ensures BranchOf(t.ticket) in r.branches && r.branches[BranchOf(t.ticket)] == Tip(t)
    ensures TaskAfter(r, limits, t, a) == t.(pc := PcAfter(r, limits, t, a))
  {
    hide Within, ChainOk, Reaches;
  }

  /** Before its merge, a call changes no branch except its own task branch. */
  lemma OnlyMergeTouchesOtherBranches(s: Sys, p: Pid, a: Action, b: string)
    requires Inv(s) && Can(s, Act(p, a)) && !a.Merge? && b != BranchOf(s.tasks[p].ticket)
    ensures var r' := Do(s, Act(p, a)).repo;
            && (b in r'.branches <==> b in s.repo.branches)
            && (b in s.repo.branches ==> r'.branches[b] == s.repo.branches[b])
  {
    hide Within;
  }

  /** Two tasks under way never share a branch or a worktree. */
  lemma TasksAreSeparate(s: Sys, p: Pid, q: Pid)
    requires Inv(s) && p in s.tasks && q in s.tasks && p != q && Owns(s.tasks[p]) && Owns(s.tasks[q])
    ensures BranchOf(s.tasks[p].ticket) != BranchOf(s.tasks[q].ticket)
    ensures PathOf(s.tasks[p].ticket) != PathOf(s.tasks[q].ticket)
  {
  }

  lemma MovesKeepWorktrees(r: Repo, m: Move)
    requires RepoOk(r) && CanMove(r, m)
    ensures MoveBy(r, m).worktrees == r.worktrees
  {
    hide RepoOk, Reaches;
  }

  lemma OnlyRemoveRemoves(r: Repo, t: Task, a: Action, path: WorktreePath)
    requires RepoOk(r) && CanStep(r, t, a) && path in r.worktrees && path !in RepoAfter(r, t, a).worktrees
    ensures Clean(r, path) && RepoAfter(r, t, a).branches == r.branches && RepoAfter(r, t, a).graph == r.graph
  {
    hide RepoOk, Reaches, Clean, CanFastForward, CanDelete;
  }

  /** A worktree disappears only when its files are those of its branch, so that no uncommitted work is lost. */
  lemma RemovedWorktreesAreCommitted(s: Sys, e: Event, path: WorktreePath)
    requires RepoOk(s.repo) && Can(s, e) && path in s.repo.worktrees && path !in Do(s, e).repo.worktrees
    ensures var r, r', branch := s.repo, Do(s, e).repo, s.repo.worktrees[path].branch;
            && branch in r'.branches && r'.branches[branch] == r.branches[branch] && r'.graph == r.graph
            && r.worktrees[path].files == TipTree(r', branch)
  {
    hide CanStep, RepoAfter, MoveBy, CanMove;
    match e
    case Outside(m) => MovesKeepWorktrees(s.repo, m);
    case Open(_, _) =>
    case Act(p, a) => OnlyRemoveRemoves(s.repo, s.tasks[p], a, path);
  }

  // ---------- After a merge that failed behind its commit ----------

  /** The task branch is left without a worktree between two commands of `complete`. */
  ghost predicate Stranded(s: Sys, p: Pid) {
    p in s.tasks && !HasWorktree(s.repo, s.tasks[p].ticket)
    && s.tasks[p].pc in {Resting(Raised), Counting}
  }

  ghost predicate Goes(s: Sys, es: seq<Event>, s': Sys)
    requires RepoOk(s.repo)
  {
    Runs(s, es) && Exec(s, es) == s'
  }

  lemma GoesOn(s: Sys, es: seq<Event>, s': Sys, e: Event) returns (es': seq<Event>)
    requires RepoOk(s.repo) && Goes(s, es, s') && RepoOk(s'.repo) && Can(s', e)
    ensures es' == es + [e] && Goes(s, es', Do(s', e))
  {
    RunsAppend(s, es, e);
    es' := es + [e];
  }

  /** The retry of a task whose work is committed sees no changes and removes the worktree; it ends
      well exactly when the checkout contains the commit by then. Otherwise only a failure is possible. */
  lemma RetryEndsWellIff(s: Sys, p: Pid) returns (es: seq<Event>, s': Sys)
    requires RepoOk(s.repo) && p in s.tasks && TaskOk(s.repo, s.limits, s.tasks[p])
    requires s.tasks[p].pc == Resting(Returned(MergeFailed)) && Clean(s.repo, PathOf(s.tasks[p].ticket))
    ensures es == [Act(p, Start), Act(p, Count), Act(p, Remove)] && Goes(s, es, s')
    ensures RepoOk(s'.repo) && p in s'.tasks && s'.tasks[p] == s.tasks[p].(pc := Deleting(NoChanges))
    ensures Can(s', Act(p, Delete)) <==> Reaches(s.repo.graph, HeadCommit(s.repo), Tip(s.tasks[p]))
    ensures s'.repo == WorktreeRemove(s.repo, PathOf(s.tasks[p].ticket)) && s'.made == s.made
    ensures Can(s', Act(p, Fail)) && Stranded(Do(s', Act(p, Fail)), p)
    ensures Do(s', Act(p, Fail)).repo == s'.repo && Do(s', Act(p, Fail)).made == s'.made
  {
    hide RepoOk, TaskOk, PcAfter, CanStep, RepoAfter, Reaches, WorkWithin;
    var t := s.tasks[p];
    var s1 := s.(tasks := s.tasks[p := t.(pc := Counting)]);
    var s2 := s.(tasks := s.tasks[p := t.(pc := Removing(NoChanges))]);
    RetrySteps(s.repo, s.limits, t);
    s' := s.(repo := WorktreeRemove(s.repo, PathOf(t.ticket)), tasks := s.tasks[p := t.(pc := Deleting(NoChanges))]);
    assert Goes(s, [], s);
    es := GoesOn(s, [], s, Act(p, Start));
    assert Do(s, Act(p, Start)) == s1;
    es := GoesOn(s, es, s1, Act(p, Count));
    assert Do(s1, Act(p, Count)) == s2;
    es := GoesOn(s, es, s2, Act(p, Remove));
    assert Do(s2, Act(p, Remove)) == s';
    RetryEnd(s.repo, s.limits, t);
  }

  lemma RetrySteps(r: Repo, limits: Limits, t: Task)
    requires RepoOk(r) && TaskOk(r, limits, t)
    requires t.pc == Resting(Returned(MergeFailed)) && Clean(r, PathOf(t.ticket))
    ensures CanStep(r, t, Start) && RepoAfter(r, t, Start) == r
    ensures TaskAfter(r, limits, t, Start) == t.(pc := Counting)
    ensures CanStep(r, t.(pc := Counting), Count) && RepoAfter(r, t.(pc := Counting), Count) == r
    ensures TaskAfter(r, limits, t.(pc := Counting), Count) == t.(pc := Removing(NoChanges))
    ensures CanStep(r, t.(pc := Removing(NoChanges)), Remove) && PathOf(t.ticket) in r.worktrees
    ensures RepoAfter(r, t.(pc := Removing(NoChanges)), Remove) == WorktreeRemove(r, PathOf(t.ticket))
    ensures TaskAfter(r, limits, t.(pc := Removing(NoChanges)), Remove) == t.(pc := Deleting(NoChanges))
  {
    hide ChainOk, Reaches;
    NothingChanged(TipTree(r, BranchOf(t.ticket)));
  }

  lemma RetryEnd(r: Repo, limits: Limits, t: Task)
    requires RepoOk(r) && TaskOk(r, limits, t)
    requires t.pc == Resting(Returned(MergeFailed)) && Clean(r, PathOf(t.ticket))
    ensures var r', t' := WorktreeRemove(r, PathOf(t.ticket)), t.(pc := Deleting(NoChanges));
            && (CanStep(r', t', Delete) <==> Reaches(r.graph, HeadCommit(r), Tip(t)))
            && CanStep(r', t', Fail) && RepoAfter(r', t', Fail) == r'
            && TaskAfter(r', limits, t', Fail) == t.(pc := Resting(Raised))
            && !HasWorktree(r', t.ticket)
  {
    hide ChainOk, Reaches, WorkWithin;
    RemovedBranchIsFree(r, t.ticket);
  }

  lemma RemovedBranchIsFree(r: Repo, k: Ticket)
    requires RepoOk(r) && HasWorktree(r, k)
    ensures Held(r, BranchOf(k)) && !Held(WorktreeRemove(r, PathOf(k)), BranchOf(k))
    ensures !HasWorktree(WorktreeRemove(r, PathOf(k)), k)
  {
    var r' := WorktreeRemove(r, PathOf(k));
    forall w | w in r'.worktrees ensures r'.worktrees[w].branch != BranchOf(k) {
      assert w in r.worktrees && w != PathOf(k);
    }
  }

  lemma StepKeepsStranded(s: Sys, p: Pid, e: Event)
    requires Inv(s) && Stranded(s, p) && Can(s, e)
    ensures Stranded(Do(s, e), p)
    ensures Do(s, e).tasks[p].ticket == s.tasks[p].ticket && Do(s, e).tasks[p].bot == s.tasks[p].bot
  {
    hide Within, ChainOk, MadeOk, Reaches;
    match e
    case Outside(m) => MoveDisturbsNobody(s.repo, m, s.tasks[p].ticket);
    case Open(_, _) =>
    case Act(q, a) =>
      if q == p {
        OwnStepOfStranded(s.repo, s.limits, s.tasks[p], a);
      } else {
        OtherStepOfStranded(s, p, q, a);
      }
  }

  lemma OwnStepOfStranded(r: Repo, limits: Limits, t: Task, a: Action)
    requires RepoOk(r) && t.pc in {Resting(Raised), Counting} && !HasWorktree(r, t.ticket) && CanStep(r, t, a)
    ensures RepoAfter(r, t, a) == r && !t.pc.Opening?
    ensures TaskAfter(r, limits, t, a) == t.(pc := if a.Start? then Counting else Resting(Raised))
  {
  }

  lemma OtherStepOfStranded(s: Sys, p: Pid, q: Pid, a: Action)
    requires Inv(s) && Stranded(s, p) && Can(s, Act(q, a)) && q != p
    ensures Stranded(Do(s, Act(q, a)), p) && Do(s, Act(q, a)).tasks[p] == s.tasks[p]
  {
    hide Within, ChainOk, MadeOk, Reaches, RepoOk;
    assert TaskOk(s.repo, s.limits, s.tasks[p]);
    if Owns(s.tasks[q]) || a.AddWorktree? {
      StepLeavesOtherWorktrees(s.repo, s.tasks[q], a, s.tasks[p].ticket);
    }
  }

  /** From then on no run ever finishes the task, so no call ever reports MERGED or NO_CHANGES for it, yet
      its branch keeps its commits for ever. */
  lemma {:induction false} StrandedForEver(s: Sys, es: seq<Event>, p: Pid)
    requires Inv(s) && Stranded(s, p) && Runs(s, es)
    ensures var s' := Exec(s, es);
            && Stranded(s', p) && !Finished(s'.tasks[p].pc)
            && BranchOf(s.tasks[p].ticket) in s'.repo.branches
            && forall c :: c in s.tasks[p].bot ==>
                Reaches(s'.repo.graph, s'.repo.branches[BranchOf(s.tasks[p].ticket)], c)
    decreases |es|
  {
    hide Within;
    if es == [] {
      assert TaskOk(s.repo, s.limits, s.tasks[p]);
      forall c | c in s.tasks[p].bot ensures Reaches(s.repo.graph, s.repo.branches[BranchOf(s.tasks[p].ticket)], c) {
        LineReachesEach(s.repo.graph, s.limits, s.tasks[p].start, s.tasks[p].bot, c);
        ReachesIsTransitive(s.repo.graph, s.repo.branches[BranchOf(s.tasks[p].ticket)], Tip(s.tasks[p]), c);
      }
    } else {
      StepKeepsStranded(s, p, es[0]);
      StepKeepsInv(s, es[0]);
      StrandedForEver(Do(s, es[0]), es[1..], p);
    }
  }

  lemma {:induction false} LineReachesEach(g: Graph, limits: Limits, start: CommitId, bot: seq<CommitId>, c: CommitId)
    requires ChainOk(g, limits, start, bot) && Acyclic(g) && c in bot
    ensures Reaches(g, Last(start, bot), c)
    decreases |bot|
  {
    hide Within;
    var older, last := bot[..|bot| - 1], bot[|bot| - 1];
    if c != last {
      assert c in older;
      LineReachesEach(g, limits, start, older, c);
      assert g[last].parents[0] == Last(start, older);
    }
  }
}
