/** Several chat sessions on one repository: the store as the tool calls change it, the tasks as the git
    commands change them, and which stored payload stands for which task. Calls of different sessions
    interleave command by command; a session runs one call at a time, which writes its record at its end. */
module Sessions {
  import opened Options
  import opened Policy
  import opened SessionState
  import opened Runtime
  import opened Git
  import opened Protocol
  import opened Guarantees

  /** A call with a task: `seen` is the catalogue it works with; `began` tells whether the call opened the
      task or found it in the record. */
  datatype Running = Running(p: Pid, env: Env, seen: Catalogue, began: bool, ticket: Ticket)

  /** `tasks` tells for each session with a worktree in its payload which task that is. */
  datatype Office = Office(world: World, sys: Sys, tasks: map<string, Pid>, calls: map<string, Running>)

  datatype OfficeMove =
    | Command(e: Event)                                        // a git command, an edit, a failure or an outside move
    | StartBegin(env: Env, seen: Catalogue, p: Pid, k: Ticket) // a call without a stored worktree begins a task
    | StartWork(env: Env, seen: Catalogue)                     // a call finds a worktree in the record
    | Finish(c: Call)                                          // a call with a task ends and leaves its record
    | Plain(c: Call)                                           // a call that issues no git command

  function KeyOf(c: Call): string {
    c.env.sessionKey
  }

  function SeenBy(w: World, seen: Catalogue): World {
    w.(projects := seen)
  }

  predicate HasCall(o: Office, p: Pid) {
    exists key :: key in o.calls && o.calls[key].p == p
  }

  /** What `complete` reports when the task comes to rest like this. */
  predicate EndsAs(ending: Ending, pc: Pc) {
    match ending
    case EndedMerged => pc == Resting(Returned(Merged))
    case EndedNoChanges => pc == Resting(Returned(NoChanges))
    case EndedRefused => Refused(pc)
    case EndedRaised => pc == Resting(Raised)
  }

  predicate Rests(pc: Pc) {
    pc.Resting? && !Finished(pc)
  }

  predicate CodexLeaves(codex: CodexAnswer, pc: Pc) {
    if codex.Completed? then EndsAs(codex.ending, pc) else Rests(pc)
  }

  predicate Begins(nw: NewWorktree, k: Ticket) {
    nw.taskId == k.taskId && nw.branchName == BranchOf(k) && nw.baseBranch == k.baseBranch
  }

  /** The call reports what happened to its task. */
  predicate Reports(o: Office, run: Running, c: Call) {
    && c.env == run.env
    && match c
       case CompleteTask(_, ending) =>
         !run.began && run.p in o.sys.tasks && EndsAs(ending, o.sys.tasks[run.p].pc)
       case BeginTask(_, scan, begun) =>
         && run.began && scan == Scanned(run.seen)
         && (match begun
             case None => run.p in o.sys.tasks ==> Rests(o.sys.tasks[run.p].pc)
             case Some(nw) => Begins(nw, run.ticket) && run.p in o.sys.tasks && o.sys.tasks[run.p].pc == Resting(Fresh))
       case CodexChange(env, scan, again, begun, codex) =>
         if !run.began then
           scan == Scanned(run.seen) && run.p in o.sys.tasks && CodexLeaves(codex, o.sys.tasks[run.p].pc)
         else
           && scan.Scanned? && again == Scanned(run.seen)
           && (match begun
               case None => run.p in o.sys.tasks ==> Rests(o.sys.tasks[run.p].pc)
               case Some(nw) =>
                 && Begins(nw, run.ticket) && run.p in o.sys.tasks && CodexLeaves(codex, o.sys.tasks[run.p].pc)
                 && (Finished(o.sys.tasks[run.p].pc) ==> ReachesCodex(SeenBy(o.world, scan.found), c)))
       case _ => false
  }

  /** After the task has been begun, the record can be used, so that Codex is run. */
  predicate ReachesCodex(w: World, c: Call)
    requires c.CodexChange? && c.again.Scanned?
  {
    && RecordOf(w, c.env).projectId.Some? && RecordOf(w, c.env).active.None?
    && RecordOf(AfterBegin(SeenBy(w, c.again.found), c.env, c.begun), c.env).active.Some?
  }

  /** The call ends before it reaches git. */
  predicate IssuesNoCommand(w: World, c: Call) {
    match c
    case BeginTask(_, _, begun) => begun.None?
    case CompleteTask(env, _) => RecordOf(w, env).active.None?
    case CodexChange(env, scan, _, begun, _) =>
      begun.None? && (scan.Scanned? ==> RecordOf(SeenBy(w, scan.found), env).active.None?)
    case _ => true
  }

  predicate CanDo(o: Office, m: OfficeMove)
    requires RepoOk(o.sys.repo)
  {
    match m
    case Command(e) => Can(o.sys, e) && !e.Open? && (e.Act? ==> HasCall(o, e.p))
    case StartBegin(env, seen, p, k) =>
      && env.sessionKey !in o.calls && !HasCall(o, p) && Can(o.sys, Open(p, k))
      && RecordOf(SeenBy(o.world, seen), env).projectId == Some(k.projectId)
      && RecordOf(SeenBy(o.world, seen), env).active.None?
    case StartWork(env, seen) =>
      && env.sessionKey !in o.calls && env.sessionKey in o.tasks && o.tasks[env.sessionKey] in o.sys.tasks
      && RecordOf(SeenBy(o.world, seen), env).active.Some?
    case Finish(c) => KeyOf(c) in o.calls && Reports(o, o.calls[KeyOf(c)], c)
    case Plain(c) => KeyOf(c) !in o.calls && IssuesNoCommand(o.world, c)
  }

  /** The sessions' tasks once the payload of a session has been written. */
  function Linked(tasks: map<string, Pid>, w: World, key: string, p: Pid): map<string, Pid> {
    if TaskAt(w, key).Some? then tasks[key := p] else tasks - {key}
  }

  function Next(o: Office, m: OfficeMove): (o': Office)
    requires RepoOk(o.sys.repo) && CanDo(o, m)
    ensures RepoOk(o'.sys.repo)
  {
    match m
    case Command(e) => o.(sys := Do(o.sys, e))
    case StartBegin(env, seen, p, k) =>
      o.(sys := Do(o.sys, Open(p, k)), calls := o.calls[env.sessionKey := Running(p, env, seen, true, k)])
    case StartWork(env, seen) =>
      var p := o.tasks[env.sessionKey];
      o.(calls := o.calls[env.sessionKey := Running(p, env, seen, false, o.sys.tasks[p].ticket)])
    case Finish(c) =>
      var key := KeyOf(c);
      var w := After(SeenBy(o.world, o.calls[key].seen), c);
      o.(world := w, tasks := Linked(o.tasks, w, key, o.calls[key].p), calls := o.calls - {key})
    case Plain(c) =>
      var w := After(o.world, c);
      o.(world := w, tasks := if KeyOf(c) in o.tasks && TaskAt(w, KeyOf(c)).None? then o.tasks - {KeyOf(c)}
          else o.tasks)
  }

  // ---------- What every state satisfies ----------

  /** The stored worktree is that of the task. */
  predicate Fits(pin: Pin, k: Ticket) {
    pin.taskId == k.taskId && pin.projectId == k.projectId && pin.branchName == BranchOf(k)
  }

  /** The payload of the session stands for a task that is under way, or that its own call just finished. */
  ghost predicate IsAlive(o: Office, key: string)
    requires key in o.tasks
  {
    var p := o.tasks[key];
    && TaskAt(o.world, key).Some?
    && p in o.sys.tasks && Fits(TaskAt(o.world, key).value, o.sys.tasks[p].ticket)
    && (Owns(o.sys.tasks[p]) || (key in o.calls && Finished(o.sys.tasks[p].pc)))
  }

  /** What a running call can count on until its end. */
  ghost predicate CallOk(o: Office, key: string)
    requires key in o.calls
  {
    var run := o.calls[key];
    var r := RecordOf(SeenBy(o.world, run.seen), run.env);
    && run.env.sessionKey == key
    && (run.p in o.sys.tasks ==> o.sys.tasks[run.p].ticket == run.ticket)
    && (if run.began then key !in o.tasks && r.projectId == Some(run.ticket.projectId) && r.active.None?
        else key in o.tasks && o.tasks[key] == run.p && r.active.Some?)
  }

  ghost predicate Separate(o: Office) {
    && (forall a, b :: a in o.tasks && b in o.tasks && o.tasks[a] == o.tasks[b] ==> a == b)
    && (forall a, b :: a in o.calls && b in o.calls && o.calls[a].p == o.calls[b].p ==> a == b)
    && (forall a, b :: a in o.calls && b in o.tasks && o.calls[a].p == o.tasks[b] ==> a == b)
  }

  ghost predicate OfficeOk(o: Office) {
    && Inv(o.sys) && Separate(o)
    && (forall key :: TaskAt(o.world, key).Some? ==> key in o.tasks)
    && (forall key :: key in o.tasks ==> IsAlive(o, key))
    && (forall key :: key in o.calls ==> CallOk(o, key))
  }

  // ---------- What calls do to the store ----------

  lemma SameRecord(w: World, w': World, env: Env)
    requires Raw(w, env.sessionKey) == Raw(w', env.sessionKey) && w.projects == w'.projects && w.groups == w'.groups
    ensures RecordOf(w, env) == RecordOf(w', env)
  {
    hide Load, Authorized;
  }

  lemma GroupsStay(w: World, c: Call)
    ensures After(w, c).groups == w.groups
  {
    hide Load, Authorized, Admitted, RecordOf, Save;
  }

  /** A call without git commands keeps the worktree in its payload or drops it. */
  lemma PlainKeepsOrDrops(w: World, c: Call)
    requires IssuesNoCommand(w, c)
    ensures TaskAt(After(w, c), KeyOf(c)) == TaskAt(w, KeyOf(c)) || TaskAt(After(w, c), KeyOf(c)) == None
  {
    if TaskAt(w, KeyOf(c)).Some? {
      StoredTaskSurvivesIff(w, c);
    } else {
      PlainStoresNothing(w, c);
    }
  }

  lemma PlainStoresNothing(w: World, c: Call)
    requires IssuesNoCommand(w, c) && TaskAt(w, KeyOf(c)) == None
    ensures TaskAt(After(w, c), KeyOf(c)) == None
  {
    hide Load, Authorized, Admitted, Save, RawTask;
    var env := c.env;
    RawTaskOfSaved(Blank(env.identity));
    match c
    case PreLlm(_, rescan) =>
      var w1 := if rescan.Some? && rescan.value.Scanned? then SeenBy(w, rescan.value.found) else w;
      CoveredTask(w1, env);
      RawTaskOfSaved(RecordOf(w1, env));
    case SelectTool(_, scan, choice) =>
      var w1 := if Load(Raw(w, env.sessionKey), w.projects).None? then Saved(w, env.sessionKey, Blank(env.identity))
          else w;
      if scan.Scanned? {
        SelectKeepsTask(SeenBy(w1, scan.found), env, choice);
      }
    case SelectCard(_, scan, choice) =>
      if scan.Scanned? {
        SelectKeepsTask(SeenBy(w, scan.found), env, choice);
      }
    case BeginTask(_, scan, _) =>
    case CompleteTask(_, _) =>
    case CodexChange(_, scan, _, _, _) =>
    case UseProject(_, _) =>
  }

  /** The worktree that a begun task leaves in the payload is its own. */
  lemma BegunIsStored(w: World, env: Env, nw: NewWorktree, k: Ticket)
    requires Begins(nw, k) && TaskAt(w, env.sessionKey) == None
    requires RecordOf(w, env).projectId == Some(k.projectId)
    ensures var pin := TaskAt(AfterBegin(w, env, Some(nw)), env.sessionKey); pin.Some? ==> Fits(pin.value, k)
  {
    hide Load, Authorized, Save;
    var r := RecordOf(w, env);
    if AfterBegin(w, env, Some(nw)) != w {
      var active := ActiveWorktree(w.projects[k.projectId], nw.taskId, nw.path, nw.branchName, nw.baseBranch,
          nw.baseCommit);
      RawTaskIsSavedPin(SessionRecord(env.identity, r.projectId, Some(active), None));
    }
  }

  lemma RawTaskIsSavedPin(r: SessionRecord)
    requires r.active.Some?
    ensures RawTask(Some(Save(r))).Some? ==> RawTask(Some(Save(r))) == Some(PinOf(r.active.value))
  {
    LoadPinOfSave(r.active.value);
  }

  /** What the end of a call leaves in the payload. */
  lemma FinishStores(o: Office, c: Call)
    requires OfficeOk(o) && CanDo(o, Finish(c))
    ensures var run := o.calls[KeyOf(c)];
            var pin := TaskAt(After(SeenBy(o.world, run.seen), c), KeyOf(c));
            pin.Some? ==>
              && run.p in o.sys.tasks && Rests(o.sys.tasks[run.p].pc)
              && Fits(pin.value, o.sys.tasks[run.p].ticket)
  {
    var run := o.calls[KeyOf(c)];
    assert CallOk(o, KeyOf(c));
    if run.began {
      BegunCallStores(o, c);
    } else {
      assert IsAlive(o, KeyOf(c));
      WorkingCallStores(o, c);
    }
  }

  lemma WorkingCallStores(o: Office, c: Call)
    requires RepoOk(o.sys.repo) && CanDo(o, Finish(c)) && CallOk(o, KeyOf(c)) && !o.calls[KeyOf(c)].began
    requires TaskAt(o.world, KeyOf(c)).Some?
    ensures var run := o.calls[KeyOf(c)];
            var pin := TaskAt(After(SeenBy(o.world, run.seen), c), KeyOf(c));
            pin.Some? ==> Rests(o.sys.tasks[run.p].pc) && pin == TaskAt(o.world, KeyOf(c))
  {
    hide After, Load, RepoOk, Authorized, Save;
    var run := o.calls[KeyOf(c)];
    var w := SeenBy(o.world, run.seen);
    CoveredIsAdmitted(w, run.env);
    StoredTaskSurvivesIff(w, c);
  }

  lemma CoveredIsAdmitted(w: World, env: Env)
    requires RecordOf(w, env).active.Some?
    ensures Covered(w, env) && Admitted(w.groups, env.identity)
  {
    hide Load;
  }

  lemma BegunCallStores(o: Office, c: Call)
    requires RepoOk(o.sys.repo) && CanDo(o, Finish(c)) && CallOk(o, KeyOf(c)) && o.calls[KeyOf(c)].began
    requires TaskAt(o.world, KeyOf(c)) == None
    ensures var run := o.calls[KeyOf(c)];
            var pin := TaskAt(After(SeenBy(o.world, run.seen), c), KeyOf(c));
            pin.Some? ==> run.p in o.sys.tasks && Rests(o.sys.tasks[run.p].pc) && Fits(pin.value, run.ticket)
  {
    hide Load, RepoOk, Authorized, Admitted, Save, RawTask, RecordOf, Fits;
    var run := o.calls[KeyOf(c)];
    var env, w := c.env, SeenBy(o.world, run.seen);
    match c
    case BeginTask(_, _, begun) =>
      if begun.Some? {
        BegunIsStored(w, env, begun.value, run.ticket);
      }
    case CodexChange(_, scan, _, begun, codex) =>
      BegunChangeStores(SeenBy(w, scan.found), env, run.seen, begun, codex, run.ticket);
  }

  lemma BegunChangeStores(w: World, env: Env, seen: Catalogue, begun: Option<NewWorktree>, codex: CodexAnswer,
      k: Ticket)
    requires TaskAt(w, env.sessionKey) == None && (begun.Some? ==> Begins(begun.value, k))
    requires RecordOf(SeenBy(w, seen), env).projectId == Some(k.projectId)
    ensures var c := CodexChange(env, Scanned(w.projects), Scanned(seen), begun, codex);
            var pin := TaskAt(AfterChange(w, env, Scanned(seen), begun, codex), env.sessionKey);
            pin.Some? ==>
              && begun.Some? && Fits(pin.value, k)
              && !(codex.Completed? && Clears(codex.ending) && ReachesCodex(w, c))
  {
    hide Load, Authorized, Admitted, Save, RawTask, RecordOf, Fits;
    CoveredTask(w, env);
    var w1 := AfterBegin(SeenBy(w, seen), env, begun);
    if begun.Some? {
      BegunIsStored(SeenBy(w, seen), env, begun.value, k);
      if RecordOf(w1, env).active.Some? {
        CodexKeepsTask(w1, env, codex);
      }
    }
  }

  // ---------- Every move keeps it ----------

  lemma StepKeepsTickets(s: Sys, e: Event, p: Pid)
    requires RepoOk(s.repo) && Can(s, e) && !e.Open?
    ensures p in Do(s, e).tasks ==> p in s.tasks && Do(s, e).tasks[p].ticket == s.tasks[p].ticket
  {
    hide RepoOk, CanStep, PcAfter, RepoAfter;
  }

  lemma OwnerStaysOrFinishes(s: Sys, p: Pid, a: Action)
    requires RepoOk(s.repo) && Can(s, Act(p, a)) && (Owns(s.tasks[p]) || Finished(s.tasks[p].pc))
    ensures p in Do(s, Act(p, a)).tasks
    ensures Owns(Do(s, Act(p, a)).tasks[p]) || Finished(Do(s, Act(p, a)).tasks[p].pc)
  {
    hide Within, RepoOk, Reaches;
  }

  lemma CommandKeepsOfficeOk(o: Office, e: Event)
    requires OfficeOk(o) && CanDo(o, Command(e))
    ensures OfficeOk(Next(o, Command(e)))
  {
    hide Inv, Can, RepoOk, Raw, RecordOf, TaskAt, Fits;
    InvMeansRepoOk(o.sys);
    StepKeepsInv(o.sys, e);
    var o' := Next(o, Command(e));
    forall key | key in o'.tasks ensures IsAlive(o', key) {
      assert IsAlive(o, key);
      CommandKeepsAlive(o, e, key);
    }
    forall key | key in o'.calls ensures CallOk(o', key) {
      assert CallOk(o, key);
      StepKeepsTickets(o.sys, e, o.calls[key].p);
    }
  }

  lemma CommandKeepsAlive(o: Office, e: Event, key: string)
    requires RepoOk(o.sys.repo) && CanDo(o, Command(e)) && Separate(o) && key in o.tasks && IsAlive(o, key)
    ensures IsAlive(Next(o, Command(e)), key)
  {
    hide RepoOk, TaskAt, Fits;
    var p := o.tasks[key];
    if e.Act? && e.p == p {
      var own :| own in o.calls && o.calls[own].p == p;
      assert own == key;
      OwnerStaysOrFinishes(o.sys, p, e.action);
    }
    StepKeepsTickets(o.sys, e, p);
  }

  /** A call that starts touches no payload and no other call. */
  lemma StartKeepsAlive(o: Office, o': Office, started: string, key: string)
    requires o'.world == o.world && o'.tasks == o.tasks && o'.calls.Keys == o.calls.Keys + {started}
    requires forall p :: p in o.sys.tasks ==> p in o'.sys.tasks && o'.sys.tasks[p] == o.sys.tasks[p]
    requires key in o.tasks && IsAlive(o, key)
    ensures IsAlive(o', key)
  {
    hide TaskAt, Fits;
  }

  lemma StartKeepsCall(o: Office, o': Office, key: string)
    requires o'.world == o.world && o'.tasks == o.tasks && key in o.calls && key in o'.calls
        && o'.calls[key] == o.calls[key]
    requires o.calls[key].p in o'.sys.tasks ==>
               o.calls[key].p in o.sys.tasks && o'.sys.tasks[o.calls[key].p] == o.sys.tasks[o.calls[key].p]
    requires CallOk(o, key)
    ensures CallOk(o', key)
  {
    hide RecordOf;
  }

  lemma StartKeepsSeparate(o: Office, o': Office, key0: string)
    requires Separate(o) && key0 !in o.calls && o'.tasks == o.tasks && o'.calls.Keys == o.calls.Keys + {key0}
    requires forall key :: key in o.calls ==> o'.calls[key] == o.calls[key] && o.calls[key].p != o'.calls[key0].p
    requires forall key :: key in o.tasks && key != key0 ==> o.tasks[key] != o'.calls[key0].p
    ensures Separate(o')
  {
  }

  lemma StartBeginKeepsOfficeOk(o: Office, env: Env, seen: Catalogue, p: Pid, k: Ticket)
    requires OfficeOk(o) && CanDo(o, StartBegin(env, seen, p, k))
    ensures OfficeOk(Next(o, StartBegin(env, seen, p, k)))
  {
    hide Inv, RepoOk, RecordOf, TaskAt, IsAlive, Separate;
    InvMeansRepoOk(o.sys);
    StepKeepsInv(o.sys, Open(p, k));
    var o', key0 := Next(o, StartBegin(env, seen, p, k)), env.sessionKey;
    NoTaskStored(o, env, seen);
    forall key | key in o'.tasks ensures IsAlive(o', key) && o.tasks[key] != p {
      AliveIsUnderWay(o, key);
      StartKeepsAlive(o, o', key0, key);
    }
    forall key | key in o'.calls ensures CallOk(o', key) && (key != key0 ==> o.calls[key].p != p) {
      if key != key0 {
        assert HasCall(o, o.calls[key].p);
        StartKeepsCall(o, o', key);
      }
    }
    StartKeepsSeparate(o, o', key0);
  }

  lemma AliveIsUnderWay(o: Office, key: string)
    requires key in o.tasks && IsAlive(o, key)
    ensures o.tasks[key] in o.sys.tasks
  {
  }

  /** A record without a worktree, for a project that may be used, means a payload without one. */
  lemma NoTaskStored(o: Office, env: Env, seen: Catalogue)
    requires RecordOf(SeenBy(o.world, seen), env).projectId.Some? && RecordOf(SeenBy(o.world, seen), env).active.None?
    requires forall key :: key in o.tasks ==> IsAlive(o, key)
    ensures env.sessionKey !in o.tasks
  {
    hide Load, Authorized, IsAlive, TaskAt;
    CoveredTask(SeenBy(o.world, seen), env);
    CoveredOrBlank(SeenBy(o.world, seen), env);
    SameEntriesSameTask(SeenBy(o.world, seen), o.world, env.sessionKey);
    if env.sessionKey in o.tasks {
      AliveIsStored(o, env.sessionKey);
    }
  }

  lemma AliveIsStored(o: Office, key: string)
    requires key in o.tasks && IsAlive(o, key)
    ensures TaskAt(o.world, key).Some?
  {
  }

  lemma CoveredOrBlank(w: World, env: Env)
    requires RecordOf(w, env).projectId.Some?
    ensures Covered(w, env)
  {
    hide Load, Authorized;
  }

  lemma SameEntriesSameTask(w: World, w': World, key: string)
    requires w.entries == w'.entries
    ensures TaskAt(w, key) == TaskAt(w', key)
  {
  }

  lemma OnlyOwnCall(o: Office, key0: string)
    requires Separate(o) && key0 in o.tasks && key0 !in o.calls
    ensures forall key :: key in o.calls ==> o.calls[key].p != o.tasks[key0]
    ensures forall key :: key in o.tasks && key != key0 ==> o.tasks[key] != o.tasks[key0]
  {
  }

  lemma StartWorkKeepsOfficeOk(o: Office, env: Env, seen: Catalogue)
    requires OfficeOk(o) && CanDo(o, StartWork(env, seen))
    ensures OfficeOk(Next(o, StartWork(env, seen)))
  {
    hide Inv, RepoOk, RecordOf, TaskAt, IsAlive, Separate;
    InvMeansRepoOk(o.sys);
    var o', key0 := Next(o, StartWork(env, seen)), env.sessionKey;
    OnlyOwnCall(o, key0);
    StartKeepsSeparate(o, o', key0);
    forall key | key in o'.tasks ensures IsAlive(o', key) {
      StartKeepsAlive(o, o', key0, key);
    }
    forall key | key in o'.calls ensures CallOk(o', key) {
      if key != key0 {
        StartKeepsCall(o, o', key);
      }
    }
  }

  /** The payload of another session, and what its running call makes of it, stay the same. */
  lemma OtherSessionStays(w: World, w': World, c: Call, key: string, env: Env, seen: Catalogue)
    requires w'.entries == After(w, c).entries && w'.groups == After(w, c).groups && key != KeyOf(c)
    ensures TaskAt(w', key) == TaskAt(w, key)
    ensures env.sessionKey == key ==> RecordOf(SeenBy(w', seen), env) == RecordOf(SeenBy(w, seen), env)
  {
    hide After, Load, Authorized, RawTask;
    OtherSessionsAreLeftAlone(w, c, key);
    GroupsStay(w, c);
    if env.sessionKey == key {
      SameRecord(SeenBy(w', seen), SeenBy(w, seen), env);
    }
  }

  lemma OthersStayAlive(o: Office, o': Office, c: Call, w: World, key: string)
    requires o.world.entries == w.entries && o.world.groups == w.groups && o'.world == After(w, c)
    requires o'.sys == o.sys && key != KeyOf(c) && (key in o'.calls <==> key in o.calls)
    requires key in o.calls ==> o'.calls[key] == o.calls[key]
    requires key in o'.tasks <==> key in o.tasks
    requires key in o.tasks ==> o'.tasks[key] == o.tasks[key]
    ensures TaskAt(o'.world, key) == TaskAt(o.world, key)
    ensures key in o.tasks && IsAlive(o, key) ==> IsAlive(o', key)
    ensures key in o.calls && CallOk(o, key) ==> CallOk(o', key)
  {
    hide After, Load, Authorized, RawTask, RecordOf, Fits, Admitted;
    if key in o.calls {
      OtherSessionStays(w, o'.world, c, key, o.calls[key].env, o.calls[key].seen);
    } else {
      OtherSessionStays(w, o'.world, c, key, c.env, w.projects);
    }
  }

  lemma FinishKeepsOfficeOk(o: Office, c: Call)
    requires OfficeOk(o) && CanDo(o, Finish(c))
    ensures OfficeOk(Next(o, Finish(c)))
  {
    hide Inv, RepoOk, After, TaskAt, IsAlive, CallOk, Reports;
    InvMeansRepoOk(o.sys);
    var o', key0 := Next(o, Finish(c)), KeyOf(c);
    var run := o.calls[key0];
    FinishStores(o, c);
    forall key ensures TaskAt(o'.world, key).Some? ==> key in o'.tasks {
      if key != key0 {
        OthersStayAlive(o, o', c, SeenBy(o.world, run.seen), key);
      }
    }
    forall key | key in o'.tasks ensures IsAlive(o', key) {
      if key == key0 {
        RestsIsAlive(o', key);
      } else {
        OthersStayAlive(o, o', c, SeenBy(o.world, run.seen), key);
      }
    }
    forall key | key in o'.calls ensures CallOk(o', key) {
      OthersStayAlive(o, o', c, SeenBy(o.world, run.seen), key);
    }
  }

  lemma RestsIsAlive(o: Office, key: string)
    requires key in o.tasks && o.tasks[key] in o.sys.tasks && Rests(o.sys.tasks[o.tasks[key]].pc)
    requires TaskAt(o.world, key).Some? && Fits(TaskAt(o.world, key).value, o.sys.tasks[o.tasks[key]].ticket)
    ensures IsAlive(o, key)
  {
  }

  lemma PlainKeepsOfficeOk(o: Office, c: Call)
    requires OfficeOk(o) && CanDo(o, Plain(c))
    ensures OfficeOk(Next(o, Plain(c)))
  {
    hide Inv, RepoOk, After, TaskAt, IsAlive, CallOk, IssuesNoCommand;
    InvMeansRepoOk(o.sys);
    var o', key0 := Next(o, Plain(c)), KeyOf(c);
    PlainKeepsOrDrops(o.world, c);
    forall key ensures TaskAt(o'.world, key).Some? ==> key in o'.tasks {
      if key != key0 {
        OthersStayAlive(o, o', c, o.world, key);
      }
    }
    forall key | key in o'.tasks ensures IsAlive(o', key) {
      if key == key0 {
        SameTaskIsAlive(o, o', key);
      } else {
        OthersStayAlive(o, o', c, o.world, key);
      }
    }
    forall key | key in o'.calls ensures CallOk(o', key) {
      OthersStayAlive(o, o', c, o.world, key);
    }
  }

  lemma SameTaskIsAlive(o: Office, o': Office, key: string)
    requires key in o.tasks && key in o'.tasks && o'.tasks[key] == o.tasks[key] && IsAlive(o, key)
    requires o'.sys == o.sys && o'.calls == o.calls
    requires TaskAt(o'.world, key) == TaskAt(o.world, key) || TaskAt(o'.world, key) == None
    requires TaskAt(o'.world, key).Some?
    ensures IsAlive(o', key)
  {
  }

  /** Whatever sessions, calls and outsiders do next, every stored worktree stays the one of a task under way,
      and no two sessions store or work on the same task. */
  lemma MoveKeepsOfficeOk(o: Office, m: OfficeMove)
    requires OfficeOk(o) && CanDo(o, m)
    ensures OfficeOk(Next(o, m))
  {
    match m
    case Command(e) => CommandKeepsOfficeOk(o, e);
    case StartBegin(env, seen, p, k) => StartBeginKeepsOfficeOk(o, env, seen, p, k);
    case StartWork(env, seen) => StartWorkKeepsOfficeOk(o, env, seen);
    case Finish(c) => FinishKeepsOfficeOk(o, c);
    case Plain(c) => PlainKeepsOfficeOk(o, c);
  }

  // ---------- Runs ----------

  ghost predicate OfficeRuns(o: Office, ms: seq<OfficeMove>)
    requires RepoOk(o.sys.repo)
    decreases |ms|
  {
    ms == [] || (CanDo(o, ms[0]) && OfficeRuns(Next(o, ms[0]), ms[1..]))
  }

  ghost function OfficeAfter(o: Office, ms: seq<OfficeMove>): (o': Office)
    requires RepoOk(o.sys.repo) && OfficeRuns(o, ms)
    ensures RepoOk(o'.sys.repo)
    decreases |ms|
  {
    if ms == [] then o else OfficeAfter(Next(o, ms[0]), ms[1..])
  }

  lemma {:induction false} RunKeepsOfficeOk(o: Office, ms: seq<OfficeMove>)
    requires OfficeOk(o) && RepoOk(o.sys.repo) && OfficeRuns(o, ms)
    ensures OfficeOk(OfficeAfter(o, ms))
    decreases |ms|
  {
    hide OfficeOk, CanDo, Next;
    if ms != [] {
      MoveKeepsOfficeOk(o, ms[0]);
      RunKeepsOfficeOk(Next(o, ms[0]), ms[1..]);
    }
  }

  /** What a move means for the repository, if anything. */
  function EventsOf(m: OfficeMove): seq<Event> {
    match m
    case Command(e) => [e]
    case StartBegin(_, _, p, k) => [Open(p, k)]
    case _ => []
  }

  function EventsOver(ms: seq<OfficeMove>): seq<Event> {
    if ms == [] then [] else EventsOf(ms[0]) + EventsOver(ms[1..])
  }

  /** Whatever the sessions do is a run of the protocol, so that everything that holds over runs holds here. */
  lemma {:induction false} SessionsRunTheProtocol(o: Office, ms: seq<OfficeMove>)
    requires RepoOk(o.sys.repo) && OfficeRuns(o, ms)
    ensures Goes(o.sys, EventsOver(ms), OfficeAfter(o, ms).sys)
    decreases |ms|
  {
    hide RepoOk, Can, Do, HasCall, Reports, IssuesNoCommand, Linked, RecordOf, After, TaskAt;
    if ms != [] {
      var o1, first, rest := Next(o, ms[0]), EventsOf(ms[0]), EventsOver(ms[1..]);
      SessionsRunTheProtocol(o1, ms[1..]);
      if first == [] {
        assert first + rest == rest && o1.sys == o.sys;
      } else {
        assert (first + rest)[0] == first[0] && (first + rest)[1..] == rest;
        assert o1.sys == Do(o.sys, first[0]);
      }
    }
  }

  predicate Writes(m: OfficeMove, key: string) {
    (m.Finish? || m.Plain?) && KeyOf(m.c) == key
  }

  /** A payload changes only when a call of its own session ends, and then to what the call makes of it with
      the catalogue that it worked with. */
  lemma CallsWriteTheirOwnPayload(o: Office, m: OfficeMove, key: string)
    requires RepoOk(o.sys.repo) && CanDo(o, m)
    ensures !Writes(m, key) ==> Raw(Next(o, m).world, key) == Raw(o.world, key)
    ensures m.Finish? && KeyOf(m.c) == key ==>
              Raw(Next(o, m).world, key) == Raw(After(SeenBy(o.world, o.calls[key].seen), m.c), key)
    ensures m.Plain? && KeyOf(m.c) == key ==> Raw(Next(o, m).world, key) == Raw(After(o.world, m.c), key)
  {
    hide After, RepoOk, Reports, IssuesNoCommand;
    if m.Finish? && KeyOf(m.c) != key {
      OtherSessionsAreLeftAlone(SeenBy(o.world, o.calls[KeyOf(m.c)].seen), m.c, key);
    } else if m.Plain? && KeyOf(m.c) != key {
      OtherSessionsAreLeftAlone(o.world, m.c, key);
    }
  }

  /** Nothing has been stored and no task begun. */
  function Opened(w: World, s: Sys): Office {
    Office(w, s, map[], map[])
  }

  lemma OpenedIsOk(w: World, s: Sys)
    requires Init(s) && w.entries == map[]
    ensures OfficeOk(Opened(w, s))
  {
  }

  /** From an empty store on, whatever the sessions, the other calls and outsiders do: when a session is
      between two calls, the worktree in its payload has its branch in the repository. */
  lemma StoredWorktreeHasItsBranch(w: World, s: Sys, ms: seq<OfficeMove>, key: string)
    requires Init(s) && w.entries == map[] && OfficeRuns(Opened(w, s), ms)
    requires var o := OfficeAfter(Opened(w, s), ms); key !in o.calls && TaskAt(o.world, key).Some?
    ensures var o := OfficeAfter(Opened(w, s), ms); TaskAt(o.world, key).value.branchName in o.sys.repo.branches
  {
    hide Within, ChainOk, TaskAt, OfficeAfter, OfficeRuns, CallOk, Separate;
    var o := OfficeAfter(Opened(w, s), ms);
    OpenedIsOk(w, s);
    RunKeepsOfficeOk(Opened(w, s), ms);
    assert IsAlive(o, key);
    OwnersHaveBranches(o.sys, o.tasks[key]);
  }

  lemma OwnersHaveBranches(s: Sys, p: Pid)
    requires Inv(s) && p in s.tasks && Owns(s.tasks[p])
    ensures BranchOf(s.tasks[p].ticket) in s.repo.branches
  {
    hide Within, MadeOk, Distinct;
    assert TaskOk(s.repo, s.limits, s.tasks[p]);
  }

  /** Nor do two sessions between calls ever hold the same branch, or the same task of the same project and
      with it the same worktree. */
  lemma SessionsNeverShareATask(w: World, s: Sys, ms: seq<OfficeMove>, a: string, b: string)
    requires Init(s) && w.entries == map[] && OfficeRuns(Opened(w, s), ms) && a != b
    requires var o := OfficeAfter(Opened(w, s), ms);
             a !in o.calls && b !in o.calls && TaskAt(o.world, a).Some? && TaskAt(o.world, b).Some?
    ensures var o := OfficeAfter(Opened(w, s), ms);
            var x, y := TaskAt(o.world, a).value, TaskAt(o.world, b).value;
            x.branchName != y.branchName && (x.projectId, x.taskId) != (y.projectId, y.taskId)
  {
    hide Inv, TaskAt, OfficeAfter, OfficeRuns, CallOk;
    var o := OfficeAfter(Opened(w, s), ms);
    OpenedIsOk(w, s);
    RunKeepsOfficeOk(Opened(w, s), ms);
    assert IsAlive(o, a) && IsAlive(o, b);
    TasksAreSeparate(o.sys, o.tasks[a], o.tasks[b]);
  }
}
