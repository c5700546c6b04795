/** The runtime object: tool calls that load the session record, decide, call other parts of the system
    and save the record again. Each call is shown to do to the store exactly what `Runtime.After` says. */
module Governor {
  import opened Options
  import opened Policy
  import opened SessionState
  import opened Runtime
  import opened Text

  datatype Reply =
    | Done
    | NotAdmitted
    | NoProject
    | TaskIsActive
    | NoTask
    | OtherChat
    | NotAuthorized
    | CallFailed

  class GovernorRuntime {
    const state: SessionStateRepository
    const groups: seq<Group>
    const space: char -> bool

    function Now(): World
      reads state
    {
      World(state.entries, state.projects, groups)
    }

    constructor (state: SessionStateRepository, groups: seq<Group>, space: char -> bool)
      ensures this.state == state && this.groups == groups && this.space == space
    {
      this.state, this.groups, this.space := state, groups, space;
    }

    // ---------- What others answer ----------

    /** `_refresh_projects`: the scan replaces the catalogue, or fails and leaves it. */
    method RefreshProjects() returns (scan: Scan)
      modifies state`projects
      ensures scan.Scanned? ==> state.projects == scan.found
      ensures scan.ScanFailed? ==> state.projects == old(state.projects)
    {
      var fails: bool := *;
      if fails {
        return ScanFailed;
      }
      var found: Catalogue := *;
      state.projects := found;
      scan := Scanned(found);
    }

    method BeginWorktree() returns (begun: Option<NewWorktree>) {
      begun := *;
    }

    method RunCodex() returns (answer: CodexAnswer) {
      answer := *;
    }

    method CompleteWorktree() returns (ending: Ending) {
      ending := *;
    }

    // ---------- Lookups ----------

    method Record(env: Env) returns (r: SessionRecord)
      ensures r == RecordOf(Now(), env)
    {
      var loaded := state.LoadRecord(env.sessionKey);
      if loaded.None? || !SharesScope(loaded.value.identity, env.identity) {
        return Blank(env.identity);
      }
      if loaded.value.projectId.None?
          || !Authorized(groups, state.projects, env.identity, loaded.value.projectId.value)
      {
        return Blank(env.identity);
      }
      r := loaded.value;
    }

    /** The projects of the catalogue in some order, each once. */
    method CatalogueOrder() returns (order: seq<string>)
      ensures forall p :: p in order <==> p in state.projects
      ensures forall i, j :: 0 <= i < j < |order| ==> order[i] != order[j]
    {
      order := [];
      var rest := state.projects.Keys;
      while rest != {}
        invariant rest <= state.projects.Keys
        invariant forall p :: p in order <==> p in state.projects && p !in rest
        invariant forall i, j :: 0 <= i < j < |order| ==> order[i] != order[j]
        decreases |rest|
      {
        var p :| p in rest;
        order, rest := order + [p], rest - {p};
      }
    }

    /** The project is authorised for the member and has this id or name. */
    predicate Denotes(who: Identity, p: string, name: string)
      reads state
    {
      Authorized(groups, state.projects, who, p) && (name == p || name == state.projects[p].displayName)
    }

    /** The first project in catalogue order that is authorised and has this id or name, blanks aside. */
    method ResolveAuthorizedProject(order: seq<string>, who: Identity, value: string) returns (id: Option<string>)
      requires forall p :: p in order <==> p in state.projects
      ensures id.Some? ==>
                exists i :: 0 <= i < |order| && order[i] == id.value && Denotes(who, order[i], Trim(space, value))
                            && forall j :: 0 <= j < i ==> !Denotes(who, order[j], Trim(space, value))
      ensures id.None? ==> forall p :: !Denotes(who, p, Trim(space, value))
    {
      hide Trim;
      var name := Trim(space, value);
      for i := 0 to |order|
        invariant forall j :: 0 <= j < i ==> !Denotes(who, order[j], name)
      {
        if Denotes(who, order[i], name) {
          return Some(order[i]);
        }
      }
      id := None;
    }

    // ---------- Tool calls ----------

    /** The save that happens before every turn of the model. */
    method PreLlmCall(env: Env, gitMissing: bool) returns (reply: Reply, ghost call: Call)
      modifies state
      ensures call.PreLlm? && call.env == env && Now() == After(old(Now()), call)
    {
      call := PreLlm(env, None);
      if !Admitted(groups, env.identity) {
        return NotAdmitted, call;
      }
      var r := Record(env);
      if r.projectId.Some? && gitMissing {
        var scan := RefreshProjects();
        call := PreLlm(env, Some(scan));
        if scan.ScanFailed? {
          return CallFailed, call;
        }
        r := Record(env);
      }
      state.SaveRecord(env.sessionKey, r);
      reply := Done;
    }

    /** The record has the chosen project, and the worktree and the thread of the record before. */
    ghost predicate HasSelected(before: Option<SessionRecord>, env: Env, choice: Option<string>)
      reads state
    {
      before.Some? && choice.Some? &&
      var r := SessionRecord(env.identity, choice, before.value.active, before.value.threadId);
      Filled(r) ==> Load(state.Raw(env.sessionKey), state.projects) == Some(r)
    }

    /** A session without a readable record gets a blank one first. */
    method SelectProject(env: Env, value: string) returns (reply: Reply, ghost call: Call)
      modifies state
      ensures call.SelectTool? && call.env == env && Now() == After(old(Now()), call)
      ensures reply == Done ==> call.choice.Some? && Denotes(env.identity, call.choice.value, Trim(space, value))
      ensures reply == Done && old(Load(state.Raw(env.sessionKey), state.projects)).Some? ==>
                HasSelected(Load(old(state.Raw(env.sessionKey)), state.projects), env, call.choice)
      ensures reply == Done && old(Load(state.Raw(env.sessionKey), state.projects)).None? ==>
                HasSelected(Some(Blank(env.identity)), env, call.choice)
    {
      hide Load, Save, Trim;
      if !Admitted(groups, env.identity) {
        return NotAdmitted, SelectTool(env, ScanFailed, None);
      }
      var loaded := state.LoadRecord(env.sessionKey);
      if loaded.None? {
        state.SaveRecord(env.sessionKey, Blank(env.identity));
      }
      ghost var card;
      reply, card := SelectProjectForSession(env, value);
      call := SelectTool(env, card.scan, card.choice);
      LoadOfSave(Blank(env.identity), state.projects);
    }

    /** Only a selection that is granted changes the record, to a project that has the given name or
        identifier; it keeps worktree and thread, and grants no other project while there is a worktree. */
    method SelectProjectForSession(env: Env, value: string) returns (reply: Reply, ghost call: Call)
      modifies state
      ensures call.SelectCard? && call.env == env && Now() == After(old(Now()), call)
      ensures reply == Done ==>
                && call.choice.Some? && Denotes(env.identity, call.choice.value, Trim(space, value))
                && HasSelected(Load(old(state.Raw(env.sessionKey)), state.projects), env, call.choice)
      ensures reply != Done ==> state.entries == old(state.entries)
      ensures reply == NotAuthorized ==> forall p :: !Denotes(env.identity, p, Trim(space, value))
      ensures reply == OtherChat ==>
                var before := Load(old(state.Raw(env.sessionKey)), state.projects);
                before.Some? ==> before.value.identity.chatId != env.identity.chatId
                                 || before.value.identity.chatType != env.identity.chatType
      ensures reply == TaskIsActive ==>
                var before := Load(old(state.Raw(env.sessionKey)), state.projects);
                before.Some? && before.value.active.Some? && before.value.projectId != call.choice
    {
      hide Load, Save, Trim;
      var scan := RefreshProjects();
      call := SelectCard(env, scan, None);
      if scan.ScanFailed? {
        return CallFailed, call;
      }
      var prior := state.LoadRecord(env.sessionKey);
      if prior.None? || !SharesScope(prior.value.identity, env.identity) {
        return OtherChat, call;
      }
      if !Admitted(groups, env.identity) {
        return NotAdmitted, call;
      }
      var order := CatalogueOrder();
      var choice := ResolveAuthorizedProject(order, env.identity, value);
      call := SelectCard(env, scan, choice);
      if choice.None? {
        return NotAuthorized, call;
      }
      if prior.value.active.Some? && prior.value.projectId != choice {
        return TaskIsActive, call;
      }
      var r := SessionRecord(env.identity, choice, prior.value.active, prior.value.threadId);
      LoadedIsSound(state.Raw(env.sessionKey), state.projects);
      state.SaveRecord(env.sessionKey, r);
      reply := Done;
    }

    method BeginTaskIn(env: Env) returns (reply: Reply, ghost scan: Scan, ghost begun: Option<NewWorktree>)
      requires Admitted(groups, env.identity)
      modifies state
      ensures Now() == After(old(Now()), BeginTask(env, scan, begun))
      ensures reply != CallFailed ==> scan.Scanned?
      ensures reply == Done ==> begun.Some?
      ensures reply !in {Done, NoProject, TaskIsActive} ==> begun.None?
    {
      var s := RefreshProjects();
      scan, begun := s, None;
      if s.ScanFailed? {
        return CallFailed, scan, begun;
      }
      var r := Record(env);
      if r.projectId.None? {
        return NoProject, scan, begun;
      }
      if r.active.Some? {
        return TaskIsActive, scan, begun;
      }
      var b := BeginWorktree();
      begun := b;
      if b.None? {
        return CallFailed, scan, begun;
      }
      var active := ActiveWorktree(
        state.projects[r.projectId.value], b.value.taskId, b.value.path, b.value.branchName, b.value.baseBranch,
            b.value.baseCommit);
      state.SaveRecord(env.sessionKey, SessionRecord(env.identity, r.projectId, Some(active), None));
      reply := Done;
    }

    method CompleteTaskIn(env: Env) returns (reply: Reply, ghost call: Call)
      modifies state
      ensures call.CompleteTask? && call.env == env && Now() == After(old(Now()), call)
      ensures reply == NotAdmitted <==> !Admitted(groups, env.identity)
      ensures reply == Done <==>
                Admitted(groups, env.identity) && old(RecordOf(Now(), env)).active.Some? && !call.ending.EndedRaised?
    {
      call := CompleteTask(env, EndedRaised);
      if !Admitted(groups, env.identity) {
        return NotAdmitted, call;
      }
      var r := Record(env);
      if r.active.None? {
        return NoTask, call;
      }
      var ending := CompleteWorktree();
      call := CompleteTask(env, ending);
      if Clears(ending) {
        state.SaveRecord(env.sessionKey, Cleared(env, r));
      }
      reply := if ending.EndedRaised? then CallFailed else Done;
    }

    /** `codex_change`: begins a task when none is active, runs Codex in its worktree, stores the thread
        and completes the task when Codex is done. */
    method Change(env: Env) returns (reply: Reply, ghost call: Call)
      modifies state
      ensures call.CodexChange? && call.env == env && Now() == After(old(Now()), call)
      ensures reply == Done ==>
                !call.codex.CodexRaised? && (call.codex.Completed? ==> !call.codex.ending.EndedRaised?)
    {
      call := CodexChange(env, ScanFailed, ScanFailed, None, CodexRaised);
      if !Admitted(groups, env.identity) {
        return NotAdmitted, call;
      }
      var scan := RefreshProjects();
      call := CodexChange(env, scan, ScanFailed, None, CodexRaised);
      if scan.ScanFailed? {
        return CallFailed, call;
      }
      var r := Record(env);
      if r.projectId.None? {
        return NoProject, call;
      }
      ghost var again, begun := ScanFailed, None;
      if r.active.None? {
        ghost var before := Now();
        reply, again, begun := BeginTaskIn(env);
        call := CodexChange(env, scan, again, begun, CodexRaised);
        if reply != Done {
          if reply == CallFailed {
            assert again.Scanned? ==> begun.None?;
          }
          return reply, call;
        }
        r := Record(env);
        if r.active.None? {
          return CallFailed, call;
        }
      }
      var answer := RunCodex();
      call := CodexChange(env, scan, again, begun, answer);
      if answer.CodexRaised? {
        return CallFailed, call;
      }
      state.SaveRecord(env.sessionKey, SessionRecord(env.identity, r.projectId, r.active, Some(answer.threadId)));
      if answer.Completed? && Clears(answer.ending) {
        state.SaveRecord(env.sessionKey, Cleared(env, r));
      }
      reply := if answer.Completed? && answer.ending.EndedRaised? then CallFailed else Done;
    }

    /** The common start of reading, jobs, pushes, remote and HTTP actions; `Done` lets the runner go ahead. */
    method SelectedProject(env: Env) returns (reply: Reply, ghost call: Call)
      modifies state
      ensures call.UseProject? && call.env == env && Now() == After(old(Now()), call)
      ensures reply == Done <==> CallsRunner(old(Now()), call)
      ensures reply == Done ==> TaskAt(old(Now()), env.sessionKey) == None
    {
      call := UseProject(env, ScanFailed);
      if !Admitted(groups, env.identity) {
        return NotAdmitted, call;
      }
      var scan := RefreshProjects();
      call := UseProject(env, scan);
      if scan.ScanFailed? {
        return CallFailed, call;
      }
      var r := Record(env);
      if r.projectId.None? {
        return NoProject, call;
      }
      if r.active.Some? {
        return TaskIsActive, call;
      }
      RunnersExcludeTasks(old(Now()), call);
      reply := Done;
    }
  }
}
