/** The tool calls of the runtime as far as they touch the session store. What other parts of the system
    answer (Codex, git, the project scan) arrives as part of a call. */
module Runtime {
  import opened Options
  import opened Policy
  import opened SessionState

  datatype Env = Env(sessionKey: string, identity: Identity)

  datatype World = World(entries: map<string, Json>, projects: Catalogue, groups: seq<Group>)

  function Raw(w: World, key: string): Option<Json> {
    if key in w.entries then Some(w.entries[key]) else None
  }

  predicate SharesScope(recorded: Identity, current: Identity) {
    recorded.chatId == current.chatId && recorded.chatType == current.chatType
  }

  function Blank(who: Identity): SessionRecord {
    SessionRecord(who, None, None, None)
  }

  /** The stored record may be used by this member: it loads, belongs to the same chat, and its project is
      authorised for the member. */
  predicate Covered(w: World, env: Env) {
    var r := Load(Raw(w, env.sessionKey), w.projects);
    && r.Some? && SharesScope(r.value.identity, env.identity)
    && r.value.projectId.Some? && Authorized(w.groups, w.projects, env.identity, r.value.projectId.value)
  }

  /** `_record` with its four cases. */
  function RecordOf(w: World, env: Env): SessionRecord {
    if Covered(w, env) then Load(Raw(w, env.sessionKey), w.projects).value else Blank(env.identity)
  }

  function Saved(w: World, key: string, r: SessionRecord): World {
    w.(entries := w.entries[key := Save(r)])
  }

  // ---------- Calls ----------

  /** How `complete` of the worktree manager ended. */
  datatype Ending = EndedMerged | EndedNoChanges | EndedRefused | EndedRaised

  predicate Clears(e: Ending) {
    e.EndedMerged? || e.EndedNoChanges?
  }

  /** A worktree that `begin` of the worktree manager created. */
  datatype NewWorktree = NewWorktree(taskId: string, path: string, branchName: string, baseBranch: string,
      baseCommit: string)

  datatype CodexAnswer = CodexRaised | NeedsInput(threadId: string) | Completed(threadId: string, ending: Ending)

  datatype Scan = ScanFailed | Scanned(found: Catalogue)

  /** `scan` is what the project scan of a call finds, `choice` the project that a given name or id denotes
      among those authorised for the member. */
  datatype Call =
    | PreLlm(env: Env, rescan: Option<Scan>)
    | SelectTool(env: Env, scan: Scan, choice: Option<string>)
    | SelectCard(env: Env, scan: Scan, choice: Option<string>)
    | BeginTask(env: Env, scan: Scan, begun: Option<NewWorktree>)
    | CompleteTask(env: Env, ending: Ending)
    | CodexChange(env: Env, scan: Scan, again: Scan, begun: Option<NewWorktree>, codex: CodexAnswer)
    | UseProject(env: Env, scan: Scan)

  function AfterSelect(w: World, env: Env, choice: Option<string>): World {
    var prior := Load(Raw(w, env.sessionKey), w.projects);
    if prior.None? || !SharesScope(prior.value.identity, env.identity) then w
    else if !Admitted(w.groups, env.identity) then w
    else if choice.None? || !Authorized(w.groups, w.projects, env.identity, choice.value) then w
    else if prior.value.active.Some? && prior.value.projectId != choice then w
    else Saved(w, env.sessionKey, SessionRecord(env.identity, choice, prior.value.active, prior.value.threadId))
  }

  function AfterBegin(w: World, env: Env, begun: Option<NewWorktree>): World {
    var r := RecordOf(w, env);
    if r.projectId.None? || r.projectId.value !in w.projects || r.active.Some? || begun.None? then w
    else
      var b := begun.value;
      var active := ActiveWorktree(w.projects[r.projectId.value], b.taskId, b.path, b.branchName, b.baseBranch,
          b.baseCommit);
      Saved(w, env.sessionKey, SessionRecord(env.identity, r.projectId, Some(active), None))
  }

  /** The record after a task has been ended by MERGED or NO_CHANGES. */
  function Cleared(env: Env, r: SessionRecord): SessionRecord {
    SessionRecord(env.identity, r.projectId, None, None)
  }

  function AfterCodex(w: World, env: Env, r: SessionRecord, codex: CodexAnswer): World {
    if codex.CodexRaised? then w
    else
      var w1 := Saved(w, env.sessionKey, SessionRecord(env.identity, r.projectId, r.active, Some(codex.threadId)));
      if codex.Completed? && Clears(codex.ending) then Saved(w1, env.sessionKey, Cleared(env, r)) else w1
  }

  function AfterChange(w: World, env: Env, again: Scan, begun: Option<NewWorktree>, codex: CodexAnswer): World {
    var r := RecordOf(w, env);
    if r.projectId.None? then w
    else if r.active.Some? then AfterCodex(w, env, r, codex)
    else if again.ScanFailed? then w
    else
      var w1 := AfterBegin(w.(projects := again.found), env, begun);
      var r1 := RecordOf(w1, env);
      if begun.None? || r1.active.None? then w1 else AfterCodex(w1, env, r1, codex)
  }

  function After(w: World, c: Call): World {
    var env := c.env;
    if c.SelectCard? then
      if c.scan.ScanFailed? then w else AfterSelect(w.(projects := c.scan.found), env, c.choice)
    else if !Admitted(w.groups, env.identity) then w
    else
      match c
      case PreLlm(_, rescan) =>
        if rescan.None? then Saved(w, env.sessionKey, RecordOf(w, env))
        else if rescan.value.ScanFailed? then w
        else
          var w1 := w.(projects := rescan.value.found);
          Saved(w1, env.sessionKey, RecordOf(w1, env))
      case SelectTool(_, scan, choice) =>
        var w1 := if Load(Raw(w, env.sessionKey), w.projects).None? then Saved(w, env.sessionKey, Blank(env.identity))
            else w;
        if scan.ScanFailed? then w1 else AfterSelect(w1.(projects := scan.found), env, choice)
      case SelectCard(_, _, _) => w
      case BeginTask(_, scan, begun) =>
        if scan.ScanFailed? then w else AfterBegin(w.(projects := scan.found), env, begun)
      case CompleteTask(_, ending) =>
        var r := RecordOf(w, env);
        if r.active.Some? && Clears(ending) then Saved(w, env.sessionKey, Cleared(env, r)) else w
      case CodexChange(_, scan, again, begun, codex) =>
        if scan.ScanFailed? then w else AfterChange(w.(projects := scan.found), env, again, begun, codex)
      case UseProject(_, scan) =>
        if scan.ScanFailed? then w else w.(projects := scan.found)
  }

  /** The call reaches the inspector, a job, a push, a remote or an HTTP runner. */
  predicate CallsRunner(w: World, c: Call) {
    && c.UseProject? && Admitted(w.groups, c.env.identity) && c.scan.Scanned?
    && var r := RecordOf(w.(projects := c.scan.found), c.env);
       r.projectId.Some? && r.active.None?
  }

  // ---------- Exclusivity ----------

  /** No runner is called while the stored payload of the session holds a worktree, whichever case of
      `_record` applies. */
  lemma RunnersExcludeTasks(w: World, c: Call)
    requires CallsRunner(w, c)
    ensures RawTask(Raw(w, c.env.sessionKey)) == None
  {
    RawTaskOfLoaded(Raw(w, c.env.sessionKey), c.scan.found);
  }

  // ---------- Which calls drop a stored worktree ----------

  function TaskAt(w: World, key: string): Option<Pin> {
    RawTask(Raw(w, key))
  }

  /** The call removes the worktree that the session has stored. */
  predicate Drops(w: World, c: Call) {
    && Admitted(w.groups, c.env.identity)
    && match c
       case PreLlm(env, rescan) =>
         if rescan.None? then !Covered(w, env)
         else rescan.value.Scanned? && !Covered(w.(projects := rescan.value.found), env)
       case SelectTool(env, _, _) => Load(Raw(w, env.sessionKey), w.projects).None?
       case CompleteTask(env, ending) => Covered(w, env) && Clears(ending)
       case CodexChange(env, scan, _, _, codex) =>
         && scan.Scanned? && Covered(w.(projects := scan.found), env)
         && codex.Completed? && Clears(codex.ending)
       case _ => false
  }

  lemma SelectKeepsTask(w: World, env: Env, choice: Option<string>)
    ensures TaskAt(AfterSelect(w, env, choice), env.sessionKey) == TaskAt(w, env.sessionKey)
  {
    var prior := Load(Raw(w, env.sessionKey), w.projects);
    if prior.Some? {
      RawTaskOfLoaded(Raw(w, env.sessionKey), w.projects);
      RawTaskOfSaved(SessionRecord(env.identity, choice, prior.value.active, prior.value.threadId));
    }
  }

  lemma CoveredTask(w: World, env: Env)
    ensures RecordOf(w, env).active.Some? ==>
              TaskAt(w, env.sessionKey) == Some(PinOf(RecordOf(w, env).active.value))
              && LoadPin(SaveActive(RecordOf(w, env).active.value)).Some?
    ensures Covered(w, env) && RecordOf(w, env).active.None? ==> TaskAt(w, env.sessionKey) == None
  {
    if Covered(w, env) {
      RawTaskOfLoaded(Raw(w, env.sessionKey), w.projects);
      LoadedIsSound(Raw(w, env.sessionKey), w.projects);
      if RecordOf(w, env).active.Some? {
        LoadPinOfSave(RecordOf(w, env).active.value);
      }
    }
  }

  lemma CodexKeepsTask(w: World, env: Env, codex: CodexAnswer)
    requires RecordOf(w, env).active.Some?
    ensures var w' := AfterCodex(w, env, RecordOf(w, env), codex);
            TaskAt(w', env.sessionKey) ==
            if codex.Completed? && Clears(codex.ending) then None else TaskAt(w, env.sessionKey)
  {
    var r := RecordOf(w, env);
    CoveredTask(w, env);
    RawTaskOfSaved(Cleared(env, r));
    if !codex.CodexRaised? {
      RawTaskOfSaved(SessionRecord(env.identity, r.projectId, r.active, Some(codex.threadId)));
    }
  }

  /** A stored worktree survives a call exactly when the call is not one of these four: a context call or
      a selection by a member for whom the record is not usable, or a completion that ended in MERGED or
      NO_CHANGES. */
  lemma StoredTaskSurvivesIff(w: World, c: Call)
    requires TaskAt(w, c.env.sessionKey).Some?
    ensures TaskAt(After(w, c), c.env.sessionKey) == TaskAt(w, c.env.sessionKey) <==> !Drops(w, c)
    ensures Drops(w, c) ==> TaskAt(After(w, c), c.env.sessionKey) == None
  {
    hide Load, Save, Authorized, Admitted, RawTask;
    var env := c.env;
    RawTaskOfSaved(Blank(env.identity));
    match c
    case PreLlm(_, rescan) =>
      var w1 := if rescan.Some? && rescan.value.Scanned? then w.(projects := rescan.value.found) else w;
      CoveredTask(w1, env);
      RawTaskOfSaved(RecordOf(w1, env));
    case SelectTool(_, scan, choice) =>
      var w1 := if Load(Raw(w, env.sessionKey), w.projects).None? then Saved(w, env.sessionKey, Blank(env.identity))
          else w;
      if scan.Scanned? {
        SelectKeepsTask(w1.(projects := scan.found), env, choice);
      }
    case SelectCard(_, scan, choice) =>
      if scan.Scanned? {
        SelectKeepsTask(w.(projects := scan.found), env, choice);
      }
    case BeginTask(_, scan, _) =>
      if scan.Scanned? {
        CoveredTask(w.(projects := scan.found), env);
      }
    case CompleteTask(_, _) =>
      CoveredTask(w, env);
      RawTaskOfSaved(Cleared(env, RecordOf(w, env)));
    case CodexChange(_, scan, _, _, codex) =>
      if scan.Scanned? {
        var w1 := w.(projects := scan.found);
        CoveredTask(w1, env);
        if RecordOf(w1, env).active.Some? {
          CodexKeepsTask(w1, env, codex);
        }
      }
    case UseProject(_, _) =>
  }

  lemma OtherSessionsAreLeftAlone(w: World, c: Call, key: string)
    requires key != c.env.sessionKey
    ensures Raw(After(w, c), key) == Raw(w, key)
  {
    hide Load, Save, RecordOf, Authorized, Admitted;
  }

  // ---------- Runs ----------

  function AfterAll(w: World, cs: seq<Call>): World
    decreases |cs|
  {
    if cs == [] then w else AfterAll(After(w, cs[0]), cs[1..])
  }

  /** No call of the run drops the worktree of this session. */
  ghost predicate NeverDrops(w: World, cs: seq<Call>, key: string)
    decreases |cs|
  {
    cs == [] ||
    (&& (cs[0].env.sessionKey == key ==> !Drops(w, cs[0]))
     && NeverDrops(After(w, cs[0]), cs[1..], key))
  }

  lemma {:induction false} StoredTaskSurvivesRuns(w: World, cs: seq<Call>, key: string)
    requires TaskAt(w, key).Some? && NeverDrops(w, cs, key)
    ensures TaskAt(AfterAll(w, cs), key) == TaskAt(w, key)
    decreases |cs|
  {
    hide After, TaskAt, Drops;
    if cs != [] {
      if cs[0].env.sessionKey == key {
        StoredTaskSurvivesIff(w, cs[0]);
      } else {
        OtherSessionsAreLeftAlone(w, cs[0], key);
        SameRawSameTask(w, After(w, cs[0]), key);
      }
      StoredTaskSurvivesRuns(After(w, cs[0]), cs[1..], key);
    }
  }

  /** The catalogue that the project scan of a call gives, if it gives one. */
  function ScanOf(c: Call): Option<Catalogue> {
    match c
    case PreLlm(_, rescan) => if rescan.Some? && rescan.value.Scanned? then Some(rescan.value.found) else None
    case CompleteTask(_, _) => None
    case SelectTool(_, scan, _) => if scan.Scanned? then Some(scan.found) else None
    case SelectCard(_, scan, _) => if scan.Scanned? then Some(scan.found) else None
    case BeginTask(_, scan, _) => if scan.Scanned? then Some(scan.found) else None
    case CodexChange(_, scan, _, _, _) => if scan.Scanned? then Some(scan.found) else None
    case UseProject(_, scan) => if scan.Scanned? then Some(scan.found) else None
  }

  /** Catalogue and permissions cover the stored project for the acting member, before and after the scan. */
  predicate CoveredThroughout(w: World, c: Call) {
    Covered(w, c.env) && (ScanOf(c).Some? ==> Covered(w.(projects := ScanOf(c).value), c.env))
  }

  /** The call reports MERGED or NO_CHANGES. */
  predicate EndsTask(c: Call) {
    || (c.CompleteTask? && Clears(c.ending))
    || (c.CodexChange? && c.codex.Completed? && Clears(c.codex.ending))
  }

  ghost predicate StaysCovered(w: World, cs: seq<Call>, key: string)
    decreases |cs|
  {
    cs == [] ||
    (&& (cs[0].env.sessionKey == key ==> CoveredThroughout(w, cs[0]) && !EndsTask(cs[0]))
     && StaysCovered(After(w, cs[0]), cs[1..], key))
  }

  /** As long as every acting member of the chat is covered, no run of calls removes or replaces a stored
      worktree, except by a completion that reports MERGED or NO_CHANGES. */
  lemma {:induction false} CoveredTaskSurvivesRuns(w: World, cs: seq<Call>, key: string)
    requires TaskAt(w, key).Some? && StaysCovered(w, cs, key)
    ensures NeverDrops(w, cs, key) && TaskAt(AfterAll(w, cs), key) == TaskAt(w, key)
    decreases |cs|
  {
    hide TaskAt, After, Authorized, Load;
    if cs != [] {
      StoredTaskStays(w, cs[0], key);
      CoveredTaskSurvivesRuns(After(w, cs[0]), cs[1..], key);
    }
  }

  lemma StoredTaskStays(w: World, c: Call, key: string)
    requires TaskAt(w, key).Some?
    requires c.env.sessionKey == key ==> CoveredThroughout(w, c) && !EndsTask(c)
    ensures c.env.sessionKey == key ==> !Drops(w, c)
    ensures TaskAt(After(w, c), key) == TaskAt(w, key)
  {
    if c.env.sessionKey == key {
      CoveredMeansNoDrop(w, c);
      StoredTaskSurvivesIff(w, c);
    } else {
      OtherSessionsAreLeftAlone(w, c, key);
      SameRawSameTask(w, After(w, c), key);
    }
  }

  lemma CoveredMeansNoDrop(w: World, c: Call)
    requires CoveredThroughout(w, c) && !EndsTask(c)
    ensures !Drops(w, c)
  {
    hide Authorized, Load;
  }

  lemma SameRawSameTask(w: World, w': World, key: string)
    requires Raw(w, key) == Raw(w', key)
    ensures TaskAt(w, key) == TaskAt(w', key)
  {
  }

  // ---------- What is ever stored ----------

  /** Every stored payload was printed from a consistent record. */
  ghost predicate StoreOk(w: World) {
    forall key :: key in w.entries ==> IsConsistent(w.entries[key])
  }

  ghost predicate IsConsistent(j: Json) {
    exists r :: RecordOk(r) && j == Save(r)
  }

  lemma RecordOfIsOk(w: World, env: Env)
    ensures RecordOk(RecordOf(w, env))
  {
    if Covered(w, env) {
      LoadedIsSound(Raw(w, env.sessionKey), w.projects);
    }
  }

  lemma SavedIsConsistent(w: World, key: string, r: SessionRecord)
    requires StoreOk(w) && RecordOk(r)
    ensures StoreOk(Saved(w, key, r))
  {
    assert IsConsistent(Save(r));
  }

  lemma BeginKeepsStoreOk(w: World, env: Env, begun: Option<NewWorktree>)
    requires StoreOk(w)
    ensures StoreOk(AfterBegin(w, env, begun))
  {
    hide Load, Save, Authorized, RecordOf, StoreOk;
    var w' := AfterBegin(w, env, begun);
    var r := RecordOf(w, env);
    if w' != w {
      var b := begun.value;
      var active := ActiveWorktree(w.projects[r.projectId.value], b.taskId, b.path, b.branchName, b.baseBranch,
          b.baseCommit);
      SavedIsConsistent(w, env.sessionKey, SessionRecord(env.identity, r.projectId, Some(active), None));
    }
  }

  lemma CodexKeepsStoreOk(w: World, env: Env, r: SessionRecord, codex: CodexAnswer)
    requires StoreOk(w) && RecordOk(r) && r.active.Some?
    ensures StoreOk(AfterCodex(w, env, r, codex))
  {
    hide Load, Save, StoreOk;
    if !codex.CodexRaised? {
      var r1 := SessionRecord(env.identity, r.projectId, r.active, Some(codex.threadId));
      SavedIsConsistent(w, env.sessionKey, r1);
      SavedIsConsistent(Saved(w, env.sessionKey, r1), env.sessionKey, Cleared(env, r));
    }
  }

  lemma ChangeKeepsStoreOk(w: World, env: Env, again: Scan, begun: Option<NewWorktree>, codex: CodexAnswer)
    requires StoreOk(w)
    ensures StoreOk(AfterChange(w, env, again, begun, codex))
  {
    hide Load, Save, Authorized, RecordOf;
    RecordOfIsOk(w, env);
    var r := RecordOf(w, env);
    if r.active.Some? {
      CodexKeepsStoreOk(w, env, r, codex);
    } else if again.Scanned? {
      var w1 := AfterBegin(w.(projects := again.found), env, begun);
      BeginKeepsStoreOk(w.(projects := again.found), env, begun);
      RecordOfIsOk(w1, env);
      if RecordOf(w1, env).active.Some? {
        CodexKeepsStoreOk(w1, env, RecordOf(w1, env), codex);
      }
    }
  }

  lemma SelectKeepsStoreOk(w: World, env: Env, choice: Option<string>)
    requires StoreOk(w)
    ensures StoreOk(AfterSelect(w, env, choice))
  {
    hide Save, StoreOk;
    var prior := Load(Raw(w, env.sessionKey), w.projects);
    if prior.Some? && (prior.value.active.None? || prior.value.projectId == choice) {
      LoadedIsSound(Raw(w, env.sessionKey), w.projects);
      SavedIsConsistent(w, env.sessionKey,
          SessionRecord(env.identity, choice, prior.value.active, prior.value.threadId));
    }
  }

  lemma CallKeepsStoreOk(w: World, c: Call)
    requires StoreOk(w)
    ensures StoreOk(After(w, c))
  {
    hide Load, Save, Authorized, Admitted, RecordOf, AfterSelect, AfterBegin, AfterChange;
    var env := c.env;
    match c
    case PreLlm(_, rescan) =>
      var w1 := if rescan.Some? && rescan.value.Scanned? then w.(projects := rescan.value.found) else w;
      RecordOfIsOk(w1, env);
      SavedIsConsistent(w1, env.sessionKey, RecordOf(w1, env));
    case SelectTool(_, scan, choice) =>
      SavedIsConsistent(w, env.sessionKey, Blank(env.identity));
      var w1 := if Load(Raw(w, env.sessionKey), w.projects).None? then Saved(w, env.sessionKey, Blank(env.identity))
          else w;
      if scan.Scanned? {
        SelectKeepsStoreOk(w1.(projects := scan.found), env, choice);
      }
    case SelectCard(_, scan, choice) =>
      if scan.Scanned? {
        SelectKeepsStoreOk(w.(projects := scan.found), env, choice);
      }
    case BeginTask(_, scan, begun) =>
      if scan.Scanned? {
        BeginKeepsStoreOk(w.(projects := scan.found), env, begun);
      }
    case CompleteTask(_, _) =>
      SavedIsConsistent(w, env.sessionKey, Cleared(env, RecordOf(w, env)));
    case CodexChange(_, scan, again, begun, codex) =>
      if scan.Scanned? {
        ChangeKeepsStoreOk(w.(projects := scan.found), env, again, begun, codex);
      }
    case UseProject(_, _) =>
  }

  /** From an empty store on, every payload that any run stores comes from a consistent record, and it is
      read back as that record exactly when the record is filled and its project is in the catalogue. */
  lemma {:induction false} EveryStoredRecordRoundTrips(w: World, cs: seq<Call>, key: string)
    requires StoreOk(w) && key in AfterAll(w, cs).entries
    ensures var w' := AfterAll(w, cs);
            exists r :: RecordOk(r) && Raw(w', key) == Some(Save(r))
                        && (Load(Raw(w', key), w'.projects) == Some(r) <==> Filled(r) && Known(r, w'.projects))
    decreases |cs|
  {
    if cs == [] {
      assert IsConsistent(w.entries[key]);
      var r :| RecordOk(r) && w.entries[key] == Save(r);
      LoadOfSave(r, w.projects);
    } else {
      CallKeepsStoreOk(w, cs[0]);
      EveryStoredRecordRoundTrips(After(w, cs[0]), cs[1..], key);
    }
  }

  // ---------- Resuming ----------

  /** When Codex asks back, or the completion is refused or raises, the record keeps the worktree and the
      new thread, so the next `codex_change` of any usable member resumes both. */
  lemma UnfinishedTaskResumes(w: World, env: Env, codex: CodexAnswer)
    requires RecordOf(w, env).active.Some? && !codex.CodexRaised?
    requires codex.Completed? ==> !Clears(codex.ending)
    requires env.identity.userId != [] && codex.threadId != []
    ensures var r := RecordOf(w, env);
            var w' := AfterCodex(w, env, r, codex);
            && Load(Raw(w', env.sessionKey), w'.projects) ==
                 Some(SessionRecord(env.identity, r.projectId, r.active, Some(codex.threadId)))
            && Covered(w', env) && RecordOf(w', env).active == r.active
                && RecordOf(w', env).threadId == Some(codex.threadId)
  {
    var r := RecordOf(w, env);
    LoadedIsSound(Raw(w, env.sessionKey), w.projects);
    LoadOfSave(SessionRecord(env.identity, r.projectId, r.active, Some(codex.threadId)), w.projects);
  }

  /** A selection never switches the project under an active task. */
  lemma SelectionKeepsProjectOfTask(w: World, env: Env, choice: Option<string>)
    ensures var before := Load(Raw(w, env.sessionKey), w.projects);
            var after := Load(Raw(AfterSelect(w, env, choice), env.sessionKey), w.projects);
            before.Some? && before.value.active.Some? && after.Some? ==>
              after.value.projectId == before.value.projectId && after.value.active == before.value.active
              && after.value.threadId == before.value.threadId
  {
    var prior := Load(Raw(w, env.sessionKey), w.projects);
    if prior.Some? && prior.value.active.Some? && AfterSelect(w, env, choice) != w {
      LoadedIsSound(Raw(w, env.sessionKey), w.projects);
      LoadOfSave(SessionRecord(env.identity, choice, prior.value.active, prior.value.threadId), w.projects);
      assert Raw(AfterSelect(w, env, choice), env.sessionKey) ==
             Some(Save(SessionRecord(env.identity, choice, prior.value.active, prior.value.threadId)));
    }
  }

  // ---------- A member without access to the project ----------

  const DEMO := Project("demo", "Demo", ["src", "demo"], false, false)
  const OWNER := Identity("ann", "room", "group")
  const GUEST := Identity("bob", "room", "group")
  const GROUPS: seq<Group> := [Group({"ann"}, {"room"}, {"demo"}, {}), Group({"bob"}, {"room"}, {"other"}, {})]
  const TASK_RECORD := SessionRecord(
    OWNER, Some("demo"), Some(ActiveWorktree(DEMO, "0817-fix", "/wt/0817-fix", "bot/0817-fix", "dev", "c0")), None)
  const WITH_TASK := World(map["s" := Save(TASK_RECORD)], map["demo" := DEMO], GROUPS)

  /** A group-chat member who may use the bot, but not this project, drops the stored worktree by merely
      starting a turn; after that the session has neither project nor task. */
  lemma GuestDropsTheTask()
    ensures Admitted(GROUPS, GUEST) && SharesScope(OWNER, GUEST)
    ensures TaskAt(WITH_TASK, "s").Some?
    ensures TaskAt(After(WITH_TASK, PreLlm(Env("s", GUEST), None)), "s") == None
  {
    hide Authorized, Admitted, LoadPin, Save;
    GuestMayNotUseDemo();
    RawTaskOfSaved(TASK_RECORD);
    LoadPinOfSave(TASK_RECORD.active.value);
    LoadOfSave(TASK_RECORD, WITH_TASK.projects);
    StoredTaskSurvivesIff(WITH_TASK, PreLlm(Env("s", GUEST), None));
  }

  lemma GuestMayNotUseDemo()
    ensures Admitted(GROUPS, GUEST) && !Authorized(GROUPS, WITH_TASK.projects, GUEST, "demo")
  {
    assert Matches(GROUPS[1], GUEST);
    assert "bob"[0] != "ann"[0];
    assert !Matches(GROUPS[0], GUEST);
    assert |"demo"| == 4 && |"other"| == 5 && |"*"| == 1;
    assert !Grants(GROUPS[1], DEMO);
  }
}
