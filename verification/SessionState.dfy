/** Session records, the payload they are stored as, and the parser that rejects every other payload. */
module SessionState {
  import opened Options
  import opened Policy

  /** A stored value; `Other` is anything that is neither a string nor an object nor null. */
  datatype Json = Null | Str(text: string) | Obj(fields: map<string, Json>) | Other

  datatype ActiveWorktree = ActiveWorktree(
    project: Project, taskId: string, path: string, branchName: string, baseBranch: string, baseCommit: string)

  datatype SessionRecord = SessionRecord(
    identity: Identity,
    projectId: Option<string>,
    active: Option<ActiveWorktree>,
    threadId: Option<string>)

  // ---------- The parser ----------

  /** `_nonempty` of a key that must be present. */
  function NonEmpty(fields: map<string, Json>, key: string): Option<string> {
    if key in fields && fields[key].Str? && fields[key].text != [] then Some(fields[key].text) else None
  }

  /** `get`: a missing key reads as null. */
  function Get(fields: map<string, Json>, key: string): Json {
    if key in fields then fields[key] else Null
  }

  function LoadIdentity(j: Json): Option<Identity> {
    if !j.Obj? then None
    else
      var u, c, t := NonEmpty(j.fields, "user_id"), NonEmpty(j.fields, "chat_id"), NonEmpty(j.fields, "chat_type");
      if u.None? || c.None? || t.None? then None else Some(Identity(u.value, c.value, t.value))
  }

  /** The fields of a stored worktree, before its project is looked up. */
  datatype Pin = Pin(projectId: string, taskId: string, path: string, branchName: string, baseBranch: string,
      baseCommit: string)

  function LoadPin(j: Json): Option<Pin> {
    if !j.Obj? then None
    else
      var p, t, w := NonEmpty(j.fields, "project_id"), NonEmpty(j.fields, "task_id"), NonEmpty(j.fields, "path");
      var n, b, c := NonEmpty(j.fields, "branch_name"), NonEmpty(j.fields, "base_branch"),
          NonEmpty(j.fields, "base_commit");
      if p.None? || t.None? || w.None? || n.None? || b.None? || c.None? then None
      else Some(Pin(p.value, t.value, w.value, n.value, b.value, c.value))
  }

  function LoadActive(j: Json, projectId: Option<string>, projects: Catalogue): Option<ActiveWorktree> {
    var pin := LoadPin(j);
    if pin.None? || projectId != Some(pin.value.projectId) || pin.value.projectId !in projects then None
    else Some(ActiveWorktree(projects[pin.value.projectId], pin.value.taskId, pin.value.path, pin.value.branchName,
                             pin.value.baseBranch, pin.value.baseCommit))
  }

  /** The record behind a payload, or nothing when any part of it is not as `Save` writes it. */
  function Load(raw: Option<Json>, projects: Catalogue): Option<SessionRecord> {
    if raw.None? || !raw.value.Obj? then None
    else
      var f := raw.value.fields;
      var identity := LoadIdentity(Get(f, "identity"));
      var project := Get(f, "project_id");
      var projectId := NonEmpty(f, "project_id");
      var worktree := Get(f, "active_worktree");
      var active := LoadActive(worktree, projectId, projects);
      var thread := Get(f, "active_task_thread_id");
      var threadId := NonEmpty(f, "active_task_thread_id");
      if identity.None? then None
      else if project != Null && (projectId.None? || projectId.value !in projects) then None
      else if worktree != Null && active.None? then None
      else if thread != Null && (threadId.None? || active.None?) then None
      else Some(SessionRecord(identity.value, projectId, active, threadId))
  }

  // ---------- The printer ----------

  function OrNull(s: Option<string>): Json {
    match s
    case None => Null
    case Some(text) => Str(text)
  }

  function SaveActive(a: ActiveWorktree): Json {
    Obj(map[
      "project_id" := Str(a.project.projectId), "task_id" := Str(a.taskId), "path" := Str(a.path),
      "branch_name" := Str(a.branchName), "base_branch" := Str(a.baseBranch), "base_commit" := Str(a.baseCommit)])
  }

  function Save(r: SessionRecord): Json {
    Obj(map[
      "identity" := Obj(map[
        "user_id" := Str(r.identity.userId), "chat_id" := Str(r.identity.chatId),
        "chat_type" := Str(r.identity.chatType)]),
      "project_id" := OrNull(r.projectId),
      "active_worktree" := if r.active.None? then Null else SaveActive(r.active.value),
      "active_task_thread_id" := OrNull(r.threadId)])
  }

  // ---------- Round trips ----------

  /** A thread belongs to a worktree, and the worktree to the selected project. */
  predicate RecordOk(r: SessionRecord) {
    && (r.threadId.Some? ==> r.active.Some?)
    && (r.active.Some? ==> r.projectId == Some(r.active.value.project.projectId))
  }

  predicate Filled(r: SessionRecord) {
    && r.identity.userId != [] && r.identity.chatId != [] && r.identity.chatType != []
    && r.projectId != Some([]) && r.threadId != Some([])
    && (r.active.Some? ==>
          var a := r.active.value;
          a.taskId != [] && a.path != [] && a.branchName != [] && a.baseBranch != [] && a.baseCommit != [])
  }

  predicate Known(r: SessionRecord, projects: Catalogue) {
    && (r.projectId.Some? ==> r.projectId.value in projects)
    && (r.active.Some? ==> var p := r.active.value.project; p.projectId in projects && projects[p.projectId] == p)
  }

  lemma LoadPinOfSave(a: ActiveWorktree)
    ensures LoadPin(SaveActive(a)) ==
            if a.project.projectId == [] || a.taskId == [] || a.path == [] || a.branchName == [] || a.baseBranch == []
                || a.baseCommit == []
            then None
            else Some(Pin(a.project.projectId, a.taskId, a.path, a.branchName, a.baseBranch, a.baseCommit))
  {
  }

  /** What is saved is read back exactly when the record is consistent, has no empty field, and its
      project is the one in the catalogue. */
  lemma LoadOfSave(r: SessionRecord, projects: Catalogue)
    ensures Load(Some(Save(r)), projects) == Some(r) <==> RecordOk(r) && Filled(r) && Known(r, projects)
  {
    if r.active.Some? {
      LoadPinOfSave(r.active.value);
    }
  }

  /** Whatever payload is accepted, the record is consistent, filled and known; so loading, saving and
      loading again is loading, and a foreign payload can only be rejected or understood. */
  lemma LoadedIsSound(raw: Option<Json>, projects: Catalogue)
    requires Load(raw, projects).Some?
    ensures var r := Load(raw, projects).value;
            RecordOk(r) && Filled(r) && Known(r, projects) && Load(Some(Save(r)), projects) == Some(r)
  {
    LoadOfSave(Load(raw, projects).value, projects);
  }

  predicate HasText(fields: map<string, Json>, key: string, text: string) {
    key in fields && fields[key] == Str(text)
  }

  /** The payload has the record's fields; what else it has does not matter. */
  predicate Holds(j: Json, r: SessionRecord) {
    && j.Obj?
    && HoldsIdentity(Get(j.fields, "identity"), r.identity)
    && Get(j.fields, "project_id") == OrNull(r.projectId)
    && Get(j.fields, "active_task_thread_id") == OrNull(r.threadId)
    && (if r.active.None? then Get(j.fields, "active_worktree") == Null
        else HoldsWorktree(Get(j.fields, "active_worktree"), r.active.value))
  }

  predicate HoldsIdentity(j: Json, who: Identity) {
    && j.Obj?
    && HasText(j.fields, "user_id", who.userId) && HasText(j.fields, "chat_id", who.chatId)
    && HasText(j.fields, "chat_type", who.chatType)
  }

  predicate HoldsWorktree(j: Json, a: ActiveWorktree) {
    && j.Obj?
    && HasText(j.fields, "project_id", a.project.projectId) && HasText(j.fields, "task_id", a.taskId)
    && HasText(j.fields, "path", a.path) && HasText(j.fields, "branch_name", a.branchName)
    && HasText(j.fields, "base_branch", a.baseBranch) && HasText(j.fields, "base_commit", a.baseCommit)
  }

  lemma IdentityIff(j: Json, who: Identity)
    ensures LoadIdentity(j) == Some(who) <==>
              HoldsIdentity(j, who) && who.userId != [] && who.chatId != [] && who.chatType != []
  {
  }

  lemma WorktreeIff(j: Json, a: ActiveWorktree)
    ensures LoadPin(j) == Some(PinOf(a)) <==>
              && HoldsWorktree(j, a)
              && a.project.projectId != [] && a.taskId != [] && a.path != [] && a.branchName != []
              && a.baseBranch != [] && a.baseCommit != []
  {
  }

  lemma OptionalTextIff(fields: map<string, Json>, key: string, text: Option<string>)
    ensures (Get(fields, key) == Null || NonEmpty(fields, key).Some?) && NonEmpty(fields, key) == text <==>
              Get(fields, key) == OrNull(text) && text != Some([])
  {
  }

  /** A payload is read as a record exactly when it has the record's fields and the record is consistent,
      filled and known. Every other payload is rejected. */
  lemma LoadIff(raw: Option<Json>, projects: Catalogue, r: SessionRecord)
    ensures Load(raw, projects) == Some(r) <==>
              raw.Some? && Holds(raw.value, r) && RecordOk(r) && Filled(r) && Known(r, projects)
  {
    if raw.Some? && raw.value.Obj? {
      hide LoadIdentity, LoadPin, HoldsIdentity, HoldsWorktree, NonEmpty, Get;
      var f := raw.value.fields;
      IdentityIff(Get(f, "identity"), r.identity);
      OptionalTextIff(f, "project_id", r.projectId);
      OptionalTextIff(f, "active_task_thread_id", r.threadId);
      if r.active.Some? {
        WorktreeIff(Get(f, "active_worktree"), r.active.value);
      }
    }
  }

  // ---------- The task in a payload, whatever the catalogue says ----------

  function RawTask(raw: Option<Json>): Option<Pin> {
    if raw.None? || !raw.value.Obj? then None else LoadPin(Get(raw.value.fields, "active_worktree"))
  }

  function PinOf(a: ActiveWorktree): Pin {
    Pin(a.project.projectId, a.taskId, a.path, a.branchName, a.baseBranch, a.baseCommit)
  }

  lemma RawTaskOfLoaded(raw: Option<Json>, projects: Catalogue)
    requires Load(raw, projects).Some?
    ensures RawTask(raw) == if Load(raw, projects).value.active.None? then None
        else Some(PinOf(Load(raw, projects).value.active.value))
  {
  }

  lemma RawTaskOfSaved(r: SessionRecord)
    ensures r.active.None? ==> RawTask(Some(Save(r))) == None
    ensures r.active.Some? && LoadPin(SaveActive(r.active.value)).Some? ==>
        RawTask(Some(Save(r))) == Some(PinOf(r.active.value))
  {
    if r.active.Some? {
      LoadPinOfSave(r.active.value);
    }
  }

  // ---------- The durable store ----------

  class SessionStateRepository {
    var entries: map<string, Json>
    var projects: Catalogue

    constructor (entries: map<string, Json>, projects: Catalogue)
      ensures this.entries == entries && this.projects == projects
    {
      this.entries, this.projects := entries, projects;
    }

    function Raw(sessionKey: string): Option<Json>
      reads this
    {
      if sessionKey in entries then Some(entries[sessionKey]) else None
    }

    /** Gives back what was saved, and otherwise only records that are consistent, filled and known, with
        the worktree that the payload holds. */
    method LoadRecord(sessionKey: string) returns (r: Option<SessionRecord>)
      ensures r == Load(Raw(sessionKey), projects)
      ensures forall saved :: Raw(sessionKey) == Some(Save(saved)) ==>
                (r == Some(saved) <==> RecordOk(saved) && Filled(saved) && Known(saved, projects))
      ensures r.Some? ==> RecordOk(r.value) && Filled(r.value) && Known(r.value, projects)
      ensures r.Some? ==> RawTask(Raw(sessionKey)) == if r.value.active.None? then None
          else Some(PinOf(r.value.active.value))
      ensures r.Some? ==> Load(Some(Save(r.value)), projects) == r
    {
      hide Load, Save, RawTask, RecordOk, Filled, Known;
      r := Load(Raw(sessionKey), projects);
      forall saved | Raw(sessionKey) == Some(Save(saved))
        ensures r == Some(saved) <==> RecordOk(saved) && Filled(saved) && Known(saved, projects)
      {
        LoadOfSave(saved, projects);
      }
      if r.Some? {
        LoadedIsSound(Raw(sessionKey), projects);
        RawTaskOfLoaded(Raw(sessionKey), projects);
      }
    }

    /** The next load of this session gives the record back if it is storable at all, and every other
        session is left alone. */
    method SaveRecord(sessionKey: string, r: SessionRecord)
      modifies this`entries
      ensures entries == old(entries)[sessionKey := Save(r)]
      ensures RecordOk(r) && Filled(r) && Known(r, projects) ==> Load(Raw(sessionKey), projects) == Some(r)
    {
      LoadOfSave(r, projects);
      entries := entries[sessionKey := Save(r)];
    }
  }
}
