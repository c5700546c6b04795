/** What a session's record holds, told as a ledger: project selections, begun tasks, answers of Codex and ended
    tasks. However the tool calls put a record together, over every run the payload is what the ledger says. */
module Ledger {
  import opened Options
  import opened Policy
  import opened SessionState
  import opened Runtime

  datatype Entry =
    | Selected(projectId: string)
    | Began(task: Pin)
    | Answered(threadId: string)
    | Ended

  datatype Sheet = Sheet(projectId: Option<string>, task: Option<Pin>, threadId: Option<string>)

  /** A selection says nothing about the task, a begun task has no thread yet, and the project of an ended
      task stays selected. */
  function Enter(s: Sheet, e: Entry): Sheet {
    match e
    case Selected(p) => s.(projectId := Some(p))
    case Began(task) => s.(task := Some(task), threadId := None)
    case Answered(t) => s.(threadId := Some(t))
    case Ended => s.(task := None, threadId := None)
  }

  function EnterAll(s: Sheet, es: seq<Entry>): Sheet
    decreases |es|
  {
    if es == [] then s else EnterAll(Enter(s, es[0]), es[1..])
  }

  lemma {:induction false} EnterConcat(s: Sheet, a: seq<Entry>, b: seq<Entry>)
    ensures EnterAll(s, a + b) == EnterAll(EnterAll(s, a), b)
    decreases |a|
  {
    if a == [] {
      assert a + b == b;
    } else {
      EnterConcat(Enter(s, a[0]), a[1..], b);
      assert (a + b)[0] == a[0] && (a + b)[1..] == a[1..] + b;
    }
  }

  lemma EnterFew(s: Sheet, e: Entry, f: Entry)
    ensures EnterAll(s, []) == s && EnterAll(s, [e]) == Enter(s, e) && EnterAll(s, [e, f]) == Enter(Enter(s, e), f)
  {
    assert [e][1..] == [] && [f][1..] == [] && [e, f][1..] == [f];
    assert EnterAll(Enter(s, e), [f]) == Enter(Enter(s, e), f);
  }

  // ---------- Payloads ----------

  function PinIn(active: Option<ActiveWorktree>): Option<Pin> {
    if active.None? then None else Some(PinOf(active.value))
  }

  /** The sheet in a payload, whatever the catalogue says. */
  function SheetOf(raw: Option<Json>): Sheet {
    if raw.None? || !raw.value.Obj? then Sheet(None, None, None)
    else Sheet(NonEmpty(raw.value.fields, "project_id"), RawTask(raw),
               NonEmpty(raw.value.fields, "active_task_thread_id"))
  }

  function WhoIn(raw: Option<Json>): Option<Identity> {
    if raw.None? || !raw.value.Obj? then None else LoadIdentity(Get(raw.value.fields, "identity"))
  }

  lemma SheetOfLoaded(raw: Option<Json>, projects: Catalogue)
    requires Load(raw, projects).Some?
    ensures var r := Load(raw, projects).value;
            SheetOf(raw) == Sheet(r.projectId, PinIn(r.active), r.threadId) && WhoIn(raw) == Some(r.identity)
  {
    hide LoadPin, LoadIdentity;
    RawTaskOfLoaded(raw, projects);
  }

  lemma SheetOfSaved(r: SessionRecord)
    requires RecordOk(r) && Filled(r)
    ensures SheetOf(Some(Save(r))) == Sheet(r.projectId, PinIn(r.active), r.threadId)
    ensures WhoIn(Some(Save(r))) == Some(r.identity)
  {
    hide LoadPin;
    RawTaskOfSaved(r);
    if r.active.Some? {
      LoadPinOfSave(r.active.value);
    }
  }

  function SheetAt(w: World, key: string): Sheet {
    SheetOf(Raw(w, key))
  }

  // ---------- Calls ----------

  predicate NamedFully(who: Identity) {
    who.userId != [] && who.chatId != [] && who.chatType != []
  }

  /** Nothing is stored for the session yet, or what is stored loads, is of this chat, and its project, if
      there is one, may be used by the member. */
  predicate Usable(w: World, env: Env) {
    var r := Load(Raw(w, env.sessionKey), w.projects);
    || env.sessionKey !in w.entries
    || (&& r.Some?
        && r.value.identity.chatId == env.identity.chatId && r.value.identity.chatType == env.identity.chatType
        && (r.value.projectId.Some? ==> Authorized(w.groups, w.projects, env.identity, r.value.projectId.value)))
  }

  function AgainOf(c: Call): Option<Catalogue> {
    if c.CodexChange? && c.again.Scanned? then Some(c.again.found) else None
  }

  predicate FilledBegin(begun: Option<NewWorktree>) {
    begun.Some? ==>
      var b := begun.value;
      b.taskId != [] && b.path != [] && b.branchName != [] && b.baseBranch != [] && b.baseCommit != []
  }

  /** Nothing that the call is to store is empty. */
  predicate FilledCall(c: Call) {
    && NamedFully(c.env.identity)
    && (c.SelectTool? || c.SelectCard? ==> c.choice != Some([]))
    && (c.BeginTask? || c.CodexChange? ==> FilledBegin(c.begun))
    && (c.CodexChange? && !c.codex.CodexRaised? ==> c.codex.threadId != [])
  }

  /** The member may use the record, with every catalogue that the call works with. */
  predicate UsableThroughout(w: World, c: Call) {
    && Admitted(w.groups, c.env.identity) && Usable(w, c.env)
    && (ScanOf(c).Some? ==> Usable(w.(projects := ScanOf(c).value), c.env))
    && (AgainOf(c).Some? ==> Usable(w.(projects := AgainOf(c).value), c.env))
  }

  function CodexEntries(codex: CodexAnswer): seq<Entry> {
    match codex
    case CodexRaised => []
    case NeedsInput(t) => [Answered(t)]
    case Completed(t, ending) =>
      [Answered(t)] + (if ending == EndedMerged || ending == EndedNoChanges then [Ended] else [])
  }

  function BeginEntries(before: Sheet, begun: Option<NewWorktree>): seq<Entry> {
    if before.projectId.None? || before.task.Some? || begun.None? then []
    else
      var b := begun.value;
      [Began(Pin(before.projectId.value, b.taskId, b.path, b.branchName, b.baseBranch, b.baseCommit))]
  }

  /** A project is selected when the member may use it and no task for another one is under way. */
  function SelectEntries(w: World, who: Identity, before: Sheet, scan: Scan, choice: Option<string>): seq<Entry> {
    if scan.ScanFailed? || choice.None? || !Authorized(w.groups, scan.found, who, choice.value) then []
    else if before.task.Some? && before.projectId != choice then []
    else [Selected(choice.value)]
  }

  /** What a call adds to the ledger. A card can only be pressed in a session with a record. */
  function EntriesOf(w: World, c: Call): seq<Entry> {
    var before := SheetAt(w, c.env.sessionKey);
    match c
    case PreLlm(_, _) => []
    case SelectTool(env, scan, choice) => SelectEntries(w, env.identity, before, scan, choice)
    case SelectCard(env, scan, choice) =>
      if env.sessionKey !in w.entries then [] else SelectEntries(w, env.identity, before, scan, choice)
    case BeginTask(_, scan, begun) => if scan.ScanFailed? then [] else BeginEntries(before, begun)
    case CompleteTask(_, ending) =>
      if before.task.Some? && (ending == EndedMerged || ending == EndedNoChanges) then [Ended] else []
    case CodexChange(_, scan, again, begun, codex) =>
      if scan.ScanFailed? then []
      else if before.task.Some? then CodexEntries(codex)
      else if again.ScanFailed? || BeginEntries(before, begun) == [] then []
      else BeginEntries(before, begun) + CodexEntries(codex)
    case UseProject(_, _) => []
  }

  /** The record that a call works with holds what the payload holds. */
  lemma UsableRecord(w: World, env: Env)
    requires Usable(w, env) && NamedFully(env.identity)
    ensures var r := RecordOf(w, env);
            && RecordOk(r) && Filled(r) && Known(r, w.projects) && SharesScope(r.identity, env.identity)
            && SheetAt(w, env.sessionKey) == Sheet(r.projectId, PinIn(r.active), r.threadId)
            && (r.projectId.Some? ==> r.projectId.value in w.projects)
  {
    hide Load;
    NothingLoads(w.projects);
    if env.sessionKey in w.entries {
      LoadedIsSound(Raw(w, env.sessionKey), w.projects);
      SheetOfLoaded(Raw(w, env.sessionKey), w.projects);
    }
  }

  /** A saved record is usable for the member who saved it. */
  lemma SavedIsUsable(w: World, env: Env, r: SessionRecord)
    requires RecordOk(r) && Filled(r) && Known(r, w.projects) && SharesScope(r.identity, env.identity)
    requires r.projectId.Some? ==> Authorized(w.groups, w.projects, env.identity, r.projectId.value)
    ensures var w' := Saved(w, env.sessionKey, r);
            && Usable(w', env)
            && SheetAt(w', env.sessionKey) == Sheet(r.projectId, PinIn(r.active), r.threadId)
            && WhoIn(Raw(w', env.sessionKey)) == Some(r.identity)
            && (r.projectId.Some? ==> RecordOf(w', env) == r)
  {
    hide Load, Save;
    LoadOfSave(r, w.projects);
    SheetOfSaved(r);
  }

  lemma SelectIsEntered(w: World, env: Env, choice: Option<string>)
    requires Usable(w, env) && Admitted(w.groups, env.identity) && NamedFully(env.identity) && choice != Some([])
    requires env.sessionKey in w.entries
    ensures var before, w' := SheetAt(w, env.sessionKey), AfterSelect(w, env, choice);
            var es := SelectEntries(w, env.identity, before, Scanned(w.projects), choice);
            && SheetAt(w', env.sessionKey) == EnterAll(before, es)
            && (if es == [] then w' == w else WhoIn(Raw(w', env.sessionKey)) == Some(env.identity))
  {
    hide Load, Save, Authorized;
    var raw := Raw(w, env.sessionKey);
    var prior := Load(raw, w.projects).value;
    LoadedIsSound(raw, w.projects);
    SheetOfLoaded(raw, w.projects);
    var es := SelectEntries(w, env.identity, SheetAt(w, env.sessionKey), Scanned(w.projects), choice);
    if es != [] {
      EnterFew(SheetAt(w, env.sessionKey), es[0], es[0]);
      SheetOfSaved(SessionRecord(env.identity, choice, prior.active, prior.threadId));
    }
  }

  lemma BeginIsEntered(w: World, env: Env, begun: Option<NewWorktree>)
    requires Usable(w, env) && NamedFully(env.identity) && FilledBegin(begun)
    ensures var before, w' := SheetAt(w, env.sessionKey), AfterBegin(w, env, begun);
            var es := BeginEntries(before, begun);
            && SheetAt(w', env.sessionKey) == EnterAll(before, es)
            && (if es == [] then w' == w
                else
                  && WhoIn(Raw(w', env.sessionKey)) == Some(env.identity)
                  && Usable(w', env) && w'.projects == w.projects && w'.groups == w.groups)
  {
    hide Load, Save, RecordOf, Authorized, Usable;
    var before, r := SheetAt(w, env.sessionKey), RecordOf(w, env);
    UsableRecord(w, env);
    if r.projectId.Some? && r.active.None? && begun.Some? {
      var b := begun.value;
      var p := w.projects[r.projectId.value];
      var active := ActiveWorktree(p, b.taskId, b.path, b.branchName, b.baseBranch, b.baseCommit);
      EnterFew(before, BeginEntries(before, begun)[0], Ended);
      ProjectIsCovered(w, env);
      SavedIsUsable(w, env, SessionRecord(env.identity, r.projectId, Some(active), None));
    }
  }

  lemma ProjectIsCovered(w: World, env: Env)
    requires RecordOf(w, env).projectId.Some?
    ensures Authorized(w.groups, w.projects, env.identity, RecordOf(w, env).projectId.value)
  {
  }

  lemma CodexIsEntered(w: World, env: Env, codex: CodexAnswer)
    requires Usable(w, env) && NamedFully(env.identity) && (!codex.CodexRaised? ==> codex.threadId != [])
    requires SheetAt(w, env.sessionKey).task.Some?
    ensures var before, w' := SheetAt(w, env.sessionKey), AfterCodex(w, env, RecordOf(w, env), codex);
            && SheetAt(w', env.sessionKey) == EnterAll(before, CodexEntries(codex))
            && (if CodexEntries(codex) == [] then w' == w else WhoIn(Raw(w', env.sessionKey)) == Some(env.identity))
  {
    hide Load, Save, RecordOf, Usable;
    var before, r := SheetAt(w, env.sessionKey), RecordOf(w, env);
    UsableRecord(w, env);
    if !codex.CodexRaised? {
      EnterFew(before, Answered(codex.threadId), Ended);
      SheetOfSaved(SessionRecord(env.identity, r.projectId, r.active, Some(codex.threadId)));
      SheetOfSaved(SessionRecord(env.identity, r.projectId, None, None));
    }
  }

  /** What a call that may use the record stores is what it adds to the ledger. */
  lemma CallIsEntered(w: World, c: Call)
    requires UsableThroughout(w, c) && FilledCall(c)
    ensures var key := c.env.sessionKey;
            && SheetAt(After(w, c), key) == EnterAll(SheetAt(w, key), EntriesOf(w, c))
            && (EntriesOf(w, c) != [] ==> WhoIn(Raw(After(w, c), key)) == Some(c.env.identity))
  {
    hide Load, Save, Authorized, Admitted, Usable, RecordOf, AfterSelect, AfterBegin, AfterCodex;
    hide SelectEntries, BeginEntries, CodexEntries;
    var env, before := c.env, SheetAt(w, c.env.sessionKey);
    EnterFew(before, Ended, Ended);
    match c
    case PreLlm(_, rescan) =>
      var w1 := if rescan.Some? && rescan.value.Scanned? then w.(projects := rescan.value.found) else w;
      UsableRecord(w1, env);
      SheetOfSaved(RecordOf(w1, env));
    case SelectTool(_, _, _) => SelectToolIsEntered(w, c);
    case SelectCard(_, scan, choice) => SelectCardIsEntered(w, c);
    case BeginTask(_, scan, begun) =>
      if scan.Scanned? {
        BeginIsEntered(w.(projects := scan.found), env, begun);
      }
    case CompleteTask(_, ending) =>
      UsableRecord(w, env);
      SheetOfSaved(SessionRecord(env.identity, RecordOf(w, env).projectId, None, None));
    case CodexChange(_, _, _, _, _) => ChangeIsEntered(w, c);
    case UseProject(_, _) =>
  }

  lemma SelectToolIsEntered(w: World, c: Call)
    requires UsableThroughout(w, c) && FilledCall(c) && c.SelectTool?
    ensures var key := c.env.sessionKey;
            && SheetAt(After(w, c), key) == EnterAll(SheetAt(w, key), EntriesOf(w, c))
            && (EntriesOf(w, c) != [] ==> WhoIn(Raw(After(w, c), key)) == Some(c.env.identity))
  {
    hide Load, Save, Authorized, Admitted, AfterSelect;
    var env, before := c.env, SheetAt(w, c.env.sessionKey);
    EnterFew(before, Ended, Ended);
    var blank := Blank(env.identity);
    var w1 := if env.sessionKey !in w.entries then Saved(w, env.sessionKey, blank) else w;
    assert Load(None, w.projects).None? by { NothingLoads(w.projects); }
    SheetOfSaved(blank);
    if c.scan.Scanned? {
      var w2 := w1.(projects := c.scan.found);
      SavedIsUsable(w.(projects := c.scan.found), env, blank);
      assert Saved(w.(projects := c.scan.found), env.sessionKey, blank).entries ==
             Saved(w, env.sessionKey, blank).entries;
      SelectIsEntered(w2, env, c.choice);
    }
  }

  lemma NothingLoads(projects: Catalogue)
    ensures Load(None, projects).None?
  {
  }

  lemma SelectCardIsEntered(w: World, c: Call)
    requires UsableThroughout(w, c) && FilledCall(c) && c.SelectCard?
    ensures var key := c.env.sessionKey;
            && SheetAt(After(w, c), key) == EnterAll(SheetAt(w, key), EntriesOf(w, c))
            && (EntriesOf(w, c) != [] ==> WhoIn(Raw(After(w, c), key)) == Some(c.env.identity))
  {
    hide Load, Save, Authorized, Admitted;
    EnterFew(SheetAt(w, c.env.sessionKey), Ended, Ended);
    NothingLoads(if c.scan.Scanned? then c.scan.found else w.projects);
    if c.scan.Scanned? && c.env.sessionKey in w.entries {
      SelectIsEntered(w.(projects := c.scan.found), c.env, c.choice);
    }
  }

  lemma ChangeIsEntered(w: World, c: Call)
    requires UsableThroughout(w, c) && FilledCall(c) && c.CodexChange?
    ensures var key := c.env.sessionKey;
            && SheetAt(After(w, c), key) == EnterAll(SheetAt(w, key), EntriesOf(w, c))
            && (EntriesOf(w, c) != [] ==> WhoIn(Raw(After(w, c), key)) == Some(c.env.identity))
  {
    hide Load, Save, Authorized, Admitted, Usable, RecordOf, AfterBegin, AfterCodex, CodexEntries;
    var env, before := c.env, SheetAt(w, c.env.sessionKey);
    EnterFew(before, Ended, Ended);
    if c.scan.Scanned? {
      var w1 := w.(projects := c.scan.found);
      UsableRecord(w1, env);
      if before.task.Some? {
        CodexIsEntered(w1, env, c.codex);
      } else if c.again.Scanned? {
        ChangeBegins(w.(projects := c.again.found), env, c.begun, c.codex);
      }
    }
  }

  lemma ChangeBegins(w: World, env: Env, begun: Option<NewWorktree>, codex: CodexAnswer)
    requires Usable(w, env) && NamedFully(env.identity) && FilledBegin(begun)
    requires SheetAt(w, env.sessionKey).task.None? && (!codex.CodexRaised? ==> codex.threadId != [])
    ensures var before := SheetAt(w, env.sessionKey);
            var w1 := AfterBegin(w, env, begun);
            var w' := if begun.None? || RecordOf(w1, env).active.None? then w1
                else AfterCodex(w1, env, RecordOf(w1, env), codex);
            var es := BeginEntries(before, begun);
            && SheetAt(w', env.sessionKey) == (if es == [] then before else EnterAll(before, es + CodexEntries(codex)))
            && (es != [] ==> WhoIn(Raw(w', env.sessionKey)) == Some(env.identity))
  {
    hide Load, Save, Usable, RecordOf, AfterBegin, AfterCodex, CodexEntries, SheetOf;
    var before, w1, es := SheetAt(w, env.sessionKey), AfterBegin(w, env, begun), BeginEntries(
        SheetAt(w, env.sessionKey), begun);
    BeginIsEntered(w, env, begun);
    UsableRecord(w, env);
    if es == [] {
      EnterFew(before, Ended, Ended);
    } else {
      EnterFew(before, es[0], Ended);
      UsableRecord(w1, env);
      CodexIsEntered(w1, env, codex);
      EnterConcat(before, es, CodexEntries(codex));
    }
  }

  // ---------- Records that cannot be used ----------

  /** A context call of a member who may not use the record leaves an empty one for this member. */
  lemma UnusableTurnStartsAfresh(w: World, env: Env)
    requires Admitted(w.groups, env.identity) && NamedFully(env.identity) && !Usable(w, env)
    ensures var w' := After(w, PreLlm(env, None));
            && SheetAt(w', env.sessionKey) == Sheet(None, None, None)
            && WhoIn(Raw(w', env.sessionKey)) == Some(env.identity)
  {
    hide Load, Save, Authorized, Admitted;
    assert !Covered(w, env);
    SheetOfSaved(Blank(env.identity));
  }

  /** A selection over a payload that does not load starts with the chosen project and nothing else. */
  lemma UnreadableSelectionStartsAfresh(w: World, c: Call)
    requires c.SelectTool? && c.scan.Scanned? && Load(Raw(w, c.env.sessionKey), w.projects).None?
    requires Admitted(w.groups, c.env.identity) && NamedFully(c.env.identity)
    requires c.choice.Some? && c.choice != Some([])
    requires Authorized(w.groups, c.scan.found, c.env.identity, c.choice.value)
    ensures SheetAt(After(w, c), c.env.sessionKey) == Sheet(c.choice, None, None)
    ensures WhoIn(Raw(After(w, c), c.env.sessionKey)) == Some(c.env.identity)
  {
    hide Load, Save, Authorized, Admitted;
    var blank := Blank(c.env.identity);
    var w1 := Saved(w, c.env.sessionKey, blank).(projects := c.scan.found);
    LoadOfSave(blank, c.scan.found);
    SheetOfSaved(blank);
    SelectIsEntered(w1, c.env, c.choice);
    EnterFew(Sheet(None, None, None), Selected(c.choice.value), Ended);
  }

  // ---------- Runs ----------

  ghost predicate StaysUsable(w: World, cs: seq<Call>, key: string)
    decreases |cs|
  {
    cs == [] ||
    (&& (cs[0].env.sessionKey == key ==> UsableThroughout(w, cs[0]) && FilledCall(cs[0]))
     && StaysUsable(After(w, cs[0]), cs[1..], key))
  }

  /** The ledger of one session over a run. */
  function EntriesOver(w: World, cs: seq<Call>, key: string): seq<Entry>
    decreases |cs|
  {
    if cs == [] then []
    else (if cs[0].env.sessionKey == key then EntriesOf(w, cs[0]) else []) + EntriesOver(After(w, cs[0]), cs[1..], key)
  }

  /** As long as every acting member of the chat may use the record, the payload after any run is what the
      ledger of the session says, also when nothing was stored at the beginning. */
  lemma {:induction false} RunIsEntered(w: World, cs: seq<Call>, key: string)
    requires StaysUsable(w, cs, key)
    ensures SheetAt(AfterAll(w, cs), key) == EnterAll(SheetAt(w, key), EntriesOver(w, cs, key))
    decreases |cs|
  {
    hide After, EntriesOf, SheetOf, UsableThroughout, FilledCall;
    if cs != [] {
      var w1 := After(w, cs[0]);
      var first := if cs[0].env.sessionKey == key then EntriesOf(w, cs[0]) else [];
      if cs[0].env.sessionKey == key {
        CallIsEntered(w, cs[0]);
      } else {
        OtherSessionsAreLeftAlone(w, cs[0], key);
      }
      RunIsEntered(w1, cs[1..], key);
      EnterConcat(SheetAt(w, key), first, EntriesOver(w1, cs[1..], key));
    }
  }

  // ---------- Reading a ledger ----------

  /** The project is that of the last selection, whatever is begun, answered and ended besides. */
  lemma {:induction false} LastSelectionCounts(s: Sheet, es: seq<Entry>, i: nat)
    requires forall j :: i < j < |es| ==> !es[j].Selected?
    requires i < |es| && es[i].Selected?
    ensures EnterAll(s, es).projectId == Some(es[i].projectId)
    decreases |es|
  {
    if i > 0 {
      LastSelectionCounts(Enter(s, es[0]), es[1..], i - 1);
    } else {
      NoSelectionNoChange(Enter(s, es[0]), es[1..]);
    }
  }

  lemma {:induction false} NoSelectionNoChange(s: Sheet, es: seq<Entry>)
    requires forall j :: 0 <= j < |es| ==> !es[j].Selected?
    ensures EnterAll(s, es).projectId == s.projectId
    decreases |es|
  {
    if es != [] {
      NoSelectionNoChange(Enter(s, es[0]), es[1..]);
    }
  }

  /** Over any run in which the record stays usable, the project in a session's payload is that of its last
      successful selection, whatever tasks are begun, worked on and ended. */
  lemma PayloadHoldsLastSelection(w: World, cs: seq<Call>, key: string, i: nat)
    requires StaysUsable(w, cs, key)
    requires var es := EntriesOver(w, cs, key);
             i < |es| && es[i].Selected? && forall j :: i < j < |es| ==> !es[j].Selected?
    ensures SheetAt(AfterAll(w, cs), key).projectId == Some(EntriesOver(w, cs, key)[i].projectId)
  {
    RunIsEntered(w, cs, key);
    LastSelectionCounts(SheetAt(w, key), EntriesOver(w, cs, key), i);
  }
}
