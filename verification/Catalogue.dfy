/** The project catalogue: the configured projects, followed by the discovered repositories. `idOf` stands
    for the identifier made from a repository's name and the hash of its path. */
module Catalogue {
  import opened Options
  import opened Policy
  import opened Discovery
  import Guard

  /** `display_name`: the path below the root, or the root's own name. Total because of the precondition. */
  function DisplayName(path: Path, root: Path): string
    requires Under(path, root)
  {
    if path != root then Guard.Slashed(path[|root|..])
    else if root == [] then []
    else root[|root| - 1]
  }

  function Tagged(name: string, id: string): string {
    name + " [" + (if |id| <= 6 then id else id[|id| - 6..]) + "]"
  }

  function Ids(projects: seq<Project>): set<string> {
    set i | 0 <= i < |projects| :: projects[i].projectId
  }

  function Names(projects: seq<Project>): set<string> {
    set i | 0 <= i < |projects| :: projects[i].displayName
  }

  function Paths(projects: seq<Project>): set<Path> {
    set i | 0 <= i < |projects| :: projects[i].path
  }

  predicate DistinctIds(projects: seq<Project>) {
    forall i, j :: 0 <= i < j < |projects| ==> projects[i].projectId != projects[j].projectId
  }

  predicate DistinctNames(projects: seq<Project>) {
    forall i, j :: 0 <= i < j < |projects| ==> projects[i].displayName != projects[j].displayName
  }

  /** The discovered paths that no configured project has, in order. */
  function Unknown(known: set<Path>, order: seq<Path>): (news: seq<Path>)
    ensures forall p :: p in news <==> p in order && p !in known
  {
    if order == [] then []
    else
      var init, last := order[..|order| - 1], order[|order| - 1];
      assert order == init + [last];
      Unknown(known, init) + (if last in known then [] else [last])
  }

  /** The identifiers of the fresh paths are new and differ from each other. */
  predicate FreshIds(idOf: Path -> string, configured: seq<Project>, news: seq<Path>) {
    forall i :: 0 <= i < |news| ==>
      && idOf(news[i]) !in Ids(configured)
      && forall j :: 0 <= j < i ==> idOf(news[j]) != idOf(news[i])
  }

  /** The entry that a repository gets after the projects `before`. */
  function NewProject(idOf: Path -> string, before: seq<Project>, path: Path, root: Path): Project
    requires Under(path, root)
  {
    var name := DisplayName(path, root);
    Project(idOf(path), if name in Names(before) then Tagged(name, idOf(path)) else name, path, false, true)
  }

  predicate BelowRoots(repositories: map<Path, Path>) {
    forall p :: p in repositories ==> Under(p, repositories[p])
  }

  /** The catalogue is the configured projects, followed by one entry for every fresh repository in order. */
  ghost predicate IsCatalogue(idOf: Path -> string, configured: seq<Project>, repositories: map<Path, Path>,
      news: seq<Path>, projects: seq<Project>)
    requires BelowRoots(repositories)
  {
    && |projects| == |configured| + |news|
    && configured <= projects
    && forall i :: 0 <= i < |news| ==> EntryAt(idOf, |configured|, repositories, news, projects, i)
  }

  ghost predicate EntryAt(idOf: Path -> string, n: nat, repositories: map<Path, Path>, news: seq<Path>,
      projects: seq<Project>, i: nat)
    requires BelowRoots(repositories) && i < |news| && |projects| == n + |news|
  {
    && news[i] in repositories
    && projects[n + i] == NewProject(idOf, projects[..n + i], news[i], repositories[news[i]])
  }

  lemma {:induction false} UnknownOfPrefix(known: set<Path>, order: seq<Path>, k: nat)
    requires k <= |order|
    ensures Unknown(known, order[..k]) <= Unknown(known, order)
    decreases |order|
  {
    if k == |order| {
      assert order[..k] == order;
    } else {
      UnknownOfPrefix(known, order[..|order| - 1], k);
      assert order[..|order| - 1][..k] == order[..k];
    }
  }

  lemma UnknownOfNext(known: set<Path>, order: seq<Path>, k: nat)
    requires k < |order|
    ensures Unknown(known, order[..k + 1]) == Unknown(known, order[..k])
        + (if order[k] in known then [] else [order[k]])
  {
    assert order[..k + 1][..k] == order[..k];
  }

  lemma SetsOfAppend(projects: seq<Project>, p: Project)
    ensures Ids(projects + [p]) == Ids(projects) + {p.projectId}
    ensures Names(projects + [p]) == Names(projects) + {p.displayName}
    ensures Paths(projects + [p]) == Paths(projects) + {p.path}
  {
    var all := projects + [p];
    assert all[|projects|] == p;
    forall i | 0 <= i < |projects|
        ensures projects[i].projectId in Ids(all) && projects[i].displayName in Names(all)
        && projects[i].path in Paths(all)
    {
      assert all[i] == projects[i];
    }
  }

  /** The paths and identifiers of a catalogue are those of the configured and of the new projects. */
  lemma SetsOfCatalogue(idOf: Path -> string, configured: seq<Project>, repositories: map<Path, Path>, news: seq<Path>,
      projects: seq<Project>)
    requires BelowRoots(repositories) && IsCatalogue(idOf, configured, repositories, news, projects)
    ensures forall p :: p in Paths(projects) <==> p in Paths(configured) || p in news
    ensures forall d :: d in Ids(projects) <==>
        d in Ids(configured) || exists i :: 0 <= i < |news| && idOf(news[i]) == d
  {
    var n := |configured|;
    assert forall i :: 0 <= i < n ==> projects[i] == configured[i];
    forall i | 0 <= i < |news| ensures projects[n + i].path == news[i] && projects[n + i].projectId == idOf(news[i]) {
      assert EntryAt(idOf, n, repositories, news, projects, i);
    }
    forall p ensures p in Paths(projects) <==> p in Paths(configured) || p in news {
      if p in Paths(projects) {
        var i :| 0 <= i < |projects| && projects[i].path == p;
        if i >= n {
          assert news[i - n] == p;
        }
      }
      if p in Paths(configured) {
        var i :| 0 <= i < n && configured[i].path == p;
        assert projects[i].path == p;
      }
    }
    forall d ensures d in Ids(projects) <==> d in Ids(configured) || exists i :: 0 <= i < |news| && idOf(news[i]) == d {
      if d in Ids(projects) {
        var i :| 0 <= i < |projects| && projects[i].projectId == d;
        if i >= n {
          assert idOf(news[i - n]) == d;
        }
      }
      if d in Ids(configured) {
        var i :| 0 <= i < n && configured[i].projectId == d;
        assert projects[i].projectId == d;
      }
    }
  }

  lemma CatalogueByOne(idOf: Path -> string, configured: seq<Project>, repositories: map<Path, Path>, news: seq<Path>,
      projects: seq<Project>, path: Path)
    requires BelowRoots(repositories) && IsCatalogue(idOf, configured, repositories, news, projects)
        && path in repositories
    ensures IsCatalogue(idOf, configured, repositories, news + [path], projects
        + [NewProject(idOf, projects, path, repositories[path])])
  {
    hide NewProject;
    var n, all := |configured|, projects + [NewProject(idOf, projects, path, repositories[path])];
    assert all[..n + |news|] == projects;
    forall i | 0 <= i < |news| ensures EntryAt(idOf, n, repositories, news + [path], all, i) {
      assert EntryAt(idOf, n, repositories, news, projects, i);
      assert all[..n + i] == projects[..n + i];
    }
    assert EntryAt(idOf, n, repositories, news + [path], all, |news|);
  }

  lemma FreshByOne(idOf: Path -> string, configured: seq<Project>, repositories: map<Path, Path>, news: seq<Path>,
      projects: seq<Project>, path: Path)
    requires BelowRoots(repositories) && IsCatalogue(idOf, configured, repositories, news, projects)
    requires FreshIds(idOf, configured, news)
    ensures FreshIds(idOf, configured, news + [path]) <==> idOf(path) !in Ids(projects)
  {
    hide IsCatalogue, Ids;
    SetsOfCatalogue(idOf, configured, repositories, news, projects);
    var all := news + [path];
    assert all[|news|] == path;
    assert forall i :: 0 <= i < |news| ==> all[i] == news[i];
  }

  lemma FreshPrefix(idOf: Path -> string, configured: seq<Project>, some: seq<Path>, all: seq<Path>)
    requires some <= all && FreshIds(idOf, configured, all)
    ensures FreshIds(idOf, configured, some)
  {
    hide Ids;
    assert forall i :: 0 <= i < |some| ==> some[i] == all[i];
  }

  lemma NoNews(idOf: Path -> string, configured: seq<Project>, repositories: map<Path, Path>)
    requires BelowRoots(repositories)
    ensures IsCatalogue(idOf, configured, repositories, [], configured) && FreshIds(idOf, configured, [])
  {
  }

  /** The listed repositories are refused exactly when an identifier is already used. */
  method BuildProjectCatalogue(idOf: Path -> string, configured: seq<Project>, enabled: bool,
      repositories: map<Path, Path>, order: seq<Path>)
    returns (result: Option<seq<Project>>)
    requires BelowRoots(repositories)
    requires forall p :: p in order <==> p in repositories
    requires forall i, j :: 0 <= i < j < |order| ==> order[i] != order[j]
    ensures !enabled ==> result == Some(configured)
    ensures enabled ==> (result.Some? <==> FreshIds(idOf, configured, Unknown(Paths(configured), order)))
    ensures enabled && result.Some? ==>
        IsCatalogue(idOf, configured, repositories, Unknown(Paths(configured), order), result.value)
  {
    if !enabled {
      return Some(configured);
    }
    var projects, paths, names, ids := configured, Paths(configured), Names(configured), Ids(configured);
    hide Ids, Names, Paths, FreshIds, IsCatalogue, Tagged, DisplayName;
    ghost var news := [];
    NoNews(idOf, configured, repositories);
    for k := 0 to |order|
      invariant news == Unknown(Paths(configured), order[..k])
      invariant FreshIds(idOf, configured, news)
      invariant IsCatalogue(idOf, configured, repositories, news, projects)
      invariant paths == Paths(projects) && names == Names(projects) && ids == Ids(projects)
    {
      var path := order[k];
      var id := idOf(path);
      UnknownOfNext(Paths(configured), order, k);
      UnknownOfPrefix(Paths(configured), order, k + 1);
      SetsOfCatalogue(idOf, configured, repositories, news, projects);
      if path !in paths {
        FreshByOne(idOf, configured, repositories, news, projects, path);
        if id in ids {
          if FreshIds(idOf, configured, Unknown(Paths(configured), order)) {
            FreshPrefix(idOf, configured, news + [path], Unknown(Paths(configured), order));
          }
          return None;
        }
        var name := DisplayName(path, repositories[path]);
        if name in names {
          name := Tagged(name, id);
        }
        SetsOfAppend(projects, Project(id, name, path, false, true));
        CatalogueByOne(idOf, configured, repositories, news, projects, path);
        projects := projects + [Project(id, name, path, false, true)];
        paths, names, ids := paths + {path}, names + {name}, ids + {id};
        news := news + [path];
      }
    }
    assert order[..|order|] == order;
    result := Some(projects);
  }

  // ---------- What a catalogue guarantees ----------

  /** Identifiers stay unique, and every repository is covered: as a project of its own, or by a configured
      one with its path. */
  lemma CatalogueIsSound(idOf: Path -> string, configured: seq<Project>, repositories: map<Path, Path>,
      order: seq<Path>, projects: seq<Project>)
    requires BelowRoots(repositories) && forall p :: p in order <==> p in repositories
    requires var news := Unknown(Paths(configured), order);
             FreshIds(idOf, configured, news) && IsCatalogue(idOf, configured, repositories, news, projects)
    ensures DistinctIds(configured) ==> DistinctIds(projects)
    ensures forall p :: p in repositories ==> p in Paths(projects)
    ensures forall p :: p in projects && p !in configured ==>
        p.autoDiscovered && p.path in repositories && p.path !in Paths(configured)
  {
    hide NewProject, Ids, Unknown;
    var n, news := |configured|, Unknown(Paths(configured), order);
    SetsOfCatalogue(idOf, configured, repositories, news, projects);
    forall i | 0 <= i < |news|
        ensures projects[n + i].projectId == idOf(news[i]) && projects[n + i].path == news[i]
        && projects[n + i].autoDiscovered
    {
      assert EntryAt(idOf, n, repositories, news, projects, i);
      NewProjectFields(idOf, projects[..n + i], news[i], repositories[news[i]]);
    }
    if DistinctIds(configured) {
      forall i, j | 0 <= i < j < |projects| ensures projects[i].projectId != projects[j].projectId {
        IdsOfMembers(configured);
        assert i < n ==> projects[i] == configured[i];
        assert j < n ==> projects[j] == configured[j];
        assert i >= n ==> projects[n + (i - n)].projectId == idOf(news[i - n]);
        assert j >= n ==> projects[n + (j - n)].projectId == idOf(news[j - n]);
      }
    }
    forall i | 0 <= i < |projects|
      ensures projects[i] in configured || (projects[i].autoDiscovered && projects[i].path in news)
    {
      if i < n {
        assert projects[i] == configured[i];
      } else {
        assert projects[i] == projects[n + (i - n)] && news[i - n] in news;
      }
    }
  }

  lemma NewProjectFields(idOf: Path -> string, before: seq<Project>, path: Path, root: Path)
    requires Under(path, root)
    ensures var p := NewProject(idOf, before, path, root);
            p.projectId == idOf(path) && p.path == path && p.autoDiscovered
  {
  }

  lemma IdsOfMembers(projects: seq<Project>)
    ensures forall i :: 0 <= i < |projects| ==> projects[i].projectId in Ids(projects)
  {
  }

  /** What a repository is called: its path below the root, or the last name of the root itself. */
  ghost predicate IsNameBelow(name: string, path: Path, root: Path) {
    if path == root then (if root == [] then name == [] else name == root[|root| - 1])
    else exists below :: path == root + below && name == Guard.Slashed(below)
  }

  /** A name that is taken gets a blank and the last six characters of the identifier in brackets. */
  ghost predicate IsTaggedName(tagged: string, name: string, id: string) {
    exists tail :: tagged == name + " [" + tail + "]" && IsTail(tail, id) && |tail| == if |id| < 6 then |id| else 6
  }

  ghost predicate IsTail(tail: string, s: string) {
    |tail| <= |s| && s[|s| - |tail|..] == tail
  }

  /** Every repository gets an entry with its own path and identifier, without a push, and with its name below
      the root, tagged exactly when an earlier project has that name. */
  lemma EntriesAreNamed(idOf: Path -> string, configured: seq<Project>, repositories: map<Path, Path>,
      news: seq<Path>, projects: seq<Project>, i: nat) returns (name: string)
    requires BelowRoots(repositories) && IsCatalogue(idOf, configured, repositories, news, projects) && i < |news|
    ensures var e, path := projects[|configured| + i], news[i];
            && path in repositories && IsNameBelow(name, path, repositories[path])
            && e.projectId == idOf(path) && e.path == path && e.autoDiscovered && !e.pushOnMerge
            && ((exists j :: 0 <= j < |configured| + i && projects[j].displayName == name) ==>
                  IsTaggedName(e.displayName, name, idOf(path)))
            && ((forall j :: 0 <= j < |configured| + i ==> projects[j].displayName != name) ==> e.displayName == name)
  {
    assert EntryAt(idOf, |configured|, repositories, news, projects, i);
    var path, root, before := news[i], repositories[news[i]], projects[..|configured| + i];
    name := DisplayName(path, root);
    assert path == root + path[|root|..];
    TaggedIsTagged(name, idOf(path));
    if j :| 0 <= j < |configured| + i && projects[j].displayName == name {
      assert before[j].displayName == name;
    }
  }

  lemma TaggedIsTagged(name: string, id: string)
    ensures IsTaggedName(Tagged(name, id), name, id)
  {
    var tail := if |id| <= 6 then id else id[|id| - 6..];
    assert IsTail(tail, id);
  }

  /** Two repositories below one root never have the same name below it. */
  lemma NamesBelowOneRootDiffer(p: Path, q: Path, root: Path, name: string)
    requires Guard.AllProper(p) && Guard.AllProper(q) && p != root && q != root
    requires IsNameBelow(name, p, root) && IsNameBelow(name, q, root)
    ensures p == q
  {
    hide Guard.Slashed, Guard.Kept, Guard.Pieces;
    var b :| p == root + b && name == Guard.Slashed(b);
    var c :| q == root + c && name == Guard.Slashed(c);
    assert Guard.AllProper(b) by { assert forall i :: 0 <= i < |b| ==> b[i] == p[|root| + i]; }
    assert Guard.AllProper(c) by { assert forall i :: 0 <= i < |c| ==> c[i] == q[|root| + i]; }
    Guard.NamesOfSlashed(b);
    Guard.NamesOfSlashed(c);
  }

  /** The names that are used once the paths `news` have theirs. */
  function NamesTaken(idOf: Path -> string, configured: seq<Project>, repositories: map<Path, Path>,
      news: seq<Path>): set<string>
    requires BelowRoots(repositories) && forall p :: p in news ==> p in repositories
  {
    if news == [] then Names(configured)
    else
      var last := news[|news| - 1];
      var before := NamesTaken(idOf, configured, repositories, news[..|news| - 1]);
      var name := DisplayName(last, repositories[last]);
      before + {if name in before then Tagged(name, idOf(last)) else name}
  }

  /** The configured projects and the paths before the `i`-th use both its name and its tagged name. */
  predicate NameClash(idOf: Path -> string, configured: seq<Project>, repositories: map<Path, Path>, news: seq<Path>,
      i: nat)
    requires BelowRoots(repositories) && i < |news| && forall p :: p in news ==> p in repositories
  {
    var taken := NamesTaken(idOf, configured, repositories, news[..i]);
    var name := DisplayName(news[i], repositories[news[i]]);
    name in taken && Tagged(name, idOf(news[i])) in taken
  }

  lemma NamesTakenNext(idOf: Path -> string, configured: seq<Project>, repositories: map<Path, Path>, news: seq<Path>,
      i: nat)
    requires BelowRoots(repositories) && i < |news| && forall p :: p in news ==> p in repositories
    ensures var before := NamesTaken(idOf, configured, repositories, news[..i]);
            var name := DisplayName(news[i], repositories[news[i]]);
            NamesTaken(idOf, configured, repositories, news[..i + 1]) ==
              before + {if name in before then Tagged(name, idOf(news[i])) else name}
  {
    hide Tagged, DisplayName, Names;
    assert news[..i + 1][..i] == news[..i];
  }

  lemma {:induction false} NamesOfCatalogue(
    idOf: Path -> string, configured: seq<Project>, repositories: map<Path, Path>, news: seq<Path>,
        projects: seq<Project>, i: nat)
    requires BelowRoots(repositories) && IsCatalogue(idOf, configured, repositories, news, projects)
    requires i <= |news| && forall p :: p in news ==> p in repositories
    ensures Names(projects[..|configured| + i]) == NamesTaken(idOf, configured, repositories, news[..i])
    decreases i
  {
    hide EntryAt, Tagged, DisplayName, Names, NamesTaken;
    var n := |configured|;
    if i == 0 {
      assert projects[..n] == configured && news[..0] == [];
      NothingTaken(idOf, configured, repositories);
    } else {
      NamesOfCatalogue(idOf, configured, repositories, news, projects, i - 1);
      NamesTakenNext(idOf, configured, repositories, news, i - 1);
      NamesNext(idOf, configured, repositories, news, projects, i - 1);
    }
  }

  lemma NothingTaken(idOf: Path -> string, configured: seq<Project>, repositories: map<Path, Path>)
    requires BelowRoots(repositories)
    ensures NamesTaken(idOf, configured, repositories, []) == Names(configured)
  {
  }

  lemma NamesNext(
    idOf: Path -> string, configured: seq<Project>, repositories: map<Path, Path>, news: seq<Path>,
        projects: seq<Project>, i: nat)
    requires BelowRoots(repositories) && IsCatalogue(idOf, configured, repositories, news, projects)
    requires i < |news| && news[i] in repositories
    ensures var before := Names(projects[..|configured| + i]);
            var name := DisplayName(news[i], repositories[news[i]]);
            Names(projects[..|configured| + i + 1]) == before
                + {if name in before then Tagged(name, idOf(news[i])) else name}
  {
    hide Tagged, DisplayName, Names, Ids, Paths;
    var k := |configured| + i;
    assert EntryAt(idOf, |configured|, repositories, news, projects, i);
    assert projects[..k + 1] == projects[..k] + [projects[k]];
    SetsOfAppend(projects[..k], projects[k]);
  }

  lemma {:induction false} DistinctNamesByPrefix(projects: seq<Project>, n: nat)
    requires n <= |projects|
    ensures DistinctNames(projects) <==>
              DistinctNames(projects[..n]) && forall j :: n <= j < |projects| ==>
                  projects[j].displayName !in Names(projects[..j])
  {
    if DistinctNames(projects) {
      forall j | n <= j < |projects| ensures projects[j].displayName !in Names(projects[..j]) {
        assert forall i :: 0 <= i < j ==> projects[..j][i].displayName == projects[i].displayName;
      }
    } else {
      var i, j :| 0 <= i < j < |projects| && projects[i].displayName == projects[j].displayName;
      if j < n {
        assert projects[..n][i].displayName == projects[..n][j].displayName;
      } else {
        assert projects[..j][i].displayName in Names(projects[..j]);
      }
    }
  }

  /** Names stay unique exactly when no repository finds both its name and its tagged name taken. */
  lemma NamesStayUniqueIff(
    idOf: Path -> string, configured: seq<Project>, repositories: map<Path, Path>, news: seq<Path>,
        projects: seq<Project>)
    requires BelowRoots(repositories) && IsCatalogue(idOf, configured, repositories, news, projects)
    requires DistinctNames(configured) && forall p :: p in news ==> p in repositories
    ensures DistinctNames(projects) <==>
              forall i :: 0 <= i < |news| ==> !NameClash(idOf, configured, repositories, news, i)
  {
    hide Tagged, DisplayName, Names, NamesTaken;
    var n := |configured|;
    DistinctNamesByPrefix(projects, n);
    assert projects[..n] == configured;
    forall i | 0 <= i < |news|
      ensures projects[n + i].displayName in Names(projects[..n + i]) <==>
          NameClash(idOf, configured, repositories, news, i)
    {
      NamesOfCatalogue(idOf, configured, repositories, news, projects, i);
      assert EntryAt(idOf, n, repositories, news, projects, i);
    }
    forall j | n <= j < |projects|
      ensures projects[j].displayName in Names(projects[..j]) <==>
          NameClash(idOf, configured, repositories, news, j - n)
    {
      assert projects[n + (j - n)] == projects[j];
    }
  }

  /** The tag does not keep names unique: for any repository and any identifiers, configured projects may be
      called by its name and by its tagged name already. */
  lemma TwoProjectsMayShareAName(idOf: Path -> string, path: Path, root: Path)
    returns (configured: seq<Project>, projects: seq<Project>)
    requires Under(path, root)
    ensures var repositories: map<Path, Path> := map[path := root];
            && BelowRoots(repositories) && IsCatalogue(idOf, configured, repositories, [path], projects)
            && DistinctNames(configured) && DistinctIds(configured) && path !in Paths(configured)
            && FreshIds(idOf, configured, [path])
            && !DistinctNames(projects)
  {
    var name, id := DisplayName(path, root), idOf(path);
    var other := path + ["x"];
    configured := [Project(id + "1", name, other, false, false),
        Project(id + "22", Tagged(name, id), other, false, false)];
    var repositories: map<Path, Path> := map[path := root];
    TaggedIsLonger(name, id);
    assert configured[0].displayName in Names(configured) && configured[1].displayName in Names(configured);
    var news := NewProject(idOf, configured, path, root);
    projects := configured + [news];
    assert projects[..2] == configured;
    assert EntryAt(idOf, 2, repositories, [path], projects, 0);
    assert projects[1].displayName == projects[2].displayName;
  }

  lemma TaggedIsLonger(name: string, id: string)
    ensures |Tagged(name, id)| > |name|
  {
  }
}
