/** Who may use which project. */
module Policy {

  datatype Identity = Identity(userId: string, chatId: string, chatType: string)

  /** A path as its components, so that "is relative to" is "has as prefix". */
  type Path = seq<string>

  datatype Project = Project(projectId: string, displayName: string, path: Path, pushOnMerge: bool,
      autoDiscovered: bool)

  ghost predicate KeyedById(projects: map<string, Project>) {
    forall id :: id in projects ==> projects[id].projectId == id
  }

  type Catalogue = projects: map<string, Project> | KeyedById(projects) witness map[]

  datatype Group = Group(users: set<string>, chats: set<string>, projectIds: set<string>, roots: set<Path>)

  predicate Matches(g: Group, who: Identity) {
    who.userId in g.users && ("*" in g.chats || who.chatId in g.chats)
  }

  predicate Grants(g: Group, p: Project) {
    "*" in g.projectIds || p.projectId in g.projectIds || exists root :: root in g.roots && root <= p.path
  }

  /** The identity may use the bot at all. */
  predicate Admitted(groups: seq<Group>, who: Identity) {
    exists i :: 0 <= i < |groups| && Matches(groups[i], who)
  }

  predicate Authorized(groups: seq<Group>, projects: Catalogue, who: Identity, id: string) {
    id in projects && exists i :: 0 <= i < |groups| && Matches(groups[i], who) && Grants(groups[i], projects[id])
  }

  lemma AdmittedByConcat(a: seq<Group>, b: seq<Group>, projects: Catalogue, who: Identity,
      id: string)
    ensures Admitted(a + b, who) <==> Admitted(a, who) || Admitted(b, who)
    ensures Authorized(a + b, projects, who, id) <==>
              Authorized(a, projects, who, id) || Authorized(b, projects, who, id)
  {
    hide Matches, Grants;
    var all := a + b;
    assert forall i :: 0 <= i < |a| ==> a[i] == all[i];
    assert forall i :: 0 <= i < |b| ==> b[i] == all[|a| + i];
  }

  /** Permissions add up group by group, and one group gives a project to whom it lists, in the chats that it
      lists or in all, when it names the project or all projects, or a root that the project is below. */
  lemma PermissionsAddUp(g: Group, groups: seq<Group>, projects: Catalogue, who: Identity, id: string)
    ensures var here := who.userId in g.users && ("*" in g.chats || who.chatId in g.chats);
            && (Admitted([g] + groups, who) <==> here || Admitted(groups, who))
            && (Authorized([g] + groups, projects, who, id) <==>
                  || (&& here && id in projects
                      && (|| "*" in g.projectIds || id in g.projectIds
                          || exists root, below :: root in g.roots && projects[id].path == root + below))
                  || Authorized(groups, projects, who, id))
    ensures !Admitted([], who) && !Authorized([], projects, who, id)
  {
    AdmittedByConcat([g], groups, projects, who, id);
    assert [g][0] == g;
    if id in projects {
      assert projects[id].projectId == id;
      var path := projects[id].path;
      assert forall root :: root in g.roots && root <= path ==> path == root + path[|root|..];
    }
  }
}
