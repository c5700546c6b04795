/** Project cards: registered, resolved at most once before they expire, and what they select. */
module Selection {
  import opened Options
  import opened Policy

  /** `projects` gives the display names of the offered projects. */
  datatype Card = Card(sessionKey: string, identity: Identity, projects: map<string, string>, createdAt: real)

  datatype Selected = Selected(identity: Identity, projectId: string)

  datatype State = State(pending: map<string, Card>, selected: map<string, Selected>)

  datatype Event =
    | Register(id: string, card: Card)
    | Resolve(id: string, identity: Identity, projectId: string, now: real)
    | Explicit(sessionKey: string, identity: Identity, projectId: string, authorized: set<string>)

  datatype Result =
    | Chosen(sessionKey: string, projectId: string, name: string)
    | Forbidden(sessionKey: string)
    | Invalid(sessionKey: string)
    | Expired

  function ResultOf(ttl: real, s: State, e: Event): Result
    requires e.Resolve?
  {
    if e.id !in s.pending || e.now - s.pending[e.id].createdAt > ttl then Expired
    else
      var card := s.pending[e.id];
      if e.identity != card.identity then Forbidden(card.sessionKey)
      else if e.projectId !in card.projects then Invalid(card.sessionKey)
      else Chosen(card.sessionKey, e.projectId, card.projects[e.projectId])
  }

  function After(ttl: real, s: State, e: Event): State {
    match e
    case Register(id, card) => s.(pending := s.pending[id := card])
    case Resolve(id, identity, projectId, _) =>
      (match ResultOf(ttl, s, e)
       case Chosen(key, _, _) => State(s.pending - {id}, s.selected[key := Selected(identity, projectId)])
       case Expired => s.(pending := s.pending - {id})
       case Forbidden(_) => s
       case Invalid(_) => s)
    case Explicit(key, identity, projectId, authorized) =>
      if projectId in authorized then s.(selected := s.selected[key := Selected(identity, projectId)]) else s
  }

  function AfterAll(ttl: real, es: seq<Event>): State {
    if es == [] then State(map[], map[]) else After(ttl, AfterAll(ttl, es[..|es| - 1]), es[|es| - 1])
  }

  function ResultAt(ttl: real, es: seq<Event>, i: nat): Result
    requires i < |es| && es[i].Resolve?
  {
    ResultOf(ttl, AfterAll(ttl, es[..i]), es[i])
  }

  /** The `i`-th event uses the card up: it selects a project, or comes too late. */
  predicate Consumes(ttl: real, es: seq<Event>, i: nat, id: string)
    requires i < |es|
  {
    es[i].Resolve? && es[i].id == id && (ResultAt(ttl, es, i).Chosen? || ResultAt(ttl, es, i).Expired?)
  }

  /** Event `k` registered the card under `id`, and by event `n` it is neither replaced nor used up. */
  predicate LiveSince(ttl: real, es: seq<Event>, n: nat, id: string, k: nat)
    requires n <= |es|
  {
    && k < n && es[k].Register? && es[k].id == id
    && forall j :: k < j < n ==> !(es[j].Register? && es[j].id == id) && !Consumes(ttl, es, j, id)
  }

  /** A card is pending exactly when it is live, and then as it was registered last. */
  lemma {:induction false} PendingIffLive(ttl: real, es: seq<Event>, n: nat, id: string)
    requires n <= |es|
    ensures id in AfterAll(ttl, es[..n]).pending <==> exists k: nat :: LiveSince(ttl, es, n, id, k)
    ensures forall k: nat :: LiveSince(ttl, es, n, id, k) ==>
              id in AfterAll(ttl, es[..n]).pending && AfterAll(ttl, es[..n]).pending[id] == es[k].card
    decreases n
  {
    if n > 0 {
      hide ResultOf;
      PendingIffLive(ttl, es, n - 1, id);
      assert es[..n][..n - 1] == es[..n - 1];
      var before, e := AfterAll(ttl, es[..n - 1]), es[n - 1];
      PendingAfter(ttl, before, e, id);
      if e.Register? && e.id == id {
        assert LiveSince(ttl, es, n, id, n - 1);
      } else if id in AfterAll(ttl, es[..n]).pending {
        var k: nat :| LiveSince(ttl, es, n - 1, id, k);
        assert LiveSince(ttl, es, n, id, k);
      }
      forall k: nat | LiveSince(ttl, es, n, id, k) && k < n - 1
        ensures LiveSince(ttl, es, n - 1, id, k) && !Consumes(ttl, es, n - 1, id)
      {
      }
    }
  }

  lemma PendingAfter(ttl: real, s: State, e: Event, id: string)
    ensures var s' := After(ttl, s, e);
            if e.Register? && e.id == id then id in s'.pending && s'.pending[id] == e.card
            else if e.Resolve? && e.id == id && (ResultOf(ttl, s, e).Chosen? || ResultOf(ttl, s, e).Expired?)
                then id !in s'.pending
            else (id in s'.pending <==> id in s.pending) && (id in s.pending ==> s'.pending[id] == s.pending[id])
  {
  }

  /** Over any run, a press selects a project exactly when the card is live, not too old, was shown to the
      same identity and offers the project. The live card decides the answer, and without one it is expired. */
  lemma ChosenIff(ttl: real, es: seq<Event>, i: nat)
    requires i < |es| && es[i].Resolve?
    ensures ResultAt(ttl, es, i).Chosen? <==>
              exists k: nat :: LiveSince(ttl, es, i, es[i].id, k) && Offers(ttl, es[k].card, es[i])
    ensures forall k: nat :: LiveSince(ttl, es, i, es[i].id, k) ==>
              IsAnswer(ttl, es[k].card, es[i], ResultAt(ttl, es, i))
    ensures !(exists k: nat :: LiveSince(ttl, es, i, es[i].id, k)) ==> ResultAt(ttl, es, i) == Expired
  {
    PendingIffLive(ttl, es, i, es[i].id);
  }

  /** What a press on this card gives: too old, somebody else's, not on offer, or the session of the card, the
      project and its name on the card. */
  ghost predicate IsAnswer(ttl: real, card: Card, e: Event, r: Result)
    requires e.Resolve?
  {
    && (r == Expired <==> e.now - card.createdAt > ttl)
    && (r.Forbidden? <==> e.now - card.createdAt <= ttl && e.identity != card.identity)
    && (r.Invalid? <==> e.now - card.createdAt <= ttl && e.identity == card.identity && e.projectId !in card.projects)
    && (r != Expired ==> r.sessionKey == card.sessionKey)
    && (r.Chosen? ==>
          r.projectId == e.projectId && e.projectId in card.projects && r.name == card.projects[e.projectId])
  }

  predicate Offers(ttl: real, card: Card, e: Event)
    requires e.Resolve?
  {
    e.now - card.createdAt <= ttl && e.identity == card.identity && e.projectId in card.projects
  }

  /** A card selects at most once: between two selections under one identifier it is registered anew. */
  lemma SelectsAtMostOnce(ttl: real, es: seq<Event>, i: nat, j: nat)
    requires i < j < |es| && es[i].Resolve? && es[j].Resolve? && es[i].id == es[j].id
    requires ResultAt(ttl, es, i).Chosen? && ResultAt(ttl, es, j).Chosen?
    ensures exists k :: i < k < j && es[k].Register? && es[k].id == es[i].id
  {
    ChosenIff(ttl, es, j);
    var k: nat :| LiveSince(ttl, es, j, es[j].id, k) && Offers(ttl, es[k].card, es[j]);
    assert Consumes(ttl, es, i, es[i].id);
    assert k != i;
  }

  class ProjectSelectionService {
    const ttl: real
    var pending: map<string, Card>
    var selected: map<string, Selected>
    ghost var events: seq<Event>

    ghost predicate Valid()
      reads this
    {
      State(pending, selected) == AfterAll(ttl, events)
    }

    constructor (ttl: real)
      ensures Valid() && events == [] && this.ttl == ttl
    {
      this.ttl, pending, selected, events := ttl, map[], map[], [];
    }

    method RegisterCard(id: string, card: Card)
      requires Valid()
      modifies this
      ensures Valid() && events == old(events) + [Register(id, card)]
    {
      events := events + [Register(id, card)];
      assert events[..|events| - 1] == old(events);
      pending := pending[id := card];
    }

    method ResolveCard(id: string, identity: Identity, projectId: string, now: real) returns (r: Result)
      requires Valid()
      modifies this
      ensures Valid() && events == old(events) + [Resolve(id, identity, projectId, now)]
      ensures r == ResultAt(ttl, events, |old(events)|)
    {
      events := events + [Resolve(id, identity, projectId, now)];
      assert events[..|events| - 1] == old(events);
      if id !in pending {
        assert pending - {id} == pending;
        return Expired;
      }
      var card := pending[id];
      if now - card.createdAt > ttl {
        pending := pending - {id};
        return Expired;
      }
      if identity != card.identity {
        return Forbidden(card.sessionKey);
      }
      if projectId !in card.projects {
        return Invalid(card.sessionKey);
      }
      pending := pending - {id};
      selected := selected[card.sessionKey := Selected(identity, projectId)];
      r := Chosen(card.sessionKey, projectId, card.projects[projectId]);
    }

    method SelectExplicitly(sessionKey: string, identity: Identity, projectId: string, authorized: set<string>)
        returns (ok: bool)
      requires Valid()
      modifies this
      ensures Valid() && events == old(events) + [Explicit(sessionKey, identity, projectId, authorized)]
      ensures ok <==> projectId in authorized
    {
      events := events + [Explicit(sessionKey, identity, projectId, authorized)];
      assert events[..|events| - 1] == old(events);
      ok := projectId in authorized;
      if ok {
        selected := selected[sessionKey := Selected(identity, projectId)];
      }
    }

    /** The project that this identity selected last in the session, unless somebody else selected since. */
    method CurrentProjectId(sessionKey: string, identity: Identity) returns (id: Option<string>)
      requires Valid()
      ensures id == Current(AfterAll(ttl, events), sessionKey, identity)
    {
      if sessionKey !in selected || selected[sessionKey].identity != identity {
        return None;
      }
      id := Some(selected[sessionKey].projectId);
    }
  }

  function Current(s: State, sessionKey: string, identity: Identity): Option<string> {
    if sessionKey in s.selected && s.selected[sessionKey].identity == identity
        then Some(s.selected[sessionKey].projectId) else None
  }

  /** The `i`-th event selects the project for the identity in the session. */
  predicate SelectsAt(ttl: real, es: seq<Event>, i: nat, sessionKey: string, what: Selected)
    requires i < |es|
  {
    match es[i]
    case Register(_, _) => false
    case Resolve(_, identity, projectId, _) =>
      var r := ResultAt(ttl, es, i);
      r.Chosen? && r.sessionKey == sessionKey && what == Selected(identity, projectId)
    case Explicit(key, identity, projectId, authorized) =>
      key == sessionKey && projectId in authorized && what == Selected(identity, projectId)
  }

  /** Event `i` is the last of the first `n` that selects anything in the session. */
  ghost predicate LastSelection(ttl: real, es: seq<Event>, n: nat, sessionKey: string, i: nat, what: Selected)
    requires n <= |es|
  {
    i < n && SelectsAt(ttl, es, i, sessionKey, what) && forall j, other :: i < j < n ==>
        !SelectsAt(ttl, es, j, sessionKey, other)
  }

  /** A session's project is what its last successful selection chose, by card or explicitly. */
  lemma {:induction false} CurrentIsLastSelection(ttl: real, es: seq<Event>, n: nat, sessionKey: string, i: nat,
      what: Selected)
    requires n <= |es| && LastSelection(ttl, es, n, sessionKey, i, what)
    ensures var s := AfterAll(ttl, es[..n]);
            && sessionKey in s.selected && s.selected[sessionKey] == what
            && forall who :: Current(s, sessionKey, who) == if who == what.identity then Some(what.projectId) else None
    decreases n
  {
    hide ResultOf;
    assert es[..n][..n - 1] == es[..n - 1];
    if i < n - 1 {
      CurrentIsLastSelection(ttl, es, n - 1, sessionKey, i, what);
      var e := es[n - 1];
      if e.Resolve? || e.Explicit? {
        assert !SelectsAt(ttl, es, n - 1, sessionKey, Selected(e.identity, e.projectId));
      }
      OthersKeepSelection(ttl, AfterAll(ttl, es[..n - 1]), e, sessionKey);
    } else {
      OthersKeepSelection(ttl, AfterAll(ttl, es[..n - 1]), es[n - 1], sessionKey);
    }
  }

  /** Before anything is selected in a session, it has no project. */
  lemma {:induction false} NothingSelectedYet(ttl: real, es: seq<Event>, n: nat, sessionKey: string)
    requires n <= |es| && forall j, what :: 0 <= j < n ==> !SelectsAt(ttl, es, j, sessionKey, what)
    ensures sessionKey !in AfterAll(ttl, es[..n]).selected
    ensures forall who :: Current(AfterAll(ttl, es[..n]), sessionKey, who) == None
    decreases n
  {
    hide ResultOf;
    if n > 0 {
      assert es[..n][..n - 1] == es[..n - 1];
      NothingSelectedYet(ttl, es, n - 1, sessionKey);
      var e := es[n - 1];
      if e.Resolve? || e.Explicit? {
        assert !SelectsAt(ttl, es, n - 1, sessionKey, Selected(e.identity, e.projectId));
      }
      OthersKeepSelection(ttl, AfterAll(ttl, es[..n - 1]), e, sessionKey);
    }
  }

  lemma OthersKeepSelection(ttl: real, s: State, e: Event, sessionKey: string)
    ensures var s' := After(ttl, s, e);
            if (e.Resolve? && ResultOf(ttl, s, e).Chosen? && ResultOf(ttl, s, e).sessionKey == sessionKey)
               || (e.Explicit? && e.sessionKey == sessionKey && e.projectId in e.authorized)
            then sessionKey in s'.selected && s'.selected[sessionKey] == Selected(e.identity, e.projectId)
            else (sessionKey in s'.selected <==> sessionKey in s.selected)
                 && (sessionKey in s.selected ==> s'.selected[sessionKey] == s.selected[sessionKey])
  {
  }
}
