/** What rewriting does to the calls of the file tools. The paths in the headers of a patch are read without
    the blanks around them, also when the patch has been rewritten, and that can change what they mean. */
module Rewriting {
  import opened Options
  import opened Text
  import opened Guard

  // ---------- Reading the text of a place from a header ----------

  /** The text of a place up to its last name. */
  function Head(anchor: nat, init: seq<string>): string {
    Slashes(anchor) + Slashed(init) + (if init == [] then "" else "/")
  }

  lemma {:induction false} SlashedOfAppend(init: seq<string>, last: string)
    ensures Slashed(init + [last]) == Slashed(init) + (if init == [] then "" else "/") + last
  {
    if init == [] {
      assert init + [last] == [last];
      assert Slashed(init) + "" + last == last;
    } else {
      SlashedOfAppend(init[1..], last);
      assert (init + [last])[1..] == init[1..] + [last];
    }
  }

  lemma PrintIsHeadAndLast(p: Place)
    requires p.names != []
    ensures Print(p) == Head(p.anchor, p.names[..|p.names| - 1]) + p.names[|p.names| - 1]
  {
    var init, last := p.names[..|p.names| - 1], p.names[|p.names| - 1];
    SlashedOfAppend(init, last);
    assert p.names == init + [last];
  }

  lemma {:induction false} TrimRightStopsAt(space: char -> bool, head: string, last: string)
    requires head != [] && !space(head[|head| - 1])
    ensures TrimRight(space, head + last) == head + TrimRight(space, last)
    decreases |last|
  {
    if last == [] {
      assert head + last == head;
      assert head + TrimRight(space, last) == head;
    } else if space(last[|last| - 1]) {
      TrimRightStopsAt(space, head, last[..|last| - 1]);
      assert (head + last)[..|head + last| - 1] == head + last[..|last| - 1];
    }
  }

  lemma {:induction false} NamesBeforeLast(init: seq<string>, last: string)
    requires init != [] && AllProper(init) && '/' !in last
    ensures Kept(Pieces(Slashed(init) + "/" + last)) == init + Kept([last])
  {
    hide Kept, Pieces, Slashed;
    var rest := if |init| == 1 then last else Slashed(init[1..]) + "/" + last;
    SlashedBeforeLast(init, last, rest);
    PiecesOfFirst(init[0], rest);
    KeptOfCons(init[0], Pieces(rest));
    if |init| == 1 {
      PiecesOfPlainName(last);
    } else {
      NamesBeforeLast(init[1..], last);
      assert init == [init[0]] + init[1..];
    }
  }

  lemma SlashedBeforeLast(init: seq<string>, last: string, rest: string)
    requires init != [] && rest == if |init| == 1 then last else Slashed(init[1..]) + "/" + last
    ensures Slashed(init) + "/" + last == init[0] + ("/" + rest)
  {
  }

  lemma PiecesOfFirst(name: string, rest: string)
    requires '/' !in name
    ensures Pieces(name + ("/" + rest)) == [name] + Pieces(rest)
  {
    hide Pieces;
    PiecesOfName(name, "/" + rest);
    PiecesOfSlash(rest);
    assert name + [] == name;
  }

  /** What follows the slashes of the anchor. */
  function Body(init: seq<string>, last: string): string {
    if init == [] then last else Slashed(init) + "/" + last
  }

  lemma HeadAndBody(anchor: nat, init: seq<string>, last: string)
    ensures Head(anchor, init) + last == Slashes(anchor) + Body(init, last)
  {
    var slashes, middle := Slashes(anchor), Slashed(init);
    if init == [] {
      assert slashes + middle + "" == slashes;
    } else {
      assert slashes + middle + "/" + last == slashes + (middle + "/" + last);
    }
  }

  lemma NamesOfBody(init: seq<string>, last: string)
    requires AllProper(init) && '/' !in last
    ensures Kept(Pieces(Body(init, last))) == init + Kept([last])
    ensures Body(init, last) != [] ==> Body(init, last)[0] != '/'
  {
    hide Kept, Pieces;
    if init == [] {
      PiecesOfPlainName(last);
    } else {
      NamesBeforeLast(init, last);
      assert Proper(init[0]) && Slashed(init)[0] == init[0][0];
    }
  }

  lemma ParseBehindSlashes(anchor: nat, body: string)
    requires 1 <= anchor <= 2 && (body != [] ==> body[0] != '/')
    ensures Parse(Slashes(anchor) + body) == Place(anchor, Kept(Pieces(body)))
  {
    hide Kept, Pieces;
    AnchorOfSlashes(anchor, body);
    NamesAfterSlash(body);
    NamesAfterSlash("/" + body);
    assert "//" + body == "/" + ("/" + body);
  }

  lemma ParseOfHeadAndLast(anchor: nat, init: seq<string>, last: string)
    requires 1 <= anchor <= 2 && AllProper(init) && '/' !in last
    ensures Parse(Head(anchor, init) + last) == Place(anchor, init + Kept([last]))
  {
    hide Kept, Pieces, Parse, Head, Body, Slashes;
    HeadAndBody(anchor, init, last);
    NamesOfBody(init, last);
    ParseBehindSlashes(anchor, Body(init, last));
  }

  predicate Resolves(p: Place) {
    1 <= p.anchor <= 2 && AllProper(p.names) && NoDots(p.names)
  }

  /** The place that the text of `p` stands for once the blanks at its end are gone. */
  function Reread(space: char -> bool, p: Place): Place {
    if p.names == [] then p
    else
      var init, last := p.names[..|p.names| - 1], TrimRight(space, p.names[|p.names| - 1]);
      if last == [] || last == "." then Place(p.anchor, init)
      else if last != ".." then Place(p.anchor, init + [last])
      else Place(p.anchor, if init == [] then [] else init[..|init| - 1])
  }

  lemma RereadOfPrint(space: char -> bool, home: Homes, root: Place, p: Place)
    requires Resolves(p) && !space('/')
    ensures Trim(space, Print(p)) != []
    ensures Locate(home, root, Trim(space, Print(p))) == Some(Reread(space, p))
  {
    hide Pieces, Print, TrimRight, TrimLeft, Up;
    if p.names == [] {
      PrintOfRoot(space, p);
      ParseOfPrint(p);
      UpOfResolved(p.names);
    } else {
      var init, last := p.names[..|p.names| - 1], p.names[|p.names| - 1];
      var head, short := Head(p.anchor, init), TrimRight(space, last);
      PrintIsHeadAndLast(p);
      HeadEndsInSlash(p.anchor, init);
      TrimOfHeadAndLast(space, head, last);
      ShortHasNoSlash(space, last);
      ParseOfHeadAndLast(p.anchor, init, short);
      UpOfResolved(init);
      UpOfLast(init, short);
    }
  }

  lemma PrintOfRoot(space: char -> bool, p: Place)
    requires 1 <= p.anchor <= 2 && p.names == [] && !space('/')
    ensures Print(p) != [] && Trim(space, Print(p)) == Print(p)
  {
    TrimKeeps(space, Print(p));
  }

  lemma HeadEndsInSlash(anchor: nat, init: seq<string>)
    requires 1 <= anchor <= 2
    ensures var head := Head(anchor, init); head != [] && head[0] == '/' && head[|head| - 1] == '/'
  {
  }

  lemma TrimOfHeadAndLast(space: char -> bool, head: string, last: string)
    requires head != [] && !space(head[0]) && !space(head[|head| - 1])
    ensures Trim(space, head + last) == head + TrimRight(space, last)
  {
    TrimRightStopsAt(space, head, last);
  }

  lemma ShortHasNoSlash(space: char -> bool, name: string)
    requires '/' !in name
    ensures '/' !in TrimRight(space, name)
  {
    var n := TrimRightTo(space, name);
  }

  lemma KeptOfOne(name: string)
    ensures Kept([name]) == if name == [] || name == "." then [] else [name]
  {
  }

  lemma UpOfLast(init: seq<string>, last: string)
    requires Up(init) == init
    ensures Up(init + Kept([last])) ==
              if last == [] || last == "." then init
              else if last != ".." then init + [last]
              else if init == [] then []
              else init[..|init| - 1]
  {
    hide Kept;
    KeptOfOne(last);
    if last == [] || last == "." {
      assert init + Kept([last]) == init;
    } else {
      var all := init + [last];
      assert all[..|all| - 1] == init && all[|all| - 1] == last;
    }
  }

  // ---------- Staying inside ----------

  predicate EndsBlank(space: char -> bool, s: string) {
    s != [] && space(s[|s| - 1])
  }

  /** The place is inside the root, but its text read from a header is not: it is the root itself with a
      blank at the end, or an entry of the root whose name is `..` and blanks. */
  predicate Escapes(space: char -> bool, root: Place, p: Place) {
    var top := Up(root.names);
    && top != []
    && p.names != []
    && (|| (p.names == top && EndsBlank(space, top[|top| - 1]))
        || (|p.names| == |top| + 1 && TrimRight(space, p.names[|p.names| - 1]) == ".."))
  }

  lemma ProperLast(p: Place)
    requires AllProper(p.names) && NoDots(p.names) && p.names != []
    ensures var name := p.names[|p.names| - 1]; name != [] && name != "." && name != ".."
  {
    assert Proper(p.names[|p.names| - 1]);
  }

  lemma RereadStaysInsideIff(space: char -> bool, root: Place, p: Place)
    requires Resolves(p) && Inside(p, root)
    ensures Inside(Reread(space, p), root) <==> !Escapes(space, root, p)
  {
    hide Up, AllProper, NoDots, TrimRight, EndsBlank;
    var top := Up(root.names);
    if p.names != [] {
      var init, name := p.names[..|p.names| - 1], p.names[|p.names| - 1];
      var short, q := TrimRight(space, name), Reread(space, p).names;
      BlankEndIsTrimmed(space, name);
      ProperLast(p);
      assert p.names == init + [name];
      if p.names != top {
        assert top <= init;
        assert |top| < |init| ==> top <= init[..|init| - 1];
        assert top <= init + [short];
      } else if |q| == |top| {
        assert q == init + [short] && q[|init|] == short && top[|init|] == name;
        assert top <= q ==> top[|init|] == q[|init|];
      }
    }
  }

  lemma BlankEndIsTrimmed(space: char -> bool, s: string)
    ensures EndsBlank(space, s) <==> TrimRight(space, s) != s
  {
    if EndsBlank(space, s) {
      var n := TrimRightTo(space, s[..|s| - 1]);
    }
  }

  // ---------- Calls with one path ----------

  lemma AbsoluteTextsAreNotBlank(space: char -> bool, s: string)
    requires "/" <= s && !space('/')
    ensures Trim(space, s) != [] && "/" <= Trim(space, s)
  {
    TrimRightKeeps(space, s);
  }

  lemma RewrittenIsLocated(home: Homes, root: Place, value: string)
    ensures Rewritten(home, root, value).Some? <==> Locate(home, root, value).Some?
    ensures Locate(home, root, value).Some? ==>
        Rewritten(home, root, value) == Some(Print(Locate(home, root, value).value))
  {
  }

  /** An allowed call with one path keeps its tool and gets the text of the place that its path stands for,
      below the directory that it belongs in. It is still allowed, and rewriting it again changes nothing. */
  lemma RewrittenPathStaysAllowed(space: char -> bool, home: Homes, scope: Scope, c: Call, root: Place)
    requires Allowed(space, home, scope, c) && !c.Patch? && BelongsIn(scope, c, root) && RootOk(root) && !space('/')
    ensures var r := RewrittenCall(space, home, scope, c);
            var place := Locate(home, root, if c.path.Text? then c.path.s else ".");
            && r.Some? && place.Some? && Up(root.names) <= place.value.names && place.value.anchor == root.anchor
            && r.value == c.(path := Text(Print(place.value)))
            && Locate(home, root, Print(place.value)) == place
            && StaysIn(space, home, r.value, root) && Allowed(space, home, scope, r.value)
            && RewrittenCall(space, home, scope, r.value) == r
  {
    hide Locate, Rewritten, Trim, Up, StaysIn, Print;
    var target := Targets(space, c)[0];
    assert TargetOk(space, home, root, target);
    RewrittenIsLocated(home, root, target.value);
    RewritingKeepsThePlace(home, root, target.value);
    var r := Rewritten(home, root, target.value).value;
    AbsoluteTextsAreNotBlank(space, r);
    var call := RewrittenCall(space, home, scope, c).value;
    assert call == c.(path := Text(r));
    assert Targets(space, call) == [Some(r)];
    assert forall other :: BelongsIn(scope, call, other) <==> other == root;
    AllowedIff(space, home, scope, call);
  }

  // ---------- Patches ----------

  /** `news` holds, path by path, what the trimmed `olds` are rewritten to. */
  predicate RewrittenTo(space: char -> bool, home: Homes, root: Place, olds: seq<string>, news: seq<string>) {
    && |olds| == |news|
    && forall i :: 0 <= i < |olds| ==> Rewritten(home, root, Trim(space, olds[i])) == Some(news[i])
  }

  lemma RewrittenToAppend(space: char -> bool, home: Homes, root: Place, a: seq<string>, a': seq<string>,
      b: seq<string>, b': seq<string>)
    requires RewrittenTo(space, home, root, a, a') && RewrittenTo(space, home, root, b, b')
    ensures RewrittenTo(space, home, root, a + b, a' + b')
  {
    hide Rewritten, Trim;
  }

  /** The headers of a rewritten patch hold the rewritten paths, in the order in which they are checked. */
  lemma {:induction false} HeadersAreRewritten(space: char -> bool, home: Homes, root: Place, headers: seq<Header>)
    requires RewrittenHeaders(space, home, root, headers).Some?
    ensures var r := RewrittenHeaders(space, home, root, headers).value;
            && RewrittenTo(space, home, root, FilePaths(headers), FilePaths(r))
            && RewrittenTo(space, home, root, MovePaths(headers), MovePaths(r))
  {
    if headers != [] {
      hide Rewritten, Trim, RewrittenTo;
      var h, rest := headers[0], headers[1..];
      var h' := RewrittenHeader(space, home, root, h).value;
      var rest' := RewrittenHeaders(space, home, root, rest).value;
      HeadersAreRewritten(space, home, root, rest);
      HeaderIsRewritten(space, home, root, h);
      RewrittenToAppend(space, home, root, FilePaths([h]), FilePaths([h']), FilePaths(rest), FilePaths(rest'));
      RewrittenToAppend(space, home, root, MovePaths([h]), MovePaths([h']), MovePaths(rest), MovePaths(rest'));
      PathsOfCons(h, rest);
      PathsOfCons(h', rest');
    }
  }

  lemma PathsOfCons(h: Header, rest: seq<Header>)
    ensures FilePaths([h] + rest) == FilePaths([h]) + FilePaths(rest)
    ensures MovePaths([h] + rest) == MovePaths([h]) + MovePaths(rest)
  {
    assert ([h] + rest)[1..] == rest;
  }

  lemma HeaderIsRewritten(space: char -> bool, home: Homes, root: Place, h: Header)
    requires RewrittenHeader(space, home, root, h).Some?
    ensures var h' := RewrittenHeader(space, home, root, h).value;
            && RewrittenTo(space, home, root, FilePaths([h]), FilePaths([h']))
            && RewrittenTo(space, home, root, MovePaths([h]), MovePaths([h']))
  {
    hide Rewritten, Trim;
  }

  lemma {:induction false} HeaderPathsAreListed(headers: seq<Header>, i: nat)
    requires i < |headers|
    ensures headers[i].FileHeader? ==> headers[i].path in FilePaths(headers)
    ensures headers[i].MoveHeader? ==> headers[i].src in MovePaths(headers) && headers[i].dst in MovePaths(headers)
  {
    if i > 0 {
      HeaderPathsAreListed(headers[1..], i - 1);
    }
  }

  /** A patch can be rewritten when all its targets can be located. */
  lemma LocatedPatchIsRewritten(space: char -> bool, home: Homes, root: Place, headers: seq<Header>)
    requires forall t :: t in PathsOf(headers) ==> Locate(home, root, Trim(space, t)).Some?
    ensures RewrittenHeaders(space, home, root, headers).Some?
  {
    hide Locate, Rewritten, Trim;
    forall i | 0 <= i < |headers| ensures RewrittenHeader(space, home, root, headers[i]).Some? {
      HeaderPathsAreListed(headers, i);
      match headers[i]
      case FileHeader(path) =>
        RewrittenIsLocated(home, root, Trim(space, path));
      case MoveHeader(src, dst) =>
        RewrittenIsLocated(home, root, Trim(space, src));
        RewrittenIsLocated(home, root, Trim(space, dst));
    }
  }

  /** The place that a path of a patch stands for. */
  function PlaceOf(space: char -> bool, home: Homes, root: Place, path: string): Option<Place> {
    Locate(home, root, Trim(space, path))
  }

  /** `path'` is the text of the place inside the root that `path` stands for, and read from its header it
      stands for that place with the blanks at its end gone. */
  predicate PinnedTo(space: char -> bool, home: Homes, root: Place, path: string, path': string) {
    var place := PlaceOf(space, home, root, path);
    && place.Some? && Inside(place.value, root)
    && path' == Print(place.value)
    && Locate(home, root, path') == place
    && PlaceOf(space, home, root, path') == Some(Reread(space, place.value))
  }

  lemma PathIsPinned(space: char -> bool, home: Homes, root: Place, path: string, path': string)
    requires RootOk(root) && !space('/') && Rewritten(home, root, Trim(space, path)) == Some(path')
    requires TargetOk(space, home, root, Some(Trim(space, path)))
    ensures PinnedTo(space, home, root, path, path')
    ensures var place := PlaceOf(space, home, root, path).value;
            TargetOk(space, home, root, Some(Trim(space, path'))) <==> !Escapes(space, root, place)
  {
    hide Locate, Rewritten, Inside, Trim, Reread, Escapes, Print;
    var place := PlaceOf(space, home, root, path).value;
    RewrittenIsLocated(home, root, Trim(space, path));
    LocatedPlaces(home, root, Trim(space, path));
    RewritingKeepsThePlace(home, root, Trim(space, path));
    RereadOfPrint(space, home, root, place);
    AbsoluteTextsAreNotBlank(space, path');
    AbsoluteTextsAreNotBlank(space, Trim(space, path'));
    RereadStaysInsideIff(space, root, place);
  }

  /** Every path of a rewritten allowed patch is the text of the place inside the root that the original
      path stood for. Such a patch is still allowed exactly when none of these places escapes. */
  lemma RewrittenPatchStaysAllowedIff(space: char -> bool, home: Homes, scope: Scope, headers: seq<Header>)
    requires Allowed(space, home, scope, Patch(headers)) && RootOk(scope.worktree.value) && !space('/')
    ensures var root, r := scope.worktree.value, RewrittenCall(space, home, scope, Patch(headers));
            var paths := PathsOf(headers);
            && r.Some? && r.value.Patch?
            && |PathsOf(r.value.headers)| == |paths|
            && (forall i :: 0 <= i < |paths| ==> PinnedTo(space, home, root, paths[i], PathsOf(r.value.headers)[i]))
            && (Allowed(space, home, scope, r.value) <==>
                  forall i :: 0 <= i < |paths| ==> !Escapes(space, root, PlaceOf(space, home, root, paths[i]).value))
  {
    hide Locate, Rewritten, Inside, Trim, TargetOk, Escapes, PinnedTo, Blank;
    var root, paths := scope.worktree.value, PathsOf(headers);
    TargetsAreLocated(space, home, scope, headers);
    LocatedPatchIsRewritten(space, home, root, headers);
    var headers' := RewrittenHeaders(space, home, root, headers).value;
    var paths' := PathsOf(headers');
    HeadersAreRewritten(space, home, root, headers);
    RewrittenToAppend(space, home, root, FilePaths(headers), FilePaths(headers'), MovePaths(headers),
        MovePaths(headers'));
    forall i | 0 <= i < |paths|
      ensures PinnedTo(space, home, root, paths[i], paths'[i])
      ensures TargetOk(space, home, root, Targets(space, Patch(headers'))[i]) <==>
                !Escapes(space, root, PlaceOf(space, home, root, paths[i]).value)
    {
      assert TargetOk(space, home, root, Targets(space, Patch(headers))[i]);
      PathIsPinned(space, home, root, paths[i], paths'[i]);
    }
  }

  lemma TargetsAreLocated(space: char -> bool, home: Homes, scope: Scope, headers: seq<Header>)
    requires Allowed(space, home, scope, Patch(headers))
    ensures forall t :: t in PathsOf(headers) ==> Locate(home, scope.worktree.value, Trim(space, t)).Some?
  {
    hide Locate, Inside, Trim, Blank;
    var root, paths := scope.worktree.value, PathsOf(headers);
    forall i | 0 <= i < |paths| ensures Locate(home, root, Trim(space, paths[i])).Some? {
      assert TargetOk(space, home, root, Targets(space, Patch(headers))[i]);
    }
  }

  // ---------- Rewriting again ----------

  /** No path of the header ends in a blank. */
  predicate Tidy(space: char -> bool, h: Header) {
    match h
    case FileHeader(path) => !EndsBlank(space, path)
    case MoveHeader(src, dst) => !EndsBlank(space, src) && !EndsBlank(space, dst)
  }

  /** The text of a place, read from a header, stands for that place exactly when it ends in no blank. */
  lemma RereadIsSameIff(space: char -> bool, p: Place)
    requires Resolves(p) && !space('/')
    ensures Reread(space, p) == p <==> !EndsBlank(space, Print(p))
  {
    hide NoDots, AllProper;
    if p.names == [] {
      assert Print(p)[|Print(p)| - 1] == '/';
    } else {
      var init, name := p.names[..|p.names| - 1], p.names[|p.names| - 1];
      PrintIsHeadAndLast(p);
      ProperLast(p);
      assert Print(p)[|Print(p)| - 1] == name[|name| - 1];
      assert p.names == init + [name];
      BlankEndIsTrimmed(space, name);
      LengthOfReread(space, p);
    }
  }

  lemma LengthOfReread(space: char -> bool, p: Place)
    requires p.names != []
    ensures var last := p.names[|p.names| - 1];
            Reread(space, p) == p ==> TrimRight(space, last) == last
  {
    var init, short := p.names[..|p.names| - 1], TrimRight(space, p.names[|p.names| - 1]);
    assert Reread(space, p) == p ==> |Reread(space, p).names| == |p.names|;
    if |Reread(space, p).names| == |p.names| {
      assert Reread(space, p).names == init + [short];
      assert (init + [short])[|init|] == short;
    }
  }

  /** Two places with the same text are the same. */
  lemma PrintIsInjective(p: Place, q: Place)
    requires Resolves(p) && Resolves(q) && Print(p) == Print(q)
    ensures p == q
  {
    ParseOfPrint(p);
    ParseOfPrint(q);
  }

  lemma RereadResolves(space: char -> bool, p: Place)
    requires Resolves(p)
    ensures Resolves(Reread(space, p))
  {
    if p.names != [] {
      var n := TrimRightTo(space, p.names[|p.names| - 1]);
      assert Proper(p.names[|p.names| - 1]);
    }
  }

  lemma TextTwice(space: char -> bool, home: Homes, root: Place, value: string)
    requires RootOk(root) && Locate(home, root, value).Some? && !space('/')
    ensures var r := Rewritten(home, root, value).value;
            && Rewritten(home, root, Trim(space, r)).Some?
            && (Rewritten(home, root, Trim(space, r)) == Some(r) <==> !EndsBlank(space, r))
  {
    hide Locate, Rewritten, Trim, Resolves, Reread, Print, EndsBlank;
    var p := Locate(home, root, value).value;
    RewrittenIsLocated(home, root, value);
    LocatedPlaces(home, root, value);
    assert Resolves(p) by { LocatedResolves(p); }
    var r := Print(p);
    RereadOfPrint(space, home, root, p);
    RewrittenIsLocated(home, root, Trim(space, r));
    RereadResolves(space, p);
    RereadIsSameIff(space, p);
    if Print(Reread(space, p)) == r {
      PrintIsInjective(Reread(space, p), p);
    }
  }

  lemma LocatedResolves(p: Place)
    requires 1 <= p.anchor <= 2 && AllProper(p.names) && NoDots(p.names)
    ensures Resolves(p)
  {
  }

  lemma HeaderTwice(space: char -> bool, home: Homes, root: Place, h: Header)
    requires RootOk(root) && !space('/') && RewrittenHeader(space, home, root, h).Some?
    ensures var r := RewrittenHeader(space, home, root, h).value;
            && RewrittenHeader(space, home, root, r).Some?
            && (RewrittenHeader(space, home, root, r) == Some(r) <==> Tidy(space, r))
  {
    hide Locate, Rewritten, Trim, EndsBlank;
    match h
    case FileHeader(path) =>
      RewrittenIsLocated(home, root, Trim(space, path));
      TextTwice(space, home, root, Trim(space, path));
    case MoveHeader(src, dst) =>
      RewrittenIsLocated(home, root, Trim(space, src));
      RewrittenIsLocated(home, root, Trim(space, dst));
      TextTwice(space, home, root, Trim(space, src));
      TextTwice(space, home, root, Trim(space, dst));
  }

  /** A rewritten patch can be rewritten again, and that changes nothing exactly when no path in it ends in
      a blank. */
  lemma PatchTwiceIsOnceIff(space: char -> bool, home: Homes, scope: Scope, headers: seq<Header>)
    requires scope.worktree.Some? && RootOk(scope.worktree.value) && !space('/')
    requires RewrittenCall(space, home, scope, Patch(headers)).Some?
    ensures var r := RewrittenCall(space, home, scope, Patch(headers)).value;
            && r.Patch?
            && RewrittenCall(space, home, scope, r).Some?
            && (RewrittenCall(space, home, scope, r) == Some(r) <==>
                  forall i :: 0 <= i < |r.headers| ==> Tidy(space, r.headers[i]))
  {
    hide RewrittenHeader, Tidy;
    var root := scope.worktree.value;
    var r := RewrittenCall(space, home, scope, Patch(headers)).value;
    forall i | 0 <= i < |r.headers|
      ensures RewrittenHeader(space, home, root, r.headers[i]).Some?
      ensures RewrittenHeader(space, home, root, r.headers[i]) == Some(r.headers[i]) <==> Tidy(space, r.headers[i])
    {
      HeaderTwice(space, home, root, headers[i]);
    }
    var again := RewrittenHeaders(space, home, root, r.headers).value;
    assert again == r.headers <==> forall i :: 0 <= i < |again| ==> again[i] == r.headers[i];
  }

  // ---------- All calls ----------

  /** Rewriting an allowed call always succeeds and keeps the tool. The rewritten call is still allowed
      exactly when it is no patch with a place that escapes, and rewriting it again changes nothing exactly
      when it is no patch with a path that ends in a blank. */
  lemma RewrittenCallsStayAllowedIff(space: char -> bool, home: Homes, scope: Scope, c: Call, root: Place)
    requires Allowed(space, home, scope, c) && BelongsIn(scope, c, root) && RootOk(root) && !space('/')
    ensures var r := RewrittenCall(space, home, scope, c);
            && r.Some?
            && BelongsIn(scope, r.value, root) && r.value.Patch? == c.Patch?
            && (Allowed(space, home, scope, r.value) <==>
                  !(&& c.Patch?
                    && exists t ::
                         t in PathsOf(c.headers) && Escapes(space, root, PlaceOf(space, home, root, t).value)))
            && (RewrittenCall(space, home, scope, r.value) == r <==>
                  !(c.Patch? && exists h :: h in r.value.headers && !Tidy(space, h)))
  {
    hide Allowed, RewrittenCall, Escapes, Tidy, PinnedTo, PlaceOf, PathsOf;
    if c.Patch? {
      PatchHasWorktree(space, home, scope, c.headers);
      RewrittenPatchStaysAllowedIff(space, home, scope, c.headers);
      PatchTwiceIsOnceIff(space, home, scope, c.headers);
    } else {
      RewrittenPathStaysAllowed(space, home, scope, c, root);
    }
  }

  lemma PatchHasWorktree(space: char -> bool, home: Homes, scope: Scope, headers: seq<Header>)
    requires Allowed(space, home, scope, Patch(headers))
    ensures scope.worktree.Some?
    ensures forall t :: t in PathsOf(headers) ==> PlaceOf(space, home, scope.worktree.value, t).Some?
  {
    TargetsAreLocated(space, home, scope, headers);
  }

  // ---------- Two inputs ----------

  /** A name may end in a blank once the text around it is resolved away. */
  lemma BlankEndIsLocated(home: Homes, root: Place, name: string)
    requires RootOk(root) && NoDots(root.names) && Proper(name) && name != ".." && name[0] != '~'
    ensures Locate(home, root, name + "/.") == Some(Place(root.anchor, root.names + [name]))
  {
    PiecesOfName(name, "/.");
    PiecesOfSlash(".");
    PiecesOfPlainName(".");
    assert "/" + "." == "/." && name + [] == name;
    KeptOfCons(name, ["."]);
    assert Pieces(name + "/.") == [name] + ["."];
    assert Kept(["."]) == [] && [name] + [] == [name];
    UpOfResolved(root.names + [name]);
  }

  const IS_BLANK: char -> bool := c => c == ' '
  const WORK := Place(1, ["w"])

  lemma PrintBelow(a: string, b: string)
    ensures Print(Place(1, [a] + [b])) == "/" + a + "/" + b
  {
    assert [a] + [b] == [a, b] && [a, b][1..] == [b];
    assert Slashed([a, b]) == a + "/" + b;
    assert "/" + (a + "/" + b) == "/" + a + "/" + b;
  }

  lemma BelowWork(home: Homes, name: string, text: string)
    requires Proper(name) && name != ".." && name[0] != '~' && name[0] != ' ' && text == name + "/."
    ensures PlaceOf(IS_BLANK, home, WORK, text) == Some(Place(1, ["w", name]))
    ensures Trim(IS_BLANK, text) == text
    ensures Print(Place(1, ["w", name])) == "/" + "w" + "/" + name
  {
    TrimKeeps(IS_BLANK, text);
    BlankEndIsLocated(home, WORK, name);
    assert WORK.names + [name] == ["w", name];
    PrintBelow("w", name);
  }

  const IN_WORK := Scope(WORK, Some(WORK))

  /** The header path `a /.` below `/w` is rewritten to `/w/a `, which is read from the header as `/w/a`. */
  lemma BlankEndChangesThePlace(home: Homes)
    ensures var c, r := Patch([FileHeader("a /.")]), Patch([FileHeader("/w/a ")]);
            && Allowed(IS_BLANK, home, IN_WORK, c)
            && RewrittenCall(IS_BLANK, home, IN_WORK, c) == Some(r)
            && Allowed(IS_BLANK, home, IN_WORK, r)
            && PlaceOf(IS_BLANK, home, WORK, "a /.") == Some(Place(1, ["w", "a "]))
            && PlaceOf(IS_BLANK, home, WORK, "/w/a ") == Some(Reread(IS_BLANK, Place(1, ["w", "a "])))
            && Reread(IS_BLANK, Place(1, ["w", "a "])) == Place(1, ["w", "a"])
  {
    hide Locate, Trim, PlaceOf, Print, Allowed, RewrittenCall;
    BelowWork(home, "a ", "a /.");
    assert "/" + "w" + "/" + "a " == "/w/a ";
    TrimOfNames();
    OneHeader(home, "a /.", "a ", "/w/a ");
    assert ["w", "a "][..1] + ["a"] == ["w", "a"];
  }

  /** The header path `.. /.` below `/w` is allowed and rewritten to `/w/.. `, which is read from the header
      as the directory above `/w`, so that the rewritten call is blocked. */
  lemma RewrittenPatchMayBeBlocked(home: Homes)
    ensures var c, r := Patch([FileHeader(".. /.")]), Patch([FileHeader("/w/.. ")]);
            && Allowed(IS_BLANK, home, IN_WORK, c)
            && RewrittenCall(IS_BLANK, home, IN_WORK, c) == Some(r)
            && !Allowed(IS_BLANK, home, IN_WORK, r)
            && PlaceOf(IS_BLANK, home, WORK, "/w/.. ") == Some(Reread(IS_BLANK, Place(1, ["w", ".. "])))
            && Reread(IS_BLANK, Place(1, ["w", ".. "])) == Place(1, [])
  {
    hide Locate, Trim, PlaceOf, Print, Allowed, RewrittenCall;
    BelowWork(home, ".. ", ".. /.");
    assert "/" + "w" + "/" + ".. " == "/w/.. ";
    TrimOfNames();
    OneHeader(home, ".. /.", ".. ", "/w/.. ");
  }

  lemma TrimOfNames()
    ensures TrimRight(IS_BLANK, "a ") == "a" && TrimRight(IS_BLANK, ".. ") == ".."
  {
    var a, dots := "a ", ".. ";
    assert a[..1] == "a" && a[1] == ' ' && dots[..2] == ".." && dots[2] == ' ';
    assert TrimRight(IS_BLANK, "a") == "a" && TrimRight(IS_BLANK, "..") == "..";
  }

  /** A patch with one header, for an entry of `/w`. */
  lemma OneHeader(home: Homes, text: string, name: string, text': string)
    requires PlaceOf(IS_BLANK, home, WORK, text) == Some(Place(1, ["w", name]))
    requires text' == Print(Place(1, ["w", name])) && Trim(IS_BLANK, text) != []
    ensures var c, r := Patch([FileHeader(text)]), Patch([FileHeader(text')]);
            && Allowed(IS_BLANK, home, IN_WORK, c)
            && RewrittenCall(IS_BLANK, home, IN_WORK, c) == Some(r)
            && (Allowed(IS_BLANK, home, IN_WORK, r) <==> TrimRight(IS_BLANK, name) != "..")
            && PlaceOf(IS_BLANK, home, WORK, text') == Some(Reread(IS_BLANK, Place(1, ["w", name])))
  {
    hide Locate, Trim, Print, Reread, TrimRight, TargetOk, Escapes;
    var headers := [FileHeader(text)];
    OneTarget(home, text);
    EntryOfWork(home, text, name);
    RewrittenPatchStaysAllowedIff(IS_BLANK, home, IN_WORK, headers);
    var headers' := RewrittenHeaders(IS_BLANK, home, WORK, headers).value;
    assert headers' == [headers'[0]] && RewrittenHeader(IS_BLANK, home, WORK, headers[0]) == Some(headers'[0]);
    OneTarget(home, headers'[0].path);
    assert PinnedTo(IS_BLANK, home, WORK, text, headers'[0].path);
  }

  lemma OneTarget(home: Homes, text: string)
    ensures PathsOf([FileHeader(text)]) == [text]
    ensures Targets(IS_BLANK, Patch([FileHeader(text)])) == [Some(Trim(IS_BLANK, text))]
  {
    hide Trim;
    var h := FileHeader(text);
    assert [h][1..] == [];
    assert FilePaths([h]) == [text] && MovePaths([h]) == [];
  }

  lemma EntryOfWork(home: Homes, text: string, name: string)
    requires PlaceOf(IS_BLANK, home, WORK, text) == Some(Place(1, ["w", name])) && Trim(IS_BLANK, text) != []
    ensures TargetOk(IS_BLANK, home, WORK, Some(Trim(IS_BLANK, text)))
    ensures Escapes(IS_BLANK, WORK, Place(1, ["w", name])) <==> TrimRight(IS_BLANK, name) == ".."
  {
    hide Locate, Trim, TrimRight;
    UpOfResolved(["w"]);
    TrimIsTrimmed(text);
    assert WORK.names == ["w"] && ["w"] <= ["w", name] && ["w", name][1] == name;
  }

  lemma TrimIsTrimmed(text: string)
    ensures Trim(IS_BLANK, Trim(IS_BLANK, text)) == Trim(IS_BLANK, text)
  {
    var l := TrimLeft(IS_BLANK, text);
    var k := TrimLeftFrom(IS_BLANK, text);
    var n := TrimRightTo(IS_BLANK, l);
    if l != [] {
      TrimRightKeeps(IS_BLANK, l);
    }
    TrimKeeps(IS_BLANK, Trim(IS_BLANK, text));
  }
}
