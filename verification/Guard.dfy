/** The guard of the file tools: a path text is resolved to a place, allowed when the place is inside the
    authorised root, and rewritten to the text of that place. There are no links: resolving is lexical.
    `space` stands for the characters that `str.strip` removes, `home` for the look-up of home directories. */
module Guard {
  import opened Options
  import opened Text

  // ---------- Path texts ----------

  /** A POSIX path: no anchor, `/` or `//`, and the names below it. */
  datatype Place = Place(anchor: nat, names: seq<string>)

  function Pieces(s: string): (pieces: seq<string>)
    ensures pieces != []
  {
    if s == [] then [[]]
    else
      var rest := Pieces(s[1..]);
      if s[0] == '/' then [[]] + rest else [[s[0]] + rest[0]] + rest[1..]
  }

  predicate Proper(name: string) {
    name != [] && name != "." && '/' !in name
  }

  predicate AllProper(names: seq<string>) {
    forall i :: 0 <= i < |names| ==> Proper(names[i])
  }

  function Kept(pieces: seq<string>): seq<string> {
    if pieces == [] then []
    else (if pieces[0] == [] || pieces[0] == "." then [] else [pieces[0]]) + Kept(pieces[1..])
  }

  function Anchor(s: string): nat {
    if "///" <= s then 1 else if "//" <= s then 2 else if "/" <= s then 1 else 0
  }

  function Parse(s: string): Place {
    Place(Anchor(s), Kept(Pieces(s)))
  }

  function Slashed(names: seq<string>): string {
    if names == [] then [] else if |names| == 1 then names[0] else names[0] + "/" + Slashed(names[1..])
  }

  function Slashes(anchor: nat): string {
    if anchor == 0 then "" else if anchor == 1 then "/" else "//"
  }

  function Print(p: Place): string {
    Slashes(p.anchor) + Slashed(p.names)
  }

  lemma {:induction false} PiecesHaveNoSlash(s: string)
    ensures forall i :: 0 <= i < |Pieces(s)| ==> '/' !in Pieces(s)[i]
  {
    if s != [] {
      PiecesHaveNoSlash(s[1..]);
    }
  }

  lemma {:induction false} KeptIsProper(pieces: seq<string>)
    requires forall i :: 0 <= i < |pieces| ==> '/' !in pieces[i]
    ensures AllProper(Kept(pieces))
  {
    if pieces != [] {
      KeptIsProper(pieces[1..]);
    }
  }

  lemma KeptOfCons(piece: string, pieces: seq<string>)
    ensures Kept([piece] + pieces) == (if piece == [] || piece == "." then [] else [piece]) + Kept(pieces)
  {
    assert ([piece] + pieces)[1..] == pieces;
  }

  lemma {:induction false} PiecesOfName(name: string, s: string)
    requires '/' !in name
    ensures Pieces(name + s) == [name + Pieces(s)[0]] + Pieces(s)[1..]
  {
    if name == [] {
      assert name + s == s;
      assert name + Pieces(s)[0] == Pieces(s)[0];
    } else {
      PiecesOfName(name[1..], s);
      assert (name + s)[1..] == name[1..] + s;
      assert [name[0]] + (name[1..] + Pieces(s)[0]) == name + Pieces(s)[0];
    }
  }

  lemma PiecesOfPlainName(name: string)
    requires '/' !in name
    ensures Pieces(name) == [name]
  {
    PiecesOfName(name, []);
    assert name + [] == name;
  }

  lemma PiecesOfSlash(s: string)
    ensures Pieces("/" + s) == [[]] + Pieces(s)
  {
    var t := "/" + s;
    assert t[0] == '/' && t[1..] == s;
  }

  lemma NamesAfterSlash(s: string)
    ensures Kept(Pieces("/" + s)) == Kept(Pieces(s))
  {
    PiecesOfSlash(s);
    var pieces := Pieces("/" + s);
    assert pieces[0] == [] && pieces[1..] == Pieces(s);
    assert Kept(pieces) == [] + Kept(pieces[1..]) == Kept(pieces[1..]);
  }

  lemma {:induction false} NamesOfSlashed(names: seq<string>)
    requires AllProper(names)
    ensures Kept(Pieces(Slashed(names))) == names
  {
    if names == [] {
    } else if |names| == 1 {
      PiecesOfPlainName(names[0]);
    } else {
      hide Kept;
      NamesOfSlashed(names[1..]);
      var rest := "/" + Slashed(names[1..]);
      PiecesOfName(names[0], rest);
      assert names[0] + rest == Slashed(names);
      PiecesOfSlash(Slashed(names[1..]));
      assert names[0] + [] == names[0];
      assert Pieces(Slashed(names)) == [names[0]] + Pieces(Slashed(names[1..]));
      KeptOfCons(names[0], Pieces(Slashed(names[1..])));
    }
  }

  lemma AnchorOfSlashes(anchor: nat, body: string)
    requires 1 <= anchor <= 2 && (body != [] ==> body[0] != '/')
    ensures Anchor(Slashes(anchor) + body) == anchor
  {
    var s := Slashes(anchor) + body;
    assert |s| >= 3 ==> s[2] == (if anchor == 1 then body[1] else body[0]);
    assert |s| >= 2 && anchor == 1 ==> s[1] == body[0];
  }

  /** Printing an absolute place and parsing the text gives the place back. */
  lemma ParseOfPrint(p: Place)
    requires 1 <= p.anchor <= 2 && AllProper(p.names)
    ensures Parse(Print(p)) == p
  {
    hide Pieces, Kept;
    var body := Slashed(p.names);
    NamesOfSlashed(p.names);
    if p.names != [] {
      assert Proper(p.names[0]) && body[0] == p.names[0][0];
    }
    AnchorOfSlashes(p.anchor, body);
    NamesAfterSlash(body);
    NamesAfterSlash("/" + body);
    assert "//" + body == "/" + ("/" + body);
  }

  // ---------- Resolving ----------

  /** `..` leads to the directory above, and from the top to the top. */
  function Up(names: seq<string>): seq<string> {
    if names == [] then []
    else
      var above, last := Up(names[..|names| - 1]), names[|names| - 1];
      if last != ".." then above + [last]
      else if above == [] then []
      else above[..|above| - 1]
  }

  predicate NoDots(names: seq<string>) {
    forall i :: 0 <= i < |names| ==> names[i] != ".."
  }

  lemma {:induction false} UpIsResolved(names: seq<string>)
    requires AllProper(names)
    ensures AllProper(Up(names)) && NoDots(Up(names))
  {
    if names != [] {
      UpIsResolved(names[..|names| - 1]);
    }
  }

  lemma {:induction false} UpOfResolved(names: seq<string>)
    requires NoDots(names)
    ensures Up(names) == names
  {
    if names != [] {
      UpOfResolved(names[..|names| - 1]);
      assert names == names[..|names| - 1] + [names[|names| - 1]];
    }
  }

  function Joined(root: Place, p: Place): Place {
    if p.anchor != 0 then p else Place(root.anchor, root.names + p.names)
  }

  function Resolved(p: Place): Place {
    Place(p.anchor, Up(p.names))
  }

  type Homes = string -> Option<string>

  /** `expanduser`: fails for a home directory that cannot be found. */
  function Expanded(home: Homes, p: Place): Option<Place> {
    if p.anchor == 0 && p.names != [] && "~" <= p.names[0] then
      (match home(p.names[0])
       case None => None
       case Some(text) => Some(Place(Parse(text).anchor, Parse(text).names + p.names[1..])))
    else Some(p)
  }

  /** The place that a path text stands for. */
  function Locate(home: Homes, root: Place, value: string): Option<Place> {
    match Expanded(home, Parse(value))
    case None => None
    case Some(p) => Some(Resolved(Joined(root, p)))
  }

  /** The text that a path text is rewritten to. */
  function Rewritten(home: Homes, root: Place, value: string): Option<string> {
    match Locate(home, root, value)
    case None => None
    case Some(p) => Some(Print(p))
  }

  predicate RootOk(root: Place) {
    1 <= root.anchor <= 2 && AllProper(root.names)
  }

  lemma ParseIsProper(s: string)
    ensures AllProper(Parse(s).names) && Parse(s).anchor <= 2
  {
    PiecesHaveNoSlash(s);
    KeptIsProper(Pieces(s));
  }

  lemma LocatedPlaces(home: Homes, root: Place, value: string)
    requires RootOk(root) && Locate(home, root, value).Some?
    ensures var p := Locate(home, root, value).value; 1 <= p.anchor <= 2 && AllProper(p.names) && NoDots(p.names)
  {
    hide AllProper, NoDots, Up;
    ParseIsProper(value);
    var parsed := Parse(value);
    var expanded := Expanded(home, parsed).value;
    assert AllProper(expanded.names) && expanded.anchor <= 2 by {
      if expanded != parsed {
        ParseIsProper(home(parsed.names[0]).value);
        ProperOfParts(Parse(home(parsed.names[0]).value).names, parsed.names);
      }
    }
    ProperOfAppend(root.names, expanded.names);
    UpIsResolved(Joined(root, expanded).names);
  }

  lemma ProperOfAppend(a: seq<string>, b: seq<string>)
    requires AllProper(a) && AllProper(b)
    ensures AllProper(a + b)
  {
  }

  lemma ProperOfParts(a: seq<string>, b: seq<string>)
    requires AllProper(a) && AllProper(b) && b != []
    ensures AllProper(a + b[1..])
  {
  }

  /** The text of a resolved absolute place stands for that place, under any root. */
  lemma LocateOfPrint(home: Homes, root: Place, p: Place)
    requires 1 <= p.anchor <= 2 && AllProper(p.names) && NoDots(p.names)
    ensures Locate(home, root, Print(p)) == Some(p)
  {
    ParseOfPrint(p);
    UpOfResolved(p.names);
  }

  /** Rewriting a path keeps the place that it stands for, and rewriting again changes nothing. */
  lemma RewritingKeepsThePlace(home: Homes, root: Place, value: string)
    requires RootOk(root) && Locate(home, root, value).Some?
    ensures var r := Rewritten(home, root, value).value;
            && Locate(home, root, r) == Locate(home, root, value)
            && Rewritten(home, root, r) == Some(r)
            && "/" <= r
  {
    LocatedPlaces(home, root, value);
    LocateOfPrint(home, root, Locate(home, root, value).value);
  }

  // ---------- What path texts mean ----------

  lemma PiecesOfCons(c: char, s: string)
    ensures Pieces([c] + s) ==
              if c == '/' then [[]] + Pieces(s) else [[c] + Pieces(s)[0]] + Pieces(s)[1..]
  {
    assert ([c] + s)[1..] == s;
  }

  lemma {:induction false} PiecesOfJoin(a: string, b: string)
    ensures Pieces(a + "/" + b) == Pieces(a) + Pieces(b)
    decreases |a|
  {
    hide Pieces;
    if a == [] {
      PiecesOfSlash(b);
      PiecesOfPlainName(a);
      assert a + "/" + b == "/" + b && [a] == [[]];
    } else {
      var pieces, rest := Pieces(a[1..]), a[1..] + "/" + b;
      PiecesOfJoin(a[1..], b);
      PiecesOfCons(a[0], rest);
      PiecesOfCons(a[0], a[1..]);
      assert a + "/" + b == [a[0]] + rest && a == [a[0]] + a[1..];
      assert (pieces + Pieces(b))[1..] == pieces[1..] + Pieces(b);
    }
  }

  lemma {:induction false} KeptOfConcat(a: seq<string>, b: seq<string>)
    ensures Kept(a + b) == Kept(a) + Kept(b)
    decreases |a|
  {
    if a == [] {
      assert a + b == b;
    } else {
      hide Kept;
      KeptOfConcat(a[1..], b);
      KeptOfCons(a[0], a[1..] + b);
      KeptOfCons(a[0], a[1..]);
      assert a + b == [a[0]] + (a[1..] + b) && a == [a[0]] + a[1..];
    }
  }

  /** The names of a path are those before a slash and those behind it; a name alone is one name, unless it
      is empty or a dot. A text with one slash in front, or with three or more, has the anchor `/`. */
  lemma NamesOfJoin(a: string, b: string)
    ensures Parse(a + "/" + b).names == Parse(a).names + Parse(b).names
    ensures '/' !in a ==> Parse(a).names == if a == [] || a == "." then [] else [a]
    ensures a == [] || a[0] != '/' ==> Parse(a).anchor == 0
    ensures a == [] || a[0] != '/' ==> Parse("/" + a).anchor == 1 && Parse("//" + a).anchor == 2
    ensures Parse("///" + a).anchor == 1
  {
    PiecesOfJoin(a, b);
    KeptOfConcat(Pieces(a), Pieces(b));
    if '/' !in a {
      PiecesOfPlainName(a);
      KeptOfCons(a, []);
      assert [a] + [] == [a];
    }
    AnchorOfSlashes(1, if a == [] || a[0] != '/' then a else []);
    AnchorOfSlashes(2, if a == [] || a[0] != '/' then a else []);
  }

  lemma {:induction false} UpOfConcat(a: seq<string>, b: seq<string>)
    ensures Up(a + b) == Up(Up(a) + b)
    decreases |b|
  {
    if b == [] {
      assert a + b == a && Up(a) + b == Up(a);
      UpTwice(a);
    } else {
      var init, last := b[..|b| - 1], b[|b| - 1];
      UpOfConcat(a, init);
      assert (a + b)[..|a + b| - 1] == a + init && (Up(a) + b)[..|Up(a) + b| - 1] == Up(a) + init;
    }
  }

  lemma {:induction false} UpHasNoDots(names: seq<string>)
    ensures NoDots(Up(names))
    decreases |names|
  {
    if names != [] {
      UpHasNoDots(names[..|names| - 1]);
    }
  }

  lemma UpTwice(names: seq<string>)
    ensures Up(Up(names)) == Up(names)
  {
    UpHasNoDots(names);
    UpOfResolved(Up(names));
  }

  /** A name and the `..` behind it may be left out, and so may a `..` at the top. */
  lemma DotsCancel(a: seq<string>, name: string, b: seq<string>)
    requires name != ".."
    ensures Up(a + [name, ".."] + b) == Up(a + b)
    ensures Up([".."] + b) == Up(b)
  {
    var dotted := a + [name, ".."];
    assert dotted[..|dotted| - 1] == a + [name] && (a + [name])[..|a|] == a;
    assert Up(a + [name]) == Up(a) + [name];
    assert Up(dotted) == Up(a);
    UpOfConcat(dotted, b);
    UpOfConcat(a, b);
    UpOfConcat([".."], b);
    assert [".."][..0] == [] && Up([".."]) == [] && [] + b == b;
  }

  /** A text with a slash in front means the same below every root. */
  lemma AbsoluteTextsIgnoreTheRoot(home: Homes, root: Place, other: Place, text: string)
    requires "/" <= text
    ensures Locate(home, root, text) == Locate(home, other, text) == Some(Resolved(Parse(text)))
  {
  }

  /** Any other text, unless it starts with a tilde, means a place below the root: the one that it means
      behind the text of the root. */
  lemma RelativeTextsGoBelowTheRoot(home: Homes, root: Place, other: Place, text: string)
    requires RootOk(root) && root.names != [] && (text == [] || text[0] != '/')
    requires Parse(text).names == [] || !("~" <= Parse(text).names[0])
    ensures Locate(home, root, text) == Locate(home, other, Print(root) + "/" + text)
  {
    hide Up, Pieces, Kept;
    var whole := Print(root) + "/" + text;
    NamesOfJoin(Print(root), text);
    ParseOfPrint(root);
    AnchorBehindPrint(root, "/" + text);
    assert whole == Print(root) + ("/" + text) && "/" <= whole;
    AbsoluteTextsIgnoreTheRoot(home, root, other, whole);
  }

  lemma AnchorBehindPrint(root: Place, rest: string)
    requires RootOk(root) && root.names != []
    ensures Anchor(Print(root) + rest) == root.anchor
  {
    var body := Slashed(root.names);
    assert Proper(root.names[0]) && body != [] && body[0] == root.names[0][0];
    AnchorOfSlashes(root.anchor, body + rest);
    assert Print(root) + rest == Slashes(root.anchor) + (body + rest);
  }

  /** A text that starts with a tilde means a place below the home directory, if there is one. */
  lemma HomeTextsGoBelowTheHome(home: Homes, root: Place, user: string, text: string, where: Place)
    requires "~" <= user && '/' !in user
    requires home(user) == Some(Print(where)) && RootOk(where) && where.names != []
    ensures Locate(home, root, user + "/" + text) == Locate(home, root, Print(where) + "/" + text)
  {
    hide Up, Pieces, Kept;
    NamesOfJoin(user, text);
    NamesOfJoin(Print(where), text);
    ParseOfPrint(where);
    AnchorBehindPrint(where, "/" + text);
    var whole := Print(where) + "/" + text;
    assert whole == Print(where) + ("/" + text) && "/" <= whole;
    AbsoluteTextsIgnoreTheRoot(home, root, root, whole);
    assert (user + "/" + text)[0] == '~';
    assert ([user] + Parse(text).names)[1..] == Parse(text).names;
  }

  lemma UnknownHomesHaveNoPlace(home: Homes, root: Place, user: string, text: string)
    requires "~" <= user && '/' !in user
    ensures Locate(home, root, user + "/" + text).None? <==> home(user).None?
  {
    hide Up, Pieces, Kept;
    NamesOfJoin(user, text);
    assert (user + "/" + text)[0] == '~';
  }

  // ---------- Calls of file tools ----------

  datatype Scope = Scope(project: Place, worktree: Option<Place>)

  /** The header lines that a patch text has; each path as it stands in the text. */
  datatype Header = FileHeader(path: string) | MoveHeader(src: string, dst: string)

  datatype Argument = Missing | NotText | Text(s: string)

  datatype Call =
    | Write(path: Argument)
    | Replace(path: Argument)
    | Patch(headers: seq<Header>)
    | ReadFile(path: Argument)
    | SearchFiles(path: Argument)

  predicate Mutates(c: Call) {
    c.Write? || c.Replace? || c.Patch?
  }

  function RootOf(scope: Scope, c: Call): Option<Place> {
    if Mutates(c) then scope.worktree else Some(scope.project)
  }

  /** The paths of the Update, Add and Delete headers, as they stand in the text. */
  function FilePaths(headers: seq<Header>): seq<string> {
    if headers == [] then []
    else (if headers[0].FileHeader? then [headers[0].path] else []) + FilePaths(headers[1..])
  }

  /** The paths of the Move headers, as they stand in the text. */
  function MovePaths(headers: seq<Header>): seq<string> {
    if headers == [] then []
    else (if headers[0].MoveHeader? then [headers[0].src, headers[0].dst] else []) + MovePaths(headers[1..])
  }

  /** The paths of a patch in the order in which they are checked: Move headers come last. */
  function PathsOf(headers: seq<Header>): seq<string> {
    FilePaths(headers) + MovePaths(headers)
  }

  function Trimmed(space: char -> bool, texts: seq<string>): (r: seq<string>)
    ensures |r| == |texts|
    ensures forall i :: 0 <= i < |texts| ==> r[i] == Trim(space, texts[i])
  {
    if texts == [] then [] else [Trim(space, texts[0])] + Trimmed(space, texts[1..])
  }

  function Given(a: Argument): Option<string> {
    if a.Text? then Some(a.s) else None
  }

  function AsGiven(texts: seq<string>): (r: seq<Option<string>>)
    ensures |r| == |texts|
    ensures forall i :: 0 <= i < |texts| ==> r[i] == Some(texts[i])
  {
    if texts == [] then [] else [Some(texts[0])] + AsGiven(texts[1..])
  }

  /** The path texts that are checked; nothing for a path that is not a text. */
  function Targets(space: char -> bool, c: Call): seq<Option<string>> {
    match c
    case Patch(headers) => AsGiven(Trimmed(space, PathsOf(headers)))
    case SearchFiles(path) => [if path.Missing? then Some(".") else Given(path)]
    case Write(path) => [Given(path)]
    case Replace(path) => [Given(path)]
    case ReadFile(path) => [Given(path)]
  }

  predicate Inside(p: Place, root: Place) {
    p.anchor == root.anchor && Up(root.names) <= p.names
  }

  predicate Blank(space: char -> bool, s: string) {
    Trim(space, s) == []
  }

  /** The target is a path text that stands for a place inside the root. */
  predicate TargetOk(space: char -> bool, home: Homes, root: Place, t: Option<string>) {
    t.Some? && !Blank(space, t.value) && Locate(home, root, t.value).Some?
        && Inside(Locate(home, root, t.value).value, root)
  }

  predicate Allowed(space: char -> bool, home: Homes, scope: Scope, c: Call) {
    var root := RootOf(scope, c);
    && root.Some?
    && Targets(space, c) != []
    && forall i :: 0 <= i < |Targets(space, c)| ==> TargetOk(space, home, root.value, Targets(space, c)[i])
  }

  /** The text is not blank and stands for the root or for a place below it. */
  ghost predicate Confined(space: char -> bool, home: Homes, root: Place, text: string) {
    && Trim(space, text) != []
    && exists below: seq<string> :: Locate(home, root, text) == Some(Place(root.anchor, Up(root.names) + below))
  }

  /** Both paths of a Move header, or the path of any other, with the blanks around them gone. */
  ghost predicate HeaderConfined(space: char -> bool, home: Homes, root: Place, h: Header) {
    match h
    case FileHeader(path) => Confined(space, home, root, Trim(space, path))
    case MoveHeader(src, dst) =>
      Confined(space, home, root, Trim(space, src)) && Confined(space, home, root, Trim(space, dst))
  }

  /** The directory that a call is meant to stay in: the worktree for a call that changes files, the project
      for one that reads. */
  ghost predicate BelongsIn(scope: Scope, c: Call, root: Place) {
    match c
    case Write(_) => scope.worktree == Some(root)
    case Replace(_) => scope.worktree == Some(root)
    case Patch(_) => scope.worktree == Some(root)
    case ReadFile(_) => scope.project == root
    case SearchFiles(_) => scope.project == root
  }

  /** There is a directory for the call, and every path in it is confined to that directory. */
  ghost predicate StaysIn(space: char -> bool, home: Homes, c: Call, root: Place) {
    match c
    case Write(path) => path.Text? && Confined(space, home, root, path.s)
    case Replace(path) => path.Text? && Confined(space, home, root, path.s)
    case ReadFile(path) => path.Text? && Confined(space, home, root, path.s)
    case SearchFiles(path) => if path.Missing? then Confined(space, home, root, ".")
        else path.Text? && Confined(space, home, root, path.s)
    case Patch(headers) =>
      headers != [] && forall i :: 0 <= i < |headers| ==> HeaderConfined(space, home, root, headers[i])
  }

  lemma TargetIsConfined(space: char -> bool, home: Homes, root: Place, text: string)
    ensures TargetOk(space, home, root, Some(text)) <==> Confined(space, home, root, text)
  {
    hide Locate, Trim, Up;
    if TargetOk(space, home, root, Some(text)) {
      var p := Locate(home, root, text).value;
      assert p == Place(root.anchor, Up(root.names) + p.names[|Up(root.names)|..]);
    }
  }

  lemma {:induction false} HeadersListTheirPaths(headers: seq<Header>, t: string)
    ensures t in PathsOf(headers) <==>
              exists i :: 0 <= i < |headers| &&
                match headers[i]
                case FileHeader(path) => t == path
                case MoveHeader(src, dst) => t == src || t == dst
  {
    if headers != [] {
      HeadersListTheirPaths(headers[1..], t);
      assert forall i :: 1 <= i < |headers| ==> headers[i] == headers[1..][i - 1];
    }
  }

  lemma HeadersAreConfined(space: char -> bool, home: Homes, root: Place, headers: seq<Header>)
    ensures (forall t :: t in PathsOf(headers) ==> Confined(space, home, root, Trim(space, t))) <==>
              forall i :: 0 <= i < |headers| ==> HeaderConfined(space, home, root, headers[i])
    ensures PathsOf(headers) == [] <==> headers == []
  {
    hide Confined, Trim, PathsOf;
    if forall i :: 0 <= i < |headers| ==> HeaderConfined(space, home, root, headers[i]) {
      forall t | t in PathsOf(headers) ensures Confined(space, home, root, Trim(space, t)) {
        HeadersListTheirPaths(headers, t);
        var i :| 0 <= i < |headers| &&
          match headers[i]
          case FileHeader(path) => t == path
          case MoveHeader(src, dst) => t == src || t == dst;
        assert HeaderConfined(space, home, root, headers[i]);
      }
    }
    forall i | 0 <= i < |headers|
      ensures (forall t :: t in PathsOf(headers) ==> Confined(space, home, root, Trim(space, t))) ==>
                HeaderConfined(space, home, root, headers[i])
    {
      match headers[i]
      case FileHeader(path) =>
        HeadersListTheirPaths(headers, path);
      case MoveHeader(src, dst) =>
        HeadersListTheirPaths(headers, src);
        HeadersListTheirPaths(headers, dst);
    }
    NoHeadersNoPaths(headers);
  }

  lemma NoHeadersNoPaths(headers: seq<Header>)
    ensures PathsOf(headers) == [] <==> headers == []
  {
  }

  lemma PatchIsAllowedIff(space: char -> bool, home: Homes, scope: Scope, headers: seq<Header>)
    requires scope.worktree.Some?
    ensures Allowed(space, home, scope, Patch(headers)) <==> StaysIn(space, home, Patch(headers), scope.worktree.value)
  {
    hide Confined, TargetOk, Trim, PathsOf, HeaderConfined;
    var root, paths, targets := scope.worktree.value, PathsOf(headers), Targets(space, Patch(headers));
    HeadersAreConfined(space, home, root, headers);
    forall i | 0 <= i < |paths|
      ensures TargetOk(space, home, root, targets[i]) <==> Confined(space, home, root, Trim(space, paths[i]))
    {
      TargetIsConfined(space, home, root, Trim(space, paths[i]));
    }
    assert (forall i :: 0 <= i < |targets| ==> TargetOk(space, home, root, targets[i])) <==>
           forall t :: t in paths ==> Confined(space, home, root, Trim(space, t));
  }

  /** A call is allowed exactly when it stays in the directory that it belongs in. */
  lemma AllowedIff(space: char -> bool, home: Homes, scope: Scope, c: Call)
    ensures Allowed(space, home, scope, c) <==>
              exists root :: BelongsIn(scope, c, root) && StaysIn(space, home, c, root)
  {
    hide Confined, TargetOk, Trim, PathsOf, HeaderConfined;
    if Mutates(c) && scope.worktree.None? {
      assert forall root :: !BelongsIn(scope, c, root);
    } else {
      var root := RootOf(scope, c).value;
      assert forall r :: BelongsIn(scope, c, r) <==> r == root;
      assert BelongsIn(scope, c, root);
      if c.Patch? {
        assert c == Patch(c.headers);
        PatchIsAllowedIff(space, home, scope, c.headers);
      } else {
        var targets := Targets(space, c);
        assert |targets| == 1;
        if targets[0].Some? {
          TargetIsConfined(space, home, root, targets[0].value);
        } else {
          assert !TargetOk(space, home, root, targets[0]) by { NoTextIsNoTarget(space, home, root); }
        }
        assert Allowed(space, home, scope, c) <==> TargetOk(space, home, root, targets[0]);
      }
    }
  }

  lemma NoTextIsNoTarget(space: char -> bool, home: Homes, root: Place)
    ensures !TargetOk(space, home, root, None)
  {
  }

  datatype Decision = Allow | Block | Raise

  predicate HomeIsUnknown(space: char -> bool, home: Homes, root: Place, t: Option<string>) {
    t.Some? && !Blank(space, t.value) && Locate(home, root, t.value).None?
  }

  /** The first target that is not acceptable is a path below an unknown home directory. */
  ghost predicate Raises(space: char -> bool, home: Homes, scope: Scope, c: Call) {
    var root, targets := RootOf(scope, c), Targets(space, c);
    && root.Some?
    && exists i :: 0 <= i < |targets|
         && HomeIsUnknown(space, home, root.value, targets[i])
         && forall j :: 0 <= j < i ==> TargetOk(space, home, root.value, targets[j])
  }

  /** The text is not blank and has no place, because it is below an unknown home directory. */
  ghost predicate Homeless(space: char -> bool, home: Homes, root: Place, text: string) {
    Trim(space, text) != [] && Locate(home, root, text).None?
  }

  /** The first path that is not confined is below an unknown home directory. */
  ghost predicate StopsHomeless(space: char -> bool, home: Homes, c: Call, root: Place) {
    match c
    case Write(path) => path.Text? && Homeless(space, home, root, path.s)
    case Replace(path) => path.Text? && Homeless(space, home, root, path.s)
    case ReadFile(path) => path.Text? && Homeless(space, home, root, path.s)
    case SearchFiles(path) => path.Text? && Homeless(space, home, root, path.s)
    case Patch(headers) =>
      || FirstIsHomeless(space, home, root, headers, false)
      || (KindConfined(space, home, root, headers, false) && FirstIsHomeless(space, home, root, headers, true))
  }

  /** All Move headers are confined, or all others. */
  ghost predicate KindConfined(space: char -> bool, home: Homes, root: Place, headers: seq<Header>, moves: bool) {
    forall i :: 0 <= i < |headers| && headers[i].MoveHeader? == moves ==> HeaderConfined(space, home, root, headers[i])
  }

  /** Of the Move headers, or of the others, the first that is not confined names a path below an unknown home
      directory, and no other path before it. */
  ghost predicate FirstIsHomeless(space: char -> bool, home: Homes, root: Place, headers: seq<Header>, moves: bool) {
    exists i :: 0 <= i < |headers| && headers[i].MoveHeader? == moves && HeaderHomeless(space, home, root, headers[i])
      && forall j :: 0 <= j < i && headers[j].MoveHeader? == moves ==> HeaderConfined(space, home, root, headers[j])
  }

  ghost predicate HeaderHomeless(space: char -> bool, home: Homes, root: Place, h: Header) {
    match h
    case FileHeader(path) => Homeless(space, home, root, Trim(space, path))
    case MoveHeader(src, dst) =>
      || Homeless(space, home, root, Trim(space, src))
      || (Confined(space, home, root, Trim(space, src)) && Homeless(space, home, root, Trim(space, dst)))
  }

  ghost predicate AllConfined(space: char -> bool, home: Homes, root: Place, paths: seq<string>) {
    forall i :: 0 <= i < |paths| ==> Confined(space, home, root, Trim(space, paths[i]))
  }

  ghost predicate StopsIn(space: char -> bool, home: Homes, root: Place, paths: seq<string>) {
    exists i :: 0 <= i < |paths| && Homeless(space, home, root, Trim(space, paths[i]))
      && AllConfined(space, home, root, paths[..i])
  }

  lemma AllConfinedConcat(space: char -> bool, home: Homes, root: Place, a: seq<string>, b: seq<string>)
    ensures AllConfined(space, home, root, a + b) <==>
              AllConfined(space, home, root, a) && AllConfined(space, home, root, b)
  {
    hide Confined, Trim;
    var s := a + b;
    if AllConfined(space, home, root, s) {
      assert forall i :: 0 <= i < |a| ==> a[i] == s[i];
      assert forall i :: 0 <= i < |b| ==> b[i] == s[|a| + i];
    }
  }

  lemma StopsAt(space: char -> bool, home: Homes, root: Place, paths: seq<string>, i: nat)
    requires i < |paths| && Homeless(space, home, root, Trim(space, paths[i]))
    requires AllConfined(space, home, root, paths[..i])
    ensures StopsIn(space, home, root, paths)
  {
  }

  lemma StopsInOne(space: char -> bool, home: Homes, root: Place, a: seq<string>, b: seq<string>)
    requires StopsIn(space, home, root, a + b)
    ensures StopsIn(space, home, root, a) || (AllConfined(space, home, root, a) && StopsIn(space, home, root, b))
  {
    hide AllConfined, Homeless, Trim;
    var s := a + b;
    var i :| 0 <= i < |s| && Homeless(space, home, root, Trim(space, s[i])) && AllConfined(space, home, root, s[..i]);
    if i < |a| {
      assert s[..i] == a[..i] && s[i] == a[i];
      StopsAt(space, home, root, a, i);
    } else {
      assert s[..i] == a + b[..i - |a|] && s[i] == b[i - |a|];
      AllConfinedConcat(space, home, root, a, b[..i - |a|]);
      StopsAt(space, home, root, b, i - |a|);
    }
  }

  lemma StopsInBoth(space: char -> bool, home: Homes, root: Place, a: seq<string>, b: seq<string>)
    requires StopsIn(space, home, root, a) || (AllConfined(space, home, root, a) && StopsIn(space, home, root, b))
    ensures StopsIn(space, home, root, a + b)
  {
    hide AllConfined, Homeless, Trim;
    var s := a + b;
    if StopsIn(space, home, root, a) {
      var i :| 0 <= i < |a| && Homeless(space, home, root, Trim(space, a[i])) && AllConfined(space, home, root, a[..i]);
      assert s[..i] == a[..i] && s[i] == a[i];
      StopsAt(space, home, root, s, i);
    } else {
      var i :| 0 <= i < |b| && Homeless(space, home, root, Trim(space, b[i])) && AllConfined(space, home, root, b[..i]);
      assert s[..|a| + i] == a + b[..i] && s[|a| + i] == b[i];
      AllConfinedConcat(space, home, root, a, b[..i]);
      StopsAt(space, home, root, s, |a| + i);
    }
  }

  lemma StopsInConcat(space: char -> bool, home: Homes, root: Place, a: seq<string>, b: seq<string>)
    ensures StopsIn(space, home, root, a + b) <==>
              StopsIn(space, home, root, a) || (AllConfined(space, home, root, a) && StopsIn(space, home, root, b))
  {
    hide AllConfined, StopsIn;
    if StopsIn(space, home, root, a + b) {
      StopsInOne(space, home, root, a, b);
    }
    if StopsIn(space, home, root, a) || (AllConfined(space, home, root, a) && StopsIn(space, home, root, b)) {
      StopsInBoth(space, home, root, a, b);
    }
  }

  lemma OneStops(space: char -> bool, home: Homes, root: Place, path: string)
    ensures StopsIn(space, home, root, [path]) <==> Homeless(space, home, root, Trim(space, path))
    ensures AllConfined(space, home, root, [path]) <==> Confined(space, home, root, Trim(space, path))
    ensures !StopsIn(space, home, root, []) && AllConfined(space, home, root, [])
  {
    hide Homeless, Confined, Trim;
    assert [path][0] == path && [path][..0] == [];
  }

  function PathsOfKind(headers: seq<Header>, moves: bool): seq<string> {
    if moves then MovePaths(headers) else FilePaths(headers)
  }

  lemma PathsOfOne(h: Header, moves: bool)
    ensures PathsOfKind([h], moves) ==
              if h.MoveHeader? != moves then [] else if moves then [h.src, h.dst] else [h.path]
  {
    assert [h][1..] == [] && FilePaths([]) == [] && MovePaths([]) == [];
    match h
    case FileHeader(path) => assert [path] + [] == [path];
    case MoveHeader(src, dst) => assert [src, dst] + [] == [src, dst];
  }

  lemma HeaderStops(space: char -> bool, home: Homes, root: Place, h: Header, moves: bool)
    ensures var paths := PathsOfKind([h], moves);
            && (StopsIn(space, home, root, paths) <==>
                  h.MoveHeader? == moves && HeaderHomeless(space, home, root, h))
            && (AllConfined(space, home, root, paths) <==>
                  (h.MoveHeader? == moves ==> HeaderConfined(space, home, root, h)))
  {
    hide Homeless, Confined, Trim, StopsIn, AllConfined;
    OneStops(space, home, root, []);
    PathsOfOne(h, moves);
    match h
    case FileHeader(path) => OneStops(space, home, root, path);
    case MoveHeader(src, dst) =>
      OneStops(space, home, root, src);
      OneStops(space, home, root, dst);
      StopsInConcat(space, home, root, [src], [dst]);
      AllConfinedConcat(space, home, root, [src], [dst]);
      assert [src] + [dst] == [src, dst];
  }

  lemma FirstByOne(space: char -> bool, home: Homes, root: Place, headers: seq<Header>, moves: bool)
    requires headers != []
    ensures var h, rest := headers[0], headers[1..];
            && (KindConfined(space, home, root, headers, moves) <==>
                  (h.MoveHeader? == moves ==> HeaderConfined(space, home, root, h))
                  && KindConfined(space, home, root, rest, moves))
            && (FirstIsHomeless(space, home, root, headers, moves) <==>
                  || (h.MoveHeader? == moves && HeaderHomeless(space, home, root, h))
                  || ((h.MoveHeader? == moves ==> HeaderConfined(space, home, root, h))
                      && FirstIsHomeless(space, home, root, rest, moves)))
  {
    hide HeaderHomeless, HeaderConfined;
    var rest := headers[1..];
    assert forall i :: 0 <= i < |rest| ==> rest[i] == headers[i + 1];
    assert forall i :: 1 <= i < |headers| ==> headers[i] == rest[i - 1];
  }

  /** Going through the paths of one kind of headers is going through these headers. */
  lemma {:induction false} PathsByHeader(space: char -> bool, home: Homes, root: Place, headers: seq<Header>,
      moves: bool)
    ensures AllConfined(space, home, root, PathsOfKind(headers, moves)) <==>
              KindConfined(space, home, root, headers, moves)
    ensures StopsIn(space, home, root, PathsOfKind(headers, moves)) <==>
              FirstIsHomeless(space, home, root, headers, moves)
  {
    if headers == [] {
      OneStops(space, home, root, []);
    } else {
      hide HeaderHomeless, HeaderConfined, StopsIn, AllConfined, KindConfined, FirstIsHomeless;
      var h, rest := headers[0], headers[1..];
      PathsByHeader(space, home, root, rest, moves);
      HeaderStops(space, home, root, h, moves);
      FirstByOne(space, home, root, headers, moves);
      StopsInConcat(space, home, root, PathsOfKind([h], moves), PathsOfKind(rest, moves));
      AllConfinedConcat(space, home, root, PathsOfKind([h], moves), PathsOfKind(rest, moves));
      PathsOfOne(h, moves);
      assert PathsOfKind(headers, moves) == PathsOfKind([h], moves) + PathsOfKind(rest, moves);
    }
  }

  lemma PatchTargets(space: char -> bool, home: Homes, scope: Scope, headers: seq<Header>, i: nat)
    requires scope.worktree.Some? && i < |PathsOf(headers)|
    ensures i < |Targets(space, Patch(headers))|
    ensures var root, t := scope.worktree.value, Targets(space, Patch(headers))[i];
            var text := Trim(space, PathsOf(headers)[i]);
            && (TargetOk(space, home, root, t) <==> Confined(space, home, root, text))
            && (HomeIsUnknown(space, home, root, t) <==> Homeless(space, home, root, text))
  {
    hide TargetOk, Confined, Trim, Locate, PathsOf;
    TargetIsConfined(space, home, scope.worktree.value, Trim(space, PathsOf(headers)[i]));
  }

  lemma AsManyTargets(space: char -> bool, headers: seq<Header>)
    ensures |Targets(space, Patch(headers))| == |PathsOf(headers)|
  {
  }

  lemma PatchStops(space: char -> bool, home: Homes, scope: Scope, headers: seq<Header>)
    requires scope.worktree.Some?
    ensures Raises(space, home, scope, Patch(headers)) <==>
              StopsIn(space, home, scope.worktree.value, PathsOf(headers))
  {
    hide TargetOk, HomeIsUnknown, Homeless, Confined, Trim, Locate, PathsOf, Targets;
    var root, paths, targets := scope.worktree.value, PathsOf(headers), Targets(space, Patch(headers));
    assert |targets| == |paths| by { AsManyTargets(space, headers); }
    forall i | 0 <= i < |paths|
      ensures TargetOk(space, home, root, targets[i]) <==> Confined(space, home, root, Trim(space, paths[i]))
      ensures HomeIsUnknown(space, home, root, targets[i]) <==> Homeless(space, home, root, Trim(space, paths[i]))
    {
      PatchTargets(space, home, scope, headers, i);
    }
    if Raises(space, home, scope, Patch(headers)) {
      var i :| 0 <= i < |targets| && HomeIsUnknown(space, home, root, targets[i])
          && forall j :: 0 <= j < i ==> TargetOk(space, home, root, targets[j]);
      StopsAt(space, home, root, paths, i);
    }
    if StopsIn(space, home, root, paths) {
      var i :| 0 <= i < |paths| && Homeless(space, home, root, Trim(space, paths[i]))
          && AllConfined(space, home, root, paths[..i]);
      assert forall j :: 0 <= j < i ==> paths[..i][j] == paths[j];
    }
  }

  lemma PatchRaisesIff(space: char -> bool, home: Homes, scope: Scope, headers: seq<Header>)
    requires scope.worktree.Some?
    ensures Raises(space, home, scope, Patch(headers)) <==>
              StopsHomeless(space, home, Patch(headers), scope.worktree.value)
  {
    hide Raises, StopsIn, AllConfined, KindConfined, FirstIsHomeless;
    var root := scope.worktree.value;
    PatchStops(space, home, scope, headers);
    PathsByHeader(space, home, root, headers, false);
    PathsByHeader(space, home, root, headers, true);
    StopsInConcat(space, home, root, FilePaths(headers), MovePaths(headers));
  }

  lemma HereHasAPlace(home: Homes, root: Place)
    ensures Locate(home, root, ".").Some?
  {
    PiecesOfPlainName(".");
    KeptOfCons(".", []);
  }

  lemma RaisesIff(space: char -> bool, home: Homes, scope: Scope, c: Call)
    ensures Raises(space, home, scope, c) <==>
              exists root :: BelongsIn(scope, c, root) && StopsHomeless(space, home, c, root)
  {
    hide Confined, TargetOk, Trim, PathsOf, Locate;
    if Mutates(c) && scope.worktree.None? {
      assert forall root :: !BelongsIn(scope, c, root);
    } else {
      var root, targets := RootOf(scope, c).value, Targets(space, c);
      assert forall r :: BelongsIn(scope, c, r) <==> r == root;
      assert BelongsIn(scope, c, root);
      HereHasAPlace(home, root);
      if c.Patch? {
        assert c == Patch(c.headers);
        PatchRaisesIff(space, home, scope, c.headers);
      } else {
        assert |targets| == 1;
        assert Raises(space, home, scope, c) <==> HomeIsUnknown(space, home, root, targets[0]);
      }
    }
  }

  /** The first path that is not acceptable decides; looking for an unknown home directory raises. */
  method EvaluateFileTool(space: char -> bool, home: Homes, scope: Scope, c: Call) returns (d: Decision)
    ensures d == Allow <==> Allowed(space, home, scope, c)
    ensures d == Allow <==> exists root :: BelongsIn(scope, c, root) && StaysIn(space, home, c, root)
    ensures d == Raise <==> exists root :: BelongsIn(scope, c, root) && StopsHomeless(space, home, c, root)
  {
    hide Targets, Locate, Blank, Inside, StaysIn, StopsHomeless;
    AllowedIff(space, home, scope, c);
    RaisesIff(space, home, scope, c);
    if Mutates(c) && scope.worktree.None? {
      return Block;
    }
    var root := RootOf(scope, c).value;
    var targets := Targets(space, c);
    if targets == [] {
      return Block;
    }
    for i := 0 to |targets|
      invariant forall j :: 0 <= j < i ==> TargetOk(space, home, root, targets[j])
    {
      var t := targets[i];
      if t.None? || Blank(space, t.value) {
        assert !TargetOk(space, home, root, t) && !HomeIsUnknown(space, home, root, t);
        return Block;
      }
      var p := Locate(home, root, t.value);
      if p.None? {
        assert HomeIsUnknown(space, home, root, targets[i]);
        return Raise;
      }
      if !Inside(p.value, root) {
        assert !TargetOk(space, home, root, t) && !HomeIsUnknown(space, home, root, t);
        return Block;
      }
    }
    return Allow;
  }

  // ---------- Rewriting calls ----------

  function RewrittenHeader(space: char -> bool, home: Homes, root: Place, h: Header): Option<Header> {
    match h
    case FileHeader(path) =>
      (match Rewritten(home, root, Trim(space, path))
       case None => None
       case Some(r) => Some(FileHeader(r)))
    case MoveHeader(src, dst) =>
      var s, d := Rewritten(home, root, Trim(space, src)), Rewritten(home, root, Trim(space, dst));
      if s.None? || d.None? then None else Some(MoveHeader(s.value, d.value))
  }

  function RewrittenHeaders(space: char -> bool, home: Homes, root: Place,
      headers: seq<Header>): (r: Option<seq<Header>>)
    ensures r.Some? <==> forall i :: 0 <= i < |headers| ==> RewrittenHeader(space, home, root, headers[i]).Some?
    ensures r.Some? ==>
              && |r.value| == |headers|
              && forall i :: 0 <= i < |headers| ==> RewrittenHeader(space, home, root, headers[i]) == Some(r.value[i])
  {
    if headers == [] then Some([])
    else
      var first, rest := RewrittenHeader(space, home, root, headers[0]),
          RewrittenHeaders(space, home, root, headers[1..]);
      if first.None? || rest.None? then None else Some([first.value] + rest.value)
  }

  function RewrittenArgument(home: Homes, root: Place, a: Argument): Option<Argument> {
    if !a.Text? then Some(a)
    else
      match Rewritten(home, root, a.s)
      case None => None
      case Some(r) => Some(Text(r))
  }

  function OrHere(a: Argument): Argument {
    if a.Missing? then Text(".") else a
  }

  /** `rewrite_tool_args`: `None` stands for an exception. */
  function RewrittenCall(space: char -> bool, home: Homes, scope: Scope, c: Call): Option<Call> {
    if Mutates(c) && scope.worktree.None? then Some(c)
    else
      var root := RootOf(scope, c).value;
      match c
      case Patch(headers) =>
        var hs := RewrittenHeaders(space, home, root, headers);
        if hs.None? then None else Some(Patch(hs.value))
      case Write(path) =>
        var a := RewrittenArgument(home, root, path);
        if a.None? then None else Some(Write(a.value))
      case Replace(path) =>
        var a := RewrittenArgument(home, root, path);
        if a.None? then None else Some(Replace(a.value))
      case ReadFile(path) =>
        var a := RewrittenArgument(home, root, OrHere(path));
        if a.None? then None else Some(ReadFile(a.value))
      case SearchFiles(path) =>
        var a := RewrittenArgument(home, root, OrHere(path));
        if a.None? then None else Some(SearchFiles(a.value))
  }
}
