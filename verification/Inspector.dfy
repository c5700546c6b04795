/** Read-only inspection of a project: paged reading of files, and bounded search. Names in a folder are
    listed in sorted order; `fold` stands for case folding and `wanted` for the glob patterns. */
module Inspector {
  import opened Options
  import opened Text

  const MAX_READ_FILES := 10
  const MAX_READ_BYTES := 512 * 1024
  const MAX_SEARCH_BYTES := 1024 * 1024
  const MAX_RESULTS := 100

  /** `safe` says that the file resolves to a path inside the project with no denied name in it. */
  datatype File = File(name: string, path: string, safe: bool, regular: bool, bytes: nat, binary: bool,
      lines: seq<string>)
  datatype Folder = Folder(files: seq<File>, folders: seq<Sub>)
  datatype Sub = Sub(name: string, folder: Folder)

  predicate DeniedName(name: string) {
    name == ".git" || name == ".env" || ".env." <= name
  }

  predicate SkippedFolder(name: string) {
    name in {".git", ".venv", "venv", "node_modules"} || DeniedName(name)
  }

  // ---------- Search ----------

  /** The files that the walk visits, in order: a folder's own, then those of its folders. */
  function Walk(folder: Folder): seq<File>
    decreases folder, |folder.folders| + 1
  {
    folder.files + WalkFrom(folder, 0)
  }

  function WalkFrom(folder: Folder, i: nat): seq<File>
    requires i <= |folder.folders|
    decreases folder, |folder.folders| - i
  {
    if i == |folder.folders| then []
    else if SkippedFolder(folder.folders[i].name) then WalkFrom(folder, i + 1)
    else Walk(folder.folders[i].folder) + WalkFrom(folder, i + 1)
  }

  /** The file is in the folder, or in one of its folders that is not skipped. */
  predicate Holds(folder: Folder, f: File)
    decreases folder
  {
    || f in folder.files
    || exists i :: 0 <= i < |folder.folders| && !SkippedFolder(folder.folders[i].name)
        && Holds(folder.folders[i].folder, f)
  }

  lemma {:induction false} WalkVisits(folder: Folder, f: File)
    ensures f in Walk(folder) <==> Holds(folder, f)
    decreases folder, |folder.folders| + 1
  {
    WalkFromVisits(folder, 0, f);
  }

  lemma {:induction false} WalkFromVisits(folder: Folder, i: nat, f: File)
    requires i <= |folder.folders|
    ensures f in WalkFrom(folder, i) <==>
              exists j :: i <= j < |folder.folders| && !SkippedFolder(folder.folders[j].name)
                  && Holds(folder.folders[j].folder, f)
    decreases folder, |folder.folders| - i
  {
    if i < |folder.folders| {
      WalkFromVisits(folder, i + 1, f);
      if !SkippedFolder(folder.folders[i].name) {
        WalkVisits(folder.folders[i].folder, f);
      }
    }
  }

  /** Where a file is: the positions of the folders that lead to it, and its own position. */
  datatype Spot = Spot(way: seq<nat>, k: nat)

  /** The file at a spot, if no folder on the way is skipped. */
  ghost function FileAt(folder: Folder, spot: Spot): Option<File>
    decreases |spot.way|
  {
    if spot.way == [] then (if spot.k < |folder.files| then Some(folder.files[spot.k]) else None)
    else if spot.way[0] >= |folder.folders| then None
    else
      var Sub(name, sub) := folder.folders[spot.way[0]];
      if name in {".git", ".venv", "venv", "node_modules", ".env"} || ".env." <= name then None
      else FileAt(sub, Spot(spot.way[1..], spot.k))
  }

  /** A folder's own files come before those of its folders, and these come folder by folder. */
  ghost predicate Earlier(a: Spot, b: Spot)
    decreases |a.way|
  {
    if a.way == [] then b.way != [] || a.k < b.k
    else
      && b.way != []
      && (a.way[0] < b.way[0]
          || (a.way[0] == b.way[0] && Earlier(Spot(a.way[1..], a.k), Spot(b.way[1..], b.k))))
  }

  ghost predicate InOrder(spots: seq<Spot>) {
    forall i, j :: 0 <= i < j < |spots| ==> Earlier(spots[i], spots[j])
  }

  /** The files stand at these spots, one by one. */
  ghost predicate StandAt(folder: Folder, spots: seq<Spot>, files: seq<File>) {
    |spots| == |files| && forall i :: 0 <= i < |spots| ==> FileAt(folder, spots[i]) == Some(files[i])
  }

  /** The walk visits every file that is not in a skipped folder once, each folder's own files first. */
  lemma {:induction false} WalkIsInOrder(folder: Folder) returns (spots: seq<Spot>)
    ensures StandAt(folder, spots, Walk(folder)) && InOrder(spots)
    ensures forall s :: FileAt(folder, s).Some? ==> s in spots
    decreases folder, |folder.folders| + 1
  {
    var own := seq(|folder.files|, k requires 0 <= k < |folder.files| => Spot([], k));
    var below := WalkFromIsInOrder(folder, 0);
    spots := own + below;
    forall s | FileAt(folder, s).Some? ensures s in spots {
      if s.way == [] {
        assert own[s.k] == s;
      } else {
        assert s in below;
      }
    }
  }

  lemma {:induction false} WalkFromIsInOrder(folder: Folder, i: nat) returns (spots: seq<Spot>)
    requires i <= |folder.folders|
    ensures StandAt(folder, spots, WalkFrom(folder, i)) && InOrder(spots)
    ensures forall s: Spot :: s in spots ==> s.way != [] && s.way[0] >= i
    ensures forall s: Spot :: s.way != [] && s.way[0] >= i && FileAt(folder, s).Some? ==> s in spots
    decreases folder, |folder.folders| - i
  {
    spots := [];
    if i < |folder.folders| {
      var rest := WalkFromIsInOrder(folder, i + 1);
      if SkippedFolder(folder.folders[i].name) {
        spots := rest;
      } else {
        var inner := WalkIsInOrder(folder.folders[i].folder);
        var first := Below(i, inner);
        BelowStandAt(folder, i, inner, Walk(folder.folders[i].folder));
        spots := first + rest;
        JoinedStandAt(folder, first, rest, Walk(folder.folders[i].folder), WalkFrom(folder, i + 1));
        forall s: Spot | s.way != [] && s.way[0] >= i && FileAt(folder, s).Some? ensures s in spots {
          if s.way[0] == i {
            BelowHolds(i, inner, s);
          }
        }
      }
    }
  }

  ghost function Below(i: nat, spots: seq<Spot>): (r: seq<Spot>)
    ensures |r| == |spots| && forall j :: 0 <= j < |spots| ==> r[j] == Spot([i] + spots[j].way, spots[j].k)
  {
    seq(|spots|, j requires 0 <= j < |spots| => Spot([i] + spots[j].way, spots[j].k))
  }

  lemma BelowStandAt(folder: Folder, i: nat, spots: seq<Spot>, files: seq<File>)
    requires i < |folder.folders| && !SkippedFolder(folder.folders[i].name)
    requires StandAt(folder.folders[i].folder, spots, files) && InOrder(spots)
    ensures StandAt(folder, Below(i, spots), files) && InOrder(Below(i, spots))
    ensures forall s: Spot :: s in Below(i, spots) ==> s.way != [] && s.way[0] == i
  {
    assert forall j :: 0 <= j < |spots| ==> ([i] + spots[j].way)[1..] == spots[j].way;
  }

  lemma BelowHolds(i: nat, spots: seq<Spot>, s: Spot)
    requires s.way != [] && s.way[0] == i && Spot(s.way[1..], s.k) in spots
    ensures s in Below(i, spots)
  {
    var j :| 0 <= j < |spots| && spots[j] == Spot(s.way[1..], s.k);
    assert [i] + s.way[1..] == s.way;
    assert Below(i, spots)[j] == s;
  }

  lemma JoinedStandAt(folder: Folder, a: seq<Spot>, b: seq<Spot>, x: seq<File>, y: seq<File>)
    requires StandAt(folder, a, x) && StandAt(folder, b, y) && InOrder(a) && InOrder(b)
    requires forall s: Spot, u: Spot :: s in a && u in b ==> s.way != [] && u.way != [] && s.way[0] < u.way[0]
    ensures StandAt(folder, a + b, x + y) && InOrder(a + b)
  {
  }

  datatype Query = Query(text: string, wanted: string -> bool, fold: string -> string, caseSensitive: bool)

  datatype Match = Match(path: string, line: nat, text: string)

  predicate Searched(q: Query, f: File) {
    !DeniedName(f.name) && q.wanted(f.name) && f.safe && f.regular && f.bytes <= MAX_SEARCH_BYTES && !f.binary
  }

  predicate LineMatches(q: Query, line: string) {
    if q.caseSensitive then Occurs(q.text, line) else Occurs(q.fold(q.text), q.fold(line))
  }

  function MatchAt(f: File, k: nat): Match
    requires k < |f.lines|
  {
    Match(f.path, k + 1, if |f.lines[k]| <= 1000 then f.lines[k] else f.lines[k][..1000])
  }

  /** The matches in the first `k` lines of a file. */
  function InLines(q: Query, f: File, k: nat): seq<Match>
    requires k <= |f.lines|
  {
    if k == 0 then []
    else InLines(q, f, k - 1) + (if LineMatches(q, f.lines[k - 1]) then [MatchAt(f, k - 1)] else [])
  }

  function InFile(q: Query, f: File): seq<Match> {
    if Searched(q, f) then InLines(q, f, |f.lines|) else []
  }

  /** All matches in the given files, in order. */
  function AllMatches(q: Query, files: seq<File>): seq<Match> {
    if files == [] then []
    else AllMatches(q, files[..|files| - 1]) + InFile(q, files[|files| - 1])
  }

  /** The match names the file and the number of the line, counted from one, and gives its first 1000
      characters. */
  ghost predicate TellsOf(f: File, l: nat, m: Match) {
    && l < |f.lines|
    && m.path == f.path && m.line == l + 1 && m.text <= f.lines[l]
    && |m.text| == if |f.lines[l]| < 1000 then |f.lines[l]| else 1000
  }

  /** `m` reports one of the first `k` lines of the file, and that line matches. */
  ghost predicate Reports(q: Query, f: File, k: nat, m: Match)
    requires k <= |f.lines|
  {
    exists l :: 0 <= l < k && LineMatches(q, f.lines[l]) && TellsOf(f, l, m)
  }

  lemma MatchAtTells(f: File, l: nat, m: Match)
    requires l < |f.lines|
    ensures TellsOf(f, l, m) <==> m == MatchAt(f, l)
  {
    var line := f.lines[l];
    if TellsOf(f, l, m) {
      assert m.text == line[..|m.text|];
      assert |line| <= 1000 ==> line[..|line|] == line;
    }
  }

  lemma {:induction false} InLinesIsExact(q: Query, f: File, k: nat, m: Match)
    requires k <= |f.lines|
    ensures m in InLines(q, f, k) <==> Reports(q, f, k, m)
  {
    if k > 0 {
      hide LineMatches, MatchAt, TellsOf;
      InLinesIsExact(q, f, k - 1, m);
      MatchAtTells(f, k - 1, m);
    }
  }

  /** The full list holds exactly the matching lines of the searched files. */
  lemma {:induction false} AllMatchesIsExact(q: Query, files: seq<File>, m: Match)
    ensures m in AllMatches(q, files) <==>
              exists i :: 0 <= i < |files| && Searched(q, files[i]) && Reports(q, files[i], |files[i].lines|, m)
    decreases |files|
  {
    if files != [] {
      hide Searched, Reports;
      var init, last := files[..|files| - 1], files[|files| - 1];
      AllMatchesIsExact(q, init, m);
      InLinesIsExact(q, last, |last.lines|, m);
      assert forall i :: 0 <= i < |init| ==> files[i] == init[i];
    }
  }

  lemma {:induction false} InLinesGrows(q: Query, f: File, k: nat, n: nat)
    requires k <= n <= |f.lines|
    ensures InLines(q, f, k) <= InLines(q, f, n)
  {
    if k < n {
      InLinesGrows(q, f, k, n - 1);
    }
  }

  lemma {:induction false} AllMatchesGrows(q: Query, files: seq<File>, k: nat)
    requires k <= |files|
    ensures AllMatches(q, files[..k]) <= AllMatches(q, files)
    decreases |files|
  {
    if k == |files| {
      assert files[..k] == files;
    } else {
      AllMatchesGrows(q, files[..|files| - 1], k);
      assert files[..|files| - 1][..k] == files[..k];
    }
  }

  lemma NothingMatched(q: Query)
    ensures AllMatches(q, []) == []
  {
  }

  lemma NoLines(q: Query, f: File)
    ensures InLines(q, f, 0) == []
  {
  }

  lemma LineByLine(q: Query, f: File, k: nat)
    requires k < |f.lines|
    ensures InLines(q, f, k + 1) == InLines(q, f, k) + (if LineMatches(q, f.lines[k]) then [MatchAt(f, k)] else [])
  {
  }

  lemma FileByFile(q: Query, files: seq<File>, i: nat)
    requires i < |files|
    ensures AllMatches(q, files[..i + 1]) == AllMatches(q, files[..i]) + InFile(q, files[i])
  {
    assert files[..i + 1][..i] == files[..i];
  }

  /** The matches up to a line of a file are the beginning of the full list. */
  lemma BeginningOfAll(q: Query, files: seq<File>, i: nat, k: nat)
    requires i < |files| && k <= |files[i].lines| && Searched(q, files[i])
    ensures AllMatches(q, files[..i]) + InLines(q, files[i], k) <= AllMatches(q, files)
  {
    hide Searched, AllMatches, InLines;
    var before, some, whole := AllMatches(q, files[..i]), InLines(q, files[i], k), InFile(q, files[i]);
    FileByFile(q, files, i);
    InLinesGrows(q, files[i], k, |files[i].lines|);
    AllMatchesGrows(q, files, i + 1);
    assert some <= whole;
    assert before + whole == before + some + whole[|some|..];
  }

  // ---------- What a search reports ----------

  /** A line of a file: its positions in the list of files and in the file, counted from zero. */
  type Line = (nat, nat)

  /** The file is neither denied nor unwanted, too large nor binary, and the line holds the text. */
  ghost predicate Hit(q: Query, files: seq<File>, at: Line) {
    && at.0 < |files|
    && var f := files[at.0];
       && f.name != ".git" && f.name != ".env" && !(".env." <= f.name) && q.wanted(f.name)
       && f.safe && f.regular && f.bytes <= 1048576 && !f.binary
       && at.1 < |f.lines|
       && (q.caseSensitive ==> Occurs(q.text, f.lines[at.1]))
       && (!q.caseSensitive ==> Occurs(q.fold(q.text), q.fold(f.lines[at.1])))
  }

  ghost predicate Tells(files: seq<File>, at: Line, m: Match) {
    at.0 < |files| && TellsOf(files[at.0], at.1, m)
  }

  ghost predicate Above(a: Line, b: Line) {
    a.0 < b.0 || (a.0 == b.0 && a.1 < b.1)
  }

  /** The matches tell of these lines, one by one and in order. */
  ghost predicate Tell(q: Query, files: seq<File>, at: seq<Line>, matches: seq<Match>) {
    && |at| == |matches|
    && (forall i :: 0 <= i < |at| ==> Hit(q, files, at[i]) && Tells(files, at[i], matches[i]))
    && forall i, j :: 0 <= i < j < |at| ==> Above(at[i], at[j])
  }

  ghost predicate InFirst(at: Line, i: nat, k: nat) {
    at.0 < i || (at.0 == i && at.1 < k)
  }

  /** These are all hits in the files before the `i`-th and in the first `k` lines of the `i`-th. */
  ghost predicate AllHits(q: Query, files: seq<File>, i: nat, k: nat, at: seq<Line>) {
    && (forall h :: h in at ==> InFirst(h, i, k))
    && forall h :: Hit(q, files, h) && InFirst(h, i, k) ==> h in at
  }

  lemma HitIff(q: Query, files: seq<File>, i: nat, k: nat)
    requires i < |files|
    ensures Hit(q, files, (i, k)) <==>
              Searched(q, files[i]) && k < |files[i].lines| && LineMatches(q, files[i].lines[k])
    ensures k < |files[i].lines| ==> Tells(files, (i, k), MatchAt(files[i], k))
  {
    hide Occurs, TellsOf, MatchAt;
    if k < |files[i].lines| {
      MatchAtTells(files[i], k, MatchAt(files[i], k));
    }
  }

  lemma OneMoreHit(q: Query, files: seq<File>, i: nat, k: nat, at: seq<Line>, matches: seq<Match>, m: Match)
    requires Tell(q, files, at, matches) && AllHits(q, files, i, k, at)
    ensures !Hit(q, files, (i, k)) ==> AllHits(q, files, i, k + 1, at)
    ensures Hit(q, files, (i, k)) && Tells(files, (i, k), m) ==>
              Tell(q, files, at + [(i, k)], matches + [m]) && AllHits(q, files, i, k + 1, at + [(i, k)])
  {
    hide Hit, Tells;
  }

  lemma {:induction false} LinesAreTold(q: Query, files: seq<File>, i: nat, k: nat, before: seq<Line>,
      matches: seq<Match>) returns (at: seq<Line>)
    requires i < |files| && Searched(q, files[i]) && k <= |files[i].lines|
    requires Tell(q, files, before, matches) && AllHits(q, files, i, 0, before)
    ensures Tell(q, files, at, matches + InLines(q, files[i], k)) && AllHits(q, files, i, k, at)
    decreases k
  {
    hide Hit, Tells, Tell, AllHits, Searched, LineMatches, MatchAt;
    if k == 0 {
      at := before;
      assert matches + InLines(q, files[i], 0) == matches;
    } else {
      at := LinesAreTold(q, files, i, k - 1, before, matches);
      var old', f := matches + InLines(q, files[i], k - 1), files[i];
      HitIff(q, files, i, k - 1);
      OneMoreHit(q, files, i, k - 1, at, old', MatchAt(f, k - 1));
      LineByLine(q, f, k - 1);
      if LineMatches(q, f.lines[k - 1]) {
        at := at + [(i, k - 1)];
        assert matches + InLines(q, f, k) == old' + [MatchAt(f, k - 1)];
      } else {
        assert matches + InLines(q, f, k) == old';
      }
    }
  }

  lemma NextFile(q: Query, files: seq<File>, i: nat, at: seq<Line>)
    requires i < |files| && AllHits(q, files, i, if Searched(q, files[i]) then |files[i].lines| else 0, at)
    ensures AllHits(q, files, i + 1, 0, at)
  {
    forall h | Hit(q, files, h) && InFirst(h, i + 1, 0) ensures h in at {
      HitIff(q, files, h.0, h.1);
      assert InFirst(h, i, if Searched(q, files[i]) then |files[i].lines| else 0);
    }
  }

  /** The full list tells of all hits in the files, in order. */
  lemma {:induction false} AllMatchesTell(q: Query, files: seq<File>, i: nat) returns (at: seq<Line>)
    requires i <= |files|
    ensures Tell(q, files, at, AllMatches(q, files[..i])) && AllHits(q, files, i, 0, at)
    decreases i
  {
    hide Hit, Tells, Tell, AllHits, Searched, AllMatches;
    if i == 0 {
      at := [];
      NothingMatched(q);
      NothingTold(q, files);
      assert files[..0] == [];
    } else {
      at := AllMatchesTell(q, files, i - 1);
      FileByFile(q, files, i - 1);
      var old' := AllMatches(q, files[..i - 1]);
      if Searched(q, files[i - 1]) {
        at := LinesAreTold(q, files, i - 1, |files[i - 1].lines|, at, old');
      } else {
        assert old' + InFile(q, files[i - 1]) == old';
      }
      NextFile(q, files, i - 1, at);
    }
  }

  lemma NothingTold(q: Query, files: seq<File>)
    ensures Tell(q, files, [], []) && AllHits(q, files, 0, 0, [])
  {
  }

  /** These are the first hits in order: no other hit comes before the last of them. */
  ghost predicate FirstHits(q: Query, files: seq<File>, at: seq<Line>) {
    forall h :: Hit(q, files, h) && at != [] && Above(h, at[|at| - 1]) ==> h in at
  }

  lemma BeginningTells(q: Query, files: seq<File>, at: seq<Line>, all: seq<Match>, matches: seq<Match>)
    requires Tell(q, files, at, all) && AllHits(q, files, |files|, 0, at) && matches <= all
    ensures |matches| <= |at|
    ensures Tell(q, files, at[..|matches|], matches) && FirstHits(q, files, at[..|matches|])
    ensures matches == all ==> forall h :: Hit(q, files, h) ==> h in at[..|matches|]
  {
    var some := at[..|matches|];
    assert matches == all ==> some == at;
    forall h | Hit(q, files, h) ensures h in at {
      assert InFirst(h, |files|, 0);
    }
    if some != [] {
      forall h | Hit(q, files, h) && Above(h, some[|some| - 1]) ensures h in some {
        var j :| 0 <= j < |at| && at[j] == h;
        assert some[|some| - 1] == at[|some| - 1];
        assert j < |some|;
        assert some[j] == h;
      }
    }
  }

  /** What a search gives for these files: the first hits in order, all of them when it is not truncated, and
      as many as the limit when it is. */
  ghost predicate Answers(q: Query, files: seq<File>, limit: nat, matches: seq<Match>, truncated: bool) {
    && |matches| <= limit && (truncated <==> |matches| == limit)
    && exists at :: Tell(q, files, at, matches) && FirstHits(q, files, at)
         && (!truncated ==> forall h :: Hit(q, files, h) ==> h in at)
  }

  lemma BeginningAnswers(q: Query, files: seq<File>, limit: nat, matches: seq<Match>, truncated: bool)
    requires matches <= AllMatches(q, files) && |matches| <= limit && (truncated <==> |matches| == limit)
    requires !truncated ==> matches == AllMatches(q, files)
    ensures Answers(q, files, limit, matches, truncated)
  {
    hide Hit, Tell, AllHits, AllMatches, FirstHits;
    var at := AllMatchesTell(q, files, |files|);
    assert files[..|files|] == files;
    BeginningTells(q, files, at, AllMatches(q, files), matches);
    var some := at[..|matches|];
    assert Tell(q, files, some, matches) && FirstHits(q, files, some);
    assert !truncated ==> forall h :: Hit(q, files, h) ==> h in some;
  }

  /** Search tells of the first hits in the order of the walk, and calls the result truncated exactly when
      there are at least as many as the limit, even if none is left out. */
  method Search(q: Query, base: Folder, limit: nat) returns (matches: seq<Match>, truncated: bool)
    requires 1 <= limit <= MAX_RESULTS
    ensures matches <= AllMatches(q, Walk(base))
    ensures truncated <==> |AllMatches(q, Walk(base))| >= limit
    ensures truncated ==> |matches| == limit
    ensures !truncated ==> matches == AllMatches(q, Walk(base)) && |matches| < limit
    ensures Answers(q, Walk(base), limit, matches, truncated)
  {
    hide LineMatches, Searched, MatchAt, AllMatches, InLines, Answers;
    var files := Walk(base);
    matches := [];
    NothingMatched(q);
    for i := 0 to |files|
      invariant matches == AllMatches(q, files[..i]) && |matches| < limit
    {
      var f := files[i];
      FileByFile(q, files, i);
      if !Searched(q, f) {
        continue;
      }
      NoLines(q, f);
      for k := 0 to |f.lines|
        invariant matches == AllMatches(q, files[..i]) + InLines(q, f, k) && |matches| < limit
      {
        LineByLine(q, f, k);
        if LineMatches(q, f.lines[k]) {
          matches := matches + [MatchAt(f, k)];
          if |matches| >= limit {
            BeginningOfAll(q, files, i, k + 1);
            BeginningAnswers(q, files, limit, matches, true);
            return matches, true;
          }
        }
      }
    }
    assert files[..|files|] == files;
    BeginningAnswers(q, files, limit, matches, false);
    return matches, false;
  }

  /** A search called truncated has left nothing out exactly when the number of all matches is the limit. */
  lemma TruncatedIsCompleteIff(q: Query, base: Folder, limit: nat, matches: seq<Match>)
    requires limit >= 1 && |AllMatches(q, Walk(base))| >= limit
    requires matches <= AllMatches(q, Walk(base)) && |matches| == limit
    ensures matches == AllMatches(q, Walk(base)) <==> |AllMatches(q, Walk(base))| == limit
  {
  }

  /** One file with one matching line, and a limit of one: called truncated, but complete. */
  lemma CompleteSearchIsCalledTruncated()
    ensures exists q: Query, base: Folder :: |AllMatches(q, Walk(base))| == 1
  {
    var f := File("a", "a", true, true, 1, false, ["x"]);
    var q := Query("x", (name: string) => true, (s: string) => s, true);
    var base := Folder([f], []);
    assert OccursAt("x", "x", 0);
    assert LineMatches(q, f.lines[0]) && Searched(q, f);
    NoLines(q, f);
    LineByLine(q, f, 0);
    assert InFile(q, f) == [MatchAt(f, 0)];
    NothingMatched(q);
    FileByFile(q, [f], 0);
    assert [f][..0] == [] && [f][..1] == [f];
    assert WalkFrom(base, 0) == [] && Walk(base) == [f] + [] == [f];
    assert |AllMatches(q, Walk(base))| == 1;
  }

  // ---------- Reading ----------

  datatype Page = Page(start: nat, end: int, truncated: bool, lines: seq<string>)

  /** The lines of one page; the source joins them with line breaks. */
  function PageOf(lines: seq<string>, start: nat, maxLines: nat): (p: Page)
    requires start >= 1
    ensures p.start == start && p.end == start + |p.lines| - 1
    ensures p.truncated <==> start - 1 + |p.lines| < |lines|
    ensures |p.lines| <= maxLines && (|p.lines| < maxLines ==> !p.truncated)
    ensures if start - 1 <= |lines| then p.lines <= lines[start - 1..] else p.lines == []
  {
    var from := if start - 1 <= |lines| then start - 1 else |lines|;
    var to := if from + maxLines <= |lines| then from + maxLines else |lines|;
    Page(start, start + (to - from) - 1, start - 1 + (to - from) < |lines|, lines[from..to])
  }

  /** Whoever reads on from the line that a match tells of gets that line first. */
  lemma MatchLeadsToItsLine(files: seq<File>, at: Line, m: Match, maxLines: nat)
    requires Tells(files, at, m) && maxLines >= 1
    ensures var p := PageOf(files[at.0].lines, m.line, maxLines);
            p.lines != [] && m.text <= p.lines[0] && (|p.lines[0]| <= 1000 ==> m.text == p.lines[0])
  {
    var p := PageOf(files[at.0].lines, m.line, maxLines);
    assert p.lines[0] == files[at.0].lines[at.1];
  }

  function Join(lines: seq<string>): string {
    if lines == [] then [] else if |lines| == 1 then lines[0] else lines[0] + "\n" + Join(lines[1..])
  }

  predicate Readable(f: Option<File>) {
    f.Some? && f.value.safe && f.value.regular && f.value.bytes <= MAX_READ_BYTES && !f.value.binary
  }

  /** Reading several files succeeds exactly for allowed arguments and readable files, and gives one page of each. */
  method Read(files: seq<Option<File>>, start: int, maxLines: int) returns (pages: Option<seq<Page>>)
    ensures pages.Some? <==>
              && 1 <= |files| <= 10 && start >= 1 && 1 <= maxLines <= 1000
              && forall i :: 0 <= i < |files| ==>
                   && files[i].Some? && files[i].value.safe && files[i].value.regular && !files[i].value.binary
                   && files[i].value.bytes <= 524288
    ensures pages.Some? ==>
              && |pages.value| == |files|
              && forall i :: 0 <= i < |files| ==> pages.value[i] == PageOf(files[i].value.lines, start, maxLines)
  {
    if !(1 <= |files| <= MAX_READ_FILES) || start < 1 || !(1 <= maxLines <= 1000) {
      return None;
    }
    var result := [];
    for i := 0 to |files|
      invariant |result| == i && forall j :: 0 <= j < i ==> Readable(files[j])
      invariant forall j :: 0 <= j < i ==> result[j] == PageOf(files[j].value.lines, start, maxLines)
    {
      if !Readable(files[i]) {
        return None;
      }
      result := result + [PageOf(files[i].value.lines, start, maxLines)];
    }
    return Some(result);
  }

  /** The pages a reader gets by going on after the last line of each page while there is more. */
  function Pages(lines: seq<string>, start: nat, maxLines: nat): seq<Page>
    requires start >= 1 && maxLines >= 1
    decreases |lines| - start
  {
    var p := PageOf(lines, start, maxLines);
    if !p.truncated then [p] else [p] + Pages(lines, p.end + 1, maxLines)
  }

  function LinesOf(pages: seq<Page>): seq<string> {
    if pages == [] then [] else pages[0].lines + LinesOf(pages[1..])
  }

  /** The pages from any line on give the rest of the file, each line once and in order. */
  lemma {:induction false} PagesGiveTheRest(lines: seq<string>, start: nat, maxLines: nat)
    requires 1 <= start <= |lines| + 1 && maxLines >= 1
    ensures LinesOf(Pages(lines, start, maxLines)) == lines[start - 1..]
    decreases |lines| - start
  {
    hide LinesOf;
    var p := PageOf(lines, start, maxLines);
    PageAndRest(lines, start, maxLines);
    if p.truncated {
      PagesGiveTheRest(lines, p.end + 1, maxLines);
      LinesOfCons(p, Pages(lines, p.end + 1, maxLines));
    } else {
      LinesOfCons(p, []);
      assert [p] + [] == [p];
    }
  }

  lemma PageAndRest(lines: seq<string>, start: nat, maxLines: nat)
    requires 1 <= start <= |lines| + 1 && maxLines >= 1
    ensures var p := PageOf(lines, start, maxLines);
            if p.truncated then start <= p.end <= |lines| && lines[start - 1..] == p.lines + lines[p.end..]
            else lines[start - 1..] == p.lines
  {
    var p := PageOf(lines, start, maxLines);
    var rest := lines[start - 1..];
    assert p.lines == rest[..|p.lines|];
  }

  lemma LinesOfCons(p: Page, rest: seq<Page>)
    ensures LinesOf([p] + rest) == p.lines + LinesOf(rest)
    ensures rest == [] ==> LinesOf([p] + rest) == p.lines
  {
  }

  /** Every page but the last is full and says that there is more; the last one says that there is not. */
  lemma {:induction false} OnlyTheLastPageIsLast(lines: seq<string>, start: nat, maxLines: nat, i: nat)
    requires 1 <= start <= |lines| + 1 && maxLines >= 1 && i < |Pages(lines, start, maxLines)|
    ensures var pages := Pages(lines, start, maxLines);
            && (pages[i].truncated <==> i < |pages| - 1)
            && (pages[i].truncated ==> |pages[i].lines| == maxLines)
    decreases |lines| - start
  {
    var p := PageOf(lines, start, maxLines);
    if p.truncated && i > 0 {
      OnlyTheLastPageIsLast(lines, p.end + 1, maxLines, i - 1);
    }
  }

  lemma {:induction false} JoinOfAppend(a: seq<string>, b: seq<string>)
    requires a != [] && b != []
    ensures Join(a + b) == Join(a) + "\n" + Join(b)
  {
    if |a| == 1 {
      assert (a + b)[1..] == b;
    } else {
      JoinOfAppend(a[1..], b);
      assert (a + b)[1..] == a[1..] + b;
    }
  }

  function Contents(pages: seq<Page>): seq<string> {
    if pages == [] then [] else [Join(pages[0].lines)] + Contents(pages[1..])
  }

  /** Joined with line breaks, the contents of the pages are the whole file again. */
  lemma {:induction false} ContentsGiveTheRest(lines: seq<string>, start: nat, maxLines: nat)
    requires 1 <= start <= |lines| && maxLines >= 1
    ensures Contents(Pages(lines, start, maxLines)) != []
    ensures Join(Contents(Pages(lines, start, maxLines))) == Join(lines[start - 1..])
    decreases |lines| - start
  {
    hide Join, Contents;
    var p := PageOf(lines, start, maxLines);
    if p.truncated {
      ContentsGiveTheRest(lines, p.end + 1, maxLines);
      ContentsOfCons(p, Pages(lines, p.end + 1, maxLines));
      PageAndRest(lines, start, maxLines);
      JoinOfAppend(p.lines, lines[p.end..]);
    } else {
      ContentsOfCons(p, []);
      assert [p] + [] == [p];
      assert p.lines == lines[start - 1..];
    }
  }

  lemma ContentsOfCons(p: Page, rest: seq<Page>)
    ensures Contents([p] + rest) == [Join(p.lines)] + Contents(rest)
    ensures Contents([p] + rest) != []
    ensures rest == [] ==> Join(Contents([p] + rest)) == Join(p.lines)
    ensures Contents(rest) != [] ==> Join(Contents([p] + rest)) == Join(p.lines) + "\n" + Join(Contents(rest))
  {
    assert ([p] + rest)[1..] == rest;
    assert ([Join(p.lines)] + Contents(rest))[1..] == Contents(rest);
  }
}
