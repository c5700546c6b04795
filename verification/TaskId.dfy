/** Task names: `MMDD-` followed by what remains of a title. `alnum` stands for Python's `str.isalnum`
    on one character and `space` for the characters that `str.strip` removes. */
module TaskId {
  import opened Decimal
  import opened Text

  /** What is assumed about the two character classes. */
  ghost predicate Alphabet(alnum: char -> bool, space: char -> bool) {
    && !alnum('-') && !alnum('.') && !alnum('_')
    && !space('-') && !space('.') && !space('_')
    && (forall c :: IsDigit(c) ==> alnum(c))
    && (forall c :: space(c) ==> !alnum(c))
  }

  predicate Keeps(alnum: char -> bool, c: char) {
    alnum(c) || c == '_' || c == '.'
  }

  /** The check of `begin`: letters, digits, underscore, dot and dash, and not empty. */
  predicate IsSafe(alnum: char -> bool, taskId: string) {
    taskId != [] && forall i :: 0 <= i < |taskId| ==> Keeps(alnum, taskId[i]) || taskId[i] == '-'
  }

  // ---------- The pieces ----------

  const EDGE: char -> bool := c => c == '-' || c == '.'

  /** What the loop has collected after reading `s`, and whether a separator is pending. */
  function Scan(alnum: char -> bool, s: string): (string, bool) {
    if s == [] then ([], false)
    else
      var (semantic, pending) := Scan(alnum, s[..|s| - 1]);
      var c := s[|s| - 1];
      if !Keeps(alnum, c) then (semantic, true)
      else ((if pending && semantic != [] then semantic + ['-'] else semantic) + [c], false)
  }

  function Semantic(alnum: char -> bool, title: string): string {
    Scan(alnum, title).0
  }

  /** Every run of dashes becomes one dash. */
  function Collapse(s: string): string {
    if |s| < 2 then s
    else if s[|s| - 1] == '-' && s[|s| - 2] == '-' then Collapse(s[..|s| - 1])
    else Collapse(s[..|s| - 1]) + [s[|s| - 1]]
  }

  function Take(s: string, n: nat): string {
    if |s| <= n then s else s[..n]
  }

  /** The title part of a task name. */
  function Normalize(alnum: char -> bool, space: char -> bool, title: string, max: nat): string {
    TrimRight(EDGE, Take(Trim(EDGE, Collapse(Semantic(alnum, Trim(space, title)))), max))
  }

  lemma LeadingZero(s: string)
    requires AllDigits(s) && |s| == 1
    ensures AllDigits("0" + s) && NatValue("0" + s) == NatValue(s)
  {
    assert ("0" + s)[..1] == "0" && "0"[..0] == [] && s[..0] == [];
  }

  function PadTwo(n: nat): (s: string)
    ensures AllDigits(s) && NatValue(s) == n && (n < 100 ==> |s| == 2)
  {
    PrintedNatHasItsValue(n);
    assert n < 10 ==> AllDigits("0" + PrintNat(n)) && NatValue("0" + PrintNat(n)) == n by {
      if n < 10 {
        LeadingZero(PrintNat(n));
      }
    }
    if n < 10 then "0" + PrintNat(n) else PrintNat(n)
  }

  datatype Result = TaskName(name: string) | NoMeaningfulTitle

  method BuildTaskId(alnum: char -> bool, space: char -> bool, title: string, month: nat, day: nat, max: nat)
    returns (result: Result)
    ensures result ==
            var n := Normalize(alnum, space, title, max);
            if n == [] then NoMeaningfulTitle else TaskName(PadTwo(month) + PadTwo(day) + "-" + n)
  {
    var text := Trim(space, title);
    var semantic: string := [];
    var separatorPending := false;
    for i := 0 to |text|
      invariant (semantic, separatorPending) == Scan(alnum, text[..i])
    {
      assert text[..i + 1][..i] == text[..i];
      if Keeps(alnum, text[i]) {
        if separatorPending && semantic != [] {
          semantic := semantic + ['-'];
        }
        semantic := semantic + [text[i]];
        separatorPending := false;
      } else {
        separatorPending := true;
      }
    }
    assert text[..|text|] == text;
    var normalized := Trim(EDGE, Collapse(semantic));
    normalized := TrimRight(EDGE, Take(normalized, max));
    if normalized == [] {
      return NoMeaningfulTitle;
    }
    result := TaskName(PadTwo(month) + PadTwo(day) + "-" + normalized);
  }

  // ---------- What the loop produces ----------

  /** Kept characters and single dashes between them. */
  ghost predicate Tidy(alnum: char -> bool, s: string) {
    && (forall i :: 0 <= i < |s| ==> Keeps(alnum, s[i]) || s[i] == '-')
    && (forall i :: 0 < i < |s| ==> s[i] != '-' || s[i - 1] != '-')
  }

  lemma {:induction false} ScanIsTidy(alnum: char -> bool, s: string)
    requires !alnum('-')
    ensures var r := Scan(alnum, s).0;
            Tidy(alnum, r) && (r != [] ==> r[0] != '-' && r[|r| - 1] != '-')
    decreases |s|
  {
    if s != [] {
      ScanIsTidy(alnum, s[..|s| - 1]);
    }
  }

  /** The loop never emits two adjacent separators, so collapsing their runs changes nothing. */
  lemma SeparatorRunsNeverOccur(alnum: char -> bool, title: string)
    requires !alnum('-')
    ensures Collapse(Semantic(alnum, title)) == Semantic(alnum, title)
  {
    ScanIsTidy(alnum, title);
    CollapseKeepsTidy(alnum, Semantic(alnum, title));
  }

  lemma {:induction false} CollapseKeepsTidy(alnum: char -> bool, s: string)
    requires Tidy(alnum, s)
    ensures Collapse(s) == s
    decreases |s|
  {
    if |s| >= 2 {
      var older := s[..|s| - 1];
      assert forall i :: 0 <= i < |older| ==> older[i] == s[i];
      CollapseKeepsTidy(alnum, older);
      assert s == older + [s[|s| - 1]];
    }
  }

  /** The characters of `s` that are kept, in order. */
  function Kept(alnum: char -> bool, s: string): string {
    if s == [] then []
    else Kept(alnum, s[..|s| - 1]) + (if Keeps(alnum, s[|s| - 1]) then [s[|s| - 1]] else [])
  }

  /** No meaningful character is lost, added or moved. */
  lemma {:induction false} ScanKeepsEveryCharacter(alnum: char -> bool, s: string)
    requires !alnum('-')
    ensures Kept(alnum, Scan(alnum, s).0) == Kept(alnum, s)
    decreases |s|
  {
    if s != [] {
      var older := s[..|s| - 1];
      var c := s[|s| - 1];
      var (semantic, pending) := Scan(alnum, older);
      ScanKeepsEveryCharacter(alnum, older);
      if Keeps(alnum, c) {
        var dashed := if pending && semantic != [] then semantic + ['-'] else semantic;
        assert (semantic + ['-'])[..|semantic|] == semantic;
        assert Kept(alnum, dashed) == Kept(alnum, semantic);
        assert (dashed + [c])[..|dashed|] == dashed;
      }
    }
  }

  /** A tidy text that starts with a kept character is read back unchanged. */
  lemma {:induction false} ScanOfTidy(alnum: char -> bool, s: string)
    requires !alnum('-') && Tidy(alnum, s) && (s != [] ==> s[0] != '-')
    ensures Scan(alnum, s) == if s != [] && s[|s| - 1] == '-' then (s[..|s| - 1], true) else (s, false)
    decreases |s|
  {
    if s != [] {
      var older := s[..|s| - 1];
      assert forall i :: 0 <= i < |older| ==> older[i] == s[i];
      ScanOfTidy(alnum, older);
      if s[|s| - 1] != '-' && older != [] && older[|older| - 1] == '-' {
        assert older[..|older| - 1] + ['-'] + [s[|s| - 1]] == s;
      } else if s[|s| - 1] != '-' {
        assert older + [s[|s| - 1]] == s;
      }
    }
  }

  /** Texts that bring the loop to the same point have the same outcome, whatever follows. */
  lemma {:induction false} SameFromHere(alnum: char -> bool, a: string, b: string, s: string)
    requires Scan(alnum, a) == Scan(alnum, b)
    ensures Scan(alnum, a + s) == Scan(alnum, b + s)
    decreases |s|
  {
    if s == [] {
      assert a + s == a && b + s == b;
    } else {
      var init := s[..|s| - 1];
      SameFromHere(alnum, a, b, init);
      assert (a + s)[..|a + s| - 1] == a + init && (b + s)[..|b + s| - 1] == b + init;
    }
  }

  /** As long as nothing has been collected, it does not matter whether a separator is pending. */
  lemma {:induction false} PendingAtTheStart(alnum: char -> bool, c: char, s: string)
    requires !Keeps(alnum, c)
    ensures Scan(alnum, [c] + s).0 == Scan(alnum, s).0
    ensures Scan(alnum, s).0 != [] ==> Scan(alnum, [c] + s) == Scan(alnum, s)
    decreases |s|
  {
    if s != [] {
      var init := s[..|s| - 1];
      PendingAtTheStart(alnum, c, init);
      assert ([c] + s)[..|[c] + s| - 1] == [c] + init;
    } else {
      assert [c] + s == [c] && [c][..0] == [];
    }
  }

  lemma OneSeparator(alnum: char -> bool, a: string, c: char)
    requires !Keeps(alnum, c)
    ensures Scan(alnum, a + [c]) == (Scan(alnum, a).0, true)
  {
    assert (a + [c])[..|a|] == a;
  }

  /** Characters that are not kept count for nothing at the ends, and in between only as one separator, however
      many there are and whichever they are. */
  lemma SeparatorsCountOnce(alnum: char -> bool, a: string, c: char, d: char, b: string)
    requires !Keeps(alnum, c) && !Keeps(alnum, d)
    ensures Semantic(alnum, [c] + a) == Semantic(alnum, a) && Semantic(alnum, a + [c]) == Semantic(alnum, a)
    ensures Semantic(alnum, a + [c] + b) == Semantic(alnum, a + [d] + b)
    ensures Semantic(alnum, a + [c] + [d] + b) == Semantic(alnum, a + [c] + b)
  {
    hide Scan;
    PendingAtTheStart(alnum, c, a);
    OneSeparator(alnum, a, c);
    OneSeparator(alnum, a, d);
    OneSeparator(alnum, a + [c], d);
    SameFromHere(alnum, a + [c], a + [d], b);
    SameFromHere(alnum, a + [c] + [d], a + [c], b);
  }

  // ---------- The title part ----------

  /** Tidy, and free of separators and dots at both ends. */
  ghost predicate Canonical(alnum: char -> bool, s: string) {
    && Tidy(alnum, s)
    && (s != [] ==> s[0] != '-' && s[0] != '.' && s[|s| - 1] != '-' && s[|s| - 1] != '.')
  }

  lemma TrimmedIsCanonical(alnum: char -> bool, s: string)
    requires Tidy(alnum, s)
    ensures Canonical(alnum, Trim(EDGE, s))
  {
    var k := TrimLeftFrom(EDGE, s);
    var left := TrimLeft(EDGE, s);
    assert Tidy(alnum, left);
    var n := TrimRightTo(EDGE, left);
    if left != [] {
      TrimRightKeeps(EDGE, left);
    }
  }

  /** The title part has at most `max` characters, begins and ends with neither a dash nor a dot, and
      is empty only if nothing was there before truncation. */
  lemma NormalizeIsCanonical(alnum: char -> bool, space: char -> bool, title: string, max: nat)
    requires Alphabet(alnum, space)
    ensures var n := Normalize(alnum, space, title, max);
            && |n| <= max && Canonical(alnum, n)
            && (max > 0 ==> (n == [] <==> Trim(EDGE, Semantic(alnum, Trim(space, title))) == []))
  {
    var semantic := Semantic(alnum, Trim(space, title));
    ScanIsTidy(alnum, Trim(space, title));
    SeparatorRunsNeverOccur(alnum, Trim(space, title));
    TrimmedIsCanonical(alnum, semantic);
    var whole := Trim(EDGE, semantic);
    var cut := Take(whole, max);
    var n := TrimRightTo(EDGE, cut);
    if cut != [] {
      TrimRightKeeps(EDGE, cut);
    }
  }

  /** Of what remains of a title, the beginning is kept: the longest of at most `max` characters that ends in
      neither a dash nor a dot. */
  lemma NormalizeIsLongest(alnum: char -> bool, space: char -> bool, title: string, max: nat)
    requires !alnum('-')
    ensures var whole, n := Trim(EDGE, Semantic(alnum, Trim(space, title))), Normalize(alnum, space, title, max);
            && n <= whole && |n| <= max
            && forall k :: |n| <= k < |whole| && k < max ==> whole[k] == '-' || whole[k] == '.'
  {
    SeparatorRunsNeverOccur(alnum, Trim(space, title));
    var whole := Trim(EDGE, Semantic(alnum, Trim(space, title)));
    var cut := Take(whole, max);
    var n := TrimRightTo(EDGE, cut);
  }

  lemma CanonicalIsFixed(alnum: char -> bool, space: char -> bool, s: string, max: nat)
    requires Alphabet(alnum, space) && Canonical(alnum, s) && |s| <= max
    ensures Normalize(alnum, space, s, max) == s
  {
    assert Trim(space, s) == s by {
      if s != [] {
        assert !space(s[0]) && !space(s[|s| - 1]);
      }
    }
    ScanOfTidy(alnum, s);
    CollapseKeepsTidy(alnum, s);
  }

  /** Normalizing the title part again changes nothing. */
  lemma NormalizeIsIdempotent(alnum: char -> bool, space: char -> bool, title: string, max: nat)
    requires Alphabet(alnum, space)
    ensures Normalize(alnum, space, Normalize(alnum, space, title, max), max) == Normalize(alnum, space, title, max)
  {
    NormalizeIsCanonical(alnum, space, title, max);
    CanonicalIsFixed(alnum, space, Normalize(alnum, space, title, max), max);
  }

  /** A title already in normal form of at most `max` characters is exactly what a name is made from, so
      the title parts are the canonical texts, no more and no fewer. */
  lemma TitlePartsAreCanonical(alnum: char -> bool, space: char -> bool, s: string, max: nat)
    requires Alphabet(alnum, space)
    ensures (exists title :: Normalize(alnum, space, title, max) == s) <==> Canonical(alnum, s) && |s| <= max
  {
    if title :| Normalize(alnum, space, title, max) == s {
      NormalizeIsCanonical(alnum, space, title, max);
    }
    if Canonical(alnum, s) && |s| <= max {
      CanonicalIsFixed(alnum, space, s, max);
    }
  }

  /** Every name that is built passes the check of `begin`. */
  lemma BuiltNamesAreSafe(alnum: char -> bool, space: char -> bool, title: string, month: nat, day: nat, max: nat)
    requires Alphabet(alnum, space)
    ensures IsSafe(alnum, PadTwo(month) + PadTwo(day) + "-" + Normalize(alnum, space, title, max))
  {
    NormalizeIsCanonical(alnum, space, title, max);
    var name := PadTwo(month) + PadTwo(day) + "-" + Normalize(alnum, space, title, max);
    forall i | 0 <= i < |name| ensures Keeps(alnum, name[i]) || name[i] == '-' {
      if i < |PadTwo(month)| {
        assert IsDigit(PadTwo(month)[i]);
      } else if i < |PadTwo(month)| + |PadTwo(day)| {
        assert IsDigit(PadTwo(day)[i - |PadTwo(month)|]);
      }
    }
  }

  /** A name tells month and day in two digits each, and the title part behind a dash. */
  lemma NamesTellTheDay(month: nat, day: nat, part: string)
    requires month < 100 && day < 100
    ensures var name := PadTwo(month) + PadTwo(day) + "-" + part;
            && AllDigits(name[..2]) && NatValue(name[..2]) == month
            && AllDigits(name[2..4]) && NatValue(name[2..4]) == day
            && name[4] == '-' && name[5..] == part
  {
    var name := PadTwo(month) + PadTwo(day) + "-" + part;
    assert name[..2] == PadTwo(month) && name[2..4] == PadTwo(day);
  }
}
