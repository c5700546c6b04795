/** Local jobs: secrets read for a job are masked in its output, and the two streams are joined and cut to
    their tail. `space` stands for the characters that `str.strip` removes. */
module Masking {
  import opened Options
  import opened Text
  import Decimal

  const STARS := "***"
  const MAX_OUTPUT_CHARS := 12000

  // ---------- str.replace ----------

  /** `t.replace(s, "***")`: the leftmost occurrences that do not overlap. */
  function Replace(s: string, t: string): string
    requires s != []
    decreases |t|
  {
    if |t| < |s| then t
    else if s <= t then STARS + Replace(s, t[|s|..])
    else [t[0]] + Replace(s, t[1..])
  }

  /** `t.split(s)` */
  function Split(s: string, t: string): (parts: seq<string>)
    requires s != []
    ensures parts != []
    decreases |t|
  {
    if |t| < |s| then [t]
    else if s <= t then [[]] + Split(s, t[|s|..])
    else
      var rest := Split(s, t[1..]);
      [[t[0]] + rest[0]] + rest[1..]
  }

  /** `"***".join(parts)` */
  function Starred(parts: seq<string>): string
    requires parts != []
  {
    if |parts| == 1 then parts[0] else parts[0] + STARS + Starred(parts[1..])
  }

  lemma StarredOfCons(c: char, parts: seq<string>)
    requires parts != []
    ensures Starred([[c] + parts[0]] + parts[1..]) == [c] + Starred(parts)
  {
    var more := [[c] + parts[0]] + parts[1..];
    if |parts| > 1 {
      assert more[1..] == parts[1..];
      var end := Starred(parts[1..]);
      assert ([c] + parts[0]) + STARS + end == [c] + (parts[0] + STARS + end);
    }
  }

  lemma StarredOfEmpty(parts: seq<string>)
    requires parts != []
    ensures Starred([[]] + parts) == STARS + Starred(parts)
  {
    assert ([[]] + parts)[1..] == parts;
  }

  lemma {:induction false} ReplaceIsSplitAndJoin(s: string, t: string)
    requires s != []
    ensures Replace(s, t) == Starred(Split(s, t))
    decreases |t|
  {
    if |t| >= |s| {
      if s <= t {
        ReplaceIsSplitAndJoin(s, t[|s|..]);
        StarredOfEmpty(Split(s, t[|s|..]));
      } else {
        ReplaceIsSplitAndJoin(s, t[1..]);
        StarredOfCons(t[0], Split(s, t[1..]));
      }
    }
  }

  // ---------- Occurrences ----------

  lemma OccursIntro(u: string, t: string, i: nat)
    requires OccursAt(u, t, i)
    ensures Occurs(u, t)
  {
  }

  /** What occurs in a part occurs in the whole. */
  lemma OccursInWhole(u: string, t: string, from: nat, to: nat)
    requires from <= to <= |t| && Occurs(u, t[from..to])
    ensures Occurs(u, t)
  {
    var i: nat :| i <= |t[from..to]| && OccursAt(u, t[from..to], i);
    OccursIntro(u, t, from + i);
  }

  predicate PartAt(part: string, t: string, from: nat) {
    from + |part| <= |t| && part == t[from..from + |part|]
  }

  lemma PartOfDrop(part: string, t: string, n: nat, from: nat)
    requires n <= |t| && PartAt(part, t[n..], from)
    ensures PartAt(part, t, n + from)
  {
    assert t[n..][from..from + |part|] == t[n + from..n + from + |part|];
  }

  lemma PartOfCons(part: string, t: string)
    requires t != [] && PartAt(part, t[1..], 0)
    ensures PartAt([t[0]] + part, t, 0)
  {
  }

  lemma {:induction false} PartsAreParts(s: string, t: string, k: nat) returns (from: nat)
    requires s != [] && k < |Split(s, t)|
    ensures PartAt(Split(s, t)[k], t, from)
    ensures k == 0 ==> from == 0
    decreases |t|
  {
    hide PartAt;
    from := 0;
    if |t| < |s| {
      WholePart(t);
    } else if s <= t {
      if k == 0 {
        EmptyPart(t);
      } else {
        var rest := PartsAreParts(s, t[|s|..], k - 1);
        PartOfDrop(Split(s, t)[k], t, |s|, rest);
        from := |s| + rest;
      }
    } else {
      var rest := PartsAreParts(s, t[1..], k);
      if k == 0 {
        PartOfCons(Split(s, t[1..])[0], t);
      } else {
        PartOfDrop(Split(s, t)[k], t, 1, rest);
        from := 1 + rest;
      }
    }
  }

  lemma WholePart(t: string)
    ensures PartAt(t, t, 0)
  {
  }

  lemma EmptyPart(t: string)
    ensures PartAt([], t, 0)
  {
  }

  /** No part of a split holds the separator. */
  lemma {:induction false} PartsHoldNoSeparator(s: string, t: string, k: nat)
    requires s != [] && k < |Split(s, t)|
    ensures !Occurs(s, Split(s, t)[k])
    decreases |t|
  {
    if |t| >= |s| {
      if s <= t {
        if k > 0 {
          PartsHoldNoSeparator(s, t[|s|..], k - 1);
        }
      } else {
        PartsHoldNoSeparator(s, t[1..], k);
        if k == 0 {
          var rest := Split(s, t[1..]);
          var from := PartsAreParts(s, t[1..], 0);
          assert [t[0]] + rest[0] <= t;
          ConsHoldsNo(s, t[0], rest[0]);
        }
      }
    }
  }

  lemma ConsHoldsNo(s: string, c: char, t: string)
    requires s != [] && !Occurs(s, t) && !(s <= [c] + t)
    ensures !Occurs(s, [c] + t)
  {
    forall i: nat | i <= |[c] + t| ensures !OccursAt(s, [c] + t, i) {
      if i == 0 {
        assert OccursAt(s, [c] + t, 0) ==> s <= [c] + t;
      } else if i + |s| <= |t| + 1 {
        assert !OccursAt(s, t, i - 1);
        var j :| 0 <= j < |s| && s[j] != t[i - 1 + j];
        assert ([c] + t)[i + j] == t[i - 1 + j];
      }
    }
  }

  // ---------- Secrets that masking can protect ----------

  /** Neither end is a star and no three stars are inside. */
  predicate Maskable(u: string) {
    u != [] && u[0] != '*' && u[|u| - 1] != '*' && !Occurs(STARS, u)
  }

  lemma StarsInside(u: string, a: string, b: string, i: nat)
    requires i <= |a| && |a| + 3 <= i + |u| && OccursAt(u, a + STARS + b, i)
    ensures Occurs(STARS, u)
  {
    var t := a + STARS + b;
    assert forall j :: 0 <= j < 3 ==> STARS[j] == t[|a| + j] == u[|a| - i + j];
    OccursIntro(STARS, u, |a| - i);
  }

  /** A maskable text is never made by putting stars between two texts. */
  lemma StarsSeparate(u: string, a: string, b: string)
    requires Maskable(u) && Occurs(u, a + STARS + b)
    ensures Occurs(u, a) || Occurs(u, b)
  {
    var t := a + STARS + b;
    var i: nat :| i <= |t| && OccursAt(u, t, i);
    var n := |a|;
    assert t[n] == t[n + 1] == t[n + 2] == '*';
    // Touching the stars, the secret would start or end with one, or have all three inside.
    assert u[0] == t[i + 0] && u[|u| - 1] == t[i + (|u| - 1)];
    if i < n && n + 3 < i + |u| {
      StarsInside(u, a, b, i);
    }
    if i + |u| <= n {
      assert OccursAt(u, a, i);
    } else if n + 3 <= i {
      assert OccursAt(u, b, i - n - 3);
    }
  }

  lemma {:induction false} StarsSeparateParts(u: string, parts: seq<string>) returns (k: nat)
    requires Maskable(u) && parts != [] && Occurs(u, Starred(parts))
    ensures k < |parts| && Occurs(u, parts[k])
    decreases |parts|
  {
    if |parts| == 1 {
      k := 0;
    } else {
      StarsSeparate(u, parts[0], Starred(parts[1..]));
      if Occurs(u, parts[0]) {
        k := 0;
      } else {
        var rest := StarsSeparateParts(u, parts[1..]);
        k := rest + 1;
      }
    }
  }

  /** Replacing any text never makes a maskable one appear, and removes it when it is the one replaced. */
  lemma ReplaceNeverCreates(s: string, t: string, u: string)
    requires s != [] && Maskable(u) && Occurs(u, Replace(s, t))
    ensures Occurs(u, t) && u != s
  {
    ReplaceIsSplitAndJoin(s, t);
    var k := StarsSeparateParts(u, Split(s, t));
    var from := PartsAreParts(s, t, k);
    OccursInWhole(u, t, from, from + |Split(s, t)[k]|);
    PartsHoldNoSeparator(s, t, k);
  }

  lemma {:induction false} ReplaceKeepsTheRest(s: string, t: string)
    requires s != [] && !Occurs(s, t)
    ensures Replace(s, t) == t
    decreases |t|
  {
    if |t| >= |s| {
      if s <= t {
        OccursIntro(s, t, 0);
      } else {
        if Occurs(s, t[1..]) {
          assert t[1..|t|] == t[1..];
          OccursInWhole(s, t, 1, |t|);
        }
        ReplaceKeepsTheRest(s, t[1..]);
        assert t == [t[0]] + t[1..];
      }
    }
  }

  // ---------- The masking loop ----------

  predicate NonEmpty(secrets: seq<string>) {
    forall i :: 0 <= i < |secrets| ==> secrets[i] != []
  }

  function MaskAll(secrets: seq<string>, t: string): string
    requires NonEmpty(secrets)
  {
    if secrets == [] then t
    else Replace(secrets[|secrets| - 1], MaskAll(secrets[..|secrets| - 1], t))
  }

  lemma {:induction false} MaskedSecretsAreGone(secrets: seq<string>, t: string, u: string)
    requires NonEmpty(secrets)
    requires Maskable(u) && u in secrets
    ensures !Occurs(u, MaskAll(secrets, t))
    decreases |secrets|
  {
    var last := secrets[|secrets| - 1];
    if Occurs(u, MaskAll(secrets, t)) {
      ReplaceNeverCreates(last, MaskAll(secrets[..|secrets| - 1], t), u);
      MaskedSecretsAreGone(secrets[..|secrets| - 1], t, u);
    }
  }

  lemma {:induction false} MaskingKeepsTheRest(secrets: seq<string>, t: string)
    requires NonEmpty(secrets) && forall i :: 0 <= i < |secrets| ==> !Occurs(secrets[i], t)
    ensures MaskAll(secrets, t) == t
    decreases |secrets|
  {
    if secrets != [] {
      MaskingKeepsTheRest(secrets[..|secrets| - 1], t);
      ReplaceKeepsTheRest(secrets[|secrets| - 1], t);
    }
  }

  /** Masking with some secrets and then with others is masking with all of them, in this order. */
  lemma {:induction false} MaskingGoesOneByOne(secrets: seq<string>, others: seq<string>, t: string)
    requires NonEmpty(secrets) && NonEmpty(others)
    ensures MaskAll(secrets + others, t) == MaskAll(others, MaskAll(secrets, t))
    ensures |others| == 1 ==> MaskAll(others, t) == Replace(others[0], t)
    decreases |others|
  {
    if others == [] {
      assert secrets + others == secrets;
    } else {
      var init, last := others[..|others| - 1], others[|others| - 1];
      MaskingGoesOneByOne(secrets, init, t);
      assert (secrets + others)[..|secrets + others| - 1] == secrets + init;
      assert |others| == 1 ==> init == [];
    }
  }

  /** Both streams are masked with every secret, one after the other; no later replacement brings an earlier
      secret back, and a stream without secrets is left alone. */
  method MaskStreams(secrets: seq<string>, out: string, err: string) returns (stdout: string, stderr: string)
    requires NonEmpty(secrets)
    ensures stdout == MaskAll(secrets, out) && stderr == MaskAll(secrets, err)
    ensures forall u :: u in secrets && Maskable(u) ==> !Occurs(u, stdout) && !Occurs(u, stderr)
    ensures (forall i :: 0 <= i < |secrets| ==> !Occurs(secrets[i], out)) ==> stdout == out
    ensures (forall i :: 0 <= i < |secrets| ==> !Occurs(secrets[i], err)) ==> stderr == err
  {
    hide Occurs, Maskable;
    stdout, stderr := out, err;
    for i := 0 to |secrets|
      invariant stdout == MaskAll(secrets[..i], out) && stderr == MaskAll(secrets[..i], err)
    {
      assert secrets[..i + 1][..i] == secrets[..i];
      stdout := Replace(secrets[i], stdout);
      stderr := Replace(secrets[i], stderr);
    }
    assert secrets[..|secrets|] == secrets;
    forall u | u in secrets && Maskable(u) ensures !Occurs(u, stdout) && !Occurs(u, stderr) {
      MaskedSecretsAreGone(secrets, out, u);
      MaskedSecretsAreGone(secrets, err, u);
    }
    if forall i :: 0 <= i < |secrets| ==> !Occurs(secrets[i], out) {
      MaskingKeepsTheRest(secrets, out);
    }
    if forall i :: 0 <= i < |secrets| ==> !Occurs(secrets[i], err) {
      MaskingKeepsTheRest(secrets, err);
    }
  }

  // ---------- Which secrets are protected ----------

  ghost predicate SurvivesAlone(u: string)
    requires u != []
  {
    exists t :: Occurs(u, Replace(u, t))
  }

  /** `i` is the first place where `u` occurs. */
  ghost predicate First(u: string, t: string, i: nat) {
    OccursAt(u, t, i) && forall j: nat | j < i :: !OccursAt(u, t, j)
  }

  lemma FirstInRest(s: string, t: string, i: nat)
    requires s != [] && First(s, t, i) && i > 0
    ensures !(s <= t) && First(s, t[1..], i - 1)
  {
    assert !OccursAt(s, t, 0);
    assert OccursAt(s, t[1..], i - 1);
    forall j: nat | j < i - 1 ensures !OccursAt(s, t[1..], j) {
      assert !OccursAt(s, t, j + 1);
      if j + 1 + |s| <= |t| {
        var k :| 0 <= k < |s| && s[k] != t[j + 1 + k];
        assert t[1..][j + k] == t[j + 1 + k];
      }
    }
  }

  lemma {:induction false} ReplaceFirst(s: string, t: string, i: nat)
    requires s != [] && First(s, t, i)
    ensures Replace(s, t) == t[..i] + STARS + Replace(s, t[i + |s|..])
    decreases i
  {
    hide OccursAt, Replace;
    OccurrencesFit(s, t, i);
    ReplaceOnce(s, t);
    if i == 0 {
      FirstAtStart(s, t);
      assert t[..0] + STARS == STARS;
    } else {
      FirstInRest(s, t, i);
      ReplaceFirst(s, t[1..], i - 1);
      ConsBeforeStars(t, i, Replace(s, t[i + |s|..]));
      assert t[1..][i - 1 + |s|..] == t[i + |s|..];
    }
  }

  lemma ReplaceOnce(s: string, t: string)
    requires s != [] && |s| <= |t|
    ensures s <= t ==> Replace(s, t) == STARS + Replace(s, t[|s|..])
    ensures !(s <= t) ==> Replace(s, t) == [t[0]] + Replace(s, t[1..])
  {
  }

  lemma ReplaceShort(s: string, t: string)
    requires |t| < |s|
    ensures Replace(s, t) == t
  {
  }

  lemma FirstAtStart(s: string, t: string)
    requires First(s, t, 0)
    ensures s <= t
  {
  }

  lemma ConsBeforeStars(t: string, i: nat, r: string)
    requires 0 < i <= |t|
    ensures t[..i] + STARS + r == [t[0]] + (t[1..][..i - 1] + STARS + r)
  {
    assert t[..i] == [t[0]] + t[1..][..i - 1];
  }

  lemma OccurrencesFit(s: string, t: string, i: nat)
    requires OccursAt(s, t, i)
    ensures i + |s| <= |t|
  {
  }

  lemma LeadingStarSurvives(u: string)
    requires u != [] && u[0] == '*'
    ensures Occurs(u, Replace(u, u + u[1..]))
  {
    hide Replace;
    var t := u + u[1..];
    ReplaceFirst(u, t, 0);
    assert t[..0] == [] && t[|u|..] == u[1..];
    ReplaceShort(u, u[1..]);
    assert OccursAt(u, t[..0] + STARS + u[1..], 2);
  }

  lemma TrailingStarFirst(u: string)
    requires u != [] && u[0] != '*' && u[|u| - 1] == '*'
    ensures First(u, u[..|u| - 1] + u, |u| - 1)
  {
    var n := |u|;
    var t := u[..n - 1] + u;
    assert OccursAt(u, t, n - 1);
    forall i: nat | i < n - 1 ensures !OccursAt(u, t, i) {
      assert t[i] == u[i] == t[i + n - 1];
      if t[i] != '*' {
        assert u[n - 1] != t[i + (n - 1)];
      } else {
        assert u[0] != t[i + 0];
      }
    }
  }

  lemma TrailingStarSurvives(u: string)
    requires u != [] && u[0] != '*' && u[|u| - 1] == '*'
    ensures Occurs(u, Replace(u, u[..|u| - 1] + u))
  {
    hide Replace, First;
    var n := |u|;
    var t := u[..n - 1] + u;
    TrailingStarFirst(u);
    ReplaceFirst(u, t, n - 1);
    assert t[..n - 1] == u[..n - 1] && t[n - 1 + n..] == [];
    ReplaceShort(u, []);
    assert OccursAt(u, t[..n - 1] + STARS + [], 0);
  }

  lemma InnerStarsFirst(u: string, k: nat, tail: string)
    requires First(STARS, u, k)
    ensures First(u, u[..k] + u + tail, k)
  {
    var t := u[..k] + u + tail;
    assert OccursAt(u, t, k);
    assert forall i :: 0 <= i < 3 ==> STARS[i] == u[k + i];
    forall i: nat | i < k ensures !OccursAt(u, t, i) {
      assert !OccursAt(STARS, u, i);
      var j :| 0 <= j < 3 && STARS[j] != u[i + j];
      assert u[k + j] == STARS[j];
      assert t[i + (k + j)] == u[i + j];
    }
  }

  lemma InnerStarsSurvive(u: string, k: nat)
    requires First(STARS, u, k)
    ensures k + 3 <= |u| && Occurs(u, Replace(u, u[..k] + u + u[k + 3..]))
  {
    hide Replace, First;
    InnerStarsFit(u, k);
    var head, tail := u[..k], u[k + 3..];
    var t := head + u + tail;
    InnerStarsFirst(u, k, tail);
    ReplaceFirst(u, t, k);
    assert t[..k] == head && t[k + |u|..] == tail;
    ReplaceShort(u, tail);
    assert head + STARS + tail == u;
    assert OccursAt(u, u, 0);
  }

  lemma InnerStarsFit(u: string, k: nat)
    requires First(STARS, u, k)
    ensures k + 3 <= |u| && u[k..k + 3] == STARS
  {
    assert forall i :: 0 <= i < 3 ==> STARS[i] == u[k + i];
  }

  lemma FirstOccurrence(u: string, t: string) returns (k: nat)
    requires Occurs(u, t)
    ensures First(u, t, k)
  {
    var i: nat :| i <= |t| && OccursAt(u, t, i);
    k := 0;
    while !OccursAt(u, t, k)
      invariant k <= i && forall j: nat | j < k :: !OccursAt(u, t, j)
      decreases i - k
    {
      k := k + 1;
    }
  }

  /** Exactly the secrets with a star at an end or three stars inside can survive being replaced. */
  lemma SurvivesAloneIff(u: string)
    requires u != []
    ensures SurvivesAlone(u) <==> !Maskable(u)
  {
    if Maskable(u) {
      forall t ensures !Occurs(u, Replace(u, t)) {
        if Occurs(u, Replace(u, t)) {
          ReplaceNeverCreates(u, t, u);
        }
      }
    } else if u[0] == '*' {
      LeadingStarSurvives(u);
    } else if u[|u| - 1] == '*' {
      TrailingStarSurvives(u);
    } else {
      var k := FirstOccurrence(STARS, u);
      InnerStarsSurvive(u, k);
    }
  }

  ghost predicate AlwaysMasked(u: string) {
    forall secrets: seq<string>, t: string :: NonEmpty(secrets) && u in secrets ==> !Occurs(u, MaskAll(secrets, t))
  }

  /** A secret is masked in every text and next to every other secret exactly when it is maskable. */
  lemma AlwaysMaskedIff(u: string)
    requires u != []
    ensures AlwaysMasked(u) <==> Maskable(u)
  {
    SurvivesAloneIff(u);
    if Maskable(u) {
      forall secrets: seq<string>, t: string | NonEmpty(secrets) && u in secrets
        ensures !Occurs(u, MaskAll(secrets, t))
      {
        MaskedSecretsAreGone(secrets, t, u);
      }
    } else {
      var t :| Occurs(u, Replace(u, t));
      assert MaskAll([u], t) == Replace(u, t);
      assert NonEmpty([u]) && u in [u];
    }
  }

  // ---------- combine_output ----------

  function Joined(space: char -> bool, stdout: string, stderr: string): string {
    var a, b := Trim(space, stdout), Trim(space, stderr);
    if a == [] then b else if b == [] then a else a + "\n" + b
  }

  const BEFORE_COUNT := "[前面 "
  const AFTER_COUNT := " 个字符已省略]"

  function Header(omitted: nat): string {
    BEFORE_COUNT + Decimal.PrintNat(omitted) + AFTER_COUNT
  }

  function CombineOutput(space: char -> bool, stdout: string, stderr: string): string {
    var output := Joined(space, stdout, stderr);
    if |output| <= MAX_OUTPUT_CHARS then output
    else
      var omitted := |output| - MAX_OUTPUT_CHARS;
      Header(omitted) + "\n" + output[omitted..]
  }

  /** The joined text is the trimmed stdout followed by the trimmed stderr, with one line break between them
      exactly when neither is empty. */
  lemma JoinedIsExact(space: char -> bool, stdout: string, stderr: string)
    ensures var whole, a, b := Joined(space, stdout, stderr), Trim(space, stdout), Trim(space, stderr);
            && |a| + |b| <= |whole| && a <= whole && whole[|whole| - |b|..] == b
            && whole[|a|..|whole| - |b|] == if a != [] && b != [] then "\n" else ""
  {
    hide Trim;
  }

  lemma HeaderIsOneLine(omitted: nat)
    ensures var numeral := Decimal.PrintNat(omitted);
            && Header(omitted) == BEFORE_COUNT + numeral + AFTER_COUNT
            && '\n' !in numeral && numeral != [] && Decimal.NatValue(numeral) == omitted
  {
    Decimal.PrintedNatHasItsValue(omitted);
    assert forall c :: c in Decimal.PrintNat(omitted) ==> Decimal.IsDigit(c);
  }

  lemma NoDigitsAround()
    ensures forall c :: c in BEFORE_COUNT || c in AFTER_COUNT ==> c != '\n' && !Decimal.IsDigit(c)
  {
  }

  /** Output of up to 12000 characters is shown whole. Longer output is shown as one line, which states how
      many characters are missing, and the last 12000 characters. */
  lemma CombinedOutputKeepsTheEnd(space: char -> bool, stdout: string, stderr: string)
    returns (before: string, numeral: string, after: string)
    ensures var whole, shown := Joined(space, stdout, stderr), CombineOutput(space, stdout, stderr);
            && (|whole| <= 12000 ==> shown == whole)
            && (|whole| > 12000 ==>
                  && shown == before + numeral + after + "\n" + whole[|whole| - 12000..]
                  && (forall c :: c in before || c in after ==> c != '\n' && !Decimal.IsDigit(c))
                  && '\n' !in numeral && numeral != []
                  && Decimal.AllDigits(numeral) && Decimal.NatValue(numeral) == |whole| - 12000)
  {
    hide Joined, Header;
    var whole := Joined(space, stdout, stderr);
    var omitted := if |whole| > 12000 then |whole| - 12000 else 0;
    before, numeral, after := BEFORE_COUNT, Decimal.PrintNat(omitted), AFTER_COUNT;
    HeaderIsOneLine(omitted);
    NoDigitsAround();
  }

  lemma TrimShowsNothingNew(space: char -> bool, s: string, u: string)
    requires !Occurs(u, s)
    ensures !Occurs(u, Trim(space, s))
  {
    var from, to := TrimIsExact(space, s);
    if Occurs(u, s[from..to]) {
      OccursInWhole(u, s, from, to);
    }
  }

  /** An occurrence in two texts joined by a line break is in one of them, or has the line break inside. */
  lemma AcrossTheBreak(u: string, a: string, b: string) returns (k: nat)
    requires u != [] && Occurs(u, a + "\n" + b) && !Occurs(u, a) && !Occurs(u, b)
    ensures k < |u| && u[k] == '\n' && k <= |a| && |u| - k - 1 <= |b|
    ensures k > 0 ==> u[k - 1] == a[|a| - 1]
    ensures k + 1 < |u| ==> u[k + 1] == b[0]
  {
    var t := a + "\n" + b;
    var i: nat :| i <= |t| && OccursAt(u, t, i);
    if i + |u| <= |a| {
      assert OccursAt(u, a, i);
    }
    if |a| < i {
      assert OccursAt(u, b, i - |a| - 1);
    }
    k := |a| - i;
    assert u[k] == t[i + k];
    if k > 0 {
      assert u[k - 1] == t[i + (k - 1)];
    }
    if k + 1 < |u| {
      assert u[k + 1] == t[i + (k + 1)];
    }
  }

  /** A line break inside the secret with no blank next to it. */
  predicate BreaksBetweenInk(space: char -> bool, u: string, k: nat) {
    && k < |u| && u[k] == '\n'
    && (k > 0 ==> !space(u[k - 1]))
    && (k + 1 < |u| ==> !space(u[k + 1]))
  }

  predicate CanStraddle(space: char -> bool, u: string) {
    exists k: nat | k < |u| :: BreaksBetweenInk(space, u, k)
  }

  lemma AcrossTheBreakStraddles(space: char -> bool, u: string, a: string, b: string)
    requires u != [] && Occurs(u, a + "\n" + b) && !Occurs(u, a) && !Occurs(u, b)
    requires (a != [] ==> !space(a[|a| - 1])) && (b != [] ==> !space(b[0]))
    ensures CanStraddle(space, u)
  {
    var k := AcrossTheBreak(u, a, b);
    assert BreaksBetweenInk(space, u, k);
  }

  lemma JoinedHidesWhatBothHide(space: char -> bool, stdout: string, stderr: string, u: string)
    requires u != [] && !CanStraddle(space, u) && !Occurs(u, stdout) && !Occurs(u, stderr)
    ensures !Occurs(u, Joined(space, stdout, stderr))
  {
    var a, b := Trim(space, stdout), Trim(space, stderr);
    TrimShowsNothingNew(space, stdout, u);
    TrimShowsNothingNew(space, stderr, u);
    var i, j := TrimIsExact(space, stdout);
    var k, l := TrimIsExact(space, stderr);
    if a != [] && b != [] && Occurs(u, a + "\n" + b) {
      AcrossTheBreakStraddles(space, u, a, b);
    }
  }

  /** Two streams that each hide the secret, yet show it once joined. */
  lemma StraddlingSecretShows(space: char -> bool, u: string) returns (stdout: string, stderr: string)
    requires CanStraddle(space, u) && space('\n') && !space('.')
    ensures !Occurs(u, stdout) && !Occurs(u, stderr) && Occurs(u, Joined(space, stdout, stderr))
  {
    var k: nat :| k < |u| && BreaksBetweenInk(space, u, k);
    stdout, stderr := "." + u[..k], u[k + 1..] + ".";
    TrimKeeps(space, stdout);
    TrimKeeps(space, stderr);
    forall i: nat | i <= |stdout| ensures !OccursAt(u, stdout, i) {
      if i == 0 && |u| <= |stdout| {
        assert u[k] != stdout[0 + k];
      }
    }
    forall i: nat | i <= |stderr| ensures !OccursAt(u, stderr, i) {
      if i == 0 && |u| <= |stderr| {
        assert u[0] != stderr[0 + 0];
      }
    }
    var t := stdout + "\n" + stderr;
    assert Joined(space, stdout, stderr) == t;
    assert OccursAt(u, t, 1);
  }

  /** Joining two streams without the secret never shows it, exactly when no line break in the secret stands
      between two characters that are not blank. */
  lemma JoiningIsSafeIff(space: char -> bool, u: string)
    requires u != [] && space('\n') && !space('.')
    ensures (forall stdout, stderr :: !Occurs(u, stdout) && !Occurs(u, stderr) ==>
        !Occurs(u, Joined(space, stdout, stderr)))
            <==> !CanStraddle(space, u)
  {
    if CanStraddle(space, u) {
      var stdout, stderr := StraddlingSecretShows(space, u);
    } else {
      forall stdout, stderr | !Occurs(u, stdout) && !Occurs(u, stderr)
        ensures !Occurs(u, Joined(space, stdout, stderr))
      {
        JoinedHidesWhatBothHide(space, stdout, stderr, u);
      }
    }
  }

  /** Wherever the cut falls, a maskable secret without line breaks is in the combined output only if the
      line that counts the omitted characters happens to spell it. */
  lemma CombinedOutputShowsOnlyTheHeader(space: char -> bool, secrets: seq<string>, out: string, err: string, u: string)
    requires NonEmpty(secrets) && u in secrets && Maskable(u) && '\n' !in u
    ensures var stdout, stderr := MaskAll(secrets, out), MaskAll(secrets, err);
            var whole := Joined(space, stdout, stderr);
            && !Occurs(u, whole)
            && (Occurs(u, CombineOutput(space, stdout, stderr)) <==>
                 |whole| > MAX_OUTPUT_CHARS && Occurs(u, Header(|whole| - MAX_OUTPUT_CHARS)))
  {
    hide Maskable, MaskAll, Joined, Header, Occurs, OccursAt;
    var stdout, stderr := MaskAll(secrets, out), MaskAll(secrets, err);
    MaskedSecretsAreGone(secrets, out, u);
    MaskedSecretsAreGone(secrets, err, u);
    MaskableIsNotEmpty(u);
    JoinedHidesWhatBothHide(space, stdout, stderr, u);
    var whole := Joined(space, stdout, stderr);
    if |whole| > MAX_OUTPUT_CHARS {
      CutShowsOnlyTheHeader(whole, u);
    }
  }

  /** A word of that line is maskable, so as a secret it shows in every output that is cut. */
  lemma HeaderShowsASecret(omitted: nat)
    ensures Maskable("字符") && '\n' !in "字符" && Occurs("字符", Header(omitted))
  {
    var numeral := Decimal.PrintNat(omitted);
    var i := |BEFORE_COUNT + numeral + " 个"|;
    assert OccursAt("字符", Header(omitted), i);
    assert !Occurs(STARS, "字符");
  }

  lemma MaskableIsNotEmpty(u: string)
    requires Maskable(u)
    ensures u != []
  {
  }

  lemma CutShowsOnlyTheHeader(whole: string, u: string)
    requires |whole| > MAX_OUTPUT_CHARS && u != [] && '\n' !in u && !Occurs(u, whole)
    ensures var omitted := |whole| - MAX_OUTPUT_CHARS;
            Occurs(u, Header(omitted) + "\n" + whole[omitted..]) <==> Occurs(u, Header(omitted))
  {
    hide Occurs, Header;
    var omitted := |whole| - MAX_OUTPUT_CHARS;
    var header, tail := Header(omitted), whole[omitted..];
    var t := header + "\n" + tail;
    assert !Occurs(u, tail) by {
      assert whole[omitted..|whole|] == tail;
      if Occurs(u, tail) {
        OccursInWhole(u, whole, omitted, |whole|);
      }
    }
    if Occurs(u, header) {
      assert t[0..|header|] == header;
      OccursInWhole(u, t, 0, |header|);
    } else if Occurs(u, t) {
      var k := AcrossTheBreak(u, header, tail);
    }
  }

  // ---------- The job's environment ----------

  datatype Entry = SecretFile(path: string) | Plain(value: string)

  /** The texts of the secret files of the first entries, without their final line breaks, empty ones left
      out. */
  function SecretTexts(entries: seq<(string, Entry)>, files: map<string, string>): (secrets: seq<string>)
    ensures NonEmpty(secrets)
  {
    if entries == [] then []
    else
      var last := entries[|entries| - 1].1;
      var secrets := SecretTexts(entries[..|entries| - 1], files);
      if last.Plain? || last.path !in files then secrets
      else
        var value := TrimRight(c => c == '\n', files[last.path]);
        if value == [] then secrets else secrets + [value]
  }

  /** What a job's environment is made of: plain values with their placeholders already expanded, and
      secrets read from files without their final line breaks. */
  method ResolvedEnvironment(entries: seq<(string, Entry)>, files: map<string, string>)
    returns (result: Option<(seq<(string, string)>, seq<string>)>)
    ensures result.None? <==> exists i :: 0 <= i < |entries| && entries[i].1.SecretFile? && entries[i].1.path !in files
    ensures result.Some? ==>
              var (environment, secrets) := result.value;
              && |environment| == |entries|
              && (forall i :: 0 <= i < |entries| ==> environment[i].0 == entries[i].0)
              && (forall i :: 0 <= i < |entries| && entries[i].1.Plain? ==> environment[i].1 == entries[i].1.value)
              && (forall i :: 0 <= i < |entries| && entries[i].1.SecretFile? ==>
                    && entries[i].1.path in files
                    && environment[i].1 == TrimRight(c => c == '\n', files[entries[i].1.path])
                    && (environment[i].1 != [] ==> environment[i].1 in secrets))
              && secrets == SecretTexts(entries, files)
  {
    var environment: seq<(string, string)> := [];
    var secrets: seq<string> := [];
    for i := 0 to |entries|
      invariant |environment| == i
      invariant forall j :: 0 <= j < i ==> environment[j].0 == entries[j].0
      invariant forall j :: 0 <= j < i && entries[j].1.Plain? ==> environment[j].1 == entries[j].1.value
      invariant forall j :: 0 <= j < i && entries[j].1.SecretFile? ==>
                  && entries[j].1.path in files
                  && environment[j].1 == TrimRight(c => c == '\n', files[entries[j].1.path])
                  && (environment[j].1 != [] ==> environment[j].1 in secrets)
      invariant secrets == SecretTexts(entries[..i], files)
    {
      var (name, entry) := entries[i];
      assert entries[..i + 1][..i] == entries[..i];
      match entry
      case SecretFile(path) =>
        if path !in files {
          return None;
        }
        var value := TrimRight(c => c == '\n', files[path]);
        if value != [] {
          secrets := secrets + [value];
        }
        environment := environment + [(name, value)];
      case Plain(value) =>
        environment := environment + [(name, value)];
    }
    assert entries[..|entries|] == entries;
    result := Some((environment, secrets));
  }
}
