/** HTTP actions: what the configuration accepts, which parameters a call may pass, and the request that
    comes out. `space` stands for the characters that `str.strip` removes. */
module HttpAction {
  import opened Options
  import opened Decimal
  import opened Text
  import opened Template

  datatype Parameter =
    | IntegerParameter(name: string, minimum: int, maximum: int)
    | ChoiceParameter(name: string, choices: seq<string>)

  datatype Action = Action(post: bool, url: string, body: Option<string>, parameters: seq<Parameter>)

  /** A value as the model passes it; other JSON values than integers and texts are never accepted. */
  datatype Passed = PassedInt(n: int) | PassedText(s: string) | PassedOther

  // ---------- Accepted actions ----------

  predicate IsSafeChar(c: char) {
    'A' <= c <= 'Z' || 'a' <= c <= 'z' || '0' <= c <= '9' || c == '_' || c == '.' || c == '-'
  }

  predicate AllSafe(s: string) {
    forall i :: 0 <= i < |s| ==> IsSafeChar(s[i])
  }

  predicate ParameterOk(p: Parameter) {
    && IsParamName(p.name)
    && match p
       case IntegerParameter(_, minimum, maximum) => minimum <= maximum
       case ChoiceParameter(_, choices) => choices != [] && forall i :: 0 <= i < |choices| ==>
           choices[i] != [] && AllSafe(choices[i])
  }

  predicate DistinctNames(ps: seq<Parameter>) {
    forall i, j :: 0 <= i < j < |ps| ==> ps[i].name != ps[j].name
  }

  function Declared(ps: seq<Parameter>): set<string> {
    set i | 0 <= i < |ps| :: ps[i].name
  }

  predicate HasScheme(url: string) {
    "http://" <= url || "https://" <= url
  }

  /** What `_http_actions` demands of one action. */
  predicate ActionOk(a: Action) {
    && HasScheme(a.url)
    && (a.body.Some? ==> a.post && Accepted(a.body.value))
    && (forall i :: 0 <= i < |a.parameters| ==> ParameterOk(a.parameters[i]))
    && DistinctNames(a.parameters)
    && Accepted(a.url)
    && NamesIn(Parse(a.url).value) + (if a.body.Some? then NamesIn(Parse(a.body.value).value) else {}) ==
        Declared(a.parameters)
  }

  method CheckAction(a: Action) returns (ok: bool)
    ensures ok <==> ActionOk(a)
  {
    if !HasScheme(a.url) || (a.body.Some? && !a.post) {
      return false;
    }
    var names: set<string> := {};
    for i := 0 to |a.parameters|
      invariant names == Declared(a.parameters[..i])
      invariant forall j :: 0 <= j < i ==> ParameterOk(a.parameters[j])
      invariant DistinctNames(a.parameters[..i])
    {
      var p := a.parameters[i];
      assert a.parameters[..i + 1] == a.parameters[..i] + [p];
      DeclaredOfAppend(a.parameters[..i], p);
      if !ParameterOk(p) {
        return false;
      }
      if p.name in names {
        var j :| 0 <= j < i && a.parameters[..i][j].name == p.name;
        assert a.parameters[j].name == a.parameters[i].name;
        return false;
      }
      names := names + {p.name};
    }
    assert a.parameters[..|a.parameters|] == a.parameters;
    var placeholders := TemplatePlaceholders(a.url);
    if placeholders.None? {
      return false;
    }
    var all := placeholders.value;
    if a.body.Some? {
      var more := TemplatePlaceholders(a.body.value);
      if more.None? {
        return false;
      }
      all := all + more.value;
    }
    ok := all == names;
  }

  lemma DeclaredOfAppend(ps: seq<Parameter>, p: Parameter)
    ensures Declared(ps + [p]) == Declared(ps) + {p.name}
    ensures p.name !in Declared(ps) && DistinctNames(ps) ==> DistinctNames(ps + [p])
  {
    forall n ensures n in Declared(ps + [p]) <==> n in Declared(ps) + {p.name} {
      if n in Declared(ps) {
        var i :| 0 <= i < |ps| && ps[i].name == n;
        assert (ps + [p])[i].name == n;
      }
      if n == p.name {
        assert (ps + [p])[|ps|].name == n;
      }
    }
    if p.name !in Declared(ps) {
      forall i | 0 <= i < |ps| ensures ps[i].name != p.name {
        assert ps[i].name in Declared(ps);
      }
    }
  }

  lemma DeclaredMembers(ps: seq<Parameter>)
    ensures forall i :: 0 <= i < |ps| ==> ps[i].name in Declared(ps)
    ensures ps == [] ==> Declared(ps) == {}
    ensures DistinctNames(ps) ==> forall i :: 0 <= i < |ps| ==> ps[i].name !in Declared(ps[..i])
  {
  }

  // ---------- Python's integer literals ----------

  /** Digits, with single underscores between digits. */
  predicate IsNumeral(s: string) {
    && s != [] && IsDigit(s[0]) && IsDigit(s[|s| - 1])
    && (forall i :: 0 <= i < |s| ==> IsDigit(s[i]) || s[i] == '_')
    && (forall i :: 0 < i < |s| ==> s[i] != '_' || s[i - 1] != '_')
  }

  function DigitsOf(s: string): (d: string)
    ensures AllDigits(d)
  {
    if s == [] then []
    else (if IsDigit(s[0]) then [s[0]] else []) + DigitsOf(s[1..])
  }

  /** `int(s)` on ASCII digits. */
  function ParseInt(s: string): Option<int> {
    var signed := s != [] && (s[0] == '+' || s[0] == '-');
    var numeral := if signed then s[1..] else s;
    if !IsNumeral(numeral) then None
    else if signed && s[0] == '-' then Some(-(NatValue(DigitsOf(numeral)) as int))
    else Some(NatValue(DigitsOf(numeral)))
  }

  lemma {:induction false} DigitsOfDigits(s: string)
    requires AllDigits(s)
    ensures DigitsOf(s) == s
  {
    if s != [] {
      DigitsOfDigits(s[1..]);
      assert s == [s[0]] + s[1..];
    }
  }

  lemma DigitsAreANumeral(d: string)
    requires d != [] && AllDigits(d)
    ensures IsNumeral(d) && DigitsOf(d) == d && ParseInt(d) == Some(NatValue(d))
  {
    DigitsOfDigits(d);
    assert IsDigit(d[0]);
  }

  /** Printing an integer and parsing the text gives the integer back. */
  lemma ParseOfPrintedInt(n: int)
    ensures ParseInt(Decimal.Print(n)) == Some(n)
  {
    hide IsNumeral;
    var numeral := PrintNat(if n < 0 then -n else n);
    PrintedNatHasItsValue(if n < 0 then -n else n);
    DigitsAreANumeral(numeral);
    if n < 0 {
      assert Decimal.Print(n)[1..] == numeral;
    }
  }

  lemma {:induction false} DigitsOfConcat(a: string, b: string)
    ensures DigitsOf(a + b) == DigitsOf(a) + DigitsOf(b)
    decreases |a|
  {
    if a == [] {
      assert a + b == b;
    } else {
      DigitsOfConcat(a[1..], b);
      assert (a + b)[1..] == a[1..] + b;
    }
  }

  lemma {:induction false} LeadingZeroCounts(d: string)
    requires AllDigits(d)
    ensures NatValue("0" + d) == NatValue(d)
    decreases |d|
  {
    if d != [] {
      LeadingZeroCounts(d[..|d| - 1]);
      assert ("0" + d)[..|d|] == "0" + d[..|d| - 1];
    }
  }

  /** A sign in front, leading zeros and single underscores between digits are understood. */
  lemma NumeralsMayBeSpelled(a: string, b: string)
    requires IsNumeral(a) && IsNumeral(b)
    ensures ParseInt(a).Some? && ParseInt(a).value >= 0
    ensures ParseInt("+" + a) == ParseInt(a) && ParseInt("-" + a) == Some(-ParseInt(a).value)
    ensures ParseInt("0" + a) == ParseInt(a)
    ensures IsNumeral(a + b) && ParseInt(a + "_" + b) == ParseInt(a + b)
  {
    hide NatValue, DigitsOf, IsNumeral;
    assert ("+" + a)[1..] == a && ("-" + a)[1..] == a;
    NumeralsStartWithADigit(a);
    NumeralsJoin(a, b, "");
    NumeralsJoin(a, b, "_");
    assert a + "" == a;
    NumeralsStartWithADigit(a + b);
    NumeralsStartWithADigit(a + "_" + b);
    UnderscoreIsSkipped(a, b);
    DigitsAreANumeral("0");
    NumeralsJoin("0", a, "");
    assert "0" + "" == "0";
    NumeralsStartWithADigit("0" + a);
    DigitsOfConcat("0", a);
    LeadingZeroCounts(DigitsOf(a));
  }

  lemma NumeralsStartWithADigit(s: string)
    requires IsNumeral(s)
    ensures s != [] && IsDigit(s[0])
  {
  }

  lemma UnderscoreIsNoDigit()
    ensures DigitsOf("_") == ""
  {
    assert "_"[1..] == "";
  }

  lemma UnderscoreIsSkipped(a: string, b: string)
    ensures DigitsOf(a + "_" + b) == DigitsOf(a + b)
  {
    hide DigitsOf;
    DigitsOfConcat(a, b);
    DigitsOfConcat(a + "_", b);
    DigitsOfConcat(a, "_");
    UnderscoreIsNoDigit();
    assert DigitsOf(a) + "" == DigitsOf(a);
  }

  lemma NumeralsJoin(a: string, b: string, between: string)
    requires IsNumeral(a) && IsNumeral(b) && (between == "" || between == "_")
    ensures IsNumeral(a + between + b)
  {
    var s := a + between + b;
    var n := |a + between|;
    forall i | 0 <= i < |s|
      ensures IsDigit(s[i]) || s[i] == '_'
      ensures i > 0 ==> s[i] != '_' || s[i - 1] != '_'
    {
      if i < |a| {
        assert s[i] == a[i] && (i > 0 ==> s[i - 1] == a[i - 1]);
      } else if i >= n {
        assert s[i] == b[i - n] && (i > n ==> s[i - 1] == b[i - n - 1]);
      } else {
        assert s[i - 1] == a[|a| - 1];
      }
    }
    assert s[0] == a[0] && s[|s| - 1] == b[|b| - 1];
  }

  /** Nothing else is understood: behind at most one sign there are digits, and every underscore stands
      between two of them. */
  lemma OnlyNumeralsAreUnderstood(s: string)
    requires ParseInt(s).Some?
    ensures s != []
    ensures var d := if s[0] == '+' || s[0] == '-' then s[1..] else s;
            d != [] && forall i :: 0 <= i < |d| ==>
              IsDigit(d[i]) || (d[i] == '_' && 0 < i < |d| - 1 && IsDigit(d[i - 1]) && IsDigit(d[i + 1]))
  {
    var d := if s[0] == '+' || s[0] == '-' then s[1..] else s;
    assert IsNumeral(d);
  }

  // ---------- Accepted values ----------

  /** The text that a passed value is rendered as, or nothing when it is refused. */
  function ValueOf(space: char -> bool, p: Parameter, v: Passed): Option<string> {
    match p
    case IntegerParameter(_, minimum, maximum) =>
      (match v
       case PassedOther => None
       case PassedInt(n) => if minimum <= n <= maximum then Some(Decimal.Print(n)) else None
       case PassedText(s) =>
         var n := ParseInt(Trim(space, s));
         if n.Some? && minimum <= n.value <= maximum then Some(Decimal.Print(n.value)) else None)
    case ChoiceParameter(_, choices) =>
      if v.PassedText? && v.s in choices then Some(v.s) else None
  }

  /** The passed value denotes this integer: as a number, or as a text around which blanks do not count. */
  predicate Denotes(space: char -> bool, v: Passed, n: int) {
    v == PassedInt(n) || (v.PassedText? && ParseInt(Trim(space, v.s)) == Some(n))
  }

  /** The value may be passed: it denotes an integer within the bounds, or is one of the choices. */
  ghost predicate Permitted(space: char -> bool, p: Parameter, v: Passed) {
    match p
    case IntegerParameter(_, minimum, maximum) => exists n :: minimum <= n <= maximum && Denotes(space, v, n)
    case ChoiceParameter(_, choices) => v.PassedText? && v.s in choices
  }

  /** The text stands for the value: it is the plain numeral of the same integer, or the text itself. */
  ghost predicate Shows(space: char -> bool, p: Parameter, v: Passed, text: string) {
    match p
    case IntegerParameter(_, minimum, maximum) =>
      exists n :: minimum <= n <= maximum && Denotes(space, v, n) && ParseInt(text) == Some(n) && IsPlainNumeral(text)
    case ChoiceParameter(_, choices) => v == PassedText(text) && text in choices
  }

  /** Digits without superfluous zeros, behind a minus sign or nothing. */
  predicate IsPlainNumeral(s: string) {
    var digits := if s != [] && s[0] == '-' then s[1..] else s;
    digits != [] && AllDigits(digits) && (|digits| > 1 ==> digits[0] != '0')
  }

  lemma PrintedIsPlain(n: int)
    ensures IsPlainNumeral(Decimal.Print(n)) && ParseInt(Decimal.Print(n)) == Some(n)
  {
    ParseOfPrintedInt(n);
    assert n < 0 ==> Decimal.Print(n)[1..] == PrintNat(-n);
  }

  /** A value is accepted exactly when it is permitted, and is rendered as a text that stands for it. */
  lemma ValuesAreShown(space: char -> bool, p: Parameter, v: Passed)
    ensures ValueOf(space, p, v).Some? <==> Permitted(space, p, v)
    ensures ValueOf(space, p, v).Some? ==> Shows(space, p, v, ValueOf(space, p, v).value)
  {
    hide ParseInt, Decimal.Print, IsPlainNumeral;
    if p.IntegerParameter? {
      var n := match v
        case PassedOther => None
        case PassedInt(n) => Some(n)
        case PassedText(s) => ParseInt(Trim(space, s));
      forall m ensures Denotes(space, v, m) <==> n == Some(m) {
      }
      if n.Some? {
        PrintedIsPlain(n.value);
      }
    }
  }

  /** An integer may as well be passed as its decimal text. */
  lemma NumbersMayBePassedAsText(space: char -> bool, p: Parameter, n: int)
    requires p.IntegerParameter? && !space('-') && forall c :: IsDigit(c) ==> !space(c)
    ensures forall m :: Denotes(space, PassedText(Decimal.Print(n)), m) <==> m == n
    ensures ValueOf(space, p, PassedText(Decimal.Print(n))) == ValueOf(space, p, PassedInt(n))
  {
    var s := Decimal.Print(n);
    assert !space(s[0]) && !space(s[|s| - 1]) by {
      var numeral := PrintNat(if n < 0 then -n else n);
      assert IsDigit(numeral[0]) && IsDigit(numeral[|numeral| - 1]);
    }
    TrimKeeps(space, s);
    ParseOfPrintedInt(n);
  }

  lemma AcceptedValuesAreSafe(space: char -> bool, p: Parameter, v: Passed, text: string)
    requires ParameterOk(p) && Shows(space, p, v, text)
    ensures AllSafe(text)
  {
    if p.IntegerParameter? {
      hide ParseInt, Trim;
      forall i | 0 <= i < |text| ensures IsSafeChar(text[i]) {
        assert text[i] == '-' || IsDigit(text[i]) by {
          var digits := if text[0] == '-' then text[1..] else text;
          assert i > 0 ==> text[i] == text[1..][i - 1];
        }
      }
    }
  }

  datatype Rendering = Values(values: map<string, string>) | Unknown | Missing(name: string) | Invalid(name: string)

  ghost predicate Allowed(space: char -> bool, p: Parameter, passed: map<string, Passed>) {
    p.name in passed && Permitted(space, p, passed[p.name])
  }

  ghost predicate RenderedAs(space: char -> bool, p: Parameter, passed: map<string, Passed>,
      values: map<string, string>) {
    p.name in passed && p.name in values && Shows(space, p, passed[p.name], values[p.name])
  }

  /** `values` holds for every declared parameter the text of the value passed for it, and nothing else. */
  ghost predicate IsRendering(space: char -> bool, a: Action, passed: map<string, Passed>,
      values: map<string, string>) {
    && values.Keys == Declared(a.parameters)
    && forall i :: 0 <= i < |a.parameters| ==> RenderedAs(space, a.parameters[i], passed, values)
  }

  /** Values are accepted exactly when every declared parameter is passed, no other one is, and each value
      is permitted; then each is rendered as a text that stands for it. */
  method RenderedValues(space: char -> bool, a: Action, passed: map<string, Passed>) returns (r: Rendering)
    requires DistinctNames(a.parameters)
    ensures r.Unknown? <==> !(passed.Keys <= Declared(a.parameters))
    ensures r.Values? <==>
              && passed.Keys <= Declared(a.parameters)
              && forall i :: 0 <= i < |a.parameters| ==> Allowed(space, a.parameters[i], passed)
    ensures r.Values? ==> IsRendering(space, a, passed, r.values)
    ensures r.Missing? ==> r.name in Declared(a.parameters) - passed.Keys
    ensures r.Invalid? ==> exists i :: 0 <= i < |a.parameters| && a.parameters[i].name == r.name
                                       && r.name in passed && !Allowed(space, a.parameters[i], passed)
  {
    hide ValueOf, Declared, DistinctNames, Permitted, Shows;
    DeclaredMembers(a.parameters);
    if !(passed.Keys <= Declared(a.parameters)) {
      return Unknown;
    }
    var values: map<string, string> := map[];
    DeclaredMembers(a.parameters[..0]);
    for i := 0 to |a.parameters|
      invariant values.Keys == Declared(a.parameters[..i])
      invariant forall j :: 0 <= j < i ==> Allowed(space, a.parameters[j], passed)
      invariant forall j :: 0 <= j < i ==> RenderedAs(space, a.parameters[j], passed, values)
    {
      var p := a.parameters[i];
      assert a.parameters[..i + 1] == a.parameters[..i] + [p];
      DeclaredOfAppend(a.parameters[..i], p);
      DeclaredMembers(a.parameters[..i]);
      if p.name !in passed {
        return Missing(p.name);
      }
      var text := ValueOf(space, p, passed[p.name]);
      ValuesAreShown(space, p, passed[p.name]);
      if text.None? {
        assert !Allowed(space, a.parameters[i], passed);
        return Invalid(p.name);
      }
      forall j | 0 <= j < i ensures RenderedAs(space, a.parameters[j], passed, values[p.name := text.value]) {
        assert RenderedAs(space, a.parameters[j], passed, values);
        assert a.parameters[j] == a.parameters[..i][j];
      }
      values := values[p.name := text.value];
    }
    assert a.parameters[..|a.parameters|] == a.parameters;
    r := Values(values);
  }

  // ---------- Requests ----------

  datatype Request = Request(url: string, body: Option<string>) | FormatFails

  function BuildRequest(a: Action, values: map<string, string>): Request {
    var url := Format(a.url, values);
    var body := if a.body.Some? && a.body.value != [] then Format(a.body.value, values) else Some([]);
    if url.None? || body.None? then FormatFails
    else Request(url.value, if a.body.Some? && a.body.value != [] then Some(body.value) else None)
  }

  lemma ActionHoles(a: Action)
    requires ActionOk(a)
    ensures Holes(Items(Parse(a.url).value)) <= Declared(a.parameters)
    ensures a.body.Some? ==> Holes(Items(Parse(a.body.value).value)) <= Declared(a.parameters)
  {
    NamesAreHoles(Parse(a.url).value);
    if a.body.Some? {
      NamesAreHoles(Parse(a.body.value).value);
    }
  }

  /** An action accepted by the configuration and values accepted for it always give a request, and it is
      what the templates mean with the values in place. */
  lemma RequestsAlwaysRender(space: char -> bool, a: Action, passed: map<string, Passed>, values: map<string, string>)
    requires ActionOk(a) && IsRendering(space, a, passed, values)
    ensures var r := BuildRequest(a, values);
            && r.Request?
            && r.url == Fill(Items(Parse(a.url).value), values)
            && (r.body.Some? <==> a.body.Some? && a.body.value != [])
            && (r.body.Some? ==> r.body.value == Fill(Items(Parse(a.body.value).value), values))
  {
    ActionHoles(a);
    AcceptedTemplatesRender(a.url, values);
    if a.body.Some? {
      AcceptedTemplatesRender(a.body.value, values);
    }
  }

  const SAFE: char -> bool := c => IsSafeChar(c)

  lemma RenderingsAreSafe(space: char -> bool, a: Action, passed: map<string, Passed>, values: map<string, string>)
    requires ActionOk(a) && IsRendering(space, a, passed, values)
    ensures forall n, i :: n in values && 0 <= i < |values[n]| ==> SAFE(values[n][i])
  {
    forall n | n in values ensures AllSafe(values[n]) {
      var i :| 0 <= i < |a.parameters| && a.parameters[i].name == n;
      assert RenderedAs(space, a.parameters[i], passed, values);
      AcceptedValuesAreSafe(space, a.parameters[i], passed[n], values[n]);
    }
  }

  lemma SchemeStays(url: string, scheme: string, values: map<string, string>)
    requires scheme <= url && scheme != [] && (forall i :: 0 <= i < |scheme| ==> !IsBrace(scheme[i]))
    requires Format(url, values).Some?
    ensures scheme <= Format(url, values).value
  {
    var literal := ReadPiece(url).chunk.literal;
    assert forall i :: 0 <= i < |scheme| ==> url[i] == scheme[i];
    assert FirstBrace(url) >= |scheme|;
    assert scheme <= literal;
  }

  /** The request goes to an HTTP address, whatever values are passed. */
  lemma RequestsGoToHttp(space: char -> bool, a: Action, passed: map<string, Passed>, values: map<string, string>)
    requires ActionOk(a) && IsRendering(space, a, passed, values)
    ensures var r := BuildRequest(a, values); r.Request? && ("http://" <= r.url || "https://" <= r.url)
  {
    hide Format, ActionOk, IsRendering, Parse, Items;
    RequestsAlwaysRender(space, a, passed, values);
    assert HasScheme(a.url) by { OkActionsHaveAScheme(a); }
    SchemeStays(a.url, if "http://" <= a.url then "http://" else "https://", values);
  }

  lemma OkActionsHaveAScheme(a: Action)
    requires ActionOk(a)
    ensures HasScheme(a.url)
  {
  }

  /** Every accepted action can be called: some values are accepted for it. */
  lemma AcceptedActionsCanBeCalled(space: char -> bool, a: Action) returns (passed: map<string, Passed>)
    requires ActionOk(a)
    ensures passed.Keys == Declared(a.parameters)
    ensures forall i :: 0 <= i < |a.parameters| ==> Allowed(space, a.parameters[i], passed)
  {
    hide Accepted, NamesIn, Declared, Allowed;
    passed := map[];
    var ps := a.parameters;
    DeclaredMembers(ps);
    DeclaredMembers(ps[..0]);
    for i := 0 to |ps|
      invariant passed.Keys == Declared(ps[..i])
      invariant forall j :: 0 <= j < i ==> Allowed(space, ps[j], passed)
    {
      assert ps[..i + 1] == ps[..i] + [ps[i]] && ParameterOk(ps[i]);
      DeclaredOfAppend(ps[..i], ps[i]);
      var v := SomeValue(space, ps[i]);
      forall j | 0 <= j < i ensures Allowed(space, ps[j], passed[ps[i].name := v]) {
        OtherValuesStay(space, ps[j], passed, ps[i].name, v);
      }
      assert Allowed(space, ps[i], passed[ps[i].name := v]) by { ItsValueIsPassed(space, ps[i], passed, v); }
      passed := passed[ps[i].name := v];
    }
    assert ps[..|ps|] == ps;
  }

  lemma SomeValue(space: char -> bool, p: Parameter) returns (v: Passed)
    requires ParameterOk(p)
    ensures Permitted(space, p, v)
  {
    match p
    case IntegerParameter(_, minimum, _) =>
      v := PassedInt(minimum);
      assert Denotes(space, v, minimum);
    case ChoiceParameter(_, choices) => v := PassedText(choices[0]);
  }

  lemma OtherValuesStay(space: char -> bool, p: Parameter, passed: map<string, Passed>, name: string, v: Passed)
    requires Allowed(space, p, passed) && p.name != name
    ensures Allowed(space, p, passed[name := v])
  {
  }

  lemma ItsValueIsPassed(space: char -> bool, p: Parameter, passed: map<string, Passed>, v: Passed)
    requires Permitted(space, p, v)
    ensures Allowed(space, p, passed[p.name := v])
  {
  }

  /** Any two accepted sets of values give requests with the same characters outside letters, digits,
      `_`, `.` and `-`, in the same order: no value adds, removes or moves a delimiter. */
  lemma ValuesNeverChangeTheStructure(
    space: char -> bool, a: Action, p: map<string, Passed>, q: map<string, Passed>, v: map<string, string>,
        w: map<string, string>)
    requires ActionOk(a) && IsRendering(space, a, p, v) && IsRendering(space, a, q, w)
    ensures var r, s := BuildRequest(a, v), BuildRequest(a, w);
            && r.Request? && s.Request?
            && Skeleton(SAFE, r.url) == Skeleton(SAFE, s.url)
            && r.body.Some? == s.body.Some?
            && (r.body.Some? ==> Skeleton(SAFE, r.body.value) == Skeleton(SAFE, s.body.value))
  {
    RequestsAlwaysRender(space, a, p, v);
    RequestsAlwaysRender(space, a, q, w);
    RenderingsAreSafe(space, a, p, v);
    RenderingsAreSafe(space, a, q, w);
    FillKeepsSkeleton(SAFE, Items(Parse(a.url).value), v, w);
    if a.body.Some? {
      FillKeepsSkeleton(SAFE, Items(Parse(a.body.value).value), v, w);
    }
  }
}
