/** Templates of HTTP actions: Python's format strings, the check made when the configuration is loaded,
    and the renderer. The reader of pieces follows the one that `string.Formatter().parse` and
    `str.format` share. */
module Template {
  import opened Options

  datatype Field = Field(name: string, spec: string, conversion: Option<char>)

  /** A literal, followed by a replacement field or by nothing. */
  datatype Chunk = Chunk(literal: string, field: Option<Field>)

  datatype Reading = Malformed | Piece(chunk: Chunk, rest: string)

  datatype FieldReading = BadField | GoodField(field: Field, rest: string)

  predicate IsBrace(c: char) {
    c == '{' || c == '}'
  }

  // ---------- Reading one piece ----------

  /** The position of the first brace, or the length. */
  function FirstBrace(t: string): (i: nat)
    ensures i <= |t| && (i < |t| ==> IsBrace(t[i])) && forall k :: 0 <= k < i ==> !IsBrace(t[k])
  {
    if t == [] || IsBrace(t[0]) then 0 else 1 + FirstBrace(t[1..])
  }

  /** The position of the first closing bracket, or the length. */
  function FirstBracket(t: string): (i: nat)
    ensures i <= |t|
  {
    if t == [] || t[0] == ']' then 0 else 1 + FirstBracket(t[1..])
  }

  /** The position of the character that ends a field name; an index in brackets is skipped. */
  function NameEnd(t: string): (end: Option<nat>)
    ensures end.Some? ==> end.value < |t| && t[end.value] in {'}', ':', '!'}
    decreases |t|
  {
    if t == [] || t[0] == '{' then None
    else if t[0] in {'}', ':', '!'} then Some(0)
    else
      var skip := if t[0] == '[' then 1 + FirstBracket(t[1..]) else 1;
      var end := NameEnd(t[skip..]);
      if end.None? then None else Some(skip + end.value)
  }

  /** The position of the brace that closes `open` open ones. */
  function SpecEnd(t: string, open: nat): (end: Option<nat>)
    requires open > 0
    ensures end.Some? ==> end.value < |t|
  {
    if t == [] then None
    else if t[0] == '}' && open == 1 then Some(0)
    else
      var end := SpecEnd(t[1..], if t[0] == '{' then open + 1 else if t[0] == '}' then open - 1 else open);
      if end.None? then None else Some(1 + end.value)
  }

  function ReadSpec(name: string, conversion: Option<char>, t: string): (r: FieldReading)
    ensures r.GoodField? ==> |r.rest| < |t|
  {
    var end := SpecEnd(t, 1);
    if end.None? then BadField else GoodField(Field(name, t[..end.value], conversion), t[end.value + 1..])
  }

  /** Reads a field behind its opening brace. A NUL counts as no conversion. */
  function ReadField(t: string): (r: FieldReading)
    ensures r.GoodField? ==> |r.rest| < |t|
  {
    var end := NameEnd(t);
    if end.None? then BadField
    else
      var name, rest := t[..end.value], t[end.value + 1..];
      if t[end.value] == '}' then GoodField(Field(name, "", None), rest)
      else if t[end.value] == ':' then ReadSpec(name, None, rest)
      else if |rest| < 2 then BadField
      else
        var conversion := if rest[0] == '\0' then None else Some(rest[0]);
        if rest[1] == '}' then GoodField(Field(name, "", conversion), rest[2..])
        else if rest[1] == ':' then ReadSpec(name, conversion, rest[2..])
        else BadField
  }

  function ReadPiece(t: string): (r: Reading)
    requires t != []
    ensures r.Piece? ==> |r.rest| < |t|
  {
    var i := FirstBrace(t);
    if i == |t| then Piece(Chunk(t, None), [])
    else if i + 1 == |t| then Malformed
    else if t[i + 1] == t[i] then Piece(Chunk(t[..i + 1], None), t[i + 2..])
    else if t[i] == '}' then Malformed
    else
      match ReadField(t[i + 1..])
      case BadField => Malformed
      case GoodField(field, rest) => Piece(Chunk(t[..i], Some(field)), rest)
  }

  function Parse(t: string): Option<seq<Chunk>>
    decreases |t|
  {
    if t == [] then Some([])
    else
      match ReadPiece(t)
      case Malformed => None
      case Piece(chunk, rest) =>
        var others := Parse(rest);
        if others.None? then None else Some([chunk] + others.value)
  }

  // ---------- The check at load time ----------

  predicate IsNameChar(c: char) {
    'a' <= c <= 'z' || '0' <= c <= '9' || c == '_'
  }

  predicate IsParamName(s: string) {
    s != [] && 'a' <= s[0] <= 'z' && forall i :: 0 <= i < |s| ==> IsNameChar(s[i])
  }

  predicate IsPlain(f: Field) {
    IsParamName(f.name) && f.spec == "" && f.conversion.None?
  }

  predicate ChunkAccepted(c: Chunk) {
    c.field.Some? ==> IsPlain(c.field.value)
  }

  predicate Accepted(t: string) {
    Parse(t).Some? && forall i :: 0 <= i < |Parse(t).value| ==> ChunkAccepted(Parse(t).value[i])
  }

  function ChunkNames(c: Chunk): set<string> {
    match c.field
    case None => {}
    case Some(f) => {f.name}
  }

  function NamesIn(chunks: seq<Chunk>): set<string> {
    set i | 0 <= i < |chunks| && chunks[i].field.Some? :: chunks[i].field.value.name
  }

  /** The placeholders of a template that may be used, or nothing for one that is refused. */
  method TemplatePlaceholders(t: string) returns (names: Option<set<string>>)
    ensures names.Some? <==> Accepted(t)
    ensures names.Some? ==> names.value == NamesIn(Parse(t).value)
  {
    var parsed := Parse(t);
    if parsed.None? {
      return None;
    }
    var found: set<string> := {};
    for i := 0 to |parsed.value|
      invariant forall k :: 0 <= k < i ==> ChunkAccepted(parsed.value[k])
      invariant found == NamesIn(parsed.value[..i])
    {
      var chunk := parsed.value[i];
      assert parsed.value[..i + 1] == parsed.value[..i] + [chunk];
      NamesOfAppend(parsed.value[..i], chunk);
      if !ChunkAccepted(chunk) {
        return None;
      }
      if chunk.field.Some? {
        found := found + {chunk.field.value.name};
      }
    }
    assert parsed.value[..|parsed.value|] == parsed.value;
    names := Some(found);
  }

  lemma NamesOfAppend(chunks: seq<Chunk>, c: Chunk)
    ensures NamesIn(chunks + [c]) == NamesIn(chunks) + ChunkNames(c)
  {
    forall n ensures n in NamesIn(chunks + [c]) <==> n in NamesIn(chunks) + ChunkNames(c) {
      if n in NamesIn(chunks) {
        var i :| 0 <= i < |chunks| && chunks[i].field.Some? && chunks[i].field.value.name == n;
        assert (chunks + [c])[i] == chunks[i];
      }
      if n in ChunkNames(c) {
        assert (chunks + [c])[|chunks|] == c;
      }
    }
  }

  // ---------- The renderer ----------

  type Values = map<string, string>

  /** `str.format(**values)`: a missing name fails. Fields with a format specification, a conversion or a
      compound name are not modelled and count as failures. */
  function Format(t: string, values: Values): Option<string>
    decreases |t|
  {
    if t == [] then Some([])
    else
      match ReadPiece(t)
      case Malformed => None
      case Piece(chunk, rest) =>
        var others := Format(rest, values);
        if others.None? then None
        else if chunk.field.None? then Some(chunk.literal + others.value)
        else if !IsPlain(chunk.field.value) || chunk.field.value.name !in values then None
        else Some(chunk.literal + values[chunk.field.value.name] + others.value)
  }

  // ---------- What a template means ----------

  /** Independently of how it is read: characters and holes. */
  datatype Item = Char(c: char) | Hole(name: string)

  function Literal(s: string): seq<Item> {
    seq(|s|, i requires 0 <= i < |s| => Char(s[i]))
  }

  function ChunkItems(c: Chunk): seq<Item> {
    Literal(c.literal) + (if c.field.Some? then [Hole(c.field.value.name)] else [])
  }

  function Items(chunks: seq<Chunk>): seq<Item> {
    if chunks == [] then [] else ChunkItems(chunks[0]) + Items(chunks[1..])
  }

  function FillItem(item: Item, values: Values): string {
    match item
    case Char(c) => [c]
    case Hole(n) => if n in values then values[n] else []
  }

  /** The items with the values in place of the holes. */
  function Fill(items: seq<Item>, values: Values): string {
    if items == [] then [] else FillItem(items[0], values) + Fill(items[1..], values)
  }

  function PrintItem(item: Item): string {
    match item
    case Char(c) => if IsBrace(c) then [c, c] else [c]
    case Hole(n) => "{" + n + "}"
  }

  function Print(items: seq<Item>): string {
    if items == [] then [] else PrintItem(items[0]) + Print(items[1..])
  }

  function Holes(items: seq<Item>): set<string> {
    set i | 0 <= i < |items| && items[i].Hole? :: items[i].name
  }

  /** The names of the holes are small letters, digits and underscores, with a letter in front. */
  ghost predicate WellNamed(items: seq<Item>) {
    forall i :: 0 <= i < |items| && items[i].Hole? ==>
      && items[i].name != [] && 'a' <= items[i].name[0] <= 'z'
      && forall c :: c in items[i].name ==> 'a' <= c <= 'z' || '0' <= c <= '9' || c == '_'
  }

  lemma WellNamedIff(items: seq<Item>)
    ensures WellNamed(items) <==> forall i :: 0 <= i < |items| && items[i].Hole? ==> IsParamName(items[i].name)
  {
    if WellNamed(items) {
      forall i | 0 <= i < |items| && items[i].Hole? ensures IsParamName(items[i].name) {
        var name := items[i].name;
        assert forall k :: 0 <= k < |name| ==> name[k] in name;
      }
    }
  }

  // ---------- How templates are written ----------

  /** What may follow the name of a hole: an empty conversion and an empty specification are allowed. */
  predicate EndsHole(end: string) {
    end == "}" || end == ":}" || end == "!\0}" || end == "!\0:}"
  }

  ghost predicate SpellsItem(s: string, item: Item) {
    match item
    case Char(c) => s == if IsBrace(c) then [c, c] else [c]
    case Hole(n) => exists end :: EndsHole(end) && s == "{" + n + end
  }

  /** The text is made of the spellings of the items, one after the other. */
  ghost predicate Spells(t: string, items: seq<Item>) {
    if items == [] then t == []
    else exists k: nat :: k <= |t| && SpellsItem(t[..k], items[0]) && Spells(t[k..], items[1..])
  }

  // ---------- Parsing what was printed ----------

  /** A template is read as these items, and is accepted. */
  ghost predicate ReadsAs(t: string, items: seq<Item>) {
    Accepted(t) && Items(Parse(t).value) == items
  }

  lemma PieceFirst(t: string)
    requires t != [] && ReadPiece(t).Piece? && Accepted(ReadPiece(t).rest) && ChunkAccepted(ReadPiece(t).chunk)
    ensures Accepted(t)
    ensures Parse(t).value == [ReadPiece(t).chunk] + Parse(ReadPiece(t).rest).value
    ensures Items(Parse(t).value) == ChunkItems(ReadPiece(t).chunk) + Items(Parse(ReadPiece(t).rest).value)
  {
    var chunks := [ReadPiece(t).chunk] + Parse(ReadPiece(t).rest).value;
    assert chunks[1..] == Parse(ReadPiece(t).rest).value;
  }

  lemma {:induction false} PlainNameEnds(name: string, rest: string)
    requires forall i :: 0 <= i < |name| ==> IsNameChar(name[i])
    requires rest != [] && rest[0] in {'}', ':', '!'}
    ensures NameEnd(name + rest) == Some(|name|)
  {
    var t := name + rest;
    if name != [] {
      assert t[1..] == name[1..] + rest;
      PlainNameEnds(name[1..], rest);
    } else {
      assert t == rest;
    }
  }

  lemma PlainFieldRead(name: string, end: string, t: string)
    requires IsParamName(name) && EndsHole(end)
    ensures ReadField(name + end + t) == GoodField(Field(name, "", None), t)
  {
    hide NameEnd;
    var u := name + end + t;
    assert u == name + (end + t);
    PlainNameEnds(name, end + t);
    assert u[..|name|] == name && u[|name|] == end[0] && u[|name| + 1..] == end[1..] + t;
    var rest := end[1..] + t;
    if end == "}" {
      assert rest == t;
    } else if end == ":}" {
      assert rest[0] == '}' && rest[1..] == t && rest[..0] == "";
    } else {
      assert rest[0] == '\0' && rest[1] == end[2] && rest[2..] == end[3..] + t;
      if end == "!\0}" {
        assert rest[2..] == t;
      } else {
        assert rest[2..][0] == '}' && rest[2..][1..] == t && rest[2..][..0] == "";
      }
    }
  }

  lemma HolePiece(name: string, end: string, t: string)
    requires IsParamName(name) && EndsHole(end)
    ensures ReadPiece("{" + name + end + t) == Piece(Chunk("", Some(Field(name, "", None))), t)
  {
    hide ReadField;
    var u := "{" + name + end + t;
    PlainFieldRead(name, end, t);
    assert u[1..] == name + end + t;
    assert FirstBrace(u) == 0 && u[1] == name[0];
    assert u[..0] == [];
  }

  lemma HoleReads(name: string, end: string, t: string, items: seq<Item>)
    requires IsParamName(name) && EndsHole(end) && ReadsAs(t, items)
    ensures ReadsAs("{" + name + end + t, [Hole(name)] + items)
  {
    hide ReadPiece;
    HolePiece(name, end, t);
    PieceFirst("{" + name + end + t);
  }

  lemma EscapePiece(c: char, t: string)
    requires IsBrace(c)
    ensures ReadPiece([c, c] + t) == Piece(Chunk([c], None), t)
  {
    var u := [c, c] + t;
    assert FirstBrace(u) == 0;
    assert u[..1] == [c] && u[2..] == t;
  }

  lemma EscapeReads(c: char, t: string, items: seq<Item>)
    requires IsBrace(c) && ReadsAs(t, items)
    ensures ReadsAs([c, c] + t, [Char(c)] + items)
  {
    hide ReadPiece;
    EscapePiece(c, t);
    assert Literal([c]) == [Char(c)];
    PieceFirst([c, c] + t);
  }

  /** An ordinary character in front joins the literal of the first piece. */
  lemma OrdinaryPiece(c: char, t: string)
    requires !IsBrace(c) && t != [] && ReadPiece(t).Piece?
    ensures ReadPiece([c] + t) ==
            Piece(Chunk([c] + ReadPiece(t).chunk.literal, ReadPiece(t).chunk.field), ReadPiece(t).rest)
  {
    hide ReadField;
    var u := [c] + t;
    var i := FirstBrace(t);
    assert u[1..] == t;
    assert FirstBrace(u) == i + 1;
    if i < |t| {
      assert u[i + 2..] == t[i + 1..] && u[..i + 1] == [c] + t[..i];
      if i + 1 < |t| {
        assert u[..i + 2] == [c] + t[..i + 1] && u[i + 3..] == t[i + 2..];
      }
    }
  }

  lemma OrdinaryReads(c: char, t: string, items: seq<Item>)
    requires !IsBrace(c) && ReadsAs(t, items)
    ensures ReadsAs([c] + t, [Char(c)] + items)
  {
    hide ReadPiece;
    if t == [] {
      assert [c] + t == [c];
      LoneCharacter(c);
    } else {
      AcceptedRest(t);
      var Piece(chunk, rest) := ReadPiece(t);
      OrdinaryPiece(c, t);
      assert Literal([c] + chunk.literal) == [Char(c)] + Literal(chunk.literal);
      PieceFirst([c] + t);
      PieceFirst(t);
    }
  }

  lemma LoneCharacter(c: char)
    requires !IsBrace(c)
    ensures ReadsAs([c], [Char(c)])
  {
    assert [c][1..] == [];
    assert ReadPiece([c]) == Piece(Chunk([c], None), []);
    assert Literal([c]) == [Char(c)];
    PieceFirst([c]);
  }

  lemma AcceptedRest(t: string)
    requires t != [] && Accepted(t)
    ensures ReadPiece(t).Piece? && Accepted(ReadPiece(t).rest) && ChunkAccepted(ReadPiece(t).chunk)
  {
    var Piece(chunk, rest) := ReadPiece(t);
    var chunks := Parse(t).value;
    assert chunks[0] == chunk;
    forall i | 0 <= i < |Parse(rest).value| ensures ChunkAccepted(Parse(rest).value[i]) {
      assert chunks[i + 1] == Parse(rest).value[i];
    }
  }

  /** One more item in front. */
  lemma ItemReads(s: string, item: Item, t: string, items: seq<Item>)
    requires SpellsItem(s, item) && ReadsAs(t, items) && (item.Hole? ==> IsParamName(item.name))
    ensures ReadsAs(s + t, [item] + items)
  {
    hide ReadsAs, IsParamName, EndsHole;
    match item
    case Char(c) =>
      if IsBrace(c) {
        EscapeReads(c, t, items);
      } else {
        OrdinaryReads(c, t, items);
      }
    case Hole(n) =>
      var end :| EndsHole(end) && s == "{" + n + end;
      HoleReads(n, end, t, items);
  }

  lemma NothingReads()
    ensures ReadsAs([], [])
  {
  }

  /** Whatever spells a list of characters and holes is accepted and read as that list. */
  lemma {:induction false} SpelledIsRead(t: string, items: seq<Item>)
    requires WellNamed(items) && Spells(t, items)
    ensures ReadsAs(t, items)
  {
    hide ReadsAs, IsParamName, SpellsItem;
    if items == [] {
      NothingReads();
    } else {
      var k: nat :| k <= |t| && SpellsItem(t[..k], items[0]) && Spells(t[k..], items[1..]);
      WellNamedIff(items);
      SpelledIsRead(t[k..], items[1..]);
      ItemReads(t[..k], items[0], t[k..], items[1..]);
      assert [items[0]] + items[1..] == items && t[..k] + t[k..] == t;
    }
  }

  lemma SpellsOneMore(s: string, item: Item, t: string, items: seq<Item>)
    requires SpellsItem(s, item) && Spells(t, items)
    ensures Spells(s + t, [item] + items)
  {
    assert (s + t)[..|s|] == s && (s + t)[|s|..] == t && ([item] + items)[1..] == items;
  }

  lemma {:induction false} PrintSpells(items: seq<Item>)
    ensures Spells(Print(items), items)
  {
    if items != [] {
      hide Spells;
      PrintSpells(items[1..]);
      assert SpellsItem(PrintItem(items[0]), items[0]) by {
        if items[0].Hole? {
          assert EndsHole("}");
        }
      }
      SpellsOneMore(PrintItem(items[0]), items[0], Print(items[1..]), items[1..]);
      assert [items[0]] + items[1..] == items;
    }
  }

  /** Parsing the printed form of any list of characters and holes gives that list back, with doubled
      braces as escapes, and the load-time check accepts it. */
  lemma ParseOfPrint(items: seq<Item>)
    requires WellNamed(items)
    ensures ReadsAs(Print(items), items)
  {
    hide Spells, ReadsAs, WellNamed;
    PrintSpells(items);
    SpelledIsRead(Print(items), items);
  }

  // ---------- What is accepted ----------

  lemma FirstIsSpelled(t: string, items: seq<Item>) returns (k: nat)
    requires items != [] && Spells(t, items)
    ensures k <= |t| && SpellsItem(t[..k], items[0]) && Spells(t[k..], items[1..])
  {
    k :| k <= |t| && SpellsItem(t[..k], items[0]) && Spells(t[k..], items[1..]);
  }

  lemma NothingSpells(t: string)
    ensures Spells(t, []) <==> t == []
  {
  }

  lemma {:induction false} SpellsConcat(a: string, x: seq<Item>, b: string, y: seq<Item>)
    requires Spells(a, x) && Spells(b, y)
    ensures Spells(a + b, x + y)
    decreases |x|
  {
    hide SpellsItem, Spells;
    if x == [] {
      NothingSpells(a);
      assert a + b == b && x + y == y;
    } else {
      var k := FirstIsSpelled(a, x);
      SpellsConcat(a[k..], x[1..], b, y);
      var t, items := a[k..] + b, x[1..] + y;
      SpellsOneMore(a[..k], x[0], t, items);
      assert a + b == a[..k] + t;
      assert x + y == [x[0]] + items;
    }
  }

  lemma {:induction false} PlainTextSpells(s: string)
    requires forall i :: 0 <= i < |s| ==> !IsBrace(s[i])
    ensures Spells(s, Literal(s))
  {
    if s != [] {
      hide Spells;
      PlainTextSpells(s[1..]);
      SpellsOneMore([s[0]], Char(s[0]), s[1..], Literal(s[1..]));
      assert [s[0]] + s[1..] == s && [Char(s[0])] + Literal(s[1..]) == Literal(s);
    } else {
      assert Literal(s) == [];
    }
  }

  lemma SpellsOne(s: string, item: Item)
    requires SpellsItem(s, item)
    ensures Spells(s, [item])
  {
    SpellsOneMore(s, item, [], []);
    assert s + [] == s && [item] + [] == [item];
  }

  lemma SpecIsEmpty(name: string, conversion: Option<char>, t: string)
    requires ReadSpec(name, conversion, t).GoodField? && ReadSpec(name, conversion, t).field.spec == ""
    ensures t != [] && t[0] == '}' && ReadSpec(name, conversion, t).rest == t[1..]
    ensures ReadSpec(name, conversion, t).field == Field(name, "", conversion)
  {
    var end := SpecEnd(t, 1).value;
    assert |t[..end]| == end;
  }

  /** A field without specification and conversion ends in one of four ways. */
  lemma PlainFieldSpells(t: string)
    requires ReadField(t).GoodField? && IsPlain(ReadField(t).field)
    ensures var GoodField(field, rest) := ReadField(t);
            exists end :: EndsHole(end) && t == field.name + end + rest
  {
    hide NameEnd, ReadSpec, IsParamName;
    var GoodField(field, rest) := ReadField(t);
    var n := NameEnd(t).value;
    var tail := t[n + 1..];
    assert t == t[..n] + [t[n]] + tail;
    if t[n] == '}' {
      assert EndsHole("}") && t == field.name + "}" + rest;
    } else if t[n] == ':' {
      SpecIsEmpty(t[..n], None, tail);
      assert EndsHole(":}") && t == field.name + ":}" + rest;
    } else {
      assert tail == [tail[0], tail[1]] + tail[2..];
      var conversion := if tail[0] == '\0' then None else Some(tail[0]);
      if tail[1] == '}' {
        assert EndsHole("!\0}") && t == field.name + "!\0}" + rest;
      } else {
        SpecIsEmpty(t[..n], conversion, tail[2..]);
        assert EndsHole("!\0:}") && t == field.name + "!\0:}" + rest;
      }
    }
  }

  /** A text without braces in front of one more item. */
  lemma TextAndItemSpell(text: string, s: string, item: Item)
    requires SpellsItem(s, item) && forall i :: 0 <= i < |text| ==> !IsBrace(text[i])
    ensures Spells(text + s, Literal(text) + [item])
  {
    hide Spells, SpellsItem;
    PlainTextSpells(text);
    SpellsOne(s, item);
    SpellsConcat(text, Literal(text), s, [item]);
  }

  lemma LiteralOfAppend(text: string, c: char)
    ensures Literal(text + [c]) == Literal(text) + [Char(c)]
  {
  }

  lemma BraceIsDoubled(c: char)
    requires IsBrace(c)
    ensures SpellsItem([c, c], Char(c))
  {
  }

  lemma EscapedPieceSpells(t: string, i: nat)
    requires i == FirstBrace(t) && i + 1 < |t| && t[i + 1] == t[i]
    ensures Spells(t[..i + 2], Literal(t[..i + 1]))
  {
    hide Spells, SpellsItem, Literal;
    var text, c := t[..i], t[i];
    assert SpellsItem([c, c], Char(c)) by { BraceIsDoubled(c); }
    TextAndItemSpell(text, [c, c], Char(c));
    assert t[..i + 2] == text + [c, c];
    assert t[..i + 1] == text + [c];
    LiteralOfAppend(text, c);
  }

  lemma HoleCut(t: string, i: nat, inside: string, rest: string)
    requires i < |t| && t[i] == '{' && t[i + 1..] == inside + rest
    ensures var k := i + 1 + |inside|;
            k <= |t| && t[..k] == t[..i] + ("{" + inside) && t[k..] == rest
  {
    var k := i + 1 + |inside|;
    assert t[i + 1..][..|inside|] == inside && t[i + 1..][|inside|..] == rest;
    assert t[i + 1..k] == inside && t[k..] == rest;
    assert t[..k] == t[..i] + [t[i]] + t[i + 1..k];
  }

  lemma HolePieceSpells(t: string, i: nat, field: Field, rest: string) returns (k: nat)
    requires i == FirstBrace(t) && i < |t| && t[i] == '{'
    requires ReadField(t[i + 1..]) == GoodField(field, rest) && IsPlain(field)
    ensures k <= |t| && rest == t[k..] && Spells(t[..k], Literal(t[..i]) + [Hole(field.name)])
  {
    hide Spells, ReadField, IsPlain, Literal;
    PlainFieldSpells(t[i + 1..]);
    var end :| EndsHole(end) && t[i + 1..] == field.name + end + rest;
    var hole := "{" + field.name + end;
    TextAndItemSpell(t[..i], hole, Hole(field.name));
    k := i + |hole|;
    HoleCut(t, i, field.name + end, rest);
    assert hole == "{" + (field.name + end);
  }

  /** What is read as one piece spells the items of that piece. */
  lemma PieceSpells(t: string) returns (k: nat)
    requires t != [] && ReadPiece(t).Piece? && ChunkAccepted(ReadPiece(t).chunk)
    ensures k <= |t| && ReadPiece(t).rest == t[k..] && Spells(t[..k], ChunkItems(ReadPiece(t).chunk))
  {
    hide Spells, ReadField, IsPlain;
    var i := FirstBrace(t);
    var Piece(chunk, rest) := ReadPiece(t);
    if i == |t| {
      PlainTextSpells(t);
      assert t[..i] == t && rest == t[i..] && ChunkItems(chunk) == Literal(t);
      k := i;
    } else if t[i + 1] == t[i] {
      EscapedPieceSpells(t, i);
      assert ChunkItems(chunk) == Literal(t[..i + 1]);
      k := i + 2;
    } else {
      k := HolePieceSpells(t, i, chunk.field.value, rest);
    }
  }

  /** An accepted template spells what it is read as. */
  lemma {:induction false} AcceptedIsSpelled(t: string)
    requires Accepted(t)
    ensures Spells(t, Items(Parse(t).value))
    decreases |t|
  {
    hide Spells, ReadPiece;
    if t == [] {
      NothingSpells(t);
    } else {
      AcceptedRest(t);
      PieceFirst(t);
      var k := PieceSpells(t);
      var Piece(chunk, rest) := ReadPiece(t);
      AcceptedIsSpelled(rest);
      SpellsConcat(t[..k], ChunkItems(chunk), rest, Items(Parse(rest).value));
      assert t[..k] + rest == t;
    }
  }

  /** A template is accepted exactly when it spells a list of characters and well-named holes, and there is
      only one such list. */
  lemma AcceptedIff(t: string)
    ensures Accepted(t) <==> exists items :: WellNamed(items) && Spells(t, items)
    ensures forall items :: WellNamed(items) && Spells(t, items) ==> ReadsAs(t, items)
  {
    hide Spells, WellNamed, Accepted, Items;
    if Accepted(t) {
      AcceptedIsSpelled(t);
      AcceptedIsWellNamed(t);
    }
    forall items | WellNamed(items) && Spells(t, items) ensures ReadsAs(t, items) {
      SpelledIsRead(t, items);
    }
  }

  // ---------- Rendering what was accepted ----------

  lemma {:induction false} FillOfConcat(a: seq<Item>, b: seq<Item>, values: Values)
    ensures Fill(a + b, values) == Fill(a, values) + Fill(b, values)
    decreases |a|
  {
    if a == [] {
      assert a + b == b;
    } else {
      assert (a + b)[1..] == a[1..] + b;
      FillOfConcat(a[1..], b, values);
    }
  }

  lemma {:induction false} FillOfLiteral(s: string, values: Values)
    ensures Fill(Literal(s), values) == s
  {
    if s != [] {
      assert Literal(s)[1..] == Literal(s[1..]);
      FillOfLiteral(s[1..], values);
    }
  }

  lemma FillOfChunk(c: Chunk, values: Values)
    ensures c.field.None? ==> Fill(ChunkItems(c), values) == c.literal
    ensures c.field.Some? ==> Fill(ChunkItems(c), values) == c.literal + FillItem(Hole(c.field.value.name), values)
  {
    FillOfLiteral(c.literal, values);
    if c.field.Some? {
      var hole := [Hole(c.field.value.name)];
      FillOfConcat(Literal(c.literal), hole, values);
      assert hole[1..] == [];
      assert Fill(hole, values) == FillItem(hole[0], values) + [];
    } else {
      assert ChunkItems(c) == Literal(c.literal);
    }
  }

  /** Rendering an accepted template never fails when every hole has a value, and puts exactly the values
      into the holes. */
  lemma {:induction false} AcceptedTemplatesRender(t: string, values: Values)
    requires Accepted(t) && Holes(Items(Parse(t).value)) <= values.Keys
    ensures Format(t, values) == Some(Fill(Items(Parse(t).value), values))
    decreases |t|
  {
    if t != [] {
      AcceptedRest(t);
      PieceFirst(t);
      var Piece(chunk, rest) := ReadPiece(t);
      var others := Items(Parse(rest).value);
      HolesOfConcat(ChunkItems(chunk), others);
      HolesOfChunk(chunk);
      AcceptedTemplatesRender(rest, values);
      FillOfConcat(ChunkItems(chunk), others, values);
      FillOfChunk(chunk, values);
      assert chunk.field.Some? ==> chunk.field.value.name in ChunkNames(chunk);
    }
  }

  /** The printed form of what an accepted template means is accepted, means the same and so renders alike. */
  lemma CanonicalTemplate(t: string, values: Values)
    requires Accepted(t) && Holes(Items(Parse(t).value)) <= values.Keys
    ensures ReadsAs(Print(Items(Parse(t).value)), Items(Parse(t).value))
    ensures Format(Print(Items(Parse(t).value)), values) == Format(t, values)
  {
    var items := Items(Parse(t).value);
    AcceptedIsWellNamed(t);
    ParseOfPrint(items);
    AcceptedTemplatesRender(t, values);
    AcceptedTemplatesRender(Print(items), values);
  }

  lemma {:induction false} AcceptedIsWellNamed(t: string)
    requires Accepted(t)
    ensures WellNamed(Items(Parse(t).value))
    decreases |t|
  {
    hide ReadPiece, WellNamed, ReadField;
    if t == [] {
      NoItemsAreWellNamed();
    } else {
      AcceptedRest(t);
      PieceFirst(t);
      AcceptedIsWellNamed(ReadPiece(t).rest);
      WellNamedByChunk(ReadPiece(t).chunk, Items(Parse(ReadPiece(t).rest).value));
    }
  }

  lemma NoItemsAreWellNamed()
    ensures Parse([]) == Some([]) && Items([]) == [] && WellNamed([])
  {
  }

  lemma WellNamedByChunk(c: Chunk, items: seq<Item>)
    requires ChunkAccepted(c) && WellNamed(items)
    ensures WellNamed(ChunkItems(c) + items)
  {
    hide WellNamed;
    WellNamedIff(items);
    WellNamedIff(ChunkItems(c) + items);
    var n := |ChunkItems(c)|;
    assert forall i :: n <= i < n + |items| ==> (ChunkItems(c) + items)[i] == items[i - n];
  }

  /** The names that the load-time check collects are those of the holes. */
  lemma {:induction false} NamesAreHoles(chunks: seq<Chunk>)
    ensures NamesIn(chunks) == Holes(Items(chunks))
    decreases |chunks|
  {
    if chunks != [] {
      NamesAreHoles(chunks[1..]);
      NamesOfFirst(chunks);
      HolesOfConcat(ChunkItems(chunks[0]), Items(chunks[1..]));
      HolesOfChunk(chunks[0]);
    }
  }

  lemma NamesOfFirst(chunks: seq<Chunk>)
    requires chunks != []
    ensures NamesIn(chunks) == ChunkNames(chunks[0]) + NamesIn(chunks[1..])
  {
    forall n ensures n in NamesIn(chunks) <==> n in ChunkNames(chunks[0]) + NamesIn(chunks[1..]) {
      if n in NamesIn(chunks) {
        var i :| 0 <= i < |chunks| && chunks[i].field.Some? && chunks[i].field.value.name == n;
        if i > 0 {
          assert chunks[1..][i - 1] == chunks[i];
        }
      }
      if n in NamesIn(chunks[1..]) {
        var i :| 0 <= i < |chunks| - 1 && chunks[1..][i].field.Some? && chunks[1..][i].field.value.name == n;
        assert chunks[i + 1] == chunks[1..][i];
      }
    }
  }

  lemma HolesOfConcat(a: seq<Item>, b: seq<Item>)
    ensures Holes(a + b) == Holes(a) + Holes(b)
  {
    forall n ensures n in Holes(a + b) <==> n in Holes(a) + Holes(b) {
      if n in Holes(a) {
        var i :| 0 <= i < |a| && a[i].Hole? && a[i].name == n;
        assert (a + b)[i] == a[i];
      }
      if n in Holes(b) {
        var i :| 0 <= i < |b| && b[i].Hole? && b[i].name == n;
        assert (a + b)[|a| + i] == b[i];
      }
    }
  }

  lemma HolesOfChunk(c: Chunk)
    ensures Holes(ChunkItems(c)) == ChunkNames(c)
  {
    assert Holes(Literal(c.literal)) == {};
    if c.field.Some? {
      HolesOfConcat(Literal(c.literal), [Hole(c.field.value.name)]);
      assert [Hole(c.field.value.name)][0].Hole?;
    } else {
      assert ChunkItems(c) == Literal(c.literal);
    }
  }

  // ---------- Structure ----------

  /** The characters of `s` outside a class, in order. */
  function Skeleton(safe: char -> bool, s: string): string {
    if s == [] then [] else (if safe(s[0]) then [] else [s[0]]) + Skeleton(safe, s[1..])
  }

  lemma {:induction false} SkeletonOfConcat(safe: char -> bool, a: string, b: string)
    ensures Skeleton(safe, a + b) == Skeleton(safe, a) + Skeleton(safe, b)
    decreases |a|
  {
    if a == [] {
      assert a + b == b;
    } else {
      assert (a + b)[1..] == a[1..] + b;
      SkeletonOfConcat(safe, a[1..], b);
    }
  }

  lemma {:induction false} SkeletonOfSafe(safe: char -> bool, s: string)
    requires forall i :: 0 <= i < |s| ==> safe(s[i])
    ensures Skeleton(safe, s) == []
  {
    if s != [] {
      SkeletonOfSafe(safe, s[1..]);
    }
  }

  /** Values made of safe characters leave the other characters of a rendering as they are in the template. */
  lemma {:induction false} FillKeepsSkeleton(safe: char -> bool, items: seq<Item>, v: Values, w: Values)
    requires forall n, i :: n in v && 0 <= i < |v[n]| ==> safe(v[n][i])
    requires forall n, i :: n in w && 0 <= i < |w[n]| ==> safe(w[n][i])
    ensures Skeleton(safe, Fill(items, v)) == Skeleton(safe, Fill(items, w))
    decreases |items|
  {
    if items != [] {
      FillKeepsSkeleton(safe, items[1..], v, w);
      match items[0]
      case Char(c) =>
        SkeletonOfConcat(safe, [c], Fill(items[1..], v));
        SkeletonOfConcat(safe, [c], Fill(items[1..], w));
      case Hole(n) =>
        SkeletonOfConcat(safe, FillItem(items[0], v), Fill(items[1..], v));
        SkeletonOfConcat(safe, FillItem(items[0], w), Fill(items[1..], w));
        SkeletonOfSafe(safe, FillItem(items[0], v));
        SkeletonOfSafe(safe, FillItem(items[0], w));
    }
  }
}
