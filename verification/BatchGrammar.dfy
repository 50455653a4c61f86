/** The texts that the reader of raw batches accepts, declared without it: lexemes with space between them, in the
    shape of a batch. The reader accepts exactly these, and gives exactly what they say. */
module BatchGrammar {
  import opened Common
  import opened Decimal
  import opened Escapes
  import opened Canonical
  import opened Transcript

  // ----- Lexemes and how they are written -----------------------------------------------------

  datatype Lexeme = Mark(c: char) | Flag(b: bool) | Number(n: nat) | Quoted(tokens: seq<Token>)

  function FlagText(b: bool): string { if b then "true" else "false" }

  function LexemeText(l: Lexeme, rest: string): string {
    match l
    case Mark(c) => [c] + rest
    case Flag(b) => FlagText(b) + rest
    case Number(n) => Dec(n) + rest
    case Quoted(tokens) => "\"" + Closed(tokens, rest)
  }

  predicate Spaces(gap: string) {
    forall c | c in gap :: IsSpace(c)
  }

  /** A lexeme and the space before it. */
  datatype Lex = Lex(gap: string, lexeme: Lexeme) {
    predicate Valid() {
      Spaces(gap) && (lexeme.Quoted? ==> JsonTokens(lexeme.tokens)) && (lexeme.Mark? ==> lexeme.c in {'{', '}', '[', ']', ':', ','})
    }
  }

  predicate ValidLexes(lexes: seq<Lex>) {
    forall i | 0 <= i < |lexes| :: lexes[i].Valid()
  }

  function Text(lexes: seq<Lex>, rest: string): string {
    if lexes == [] then rest else lexes[0].gap + LexemeText(lexes[0].lexeme, Text(lexes[1..], rest))
  }

  /** The lexemes of a stretch, without the space. */
  predicate Bare(lexes: seq<Lex>, shape: seq<Lexeme>) {
    |lexes| == |shape| && forall i | 0 <= i < |lexes| :: lexes[i].lexeme == shape[i]
  }

  ghost predicate IsStretch(lexes: seq<Lex>, shape: seq<Lexeme>, s: string, rest: string) {
    ValidLexes(lexes) && Bare(lexes, shape) && s == Text(lexes, rest)
  }

  /** `s` starts with these lexemes, spaced somehow, and `rest` follows them. */
  ghost predicate Stretch(shape: seq<Lexeme>, s: string, rest: string) {
    exists lexes :: IsStretch(lexes, shape, s, rest)
  }

  lemma {:induction false} TextConcat(a: seq<Lex>, b: seq<Lex>, rest: string)
    ensures Text(a + b, rest) == Text(a, Text(b, rest))
  {
    if a == [] {
      assert a + b == b;
    } else {
      assert (a + b)[1..] == a[1..] + b;
      TextConcat(a[1..], b, rest);
    }
  }

  /** Two stretches in a row. */
  lemma InARow(x: seq<Lexeme>, y: seq<Lexeme>, s: string, t: string, rest: string)
    requires Stretch(x, s, t) && Stretch(y, t, rest)
    ensures Stretch(x + y, s, rest)
  {
    var a :| IsStretch(a, x, s, t);
    var b :| IsStretch(b, y, t, rest);
    TextConcat(a, b, rest);
    BothStretch(a, b, x, y, s, t, rest);
  }

  lemma BothStretch(a: seq<Lex>, b: seq<Lex>, x: seq<Lexeme>, y: seq<Lexeme>, s: string, t: string, rest: string)
    requires IsStretch(a, x, s, t) && IsStretch(b, y, t, rest) && s == Text(a + b, rest)
    ensures Stretch(x + y, s, rest)
  {
    assert IsStretch(a + b, x + y, s, rest);
  }

  lemma OneLexeme(l: Lex, s: string, rest: string)
    requires l.Valid() && s == l.gap + LexemeText(l.lexeme, rest)
    ensures Stretch([l.lexeme], s, rest)
  {
    assert Text([l][1..], rest) == rest;
    assert IsStretch([l], [l.lexeme], s, rest);
  }

  // ----- The shape of a batch -----------------------------------------------------------------

  datatype Field = Field(key: seq<Token>, value: Lexeme)

  function FieldShape(f: Field): seq<Lexeme> { [Quoted(f.key), Mark(':'), f.value] }

  function FieldsShape(fields: seq<Field>): seq<Lexeme>
    requires fields != []
  {
    FieldShape(fields[0]) + (if |fields| == 1 then [] else [Mark(',')] + FieldsShape(fields[1..]))
  }

  function ObjectShape(fields: seq<Field>): seq<Lexeme> {
    [Mark('{')] + (if fields == [] then [] else FieldsShape(fields)) + [Mark('}')]
  }

  function ObjectsShape(objects: seq<seq<Field>>): seq<Lexeme>
    requires objects != []
  {
    ObjectShape(objects[0]) + (if |objects| == 1 then [] else [Mark(',')] + ObjectsShape(objects[1..]))
  }

  function BodyShape(objects: seq<seq<Field>>): seq<Lexeme> {
    if objects == [] then [] else ObjectsShape(objects)
  }

  function BatchShape(key: seq<Token>, objects: seq<seq<Field>>): seq<Lexeme> {
    [Mark('{'), Quoted(key), Mark(':'), Mark('[')] + BodyShape(objects) + [Mark(']'), Mark('}')]
  }

  // ----- What it says -------------------------------------------------------------------------

  /** A field of a page stands at most once and has a value of its kind. */
  function Assign(sofar: RawPage, key: string, value: Lexeme): Option<RawPage> {
    if key == "page" && sofar.page.None? && value.Number? then Some(sofar.(page := Some(value.n)))
    else if key == "text" && sofar.text.None? && value.Quoted? then Some(sofar.(text := Some(Decoded(value.tokens))))
    else if key == "refused" && sofar.refused.None? && value.Flag? then Some(sofar.(refused := Some(value.b)))
    else None
  }

  function Says(fields: seq<Field>, sofar: RawPage): Option<RawPage> {
    if fields == [] then Some(sofar)
    else
      var page :- Assign(sofar, Decoded(fields[0].key), fields[0].value);
      Says(fields[1..], page)
  }

  /** The objects say the pages, one each. */
  predicate SaysAll(objects: seq<seq<Field>>, pages: seq<RawPage>) {
    |objects| == |pages| && forall i | 0 <= i < |pages| :: Says(objects[i], NO_FIELDS) == Some(pages[i])
  }

  /** `raw` is a batch with this key and these objects, and they say the pages. */
  ghost predicate Writing(raw: string, pages: seq<RawPage>, end: string, key: seq<Token>, objects: seq<seq<Field>>) {
    Stretch(BatchShape(key, objects), raw, end) && Spaces(end) && Decoded(key) == "pages" && SaysAll(objects, pages)
  }

  /** `raw` is a way to write a batch of these pages. */
  ghost predicate Written(raw: string, pages: seq<RawPage>) {
    exists end, key, objects :: Writing(raw, pages, end, key, objects)
  }

  // ----- What the reader accepts is written so ------------------------------------------------

  lemma {:induction false} SkipSplits(s: string) returns (gap: string)
    ensures Spaces(gap) && s == gap + Skip(s)
  {
    if s != "" && IsSpace(s[0]) {
      gap := SkipSplits(s[1..]);
      gap := [s[0]] + gap;
    } else {
      gap := "";
    }
  }

  lemma ExpectSplits(s: string, word: string) returns (gap: string)
    requires Expect(s, word).Some?
    ensures Spaces(gap) && s == gap + (word + Expect(s, word).value)
  {
    gap := SkipSplits(s);
    PrefixSplits(Skip(s), word);
  }

  lemma PrefixSplits(t: string, word: string)
    requires word <= t
    ensures t == word + t[|word|..]
  {
  }

  lemma MarkSplits(s: string, c: char)
    requires Expect(s, [c]).Some? && c in {'{', '}', '[', ']', ':', ','}
    ensures Stretch([Mark(c)], s, Expect(s, [c]).value)
  {
    var gap := ExpectSplits(s, [c]);
    OneLexeme(Lex(gap, Mark(c)), s, Expect(s, [c]).value);
  }

  lemma {:induction false} StringSplits(s: string)
    requires ReadString(s).Some?
    ensures var (tokens, rest) := ReadString(s).value; JsonTokens(tokens) && s == Closed(tokens, rest)
    decreases |s|
  {
    if s != "" && s[0] == '"' {
      assert s == "\"" + s[1..];
    } else {
      var t := FirstToken(s).value;
      var n := |t.Text()|;
      assert s == t.Text() + s[n..];
      StringSplits(s[n..]);
      var (more, rest) := ReadString(s[n..]).value;
      assert ([t] + more)[1..] == more;
    }
  }

  lemma {:induction false} NumeralOfValue(digits: string)
    requires digits != "" && (forall c | c in digits :: IsDigit(c)) && (digits[0] == '0' ==> |digits| == 1)
    ensures Dec(Value(digits)) == digits && (digits[0] != '0' ==> Value(digits) > 0)
    decreases |digits|
  {
    var n := |digits| - 1;
    assert IsDigit(digits[n]);
    var d := digits[n] as int - '0' as int;
    assert DigitOf(d) == digits[n];
    if n == 0 {
      assert digits[..0] == "" && Value("") == 0;
      assert digits == [digits[0]];
    } else {
      NumeralOfValue(digits[..n]);
      assert Value(digits) == Value(digits[..n]) * 10 + d;
      assert Value(digits) / 10 == Value(digits[..n]) && Value(digits) % 10 == d;
      assert digits == digits[..n] + [digits[n]];
    }
  }

  lemma NumberSplits(s: string)
    requires ReadNat(s).Some?
    ensures var (n, rest) := ReadNat(s).value; s == Dec(n) + rest
  {
    var n := DigitRun(s);
    DigitRunIsDigits(s);
    assert s[..n][0] == s[0];
    NumeralOfValue(s[..n]);
    assert s == s[..n] + s[n..];
  }

  lemma QuotedSplits(s: string)
    requires Expect(s, "\"").Some? && ReadString(Expect(s, "\"").value).Some?
    ensures var (tokens, rest) := ReadString(Expect(s, "\"").value).value; Stretch([Quoted(tokens)], s, rest)
  {
    var gap := ExpectSplits(s, "\"");
    var inner := Expect(s, "\"").value;
    StringSplits(inner);
    var (tokens, rest) := ReadString(inner).value;
    OneLexeme(Lex(gap, Quoted(tokens)), s, rest);
  }

  lemma KeySplits(s: string) returns (key: seq<Token>)
    requires ReadKey(s).Some?
    ensures Stretch([Quoted(key), Mark(':')], s, ReadKey(s).value.1) && Decoded(key) == ReadKey(s).value.0
  {
    QuotedSplits(s);
    var (tokens, rest) := ReadString(Expect(s, "\"").value).value;
    MarkSplits(rest, ':');
    key := tokens;
    InARow([Quoted(key)], [Mark(':')], s, rest, ReadKey(s).value.1);
    assert [Quoted(key)] + [Mark(':')] == [Quoted(key), Mark(':')];
  }

  lemma NumberValueSplits(s: string)
    requires ReadNat(Skip(s)).Some?
    ensures var (n, rest) := ReadNat(Skip(s)).value; Stretch([Number(n)], s, rest)
  {
    var gap := SkipSplits(s);
    NumberSplits(Skip(s));
    var (n, rest) := ReadNat(Skip(s)).value;
    OneLexeme(Lex(gap, Number(n)), s, rest);
  }

  lemma FlagSplits(s: string, b: bool)
    requires Expect(s, FlagText(b)).Some?
    ensures Stretch([Flag(b)], s, Expect(s, FlagText(b)).value)
  {
    var gap := ExpectSplits(s, FlagText(b));
    OneLexeme(Lex(gap, Flag(b)), s, Expect(s, FlagText(b)).value);
  }

  lemma ValueSplits(key: string, s: string, sofar: RawPage) returns (l: Lexeme)
    requires ReadValue(key, s, sofar).Some?
    ensures Stretch([l], s, ReadValue(key, s, sofar).value.1) && Assign(sofar, key, l) == Some(ReadValue(key, s, sofar).value.0)
  {
    if key == "page" && sofar.page.None? {
      NumberValueSplits(s);
      l := Number(ReadNat(Skip(s)).value.0);
    } else if key == "text" && sofar.text.None? {
      QuotedSplits(s);
      l := Quoted(ReadString(Expect(s, "\"").value).value.0);
    } else {
      l := Flag(Expect(s, "false").None?);
      FlagSplits(s, l.b);
    }
  }

  lemma FieldSplits(s: string, sofar: RawPage) returns (f: Field)
    requires ReadField(s, sofar).Some?
    ensures Stretch(FieldShape(f), s, ReadField(s, sofar).value.1)
    ensures Assign(sofar, Decoded(f.key), f.value) == Some(ReadField(s, sofar).value.0)
  {
    var name, t := ReadKey(s).value.0, ReadKey(s).value.1;
    var key := KeySplits(s);
    var l := ValueSplits(name, t, sofar);
    f := Field(key, l);
    InARow([Quoted(key), Mark(':')], [l], s, t, ReadField(s, sofar).value.1);
    assert [Quoted(key), Mark(':')] + [l] == FieldShape(f);
  }

  lemma FieldsCase(s: string, sofar: RawPage) returns (page: RawPage, t: string, ends: bool)
    requires ReadFields(s, sofar).Some?
    ensures ReadField(s, sofar) == Some((page, t)) && |t| < |s|
    ensures ends ==> Expect(t, "}").Some? && ReadFields(s, sofar).value == (page, Expect(t, "}").value)
    ensures !ends ==> Expect(t, ",").Some? && ReadFields(Expect(t, ",").value, page) == ReadFields(s, sofar)
  {
    page, t := ReadField(s, sofar).value.0, ReadField(s, sofar).value.1;
    ends := Expect(t, "}").Some?;
  }

  lemma MoreFields(f: Field, others: seq<Field>, sofar: RawPage, page: RawPage, end: seq<Lexeme>)
    requires others != [] && Assign(sofar, Decoded(f.key), f.value) == Some(page)
    ensures FieldsShape([f] + others) + end == FieldShape(f) + ([Mark(',')] + (FieldsShape(others) + end))
    ensures Says([f] + others, sofar) == Says(others, page)
  {
    assert ([f] + others)[1..] == others;
  }

  lemma OneField(f: Field, sofar: RawPage, page: RawPage)
    requires Assign(sofar, Decoded(f.key), f.value) == Some(page)
    ensures FieldsShape([f]) == FieldShape(f) && Says([f], sofar) == Some(page)
  {
    assert [f][1..] == [] && Says([], page) == Some(page);
  }

  lemma {:induction false} FieldsSplit(s: string, sofar: RawPage) returns (fields: seq<Field>)
    requires ReadFields(s, sofar).Some?
    ensures fields != [] && Stretch(FieldsShape(fields) + [Mark('}')], s, ReadFields(s, sofar).value.1)
    ensures Says(fields, sofar) == Some(ReadFields(s, sofar).value.0)
    decreases |s|
  {
    var page, t, ends := FieldsCase(s, sofar);
    var f := FieldSplits(s, sofar);
    if ends {
      MarkSplits(t, '}');
      fields := [f];
      InARow(FieldShape(f), [Mark('}')], s, t, Expect(t, "}").value);
      OneField(f, sofar, page);
    } else {
      MarkSplits(t, ',');
      var u := Expect(t, ",").value;
      var others := FieldsSplit(u, page);
      fields := [f] + others;
      var rest := ReadFields(u, page).value.1;
      InARow([Mark(',')], FieldsShape(others) + [Mark('}')], t, u, rest);
      InARow(FieldShape(f), [Mark(',')] + (FieldsShape(others) + [Mark('}')]), s, t, rest);
      MoreFields(f, others, sofar, page, [Mark('}')]);
    }
  }

  lemma ObjectSplits(s: string) returns (fields: seq<Field>)
    requires ReadPage(s).Some?
    ensures Stretch(ObjectShape(fields), s, ReadPage(s).value.1) && Says(fields, NO_FIELDS) == Some(ReadPage(s).value.0)
  {
    MarkSplits(s, '{');
    var t := Expect(s, "{").value;
    if Expect(t, "}").Some? {
      MarkSplits(t, '}');
      fields := [];
      InARow([Mark('{')], [Mark('}')], s, t, ReadPage(s).value.1);
      assert [Mark('{')] + [Mark('}')] == ObjectShape(fields);
    } else {
      fields := FieldsSplit(t, NO_FIELDS);
      InARow([Mark('{')], FieldsShape(fields) + [Mark('}')], s, t, ReadPage(s).value.1);
      assert [Mark('{')] + (FieldsShape(fields) + [Mark('}')]) == ObjectShape(fields);
    }
  }

  lemma ObjectsCase(s: string, read: RawPageReader) returns (page: RawPage, t: string, ends: bool)
    requires ReadPages(s, read).Some?
    ensures read(s) == Some((page, t))
    ensures ends ==> Expect(t, "]").Some? && ReadPages(s, read).value == ([page], Expect(t, "]").value)
    ensures !ends ==> Expect(t, ",").Some? && |Expect(t, ",").value| < |s| && ReadPages(Expect(t, ",").value, read).Some?
                      && ReadPages(s, read).value == ([page] + ReadPages(Expect(t, ",").value, read).value.0,
                                                      ReadPages(Expect(t, ",").value, read).value.1)
  {
    page, t := read(s).value.0, read(s).value.1;
    ends := Expect(t, "]").Some?;
  }

  lemma MoreObjects(o: seq<Field>, others: seq<seq<Field>>, page: RawPage, pages: seq<RawPage>, end: seq<Lexeme>)
    requires others != [] && Says(o, NO_FIELDS) == Some(page) && SaysAll(others, pages)
    ensures ObjectsShape([o] + others) + end == ObjectShape(o) + ([Mark(',')] + (ObjectsShape(others) + end))
    ensures SaysAll([o] + others, [page] + pages)
  {
    assert ([o] + others)[1..] == others;
  }

  ghost predicate IsObjectAt(fields: seq<Field>, s: string, page: RawPage, rest: string) {
    Stretch(ObjectShape(fields), s, rest) && Says(fields, NO_FIELDS) == Some(page)
  }

  ghost predicate ObjectAt(s: string, page: RawPage, rest: string) {
    exists fields :: IsObjectAt(fields, s, page, rest)
  }

  /** The reader of one page yields an object that says it. */
  ghost predicate ReadsObjects(read: RawPageReader) {
    forall s | read(s).Some? :: ObjectAt(s, read(s).value.0, read(s).value.1)
  }

  lemma ReadPageReadsObjects()
    ensures ReadsObjects(ReadPage)
  {
    forall s | ReadPage(s).Some? ensures ObjectAt(s, ReadPage(s).value.0, ReadPage(s).value.1) {
      var fields := ObjectSplits(s);
      assert IsObjectAt(fields, s, ReadPage(s).value.0, ReadPage(s).value.1);
    }
  }

  lemma {:induction false} ObjectsSplit(s: string, read: RawPageReader) returns (objects: seq<seq<Field>>)
    requires ReadPages(s, read).Some? && ReadsObjects(read)
    ensures objects != [] && Stretch(ObjectsShape(objects) + [Mark(']')], s, ReadPages(s, read).value.1)
    ensures SaysAll(objects, ReadPages(s, read).value.0)
    decreases |s|
  {
    var page, t, ends := ObjectsCase(s, read);
    assert ObjectAt(s, page, t);
    var fields :| IsObjectAt(fields, s, page, t);
    MarkSplits(t, if ends then ']' else ',');
    if ends {
      objects := [fields];
      InARow(ObjectShape(fields), [Mark(']')], s, t, Expect(t, "]").value);
      assert ObjectsShape(objects) == ObjectShape(fields);
    } else {
      var u := Expect(t, ",").value;
      var others := ObjectsSplit(u, read);
      var pages, rest := ReadPages(u, read).value.0, ReadPages(u, read).value.1;
      objects := [fields] + others;
      InARow([Mark(',')], ObjectsShape(others) + [Mark(']')], t, u, rest);
      InARow(ObjectShape(fields), [Mark(',')] + (ObjectsShape(others) + [Mark(']')]), s, t, rest);
      MoreObjects(fields, others, page, pages, [Mark(']')]);
    }
  }

  /** The reader of a whole batch, step by step. */
  lemma BatchCase(raw: string) returns (key: string, body: string, pages: seq<RawPage>, after: string, end: string)
    requires ReadBatch(raw).Some?
    ensures Expect(raw, "{").Some? && ReadKey(Expect(raw, "{").value).Some? && key == ReadKey(Expect(raw, "{").value).value.0 == "pages"
    ensures Expect(ReadKey(Expect(raw, "{").value).value.1, "[") == Some(body)
    ensures Expect(body, "]").Some? || ReadPages(body, ReadPage).Some?
    ensures (pages, after) == if Expect(body, "]").Some? then ([], Expect(body, "]").value) else ReadPages(body, ReadPage).value
    ensures Expect(after, "}") == Some(end) && Skip(end) == "" && ReadBatch(raw).value == pages
  {
    var s1 := Expect(raw, "{").value;
    key := ReadKey(s1).value.0;
    body := Expect(ReadKey(s1).value.1, "[").value;
    var r := if Expect(body, "]").Some? then ([], Expect(body, "]").value) else ReadPages(body, ReadPage).value;
    pages, after := r.0, r.1;
    end := Expect(after, "}").value;
  }

  lemma BodySplits(s: string, pages: seq<RawPage>, after: string) returns (objects: seq<seq<Field>>)
    requires Expect(s, "]").Some? || ReadPages(s, ReadPage).Some?
    requires (pages, after) == if Expect(s, "]").Some? then ([], Expect(s, "]").value) else ReadPages(s, ReadPage).value
    ensures Stretch(BodyShape(objects) + [Mark(']')], s, after) && SaysAll(objects, pages)
  {
    if Expect(s, "]").Some? {
      MarkSplits(s, ']');
      objects := [];
      assert BodyShape(objects) + [Mark(']')] == [Mark(']')];
    } else {
      ReadPageReadsObjects();
      objects := ObjectsSplit(s, ReadPage);
    }
  }

  /** Whatever the reader accepts is a writing of what it gives. */
  lemma AcceptedIsWritten(raw: string)
    requires ReadBatch(raw).Some?
    ensures Written(raw, ReadBatch(raw).value)
  {
    var name, body, pages, after, last := BatchCase(raw);
    MarkSplits(raw, '{');
    var s1 := Expect(raw, "{").value;
    var key := KeySplits(s1);
    var s2 := ReadKey(s1).value.1;
    MarkSplits(s2, '[');
    var objects := BodySplits(body, pages, after);
    MarkSplits(after, '}');
    var end := SkipSplits(last);
    Assemble(raw, s1, s2, body, after, last, key, objects);
    assert Writing(raw, pages, last, key, objects);
  }

  lemma Assemble(raw: string, s1: string, s2: string, body: string, after: string, last: string, key: seq<Token>, objects: seq<seq<Field>>)
    requires Stretch([Mark('{')], raw, s1) && Stretch([Quoted(key), Mark(':')], s1, s2) && Stretch([Mark('[')], s2, body)
    requires Stretch(BodyShape(objects) + [Mark(']')], body, after) && Stretch([Mark('}')], after, last)
    ensures Stretch(BatchShape(key, objects), raw, last)
  {
    var x := BodyShape(objects) + [Mark(']')];
    AssembleParts(raw, s1, s2, body, after, last, [Mark('{')], [Quoted(key), Mark(':')], [Mark('[')], x, [Mark('}')]);
    ShapeOf(Quoted(key), BodyShape(objects));
  }

  lemma AssembleParts(raw: string, s1: string, s2: string, body: string, after: string, last: string,
                      a: seq<Lexeme>, b: seq<Lexeme>, c: seq<Lexeme>, d: seq<Lexeme>, e: seq<Lexeme>)
    requires Stretch(a, raw, s1) && Stretch(b, s1, s2) && Stretch(c, s2, body) && Stretch(d, body, after) && Stretch(e, after, last)
    ensures Stretch(a + (b + (c + (d + e))), raw, last)
  {
    InARow(d, e, body, after, last);
    InARow(c, d + e, s2, body, last);
    InARow(b, c + (d + e), s1, s2, last);
    InARow(a, b + (c + (d + e)), raw, s1, last);
  }

  lemma ShapeOf(key: Lexeme, body: seq<Lexeme>)
    ensures [Mark('{')] + ([key, Mark(':')] + ([Mark('[')] + ((body + [Mark(']')]) + [Mark('}')])))
            == [Mark('{'), key, Mark(':'), Mark('[')] + body + [Mark(']'), Mark('}')]
  {
  }

  // ----- What is written so is read so --------------------------------------------------------

  lemma {:induction false} StretchCut(x: seq<Lexeme>, y: seq<Lexeme>, s: string, rest: string) returns (t: string)
    requires Stretch(x + y, s, rest)
    ensures Stretch(x, s, t) && Stretch(y, t, rest)
  {
    var lexes :| IsStretch(lexes, x + y, s, rest);
    var a, b := lexes[..|x|], lexes[|x|..];
    assert lexes == a + b;
    t := Text(b, rest);
    TextConcat(a, b, rest);
    CutStretches(a, b, x, y, s, t, rest);
  }

  lemma CutStretches(a: seq<Lex>, b: seq<Lex>, x: seq<Lexeme>, y: seq<Lexeme>, s: string, t: string, rest: string)
    requires ValidLexes(a + b) && Bare(a + b, x + y) && |a| == |x| && s == Text(a, t) && t == Text(b, rest)
    ensures IsStretch(a, x, s, t) && IsStretch(b, y, t, rest)
  {
    forall i | 0 <= i < |a| ensures a[i].Valid() && a[i].lexeme == x[i] {
      assert a[i] == (a + b)[i] && x[i] == (x + y)[i];
    }
    forall i | 0 <= i < |b| ensures b[i].Valid() && b[i].lexeme == y[i] {
      assert b[i] == (a + b)[|a| + i] && y[i] == (x + y)[|x| + i];
    }
  }

  lemma LexemeOf(l: Lexeme, s: string, rest: string) returns (gap: string)
    requires Stretch([l], s, rest)
    ensures Lex(gap, l).Valid() && s == gap + LexemeText(l, rest)
  {
    var lexes: seq<Lex> :| IsStretch(lexes, [l], s, rest);
    gap := lexes[0].gap;
    assert lexes == [Lex(gap, l)] && Text(lexes[1..], rest) == rest;
  }

  lemma {:induction false} SkipGap(gap: string, s: string)
    requires Spaces(gap) && s != "" && !IsSpace(s[0])
    ensures Skip(gap + s) == s
  {
    if gap == "" {
      assert gap + s == s;
    } else {
      assert (gap + s)[1..] == gap[1..] + s;
      assert gap[0] in gap;
      SkipGap(gap[1..], s);
    }
  }

  predicate StartsMark(s: string, c: char) {
    Skip(s) != "" && Skip(s)[0] == c
  }

  lemma MarkReads(c: char, s: string, t: string)
    requires Stretch([Mark(c)], s, t)
    ensures Expect(s, [c]) == Some(t) && StartsMark(s, c) && NoDigit(s)
  {
    var gap := LexemeOf(Mark(c), s, t);
    SkipGap(gap, [c] + t);
    assert gap != "" ==> gap[0] in gap;
  }

  /** What follows a number starts with no digit. */
  predicate NoDigit(s: string) { s != "" && !IsDigit(s[0]) }

  lemma OtherMark(s: string, c: char, word: string)
    requires StartsMark(s, c) && word != "" && word[0] != c
    ensures Expect(s, word) == None
  {
  }

  lemma QuotedReads(tokens: seq<Token>, s: string, t: string)
    requires Stretch([Quoted(tokens)], s, t)
    ensures Expect(s, "\"").Some? && ReadString(Expect(s, "\"").value) == Some((tokens, t)) && StartsMark(s, '"')
  {
    var gap := LexemeOf(Quoted(tokens), s, t);
    SkipGap(gap, "\"" + Closed(tokens, t));
    ReadClosed(tokens, t);
    assert ("\"" + Closed(tokens, t))[1..] == Closed(tokens, t);
  }

  lemma NumberReads(n: nat, s: string, t: string)
    requires Stretch([Number(n)], s, t) && NoDigit(t)
    ensures ReadNat(Skip(s)) == Some((n, t))
  {
    var gap := LexemeOf(Number(n), s, t);
    DecIsNumeral(n);
    assert IsDigit(Dec(n)[0]);
    SkipGap(gap, Dec(n) + t);
    ReadPrinted(n, t);
  }

  lemma FlagReads(b: bool, s: string, t: string)
    requires Stretch([Flag(b)], s, t)
    ensures Expect(s, FlagText(b)) == Some(t) && (b ==> Expect(s, "false") == None)
  {
    var gap := LexemeOf(Flag(b), s, t);
    SkipGap(gap, FlagText(b) + t);
    assert (FlagText(b) + t)[|FlagText(b)|..] == t;
  }

  lemma KeyReads(key: seq<Token>, s: string, rest: string)
    requires Stretch([Quoted(key), Mark(':')], s, rest)
    ensures ReadKey(s) == Some((Decoded(key), rest)) && StartsMark(s, '"')
  {
    assert [Quoted(key), Mark(':')] == [Quoted(key)] + [Mark(':')];
    var t := StretchCut([Quoted(key)], [Mark(':')], s, rest);
    QuotedReads(key, s, t);
    MarkReads(':', t, rest);
  }

  lemma ValueReads(key: string, l: Lexeme, s: string, rest: string, sofar: RawPage)
    requires Stretch([l], s, rest) && NoDigit(rest) && Assign(sofar, key, l).Some?
    ensures ReadValue(key, s, sofar) == Some((Assign(sofar, key, l).value, rest))
  {
    match l
    case Number(n) => NumberReads(n, s, rest);
    case Quoted(tokens) => QuotedReads(tokens, s, rest);
    case Flag(b) => FlagReads(b, s, rest);
  }

  lemma FieldReads(f: Field, s: string, rest: string, sofar: RawPage)
    requires Stretch(FieldShape(f), s, rest) && NoDigit(rest) && Assign(sofar, Decoded(f.key), f.value).Some?
    ensures ReadField(s, sofar) == Some((Assign(sofar, Decoded(f.key), f.value).value, rest)) && StartsMark(s, '"')
  {
    assert FieldShape(f) == [Quoted(f.key), Mark(':')] + [f.value];
    var t := StretchCut([Quoted(f.key), Mark(':')], [f.value], s, rest);
    KeyReads(f.key, s, t);
    ValueReads(Decoded(f.key), f.value, t, rest, sofar);
  }

  lemma FieldsEnd(s: string, sofar: RawPage, page: RawPage, t: string, rest: string)
    requires ReadField(s, sofar) == Some((page, t)) && Expect(t, "}") == Some(rest)
    ensures ReadFields(s, sofar) == Some((page, rest))
  {
  }

  lemma FieldsGoOn(s: string, sofar: RawPage, page: RawPage, t: string, u: string)
    requires ReadField(s, sofar) == Some((page, t)) && Expect(t, "}") == None && Expect(t, ",") == Some(u)
    ensures ReadFields(s, sofar) == ReadFields(u, page)
  {
  }

  lemma {:induction false} FieldsRead(fields: seq<Field>, s: string, rest: string, sofar: RawPage)
    requires fields != [] && Stretch(FieldsShape(fields) + [Mark('}')], s, rest) && Says(fields, sofar).Some?
    ensures ReadFields(s, sofar) == Some((Says(fields, sofar).value, rest)) && StartsMark(s, '"')
    decreases |fields|
  {
    var f, others := fields[0], fields[1..];
    var page := Assign(sofar, Decoded(f.key), f.value).value;
    if others == [] {
      assert FieldsShape(fields) == FieldShape(f) && Says(others, page) == Some(page);
      var t := StretchCut(FieldShape(f), [Mark('}')], s, rest);
      MarkReads('}', t, rest);
      FieldReads(f, s, t, sofar);
      FieldsEnd(s, sofar, page, t, rest);
    } else {
      MoreFields(f, others, sofar, page, [Mark('}')]);
      assert [f] + others == fields;
      var t := StretchCut(FieldShape(f), [Mark(',')] + (FieldsShape(others) + [Mark('}')]), s, rest);
      var u := StretchCut([Mark(',')], FieldsShape(others) + [Mark('}')], t, rest);
      MarkReads(',', t, u);
      OtherMark(t, ',', "}");
      FieldReads(f, s, t, sofar);
      FieldsGoOn(s, sofar, page, t, u);
      FieldsRead(others, u, rest, page);
    }
  }

  lemma ObjectReads(fields: seq<Field>, s: string, rest: string)
    requires Stretch(ObjectShape(fields), s, rest) && Says(fields, NO_FIELDS).Some?
    ensures ReadPage(s) == Some((Says(fields, NO_FIELDS).value, rest)) && StartsMark(s, '{')
  {
    var inner := if fields == [] then [Mark('}')] else FieldsShape(fields) + [Mark('}')];
    assert ObjectShape(fields) == [Mark('{')] + inner;
    var t := StretchCut([Mark('{')], inner, s, rest);
    MarkReads('{', s, t);
    if fields == [] {
      MarkReads('}', t, rest);
    } else {
      FieldsRead(fields, t, rest, NO_FIELDS);
      OtherMark(t, '"', "}");
    }
  }

  lemma Shorter(x: seq<Lexeme>, s: string, rest: string)
    requires x != [] && Stretch(x, s, rest)
    ensures |rest| < |s|
  {
    var lexes :| IsStretch(lexes, x, s, rest);
    TextIsLonger(lexes, rest);
  }

  lemma {:induction false} TextIsLonger(lexes: seq<Lex>, rest: string)
    ensures |rest| + |lexes| <= |Text(lexes, rest)|
  {
    if lexes != [] {
      TextIsLonger(lexes[1..], rest);
      var tail := Text(lexes[1..], rest);
      match lexes[0].lexeme
      case Number(n) => DecIsNumeral(n);
      case Quoted(tokens) => ClosedIsLonger(tokens, tail);
      case _ =>
    }
  }

  /** The reader of one page reads every object. */
  ghost predicate ReadsBack(read: RawPageReader) {
    forall fields, s, rest | Stretch(ObjectShape(fields), s, rest) && Says(fields, NO_FIELDS).Some? ::
      read(s) == Some((Says(fields, NO_FIELDS).value, rest)) && StartsMark(s, '{')
  }

  lemma ReadPageReadsBack()
    ensures ReadsBack(ReadPage)
  {
    forall fields, s, rest | Stretch(ObjectShape(fields), s, rest) && Says(fields, NO_FIELDS).Some?
      ensures ReadPage(s) == Some((Says(fields, NO_FIELDS).value, rest)) && StartsMark(s, '{')
    {
      ObjectReads(fields, s, rest);
    }
  }

  lemma ObjectsEnd(s: string, page: RawPage, t: string, rest: string, read: RawPageReader)
    requires read(s) == Some((page, t)) && Expect(t, "]") == Some(rest)
    ensures ReadPages(s, read) == Some(([page], rest))
  {
  }

  lemma ObjectsGoOn(s: string, page: RawPage, t: string, u: string, pages: seq<RawPage>, rest: string, read: RawPageReader)
    requires read(s) == Some((page, t)) && Expect(t, "]") == None && Expect(t, ",") == Some(u) && |u| < |s|
    requires ReadPages(u, read) == Some((pages, rest))
    ensures ReadPages(s, read) == Some(([page] + pages, rest))
  {
  }

  lemma {:induction false} ObjectsRead(objects: seq<seq<Field>>, pages: seq<RawPage>, s: string, rest: string, read: RawPageReader)
    requires objects != [] && Stretch(ObjectsShape(objects) + [Mark(']')], s, rest) && SaysAll(objects, pages) && ReadsBack(read)
    ensures ReadPages(s, read) == Some((pages, rest)) && StartsMark(s, '{')
    decreases |objects|
  {
    var o, others := objects[0], objects[1..];
    assert Says(objects[0], NO_FIELDS) == Some(pages[0]);
    if others == [] {
      assert ObjectsShape(objects) == ObjectShape(o);
      var t := StretchCut(ObjectShape(o), [Mark(']')], s, rest);
      MarkReads(']', t, rest);
      ObjectsEnd(s, pages[0], t, rest, read);
      assert [pages[0]] == pages;
    } else {
      forall i | 0 <= i < |others| ensures Says(others[i], NO_FIELDS) == Some(pages[1..][i]) {
        assert Says(objects[i + 1], NO_FIELDS) == Some(pages[i + 1]);
      }
      MoreObjects(o, others, pages[0], pages[1..], [Mark(']')]);
      assert [o] + others == objects;
      var t := StretchCut(ObjectShape(o), [Mark(',')] + (ObjectsShape(others) + [Mark(']')]), s, rest);
      var u := StretchCut([Mark(',')], ObjectsShape(others) + [Mark(']')], t, rest);
      MarkReads(',', t, u);
      OtherMark(t, ',', "]");
      Shorter(ObjectShape(o), s, t);
      Shorter([Mark(',')], t, u);
      ObjectsRead(others, pages[1..], u, rest, read);
      ObjectsGoOn(s, pages[0], t, u, pages[1..], rest, read);
      assert [pages[0]] + pages[1..] == pages;
    }
  }

  lemma BodyReads(objects: seq<seq<Field>>, pages: seq<RawPage>, s: string, rest: string)
    requires Stretch(BodyShape(objects) + [Mark(']')], s, rest) && SaysAll(objects, pages)
    ensures (if Expect(s, "]").Some? then Some(([], Expect(s, "]").value)) else ReadPages(s, ReadPage)) == Some((pages, rest))
  {
    if objects == [] {
      assert BodyShape(objects) + [Mark(']')] == [Mark(']')];
      MarkReads(']', s, rest);
    } else {
      ReadPageReadsBack();
      ObjectsRead(objects, pages, s, rest, ReadPage);
      OtherMark(s, '{', "]");
    }
  }

  /** Every writing of pages is accepted and read as these pages: any spacing, any order of the fields, any escapes. */
  lemma WrittenIsAccepted(raw: string, pages: seq<RawPage>)
    requires Written(raw, pages)
    ensures ReadBatch(raw) == Some(pages)
  {
    var end, key, objects :| Writing(raw, pages, end, key, objects);
    ShapeOf(Quoted(key), BodyShape(objects));
    var x := BodyShape(objects) + [Mark(']')];
    var s1 := StretchCut([Mark('{')], [Quoted(key), Mark(':')] + ([Mark('[')] + (x + [Mark('}')])), raw, end);
    var s2 := StretchCut([Quoted(key), Mark(':')], [Mark('[')] + (x + [Mark('}')]), s1, end);
    var s3 := StretchCut([Mark('[')], x + [Mark('}')], s2, end);
    var s4 := StretchCut(x, [Mark('}')], s3, end);
    MarkReads('{', raw, s1);
    KeyReads(key, s1, s2);
    MarkReads('[', s2, s3);
    BodyReads(objects, pages, s3, s4);
    MarkReads('}', s4, end);
    SkipAll(end);
    ReadParts(raw, s1, s2, s3, s4, end, pages);
  }

  lemma {:induction false} SkipAll(gap: string)
    requires Spaces(gap)
    ensures Skip(gap) == ""
  {
    if gap != "" {
      assert gap[0] in gap;
      SkipAll(gap[1..]);
    }
  }

  lemma ReadParts(raw: string, s1: string, s2: string, s3: string, s4: string, end: string, pages: seq<RawPage>)
    requires Expect(raw, "{") == Some(s1) && ReadKey(s1) == Some(("pages", s2)) && Expect(s2, "[") == Some(s3)
    requires (if Expect(s3, "]").Some? then Some(([], Expect(s3, "]").value)) else ReadPages(s3, ReadPage)) == Some((pages, s4))
    requires Expect(s4, "}") == Some(end) && Skip(end) == ""
    ensures ReadBatch(raw) == Some(pages)
  {
  }

  /** The reader accepts exactly the writings of a batch, and gives exactly what they say. */
  lemma ReaderIsExact(raw: string, pages: seq<RawPage>)
    ensures ReadBatch(raw) == Some(pages) <==> Written(raw, pages)
  {
    if ReadBatch(raw) == Some(pages) {
      AcceptedIsWritten(raw);
    }
    if Written(raw, pages) {
      WrittenIsAccepted(raw, pages);
    }
  }

  // ----- Validation, exactly ------------------------------------------------------------------

  /** The pages of a batch as they are read: numbered, with their texts, none refused. */
  function Saying(batch: Batch): (raws: seq<RawPage>)
    ensures |raws| == |batch.pages|
  {
    seq(|batch.pages|, i requires 0 <= i < |batch.pages| => RawPage(Some(batch.pages[i].number), Some(batch.pages[i].text), Some(false)))
  }

  lemma SayingIsClean(batch: Batch)
    ensures Clean(Saying(batch)) && BatchOf(Saying(batch), batch.first, batch.last) == batch
  {
    assert forall i | 0 <= i < |batch.pages| :: CleanPage(Saying(batch)[i]);
    assert BatchOf(Saying(batch), batch.first, batch.last).pages == batch.pages;
  }

  lemma CleanIsSaying(raws: seq<RawPage>, first: int, last: int)
    requires Clean(raws)
    ensures raws == Saying(BatchOf(raws, first, last))
  {
    forall i | 0 <= i < |raws| ensures raws[i] == Saying(BatchOf(raws, first, last))[i] {
      assert CleanPage(raws[i]);
    }
  }

  /** A raw text is accepted as a batch if and only if it is of the right size, passes the scans, and is a writing
      of that batch, and the batch is valid. */
  lemma ValidatedExactly(raw: string, batch: Batch, suspicious: string -> bool)
    ensures Validated(raw, batch.first, batch.last, suspicious) == Some(batch) <==>
            raw != "" && |raw| <= MAX_RAW_BYTES && Scans(raw) && ValidBatch(batch, Proper(suspicious)) && Written(raw, Saying(batch))
  {
    ReaderIsExact(raw, Saying(batch));
    SayingIsClean(batch);
    if Validated(raw, batch.first, batch.last, suspicious) == Some(batch) {
      CleanIsSaying(ReadBatch(raw).value, batch.first, batch.last);
    }
  }

  // ----- What is accepted passes both escape scans --------------------------------------------

  predicate NoQuote(s: string) {
    forall i | 0 <= i < |s| :: s[i] != '"' && s[i] != '\\'
  }

  lemma SpacesHaveNoQuote(gap: string)
    requires Spaces(gap)
    ensures NoQuote(gap)
  {
    forall i | 0 <= i < |gap| ensures gap[i] != '"' && gap[i] != '\\' {
      assert gap[i] in gap;
    }
  }

  lemma {:induction false} GapPieces(gap: string, doc: seq<Piece>) returns (more: seq<Piece>)
    requires ValidDoc(doc) && NoBackslashGap(doc) && NoQuote(gap)
    ensures ValidDoc(more) && NoBackslashGap(more) && PiecesText(more) == gap + PiecesText(doc)
  {
    if gap == "" {
      more := doc;
    } else {
      var rest := GapPieces(gap[1..], doc);
      more := [Gap(gap[0])] + rest;
      assert more[1..] == rest && gap == [gap[0]] + gap[1..];
    }
  }

  lemma LexemePieces(l: Lexeme, doc: seq<Piece>) returns (more: seq<Piece>)
    requires Lex("", l).Valid() && ValidDoc(doc) && NoBackslashGap(doc)
    ensures ValidDoc(more) && NoBackslashGap(more) && PiecesText(more) == LexemeText(l, PiecesText(doc))
  {
    match l
    case Mark(c) => more := GapPieces([c], doc);
    case Flag(b) => more := GapPieces(FlagText(b), doc);
    case Number(n) =>
      DecIsNumeral(n);
      forall i | 0 <= i < |Dec(n)| ensures Dec(n)[i] != '"' && Dec(n)[i] != '\\' {
        assert Dec(n)[i] in Dec(n);
      }
      more := GapPieces(Dec(n), doc);
    case Quoted(tokens) =>
      JsonTokensAreValid(tokens);
      more := [Str(tokens)] + doc;
      assert more[1..] == doc;
  }

  lemma {:induction false} TextPieces(lexes: seq<Lex>, end: string) returns (doc: seq<Piece>)
    requires ValidLexes(lexes) && Spaces(end)
    ensures ValidDoc(doc) && NoBackslashGap(doc) && PiecesText(doc) == Text(lexes, end)
  {
    if lexes == [] {
      SpacesHaveNoQuote(end);
      doc := GapPieces(end, []);
      assert end + PiecesText([]) == end;
    } else {
      doc := TextPieces(lexes[1..], end);
      var l := lexes[0];
      assert l.Valid();
      SpacesHaveNoQuote(l.gap);
      doc := LexemePieces(l.lexeme, doc);
      doc := GapPieces(l.gap, doc);
    }
  }

  /** Every text of the batch grammar lies in the domain on which the two scanners agree. */
  lemma ReadableTextSplits(raw: string) returns (doc: seq<Piece>)
    requires ReadBatch(raw).Some?
    ensures ValidDoc(doc) && NoBackslashGap(doc) && PiecesText(doc) == raw
  {
    AcceptedIsWritten(raw);
    var end, key, objects :| Writing(raw, ReadBatch(raw).value, end, key, objects);
    var lexes: seq<Lex> :| IsStretch(lexes, BatchShape(key, objects), raw, end);
    doc := TextPieces(lexes, end);
  }

  /** On every text that the reader accepts both scanners give the same answer, so every accepted batch passes both. */
  lemma ScannersAgreeOnBatches(raw: string, first: int, last: int, suspicious: string -> bool)
    requires ReadBatch(raw).Some?
    ensures LooksBack(raw, 0) <==> OutsideString(raw)
    ensures Validated(raw, first, last, suspicious).Some? ==> LooksBack(raw, 0)
  {
    var doc := ReadableTextSplits(raw);
    ScannersAgree(doc);
  }
}
