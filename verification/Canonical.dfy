/** Strict validation of one raw transcription batch, and its canonical JSON form. */
module Canonical {
  import opened Common
  import opened Decimal
  import opened Escapes
  import opened Transcript
  import Utf8

  // ----- Reading the batch grammar ------------------------------------------------------------

  predicate IsSpace(c: char) { c in {' ', '\t', '\n', '\r'} }

  function Skip(s: string): (r: string)
    ensures |r| <= |s|
  {
    if s != "" && IsSpace(s[0]) then Skip(s[1..]) else s
  }

  /** What follows `word`, with space before it allowed. */
  function Expect(s: string, word: string): (r: Option<string>)
    ensures r.Some? ==> |r.value| + |word| <= |s|
  {
    var t := Skip(s);
    if word <= t then Some(t[|word|..]) else None
  }

  // ----- Keys are written without escapes -----------------------------------------------------

  /** What follows is a colon, with space before it allowed: the string before it was a key. */
  predicate BeforeColon(s: string) {
    Skip(s) != "" && Skip(s)[0] == ':'
  }

  predicate KeysOutside(s: string)
    decreases |s|
  {
    s == "" || (if s[0] == '"' then KeysInside(s[1..], false) else KeysOutside(s[1..]))
  }

  predicate KeysInside(s: string, escaped: bool)
    decreases |s|
  {
    if s == "" then false
    else if s[0] == '"' then !(escaped && BeforeColon(s[1..])) && KeysOutside(s[1..])
    else if s[0] == '\\' then |s| >= 2 && KeysInside(s[2..], true)
    else KeysInside(s[1..], escaped)
  }

  method ColonFollows(raw: string, start: nat) returns (colon: bool)
    requires start <= |raw|
    ensures colon <==> BeforeColon(raw[start..])
  {
    var next := start;
    while next < |raw| && IsSpace(raw[next])
      invariant start <= next <= |raw|
      invariant Skip(raw[start..]) == Skip(raw[next..])
    {
      assert raw[next..][1..] == raw[next + 1..];
      next := next + 1;
    }
    colon := next < |raw| && raw[next] == ':';
  }

  /** The inner loop: from inside a string to its closing quote. */
  method ScanKey(raw: string, start: nat) returns (end: Option<(nat, bool)>)
    requires start <= |raw|
    ensures end.None? ==> !KeysInside(raw[start..], false)
    ensures end.Some? ==>
              && start <= end.value.0 < |raw|
              && (KeysInside(raw[start..], false) <==>
                  !(end.value.1 && BeforeColon(raw[end.value.0 + 1..])) && KeysOutside(raw[end.value.0 + 1..]))
  {
    var index, escaped := start, false;
    while index < |raw| && raw[index] != '"'
      invariant start <= index <= |raw|
      invariant KeysInside(raw[start..], false) <==> KeysInside(raw[index..], escaped)
      decreases |raw| - index
    {
      assert raw[index..][1..] == raw[index + 1..];
      if raw[index] == '\\' {
        if index + 1 >= |raw| {
          return None;
        }
        assert raw[index..][2..] == raw[index + 2..];
        escaped := true;
        index := index + 1;
      }
      index := index + 1;
    }
    if index >= |raw| {
      return None;
    }
    assert raw[index..][1..] == raw[index + 1..];
    end := Some((index, escaped));
  }

  method LiteralObjectKeys(raw: string) returns (ok: bool)
    ensures ok <==> KeysOutside(raw)
  {
    var index := 0;
    while index < |raw|
      invariant index <= |raw|
      invariant KeysOutside(raw) <==> KeysOutside(raw[index..])
    {
      assert raw[index..][1..] == raw[index + 1..];
      if raw[index] == '"' {
        var end := ScanKey(raw, index + 1);
        if end.None? {
          return false;
        }
        var colon := ColonFollows(raw, end.value.0 + 1);
        if colon && end.value.1 {
          return false;
        }
        index := end.value.0;
      }
      index := index + 1;
    }
    ok := true;
  }

  // ----- The tokens of a string ---------------------------------------------------------------

  /** A token that JSON allows inside a string. */
  predicate JsonToken(t: Token) {
    && t.Valid()
    && (t.Plain? ==> t.c >= ' ')
    && (t.Escape? ==> t.c in {'"', '\\', '/', 'b', 'f', 'n', 'r', 't'})
  }

  predicate JsonTokens(tokens: seq<Token>) {
    forall t | t in tokens :: JsonToken(t)
  }

  /** The token that `s` starts with. */
  function FirstToken(s: string): Option<Token> {
    if s == "" || s[0] == '"' then None
    else if s[0] != '\\' then Some(Plain(s[0]))
    else if |s| < 2 then None
    else if s[1] != 'u' then Some(Escape(s[1]))
    else if IsCodeUnit(s[2..]) then Some(Unicode(s[2..6]))
    else None
  }

  /** The tokens up to the closing quote, and what follows it. */
  function ReadString(s: string): (r: Option<(seq<Token>, string)>)
    ensures r.Some? ==> |r.value.1| < |s|
    decreases |s|
  {
    if s != "" && s[0] == '"' then Some(([], s[1..]))
    else
      var t :- FirstToken(s);
      if !JsonToken(t) then None
      else
        var n := |t.Text()|;
        var (more, rest) :- ReadString(s[n..]);
        Some(([t] + more, rest))
  }

  datatype RawPage = RawPage(page: Option<nat>, text: Option<string>, refused: Option<bool>)

  const NO_FIELDS := RawPage(None, None, None)

  /** A key and the colon after it. */
  function ReadKey(s: string): (r: Option<(string, string)>)
    ensures r.Some? ==> |r.value.1| < |s|
  {
    var s :- Expect(s, "\"");
    var (tokens, s) :- ReadString(s);
    var s :- Expect(s, ":");
    Some((Decoded(tokens), s))
  }

  /** The value of a field; a field stands at most once. */
  function ReadValue(key: string, s: string, sofar: RawPage): (r: Option<(RawPage, string)>)
    ensures r.Some? ==> |r.value.1| <= |s|
  {
    if key == "page" && sofar.page.None? then
      var (n, s) :- ReadNat(Skip(s));
      Some((sofar.(page := Some(n)), s))
    else if key == "text" && sofar.text.None? then
      var s :- Expect(s, "\"");
      var (tokens, s) :- ReadString(s);
      Some((sofar.(text := Some(Decoded(tokens))), s))
    else if key == "refused" && sofar.refused.None? then
      var no, yes := Expect(s, "false"), Expect(s, "true");
      if no.Some? then Some((sofar.(refused := Some(false)), no.value))
      else if yes.Some? then Some((sofar.(refused := Some(true)), yes.value))
      else None
    else None
  }

  function ReadField(s: string, sofar: RawPage): (r: Option<(RawPage, string)>)
    ensures r.Some? ==> |r.value.1| < |s|
  {
    var (key, s) :- ReadKey(s);
    ReadValue(key, s, sofar)
  }

  function ReadFields(s: string, sofar: RawPage): (r: Option<(RawPage, string)>)
    ensures r.Some? ==> |r.value.1| < |s|
    decreases |s|
  {
    var (page, s) :- ReadField(s, sofar);
    var end, comma := Expect(s, "}"), Expect(s, ",");
    if end.Some? then Some((page, end.value))
    else if comma.Some? then ReadFields(comma.value, page)
    else None
  }

  function ReadPage(s: string): (r: Option<(RawPage, string)>)
    ensures r.Some? ==> |r.value.1| < |s|
  {
    var s :- Expect(s, "{");
    var end := Expect(s, "}");
    if end.Some? then Some((NO_FIELDS, end.value)) else ReadFields(s, NO_FIELDS)
  }

  type RawPageReader = string -> Option<(RawPage, string)>

  /** Pages with commas between them, up to the closing bracket. */
  function ReadPages(s: string, read: RawPageReader): Option<(seq<RawPage>, string)>
    decreases |s|
  {
    var (page, rest) :- read(s);
    var end, comma := Expect(rest, "]"), Expect(rest, ",");
    if end.Some? then Some(([page], end.value))
    else if comma.Some? && |comma.value| < |s| then
      var (more, t) :- ReadPages(comma.value, read);
      Some(([page] + more, t))
    else None
  }

  /** The pages of a whole raw batch; a batch without the field has none to offer. */
  function ReadBatch(raw: string): Option<seq<RawPage>> {
    var s :- Expect(raw, "{");
    var (key, s) :- ReadKey(s);
    var s :- Expect(s, "[");
    var end := Expect(s, "]");
    var (pages, s) :- if end.Some? then Some(([], end.value)) else ReadPages(s, ReadPage);
    var s :- Expect(s, "}");
    if key == "pages" && Skip(s) == "" then Some(pages) else None
  }

  // ----- The text that tokens stand for -------------------------------------------------------

  /** The UTF-8 encoding of a code point. */
  function Encoded(v: nat): string
    requires v < 0x110000
  {
    if v < 0x80 then [v as char]
    else if v < 0x800 then [(0xC0 + v / 64) as char, (0x80 + v % 64) as char]
    else if v < 0x10000 then [(0xE0 + v / 4096) as char, (0x80 + v / 64 % 64) as char, (0x80 + v % 64) as char]
    else [(0xF0 + v / 262144) as char, (0x80 + v / 4096 % 64) as char, (0x80 + v / 64 % 64) as char, (0x80 + v % 64) as char]
  }

  function Unescaped(c: char): char {
    match c
    case 'b' => 8 as char
    case 'f' => 12 as char
    case 'n' => '\n'
    case 'r' => '\r'
    case 't' => '\t'
    case _ => c
  }

  /** The code point that a surrogate pair stands for. */
  function PairValue(high: nat, low: nat): (v: nat)
    requires IsHigh(high) && IsLow(low)
    ensures 0x10000 <= v < 0x110000
  {
    0x10000 + (high - 0xD800) * 1024 + (low - 0xDC00)
  }

  /** The text of one token that is not half of a pair; an unpaired surrogate would become the replacement character. */
  function TokenText(t: Token): string {
    match t
    case Plain(c) => [c]
    case Escape(c) => [Unescaped(c)]
    case Unicode(digits) =>
      if IsCodeUnit(digits) && !IsHigh(CodeUnit(digits)) && !IsLow(CodeUnit(digits)) then Encoded(CodeUnit(digits)) else Encoded(0xFFFD)
  }

  predicate StartsPair(tokens: seq<Token>) {
    |tokens| >= 2 && tokens[0].High() && tokens[1].Low()
  }

  /** The text that the tokens of a string stand for. */
  function Decoded(tokens: seq<Token>): string
    decreases |tokens|
  {
    if tokens == [] then ""
    else if StartsPair(tokens) then
      Encoded(PairValue(CodeUnit(tokens[0].digits), CodeUnit(tokens[1].digits))) + Decoded(tokens[2..])
    else TokenText(tokens[0]) + Decoded(tokens[1..])
  }

  // ----- Printing a text ----------------------------------------------------------------------

  function HexDigit(d: nat): (c: char)
    requires d < 16
    ensures IsHex(c) && HexValue(c) == d
  {
    if d < 10 then (d + '0' as int) as char else (d - 10 + 'a' as int) as char
  }

  /** One ASCII character inside a printed string: markup characters are escaped too. */
  function AsciiToken(c: char): Token
    requires Utf8.IsAscii(c)
  {
    if c in {'"', '\\'} then Escape(c)
    else if c as int == 8 then Escape('b')
    else if c as int == 12 then Escape('f')
    else if c == '\n' then Escape('n')
    else if c == '\r' then Escape('r')
    else if c == '\t' then Escape('t')
    else if c < ' ' || c in {'<', '>', '&'} then Unicode(['0', '0', HexDigit(c as int / 16), HexDigit(c as int % 16)])
    else Plain(c)
  }

  function Plains(s: string): (r: seq<Token>)
    ensures |r| == |s|
  {
    seq(|s|, i requires 0 <= i < |s| => Plain(s[i]))
  }

  /** U+2028 and U+2029. */
  predicate IsLineSeparator(rune: string) {
    |rune| == 3 && rune[0] as int == 0xE2 && rune[1] as int == 0x80 && rune[2] as int in {0xA8, 0xA9}
  }

  /** The tokens that one rune of a text is printed as. */
  function RuneTokens(rune: string): seq<Token> {
    if |rune| == 1 && Utf8.IsAscii(rune[0]) then [AsciiToken(rune[0])]
    else if IsLineSeparator(rune) then [Unicode("202" + [HexDigit(rune[2] as int - 0xA0)])]
    else Plains(rune)
  }

  /** The tokens that a text is printed as. */
  function TextTokens(s: string): seq<Token> {
    if s == "" then []
    else if Utf8.RuneWidth(s) == 0 then [Unicode("fffd")] + TextTokens(s[1..])
    else
      var w := Utf8.RuneWidth(s);
      RuneTokens(s[..w]) + TextTokens(s[w..])
  }

  // ----- Printing and reading a text are inverse ----------------------------------------------

  /** The texts of the tokens, one after the other. */
  function Flat(tokens: seq<Token>, text: Token -> string): string {
    if tokens == [] then "" else text(tokens[0]) + Flat(tokens[1..], text)
  }

  lemma {:induction false} FlatConcat(a: seq<Token>, b: seq<Token>, text: Token -> string)
    ensures Flat(a + b, text) == Flat(a, text) + Flat(b, text)
  {
    if a == [] {
      assert a + b == b;
    } else {
      assert (a + b)[1..] == a[1..] + b;
      FlatConcat(a[1..], b, text);
      Associate(text(a[0]), Flat(a[1..], text), Flat(b, text));
    }
  }

  lemma Associate(a: string, b: string, c: string)
    ensures a + (b + c) == a + b + c
  {
  }

  lemma {:induction false} FlatPlains(s: string, text: Token -> string)
    requires forall c :: text(Plain(c)) == [c]
    ensures Flat(Plains(s), text) == s
  {
    if s != "" {
      assert Plains(s)[1..] == Plains(s[1..]);
      FlatPlains(s[1..], text);
    }
  }

  /** Tokens without surrogates: each stands for its own text. */
  predicate Simple(tokens: seq<Token>) {
    forall t | t in tokens :: JsonToken(t) && !t.High() && !t.Low()
  }

  lemma {:induction false} SimpleDecoded(tokens: seq<Token>)
    requires Simple(tokens)
    ensures Decoded(tokens) == Flat(tokens, TokenText) && PairsUp(tokens)
  {
    if tokens != [] {
      assert tokens[0] in tokens;
      SimpleDecoded(tokens[1..]);
    }
  }

  predicate IsRune(s: string) {
    s != "" && Utf8.RuneWidth(s) == |s|
  }

  lemma FirstRune(s: string)
    requires Utf8.RuneWidth(s) > 0
    ensures IsRune(s[..Utf8.RuneWidth(s)]) && Utf8.Valid(s[..Utf8.RuneWidth(s)])
  {
    var w := Utf8.RuneWidth(s);
    assert Utf8.RuneWidth(s[..w]) == w && s[..w][w..] == "";
  }

  lemma AsciiDecodes(c: char)
    requires Utf8.IsAscii(c)
    ensures Simple([AsciiToken(c)]) && TokenText(AsciiToken(c)) == [c]
  {
    var t := AsciiToken(c);
    if t.Unicode? {
      assert CodeUnit(t.digits) == c as int / 16 * 16 + c as int % 16;
    }
  }

  lemma OneToken(t: Token, text: Token -> string)
    ensures Flat([t], text) == text(t)
  {
    assert Flat([t][1..], text) == "";
  }

  lemma RuneDecodes(rune: string)
    requires IsRune(rune)
    ensures Simple(RuneTokens(rune)) && Flat(RuneTokens(rune), TokenText) == rune
  {
    if |rune| == 1 {
      AsciiDecodes(rune[0]);
      OneToken(AsciiToken(rune[0]), TokenText);
    } else if IsLineSeparator(rune) {
      var t := Unicode("202" + [HexDigit(rune[2] as int - 0xA0)]);
      assert CodeUnit(t.digits) == 0x2020 + (rune[2] as int - 0xA0);
      OneToken(t, TokenText);
    } else {
      FlatPlains(rune, TokenText);
    }
  }

  ghost predicate PrintsRunes(text: Token -> string) {
    forall rune | IsRune(rune) :: Flat(RuneTokens(rune), text) == rune
  }

  lemma {:induction false} PrintsTexts(s: string, text: Token -> string)
    requires Utf8.Valid(s) && PrintsRunes(text)
    ensures Flat(TextTokens(s), text) == s
    decreases |s|
  {
    if s != "" {
      var w := Utf8.RuneWidth(s);
      var rune, rest := s[..w], s[w..];
      FirstRune(s);
      PrintsTexts(rest, text);
      FlatConcat(RuneTokens(rune), TextTokens(rest), text);
      assert rune + rest == s;
    }
  }

  lemma {:induction false} TextTokensAreSimple(s: string)
    requires Utf8.Valid(s)
    ensures Simple(TextTokens(s))
    decreases |s|
  {
    if s != "" {
      FirstRune(s);
      RuneDecodes(s[..Utf8.RuneWidth(s)]);
      TextTokensAreSimple(s[Utf8.RuneWidth(s)..]);
    }
  }

  /** Reading back a printed text gives the text, byte for byte. */
  lemma DecodedTextTokens(s: string)
    requires Utf8.Valid(s)
    ensures Decoded(TextTokens(s)) == s
  {
    forall rune | IsRune(rune) ensures Flat(RuneTokens(rune), TokenText) == rune {
      RuneDecodes(rune);
    }
    PrintsTexts(s, TokenText);
    TextTokensAreSimple(s);
    SimpleDecoded(TextTokens(s));
  }

  lemma {:induction false} FirstTokenOf(t: Token, rest: string)
    requires t.Valid()
    ensures FirstToken(t.Text() + rest) == Some(t) && (t.Text() + rest)[|t.Text()|..] == rest
    ensures (t.Text() + rest)[0] != '"'
  {
    TokenFacts(t, rest);
    if t.Unicode? {
      assert (t.Text() + rest)[2..6] == t.digits;
    }
  }

  lemma {:induction false} ReadClosed(tokens: seq<Token>, rest: string)
    requires JsonTokens(tokens)
    ensures ReadString(Closed(tokens, rest)) == Some((tokens, rest))
    decreases |tokens|
  {
    if tokens == [] {
      assert Closed(tokens, rest)[1..] == rest;
    } else {
      var t := tokens[0];
      assert t in tokens && JsonToken(t);
      FirstTokenOf(t, Closed(tokens[1..], rest));
      ReadClosed(tokens[1..], rest);
      assert [t] + tokens[1..] == tokens;
    }
  }

  // ----- Printing a batch ---------------------------------------------------------------------

  const PAGE_KEY := "\"" + "page" + "\""
  const TEXT_KEY := "\"" + "text" + "\""
  const REFUSED_KEY := "\"" + "refused" + "\""
  const PAGES_KEY := "\"" + "pages" + "\""

  function FieldsText(number: nat, tokens: seq<Token>, rest: string): string {
    PAGE_KEY + (":" + (Dec(number) + ("," + (TEXT_KEY + (":" + ("\"" + Closed(tokens, EndText(rest))))))))
  }

  function EndText(rest: string): string {
    "," + (REFUSED_KEY + (":" + ("false" + ("}" + rest))))
  }

  /** The pages from `number` on, each with the tokens of its text, and the end of the batch. */
  function PagesText(number: nat, texts: seq<seq<Token>>): string
    requires texts != []
    decreases |texts|, 1
  {
    "{" + FieldsText(number, texts[0], AfterFirst(number, texts))
  }

  /** What follows the first page. */
  function AfterFirst(number: nat, texts: seq<seq<Token>>): string
    requires texts != []
    decreases |texts|, 0
  {
    if |texts| == 1 then "]" + "}" else "," + PagesText(number + 1, texts[1..])
  }

  /** A compact batch; the source may choose any tokens for a text, the canonical form takes `TextTokens`. */
  function BatchText(number: nat, texts: seq<seq<Token>>): string
    requires texts != []
  {
    "{" + (PAGES_KEY + (":" + ("[" + PagesText(number, texts))))
  }

  function TokensOf(pages: seq<Page>): (texts: seq<seq<Token>>)
    ensures |texts| == |pages| && forall i | 0 <= i < |pages| :: texts[i] == TextTokens(pages[i].text)
  {
    seq(|pages|, i requires 0 <= i < |pages| => TextTokens(pages[i].text))
  }

  function CanonicalText(batch: Batch): string
    requires batch.pages != [] && batch.first >= 0
  {
    BatchText(batch.first, TokensOf(batch.pages))
  }

  // ----- Reading a printed batch --------------------------------------------------------------

  /** What a page with these tokens is read as. */
  function RawOf(number: nat, tokens: seq<Token>): RawPage {
    RawPage(Some(number), Some(Decoded(tokens)), Some(false))
  }

  lemma ExpectFirst(word: string, rest: string)
    requires word != "" && !IsSpace(word[0])
    ensures Expect(word + rest, word) == Some(rest)
  {
  }

  lemma ExpectOther(word: string, rest: string, other: string)
    requires word != "" && other != "" && !IsSpace(word[0]) && word[0] != other[0]
    ensures Expect(word + rest, other) == None
  {
  }

  /** A word without quotes, backslashes and control characters. */
  predicate IsWord(word: string) {
    forall c | c in word :: c >= ' ' && c != '"' && c != '\\'
  }

  lemma ReadWord(word: string, rest: string)
    requires IsWord(word)
    ensures ReadKey(("\"" + word + "\"") + (":" + rest)) == Some((word, rest))
  {
    var tokens := Plains(word);
    forall t | t in tokens ensures JsonToken(t) && !t.High() && !t.Low() {
      assert t.c in word;
    }
    SimpleDecoded(tokens);
    FlatPlains(word, TokenText);
    ClosedWord(word, ":" + rest);
    ReadClosed(tokens, ":" + rest);
    ExpectFirst("\"", Closed(tokens, ":" + rest));
    ExpectFirst(":", rest);
    assert ("\"" + word + "\"") + (":" + rest) == "\"" + (word + ("\"" + (":" + rest)));
  }

  lemma {:induction false} ClosedWord(word: string, rest: string)
    ensures Closed(Plains(word), rest) == word + ("\"" + rest)
  {
    if word != "" {
      assert Plains(word)[1..] == Plains(word[1..]);
      ClosedWord(word[1..], rest);
      assert word == [word[0]] + word[1..];
    }
  }

  lemma FieldOf(word: string, rest: string, sofar: RawPage)
    requires IsWord(word)
    ensures ReadField(("\"" + word + "\"") + (":" + rest), sofar) == ReadValue(word, rest, sofar)
  {
    ReadWord(word, rest);
  }

  lemma ReadPageField(number: nat, rest: string, sofar: RawPage)
    requires sofar.page.None? && rest != "" && rest[0] == ','
    ensures ReadField(PAGE_KEY + (":" + (Dec(number) + rest)), sofar) == Some((sofar.(page := Some(number)), rest))
  {
    FieldOf("page", Dec(number) + rest, sofar);
    DecIsNumeral(number);
    assert IsDigit(Dec(number)[0]);
    ReadPrinted(number, rest);
  }

  lemma ReadTextField(tokens: seq<Token>, rest: string, sofar: RawPage)
    requires sofar.page.Some? && sofar.text.None? && JsonTokens(tokens)
    ensures ReadField(TEXT_KEY + (":" + ("\"" + Closed(tokens, rest))), sofar) == Some((sofar.(text := Some(Decoded(tokens))), rest))
  {
    FieldOf("text", "\"" + Closed(tokens, rest), sofar);
    ExpectFirst("\"", Closed(tokens, rest));
    ReadClosed(tokens, rest);
  }

  lemma ReadRefusedField(rest: string, sofar: RawPage)
    requires sofar.page.Some? && sofar.text.Some? && sofar.refused.None?
    ensures ReadField(REFUSED_KEY + (":" + ("false" + rest)), sofar) == Some((sofar.(refused := Some(false)), rest))
  {
    FieldOf("refused", "false" + rest, sofar);
    ExpectFirst("false", rest);
  }

  lemma FieldThenComma(s: string, sofar: RawPage, page: RawPage, rest: string)
    requires ReadField(s, sofar) == Some((page, "," + rest))
    ensures ReadFields(s, sofar) == ReadFields(rest, page)
  {
    ExpectFirst(",", rest);
    ExpectOther(",", rest, "}");
  }

  lemma FieldThenEnd(s: string, sofar: RawPage, page: RawPage, rest: string)
    requires ReadField(s, sofar) == Some((page, "}" + rest))
    ensures ReadFields(s, sofar) == Some((page, rest))
  {
    ExpectFirst("}", rest);
  }

  lemma ReadFieldsText(number: nat, tokens: seq<Token>, rest: string)
    requires JsonTokens(tokens)
    ensures ReadFields(FieldsText(number, tokens, rest), NO_FIELDS) == Some((RawOf(number, tokens), rest))
  {
    var one := NO_FIELDS.(page := Some(number));
    var two := one.(text := Some(Decoded(tokens)));
    var end := REFUSED_KEY + (":" + ("false" + ("}" + rest)));
    var text := TEXT_KEY + (":" + ("\"" + Closed(tokens, "," + end)));
    ReadRefusedField("}" + rest, two);
    FieldThenEnd(end, two, RawOf(number, tokens), rest);
    ReadTextField(tokens, "," + end, one);
    FieldThenComma(text, one, two, end);
    ReadPageField(number, "," + text, NO_FIELDS);
    FieldThenComma(FieldsText(number, tokens, rest), NO_FIELDS, one, text);
  }

  lemma ReadPageText(number: nat, tokens: seq<Token>, rest: string)
    requires JsonTokens(tokens)
    ensures ReadPage("{" + FieldsText(number, tokens, rest)) == Some((RawOf(number, tokens), rest))
  {
    var s := FieldsText(number, tokens, rest);
    ExpectFirst("{", s);
    ExpectOther(PAGE_KEY, ":" + (Dec(number) + ("," + (TEXT_KEY + (":" + ("\"" + Closed(tokens, EndText(rest))))))), "}");
    ReadFieldsText(number, tokens, rest);
  }

  predicate AllJson(texts: seq<seq<Token>>) {
    forall i | 0 <= i < |texts| :: JsonTokens(texts[i])
  }

  function RawsOf(number: nat, texts: seq<seq<Token>>): (raws: seq<RawPage>)
    ensures |raws| == |texts|
  {
    seq(|texts|, i requires 0 <= i < |texts| => RawOf(number + i, texts[i]))
  }

  lemma LastPage(s: string, page: RawPage, rest: string, read: RawPageReader)
    requires read(s) == Some((page, "]" + rest))
    ensures ReadPages(s, read) == Some(([page], rest))
  {
    ExpectFirst("]", rest);
  }

  lemma MorePages(s: string, page: RawPage, tail: string, more: seq<RawPage>, rest: string, read: RawPageReader)
    requires read(s) == Some((page, "," + tail)) && |tail| < |s|
    requires ReadPages(tail, read) == Some((more, rest))
    ensures ReadPages(s, read) == Some(([page] + more, rest))
  {
    ExpectFirst(",", tail);
    ExpectOther(",", tail, "]");
  }

  lemma RawsCons(number: nat, texts: seq<seq<Token>>)
    requires texts != []
    ensures RawsOf(number, texts) == [RawOf(number, texts[0])] + RawsOf(number + 1, texts[1..])
    ensures |texts| == 1 ==> RawsOf(number, texts) == [RawOf(number, texts[0])]
  {
  }

  /** The reader recovers the first of any printed pages. */
  ghost predicate RecoversFirst(read: RawPageReader) {
    forall number, texts: seq<seq<Token>> | texts != [] && AllJson(texts) ::
      read(PagesText(number, texts)) == Some((RawOf(number, texts[0]), AfterFirst(number, texts)))
  }

  lemma ReadPageRecovers()
    ensures RecoversFirst(ReadPage)
  {
    forall number: nat, texts: seq<seq<Token>> | texts != [] && AllJson(texts)
      ensures ReadPage(PagesText(number, texts)) == Some((RawOf(number, texts[0]), AfterFirst(number, texts)))
    {
      ReadPageText(number, texts[0], AfterFirst(number, texts));
    }
  }

  lemma TailIsShorter(number: nat, texts: seq<seq<Token>>)
    requires |texts| > 1
    ensures |PagesText(number + 1, texts[1..])| < |PagesText(number, texts)|
  {
    LongerThanRest(number, texts[0], AfterFirst(number, texts));
  }

  lemma LongerThanRest(number: nat, tokens: seq<Token>, rest: string)
    ensures |rest| < |FieldsText(number, tokens, rest)|
  {
    ClosedIsLonger(tokens, EndText(rest));
  }

  lemma {:induction false} ClosedIsLonger(tokens: seq<Token>, rest: string)
    ensures |rest| < |Closed(tokens, rest)|
  {
    if tokens != [] {
      ClosedIsLonger(tokens[1..], rest);
    }
  }

  lemma {:induction false} ReadPagesText(number: nat, texts: seq<seq<Token>>, read: RawPageReader)
    requires texts != [] && AllJson(texts) && RecoversFirst(read)
    ensures ReadPages(PagesText(number, texts), read) == Some((RawsOf(number, texts), "}"))
    decreases |texts|
  {
    var s := PagesText(number, texts);
    RawsCons(number, texts);
    if |texts| == 1 {
      LastPage(s, RawOf(number, texts[0]), "}", read);
    } else {
      ReadPagesText(number + 1, texts[1..], read);
      TailIsShorter(number, texts);
      MorePages(s, RawOf(number, texts[0]), PagesText(number + 1, texts[1..]), RawsOf(number + 1, texts[1..]), "}", read);
    }
  }

  /** Reading inverts printing, whichever tokens the texts are written with. */
  lemma ReadBatchText(number: nat, texts: seq<seq<Token>>)
    requires texts != [] && AllJson(texts)
    ensures ReadBatch(BatchText(number, texts)) == Some(RawsOf(number, texts))
  {
    var s3 := PagesText(number, texts);
    var s2 := "[" + s3;
    var s1 := ":" + s2;
    var s0 := PAGES_KEY + s1;
    ExpectFirst("{", s0);
    ReadWord("pages", s2);
    ExpectFirst("[", s3);
    ExpectOther("{", FieldsText(number, texts[0], AfterFirst(number, texts)), "]");
    ReadPageRecovers();
    ReadPagesText(number, texts, ReadPage);
    ExpectFirst("}", "");
    assert "}" == "}" + "";
  }

  // ----- Validation ---------------------------------------------------------------------------

  predicate CleanPage(raw: RawPage) {
    raw.page.Some? && raw.text.Some? && raw.refused == Some(false)
  }

  predicate Clean(raws: seq<RawPage>) {
    forall i | 0 <= i < |raws| :: CleanPage(raws[i])
  }

  function BatchOf(raws: seq<RawPage>, first: int, last: int): Batch
    requires Clean(raws)
  {
    Batch(first, last, seq(|raws|, i requires 0 <= i < |raws| => assert CleanPage(raws[i]); Page(raws[i].page.value, raws[i].text.value)))
  }

  /** The scans that come before parsing. */
  predicate Scans(raw: string) {
    Utf8.Valid(raw) && OutsideString(raw) && KeysOutside(raw)
  }

  /** The batch that a raw text is accepted as, for an exact inclusive range. */
  function Validated(raw: string, first: int, last: int, suspicious: string -> bool): Option<Batch> {
    if raw == "" || |raw| > MAX_RAW_BYTES || !Scans(raw) then None
    else
      var raws :- ReadBatch(raw);
      if Clean(raws) && ValidBatch(BatchOf(raws, first, last), Proper(suspicious)) then Some(BatchOf(raws, first, last)) else None
  }

  /** The per-page checks, in one pass. */
  method CheckPages(raws: seq<RawPage>, first: int, last: int, proper: TextRule) returns (batch: Option<Batch>)
    requires ValidRange(first, last)
    ensures batch == if Clean(raws) && ValidBatch(BatchOf(raws, first, last), proper) then Some(BatchOf(raws, first, last)) else None
  {
    if |raws| != last - first + 1 {
      return None;
    }
    var pages: seq<Page> := [];
    var total := 0;
    for i := 0 to |raws|
      invariant |pages| == i && Clean(raws[..i])
      invariant forall k | 0 <= k < i :: CleanPage(raws[k]) && pages[k] == Page(raws[k].page.value, raws[k].text.value)
      invariant forall k | 0 <= k < i :: pages[k].number == first + k && ValidText(pages[k].text, proper)
      invariant total == TextBytes(pages, i) <= MAX_BATCH_BYTES
    {
      var raw := raws[i];
      if !CleanPage(raw) {
        return None;
      }
      var page := Page(raw.page.value, raw.text.value);
      if page.number != first + i || !ValidText(page.text, proper) {
        RejectPage(raws, first, last, proper, i);
        return None;
      }
      if |page.text| > MAX_BATCH_BYTES - total {
        RejectTotal(raws, first, last, proper, i, pages);
        return None;
      }
      TextBytesPrefix(pages, pages + [page], i);
      pages := pages + [page];
      total := total + |page.text|;
    }
    assert Clean(raws) && pages == BatchOf(raws, first, last).pages;
    batch := Some(Batch(first, last, pages));
  }

  lemma RejectPage(raws: seq<RawPage>, first: int, last: int, proper: TextRule, i: nat)
    requires i < |raws| && CleanPage(raws[i])
    requires raws[i].page.value != first + i || !ValidText(raws[i].text.value, proper)
    ensures !(Clean(raws) && ValidBatch(BatchOf(raws, first, last), proper))
  {
    if Clean(raws) {
      assert BatchOf(raws, first, last).pages[i] == Page(raws[i].page.value, raws[i].text.value);
    }
  }

  lemma {:induction false} TextBytesPrefix(a: seq<Page>, b: seq<Page>, k: nat)
    requires k <= |a| && k <= |b| && a[..k] == b[..k]
    ensures TextBytes(a, k) == TextBytes(b, k)
  {
    if k > 0 {
      assert a[..k - 1] == a[..k][..k - 1] == b[..k][..k - 1] == b[..k - 1];
      assert a[k - 1] == a[..k][k - 1] == b[..k][k - 1] == b[k - 1];
      TextBytesPrefix(a, b, k - 1);
    }
  }

  lemma TooMuchText(some: seq<Page>, all: seq<Page>, i: nat)
    requires |some| == i < |all| && some == all[..i] && TextBytes(some, i) + |all[i].text| > MAX_BATCH_BYTES
    ensures TextBytes(all, |all|) > MAX_BATCH_BYTES
  {
    assert some[..i] == all[..i];
    TextBytesPrefix(some, all, i);
    TextBytesGrow(all, i + 1, |all|);
  }

  lemma RejectTotal(raws: seq<RawPage>, first: int, last: int, proper: TextRule, i: nat, pages: seq<Page>)
    requires i < |raws| && CleanPage(raws[i]) && |pages| == i
    requires forall k | 0 <= k < i :: CleanPage(raws[k]) && pages[k] == Page(raws[k].page.value, raws[k].text.value)
    requires TextBytes(pages, i) + |raws[i].text.value| > MAX_BATCH_BYTES
    ensures !(Clean(raws) && ValidBatch(BatchOf(raws, first, last), proper))
  {
    if Clean(raws) {
      TooMuchText(pages, BatchOf(raws, first, last).pages, i);
    }
  }

  method Validate(raw: string, first: int, last: int, suspicious: string -> bool) returns (batch: Option<Batch>)
    ensures batch == Validated(raw, first, last, suspicious)
  {
    if !ValidRange(first, last) || |raw| == 0 || |raw| > MAX_RAW_BYTES || !Utf8.Valid(raw) {
      return None;
    }
    var escapes := ValidJsonUnicodeEscapes(raw);
    if !escapes {
      return None;
    }
    var literal := LiteralObjectKeys(raw);
    if !literal {
      return None;
    }
    var raws := ReadBatch(raw);
    if raws.None? {
      return None;
    }
    batch := CheckPages(raws.value, first, last, Proper(suspicious));
  }

  method ValidateCanonical(raw: string, first: int, last: int, suspicious: string -> bool)
    returns (r: Option<(Batch, string)>)
    ensures r.Some? <==> Validated(raw, first, last, suspicious).Some?
    ensures r.Some? ==> Validated(raw, first, last, suspicious) == Some(r.value.0) && r.value.1 == CanonicalText(r.value.0)
  {
    var batch := Validate(raw, first, last, suspicious);
    if batch.None? {
      return None;
    }
    r := Some((batch.value, CanonicalText(batch.value)));
  }

  // ----- The scans accept what is printed -----------------------------------------------------

  function Written(t: Token): string { t.Text() }

  function TokensText(tokens: seq<Token>): string { Flat(tokens, Written) }

  lemma {:induction false} ClosedText(tokens: seq<Token>, rest: string)
    ensures Closed(tokens, rest) == TokensText(tokens) + ("\"" + rest)
  {
    if tokens != [] {
      ClosedText(tokens[1..], rest);
    }
  }

  predicate IsGap(s: string) {
    forall c | c in s :: Utf8.IsAscii(c) && c != '"' && c != '\\'
  }

  lemma {:induction false} OutsideGap(gap: string, rest: string)
    requires IsGap(gap) && OutsideString(rest) && KeysOutside(rest)
    ensures OutsideString(gap + rest) && KeysOutside(gap + rest)
  {
    if gap == "" {
      assert gap + rest == rest;
    } else {
      assert (gap + rest)[1..] == gap[1..] + rest;
      assert gap[0] in gap;
      OutsideGap(gap[1..], rest);
    }
  }

  lemma {:induction false} InsideWord(word: string, rest: string)
    requires IsGap(word) && OutsideString(rest) && KeysOutside(rest)
    ensures InsideString(word + ("\"" + rest)) && KeysInside(word + ("\"" + rest), false)
  {
    if word == "" {
      assert word + ("\"" + rest) == "\"" + rest && ("\"" + rest)[1..] == rest;
    } else {
      assert (word + ("\"" + rest))[1..] == word[1..] + ("\"" + rest);
      assert word[0] in word;
      InsideWord(word[1..], rest);
    }
  }

  lemma HexInside(s: string, tail: string)
    requires |s| == 4 && IsCodeUnit(s)
    ensures KeysInside(s + tail, true) <==> KeysInside(tail, true)
  {
    var t := s + tail;
    assert t[1..][1..] == t[2..] && t[2..][1..] == t[3..] && t[3..][1..] == t[4..] && t[4..] == tail;
    assert KeysInside(t, true) <==> KeysInside(t[1..], true);
    assert KeysInside(t[1..], true) <==> KeysInside(t[2..], true);
    assert KeysInside(t[2..], true) <==> KeysInside(t[3..], true);
    assert KeysInside(t[3..], true) <==> KeysInside(t[4..], true);
  }

  lemma TokenInside(t: Token, tail: string, escaped: bool)
    requires t.Valid()
    ensures KeysInside(t.Text() + tail, escaped) <==> KeysInside(tail, escaped || !t.Plain?)
  {
    TokenFacts(t, tail);
    if t.Unicode? {
      assert (t.Text() + tail)[2..] == t.digits + tail;
      HexInside(t.digits, tail);
    }
  }

  /** A string that no colon follows may be written with escapes. */
  lemma {:induction false} InsideTokens(tokens: seq<Token>, rest: string, escaped: bool)
    requires ValidTokens(tokens) && KeysOutside(rest) && !BeforeColon(rest)
    ensures KeysInside(Closed(tokens, rest), escaped)
    decreases |tokens|
  {
    if tokens == [] {
      assert Closed(tokens, rest)[1..] == rest;
    } else {
      assert tokens[0] in tokens;
      TokenInside(tokens[0], Closed(tokens[1..], rest), escaped);
      InsideTokens(tokens[1..], rest, escaped || !tokens[0].Plain?);
    }
  }

  lemma ScansGap(gap: string, rest: string)
    requires IsGap(gap) && Scans(rest)
    ensures Scans(gap + rest)
  {
    OutsideGap(gap, rest);
    Utf8.AsciiThen(gap, rest);
  }

  lemma ScansWord(word: string, rest: string)
    requires IsGap(word) && Scans(rest)
    ensures Scans(("\"" + word + "\"") + rest)
  {
    var s := ("\"" + word + "\"") + rest;
    InsideWord(word, rest);
    assert s[1..] == word + ("\"" + rest);
    Utf8.AsciiThen("\"" + word + "\"", rest);
  }

  /** Tokens that the scans accept in any string. */
  predicate WellWritten(tokens: seq<Token>) {
    JsonTokens(tokens) && PairsUp(tokens) && Utf8.Valid(TokensText(tokens))
  }

  lemma JsonTokensAreValid(tokens: seq<Token>)
    requires JsonTokens(tokens)
    ensures ValidTokens(tokens)
  {
    forall t | t in tokens ensures t.Valid() {
      assert JsonToken(t);
    }
  }

  lemma ScansText(tokens: seq<Token>, rest: string)
    requires WellWritten(tokens) && Scans(rest) && !BeforeColon(rest)
    ensures Scans("\"" + Closed(tokens, rest))
  {
    var s := Closed(tokens, rest);
    JsonTokensAreValid(tokens);
    InsideTokens(tokens, rest, false);
    ForwardTokens(tokens, rest);
    assert ("\"" + s)[1..] == s;
    ClosedText(tokens, rest);
    Utf8.AsciiThen("\"", rest);
    Utf8.ValidConcat(TokensText(tokens), "\"" + rest);
    Utf8.AsciiThen("\"", s);
  }

  lemma ScansEnd(rest: string)
    requires Scans(rest)
    ensures Scans(EndText(rest)) && !BeforeColon(EndText(rest))
  {
    ScansGap("}", rest);
    ScansGap("false", "}" + rest);
    ScansGap(":", "false" + ("}" + rest));
    ScansWord("refused", ":" + ("false" + ("}" + rest)));
    ScansGap(",", REFUSED_KEY + (":" + ("false" + ("}" + rest))));
  }

  lemma DecIsGap(n: nat)
    ensures IsGap(Dec(n))
  {
    DecIsNumeral(n);
    forall c | c in Dec(n) ensures Utf8.IsAscii(c) && c != '"' && c != '\\' {
      assert IsDigit(c);
    }
  }

  lemma ScansFields(number: nat, tokens: seq<Token>, rest: string)
    requires WellWritten(tokens) && Scans(rest)
    ensures Scans(FieldsText(number, tokens, rest))
  {
    ScansEnd(rest);
    var s1 := "\"" + Closed(tokens, EndText(rest));
    ScansText(tokens, EndText(rest));
    ScansGap(":", s1);
    ScansWord("text", ":" + s1);
    var s2 := TEXT_KEY + (":" + s1);
    ScansGap(",", s2);
    DecIsGap(number);
    ScansGap(Dec(number), "," + s2);
    ScansGap(":", Dec(number) + ("," + s2));
    ScansWord("page", ":" + (Dec(number) + ("," + s2)));
  }

  predicate AllWellWritten(texts: seq<seq<Token>>) {
    forall i | 0 <= i < |texts| :: WellWritten(texts[i])
  }

  lemma {:induction false} ScansPages(number: nat, texts: seq<seq<Token>>)
    requires texts != [] && AllWellWritten(texts)
    ensures Scans(PagesText(number, texts))
    decreases |texts|
  {
    if |texts| == 1 {
      assert Scans("");
      ScansGap("]" + "}", "");
      assert ("]" + "}") + "" == "]" + "}";
    } else {
      ScansPages(number + 1, texts[1..]);
      ScansGap(",", PagesText(number + 1, texts[1..]));
    }
    ScansFields(number, texts[0], AfterFirst(number, texts));
    ScansGap("{", FieldsText(number, texts[0], AfterFirst(number, texts)));
  }

  lemma ScansBatch(number: nat, texts: seq<seq<Token>>)
    requires texts != [] && AllWellWritten(texts)
    ensures Scans(BatchText(number, texts))
  {
    ScansPages(number, texts);
    var s := PagesText(number, texts);
    ScansGap("[", s);
    ScansGap(":", "[" + s);
    ScansWord("pages", ":" + ("[" + s));
    ScansGap("{", PAGES_KEY + (":" + ("[" + s)));
  }

  // ----- The round trip -----------------------------------------------------------------------

  lemma AsciiTokenWritten(c: char)
    requires Utf8.IsAscii(c)
    ensures forall d | d in AsciiToken(c).Text() :: Utf8.IsAscii(d)
  {
  }

  lemma RuneWritten(rune: string)
    requires IsRune(rune) && Utf8.Valid(rune)
    ensures Utf8.Valid(TokensText(RuneTokens(rune)))
  {
    if |rune| == 1 {
      AsciiTokenWritten(rune[0]);
      Utf8.AsciiIsValid(AsciiToken(rune[0]).Text());
      OneToken(AsciiToken(rune[0]), Written);
    } else if IsLineSeparator(rune) {
      var t := Unicode("202" + [HexDigit(rune[2] as int - 0xA0)]);
      OneToken(t, Written);
      Utf8.AsciiIsValid(t.Text());
    } else {
      FlatPlains(rune, Written);
    }
  }

  lemma {:induction false} TextTokensAreUtf8(s: string)
    requires Utf8.Valid(s)
    ensures Utf8.Valid(TokensText(TextTokens(s)))
    decreases |s|
  {
    if s != "" {
      var rune, rest := s[..Utf8.RuneWidth(s)], s[Utf8.RuneWidth(s)..];
      FirstRune(s);
      RuneWritten(rune);
      TextTokensAreUtf8(rest);
      FlatConcat(RuneTokens(rune), TextTokens(rest), Written);
      Utf8.ValidConcat(TokensText(RuneTokens(rune)), TokensText(TextTokens(rest)));
    }
  }

  lemma TextTokensWritten(s: string)
    requires Utf8.Valid(s)
    ensures WellWritten(TextTokens(s)) && Decoded(TextTokens(s)) == s
  {
    DecodedTextTokens(s);
    TextTokensAreSimple(s);
    SimpleDecoded(TextTokens(s));
    TextTokensAreUtf8(s);
  }

  /** The tokens say what the pages say. */
  predicate Writes(texts: seq<seq<Token>>, pages: seq<Page>) {
    && |texts| == |pages| && AllWellWritten(texts)
    && forall i | 0 <= i < |texts| :: Decoded(texts[i]) == pages[i].text
  }

  /** Any writing of a valid batch is accepted as that batch, exactly when it is not too long. */
  lemma AnyWritingIsAccepted(batch: Batch, texts: seq<seq<Token>>, suspicious: string -> bool)
    requires ValidBatch(batch, Proper(suspicious)) && Writes(texts, batch.pages)
    ensures var raw := BatchText(batch.first, texts);
            Validated(raw, batch.first, batch.last, suspicious) == if |raw| <= MAX_RAW_BYTES then Some(batch) else None
  {
    forall i | 0 <= i < |texts| ensures JsonTokens(texts[i]) {
      assert WellWritten(texts[i]);
    }
    ReadBatchText(batch.first, texts);
    ScansBatch(batch.first, texts);
    RawsMakeBatch(batch, texts);
  }

  lemma RawsMakeBatch(batch: Batch, texts: seq<seq<Token>>)
    requires |texts| == |batch.pages| && batch.first >= 0
    requires forall i | 0 <= i < |texts| :: Decoded(texts[i]) == batch.pages[i].text && batch.pages[i].number == batch.first + i
    ensures Clean(RawsOf(batch.first, texts)) && BatchOf(RawsOf(batch.first, texts), batch.first, batch.last) == batch
  {
    var raws := RawsOf(batch.first, texts);
    forall i | 0 <= i < |raws| ensures CleanPage(raws[i]) {
    }
    assert BatchOf(raws, batch.first, batch.last).pages == batch.pages;
  }

  lemma CanonicalWrites(batch: Batch, suspicious: string -> bool)
    requires ValidBatch(batch, Proper(suspicious))
    ensures Writes(TokensOf(batch.pages), batch.pages)
  {
    forall i | 0 <= i < |batch.pages|
      ensures WellWritten(TextTokens(batch.pages[i].text)) && Decoded(TextTokens(batch.pages[i].text)) == batch.pages[i].text
    {
      assert ValidText(batch.pages[i].text, Proper(suspicious));
      TextTokensWritten(batch.pages[i].text);
    }
  }

  lemma CanonicalRevalidates(batch: Batch, suspicious: string -> bool)
    requires ValidBatch(batch, Proper(suspicious))
    ensures Validated(CanonicalText(batch), batch.first, batch.last, suspicious) ==
            if |CanonicalText(batch)| <= MAX_RAW_BYTES then Some(batch) else None
  {
    CanonicalWrites(batch, suspicious);
    AnyWritingIsAccepted(batch, TokensOf(batch.pages), suspicious);
  }

  /** Revalidating a canonical form gives the same batch, and so the same bytes, exactly when the
      form is at most 64 KiB; otherwise it is refused. */
  lemma CanonicalRoundTrip(raw: string, first: int, last: int, suspicious: string -> bool)
    requires Validated(raw, first, last, suspicious).Some?
    ensures var batch := Validated(raw, first, last, suspicious).value;
            && (Validated(CanonicalText(batch), first, last, suspicious) == Some(batch) <==> |CanonicalText(batch)| <= MAX_RAW_BYTES)
            && (Validated(CanonicalText(batch), first, last, suspicious) == None <==> |CanonicalText(batch)| > MAX_RAW_BYTES)
  {
    CanonicalRevalidates(Validated(raw, first, last, suspicious).value, suspicious);
  }

  /** Different batches of a range never share a canonical form. */
  lemma CanonicalIsInjective(a: Batch, b: Batch, suspicious: string -> bool)
    requires ValidBatch(a, Proper(suspicious)) && ValidBatch(b, Proper(suspicious))
    requires CanonicalText(a) == CanonicalText(b)
    ensures a == b
  {
    CanonicalReads(a, suspicious);
    CanonicalReads(b, suspicious);
    var s, t := RawsOf(a.first, TokensOf(a.pages)), RawsOf(b.first, TokensOf(b.pages));
    assert s[0] == t[0];
    assert a.pages == BatchOf(s, a.first, a.last).pages == BatchOf(t, b.first, b.last).pages == b.pages;
  }

  lemma CanonicalReads(batch: Batch, suspicious: string -> bool)
    requires ValidBatch(batch, Proper(suspicious))
    ensures var raws := RawsOf(batch.first, TokensOf(batch.pages));
            && ReadBatch(CanonicalText(batch)) == Some(raws) && Clean(raws)
            && BatchOf(raws, batch.first, batch.last) == batch
  {
    CanonicalWrites(batch, suspicious);
    var texts := TokensOf(batch.pages);
    forall i | 0 <= i < |texts| ensures JsonTokens(texts[i]) {
      assert WellWritten(texts[i]);
    }
    ReadBatchText(batch.first, texts);
    RawsMakeBatch(batch, texts);
  }

  // ----- A batch whose canonical form is refused ----------------------------------------------

  function Repeated(c: char, n: nat): string {
    seq(n, _ => c)
  }

  /** Every `<` is printed as six bytes. */
  lemma {:induction false} MarkupTokens(n: nat)
    ensures |TokensText(TextTokens(Repeated('<', n)))| == 6 * n
  {
    var s := Repeated('<', n);
    if n > 0 {
      assert s[0] == '<' && s[1..] == Repeated('<', n - 1);
      MarkupTokens(n - 1);
      var t := AsciiToken('<');
      assert TextTokens(s) == [t] + TextTokens(s[1..]) by {
        assert Utf8.RuneWidth(s) == 1 && s[..1] == ['<'];
      }
      assert ([t] + TextTokens(s[1..]))[1..] == TextTokens(s[1..]);
    }
  }

  lemma MarkupPlains(n: nat)
    ensures WellWritten(Plains(Repeated('<', n))) && Decoded(Plains(Repeated('<', n))) == Repeated('<', n)
  {
    var s := Repeated('<', n);
    FlatPlains(s, TokenText);
    FlatPlains(s, Written);
    Utf8.AsciiIsValid(s);
    SimpleDecoded(Plains(s));
  }

  lemma FieldsSize(number: nat, tokens: seq<Token>, rest: string)
    ensures |FieldsText(number, tokens, rest)| == 34 + |Dec(number)| + |TokensText(tokens)| + |rest|
  {
    ClosedText(tokens, EndText(rest));
  }

  lemma OnePageSize(tokens: seq<Token>)
    ensures |BatchText(1, [tokens])| == 48 + |TokensText(tokens)|
  {
    FieldsSize(1, tokens, "]" + "}");
    assert AfterFirst(1, [tokens]) == "]" + "}";
    assert |PagesText(1, [tokens])| == 1 + |FieldsText(1, tokens, "]" + "}")|;
    assert |Dec(1)| == 1;
  }

  function MarkupBatch(n: nat): Batch {
    Batch(1, 1, [Page(1, Repeated('<', n))])
  }

  lemma MarkupIsValid(n: nat, suspicious: string -> bool)
    requires 0 < n <= MAX_PAGE_BYTES && !suspicious(Repeated('<', n))
    ensures ValidBatch(MarkupBatch(n), Proper(suspicious))
  {
    var s := Repeated('<', n);
    Utf8.AsciiIsValid(s);
    assert s[0] == '<' && !Blank(s);
    var pages := MarkupBatch(n).pages;
    assert TextBytes(pages, 1) == TextBytes(pages, 0) + |pages[0].text|;
  }

  /** A page of `n` opening angle brackets is accepted as written, but its canonical form is accepted
      only up to 10914 of them. */
  lemma CanonicalMayBeRefused(n: nat, suspicious: string -> bool)
    requires 0 < n <= MAX_PAGE_BYTES && !suspicious(Repeated('<', n))
    ensures var batch := MarkupBatch(n);
            && Validated(BatchText(1, [Plains(Repeated('<', n))]), 1, 1, suspicious) == Some(batch)
            && Validated(CanonicalText(batch), 1, 1, suspicious) == if n <= 10914 then Some(batch) else None
  {
    var s, batch := Repeated('<', n), MarkupBatch(n);
    MarkupIsValid(n, suspicious);
    MarkupPlains(n);
    OnePageSize(Plains(s));
    FlatPlains(s, Written);
    AnyWritingIsAccepted(batch, [Plains(s)], suspicious);
    MarkupCanonical(n, suspicious);
    AnyWritingIsAccepted(batch, TokensOf(batch.pages), suspicious);
  }

  lemma MarkupCanonical(n: nat, suspicious: string -> bool)
    requires ValidBatch(MarkupBatch(n), Proper(suspicious))
    ensures var batch := MarkupBatch(n);
            Writes(TokensOf(batch.pages), batch.pages) && |CanonicalText(batch)| == 48 + 6 * n
  {
    var batch := MarkupBatch(n);
    CanonicalWrites(batch, suspicious);
    var tokens := TextTokens(batch.pages[0].text);
    assert TokensOf(batch.pages) == [tokens];
    OnePageSize(tokens);
    MarkupTokens(n);
  }
}
