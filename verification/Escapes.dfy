/** Two scanners for JSON unicode escapes (section 7 of RFC 8259): one tokenizes forwards, the other
    looks at every backslash-u and counts the backslashes before it. */
module Escapes {
  import opened Common

  predicate IsHex(c: char) {
    '0' <= c <= '9' || 'a' <= c <= 'f' || 'A' <= c <= 'F'
  }

  function HexValue(c: char): (v: nat)
    requires IsHex(c)
    ensures v < 16
  {
    if c <= '9' then c as int - '0' as int
    else if c <= 'F' then c as int - 'A' as int + 10
    else c as int - 'a' as int + 10
  }

  predicate IsCodeUnit(s: string) {
    |s| >= 4 && IsHex(s[0]) && IsHex(s[1]) && IsHex(s[2]) && IsHex(s[3])
  }

  /** The value of the four hexadecimal digits that `s` starts with. */
  function CodeUnit(s: string): nat
    requires IsCodeUnit(s)
  {
    ((HexValue(s[0]) * 16 + HexValue(s[1])) * 16 + HexValue(s[2])) * 16 + HexValue(s[3])
  }

  predicate IsHigh(v: int) { 0xD800 <= v <= 0xDBFF }

  predicate IsLow(v: int) { 0xDC00 <= v <= 0xDFFF }

  predicate StartsUnicode(s: string) {
    |s| >= 2 && s[0] == '\\' && s[1] == 'u'
  }

  predicate StartsLow(s: string) {
    |s| >= 6 && StartsUnicode(s) && IsCodeUnit(s[2..]) && IsLow(CodeUnit(s[2..]))
  }

  // ----- The forward scanner ------------------------------------------------------------------

  predicate OutsideString(s: string)
    decreases |s|
  {
    s == "" || (if s[0] == '"' then InsideString(s[1..]) else OutsideString(s[1..]))
  }

  predicate InsideString(s: string)
    decreases |s|
  {
    if s == "" then false
    else if s[0] == '"' then OutsideString(s[1..])
    else if s[0] != '\\' then InsideString(s[1..])
    else if |s| < 2 then false
    else if s[1] != 'u' then InsideString(s[2..])
    else if !IsCodeUnit(s[2..]) || IsLow(CodeUnit(s[2..])) then false
    else if IsHigh(CodeUnit(s[2..])) then StartsLow(s[6..]) && InsideString(s[12..])
    else InsideString(s[6..])
  }

  /** The value of the first `k` of the digits, or none when one of them is not a digit. */
  function Digits(s: string, k: nat): Option<nat>
    requires k <= |s|
  {
    if k == 0 then Some(0)
    else
      var v := Digits(s, k - 1);
      if v.None? || !IsHex(s[k - 1]) then None else Some(v.value * 16 + HexValue(s[k - 1]))
  }

  lemma FourDigits(s: string)
    requires |s| >= 4
    ensures Digits(s, 4) == if IsCodeUnit(s) then Some(CodeUnit(s)) else None
  {
    assert Digits(s, 1) == if IsHex(s[0]) then Some(HexValue(s[0])) else None;
    assert Digits(s, 2) == if IsHex(s[0]) && IsHex(s[1]) then Some(HexValue(s[0]) * 16 + HexValue(s[1])) else None;
    assert Digits(s, 3) == if IsHex(s[0]) && IsHex(s[1]) && IsHex(s[2]) then Some((HexValue(s[0]) * 16 + HexValue(s[1])) * 16 + HexValue(s[2])) else None;
  }

  function CodeUnitAt(raw: string, start: nat): Option<nat>
    requires start <= |raw|
  {
    if IsCodeUnit(raw[start..]) then Some(CodeUnit(raw[start..])) else None
  }

  method ParseHexCodeUnit(raw: string, start: nat) returns (value: Option<nat>)
    requires start <= |raw|
    ensures value == CodeUnitAt(raw, start)
  {
    if start + 4 > |raw| {
      return None;
    }
    ghost var digits := raw[start..];
    FourDigits(digits);
    var v := 0;
    for k := 0 to 4
      invariant Digits(digits, k) == Some(v)
    {
      var c := raw[start + k];
      if !IsHex(c) {
        assert Digits(digits, k + 1) == None;
        NoneStays(digits, k + 1);
        return None;
      }
      v := v * 16 + HexValue(c);
    }
    value := Some(v);
  }

  lemma NoneStays(s: string, k: nat)
    requires k <= 4 <= |s| && Digits(s, k) == None
    ensures Digits(s, 4) == None
    decreases 4 - k
  {
    if k < 4 {
      NoneStays(s, k + 1);
    }
  }

  /** Being inside a string at `index`, in terms of positions. */
  lemma InsideAt(raw: string, index: nat)
    requires index < |raw|
    ensures InsideString(raw[index..]) <==>
            if raw[index] == '"' then OutsideString(raw[index + 1..])
            else if raw[index] != '\\' then InsideString(raw[index + 1..])
            else if index + 1 == |raw| then false
            else if raw[index + 1] != 'u' then InsideString(raw[index + 2..])
            else
              var unit := CodeUnitAt(raw, index + 2);
              if unit.None? || IsLow(unit.value) then false
              else if IsHigh(unit.value) then
                && index + 8 <= |raw| && raw[index + 6] == '\\' && raw[index + 7] == 'u'
                && CodeUnitAt(raw, index + 8).Some? && IsLow(CodeUnitAt(raw, index + 8).value)
                && InsideString(raw[index + 12..])
              else InsideString(raw[index + 6..])
  {
    var s := raw[index..];
    assert s[1..] == raw[index + 1..];
    if |s| >= 2 {
      assert s[2..] == raw[index + 2..];
      if |s| >= 6 {
        assert s[6..] == raw[index + 6..];
        if |s| >= 8 {
          assert s[6..][2..] == raw[index + 8..];
        }
        if |s| >= 12 {
          assert s[12..] == raw[index + 12..];
        }
      }
    }
  }

  /** Passes over a backslash-u and, after a high surrogate, over the low one that has to follow. */
  method PassUnicode(raw: string, start: nat) returns (next: Option<nat>)
    requires start + 1 < |raw| && raw[start] == '\\' && raw[start + 1] == 'u'
    ensures next.None? ==> !InsideString(raw[start..])
    ensures next.Some? ==> start < next.value <= |raw| && (InsideString(raw[start..]) <==> InsideString(raw[next.value..]))
  {
    InsideAt(raw, start);
    var unit := ParseHexCodeUnit(raw, start + 2);
    if unit.None? {
      return None;
    }
    var index := start + 6;
    if IsHigh(unit.value) {
      if index + 1 >= |raw| || raw[index] != '\\' || raw[index + 1] != 'u' {
        return None;
      }
      var low := ParseHexCodeUnit(raw, index + 2);
      if low.None? || !IsLow(low.value) {
        return None;
      }
      index := index + 6;
    } else if IsLow(unit.value) {
      return None;
    }
    next := Some(index);
  }

  /** From inside a string to its closing quote. */
  method ScanString(raw: string, start: nat) returns (end: Option<nat>)
    requires start <= |raw|
    ensures end.None? ==> !InsideString(raw[start..])
    ensures end.Some? ==> start <= end.value < |raw| && (InsideString(raw[start..]) <==> OutsideString(raw[end.value + 1..]))
  {
    var index := start;
    while index < |raw| && raw[index] != '"'
      invariant start <= index <= |raw|
      invariant InsideString(raw[start..]) <==> InsideString(raw[index..])
      decreases |raw| - index
    {
      InsideAt(raw, index);
      if raw[index] != '\\' {
        index := index + 1;
      } else if index + 1 >= |raw| {
        return None;
      } else if raw[index + 1] != 'u' {
        index := index + 2;
      } else {
        var next := PassUnicode(raw, index);
        if next.None? {
          return None;
        }
        index := next.value;
      }
    }
    if index >= |raw| {
      return None;
    }
    InsideAt(raw, index);
    end := Some(index);
  }

  method ValidJsonUnicodeEscapes(raw: string) returns (ok: bool)
    ensures ok <==> OutsideString(raw)
  {
    var index := 0;
    while index < |raw|
      invariant index <= |raw|
      invariant OutsideString(raw) <==> OutsideString(raw[index..])
    {
      assert raw[index..][1..] == raw[index + 1..];
      if raw[index] == '"' {
        var end := ScanString(raw, index + 1);
        if end.None? {
          return false;
        }
        index := end.value;
      }
      index := index + 1;
    }
    ok := true;
  }

  // ----- The scanner that looks back ----------------------------------------------------------

  /** The number of backslashes that end just before `index`. */
  function BackslashRun(data: string, index: nat): nat
    requires index <= |data|
  {
    if index == 0 || data[index - 1] != '\\' then 0 else 1 + BackslashRun(data, index - 1)
  }

  predicate Escaped(data: string, index: nat)
    requires index <= |data|
  {
    BackslashRun(data, index) % 2 == 1
  }

  predicate LooksBack(data: string, index: nat)
    requires index <= |data|
    decreases |data| - index
  {
    if index + 6 > |data| then true
    else if !StartsUnicode(data[index..]) || Escaped(data, index) || !IsCodeUnit(data[index + 2..]) then LooksBack(data, index + 1)
    else if IsHigh(CodeUnit(data[index + 2..])) then StartsLow(data[index + 6..]) && LooksBack(data, index + 12)
    else !IsLow(CodeUnit(data[index + 2..])) && LooksBack(data, index + 6)
  }

  method EscapedBackslash(data: string, index: nat) returns (odd: bool)
    requires index <= |data|
    ensures odd <==> Escaped(data, index)
  {
    var preceding: nat := 0;
    var i: nat := index;
    while i > 0 && data[i - 1] == '\\'
      invariant i <= index
      invariant BackslashRun(data, index) == preceding + BackslashRun(data, i)
    {
      preceding := preceding + 1;
      i := i - 1;
    }
    odd := preceding % 2 == 1;
  }

  method ValidateSurrogateEscapes(data: string) returns (ok: bool)
    ensures ok <==> LooksBack(data, 0)
  {
    var index := 0;
    while index + 6 <= |data|
      invariant index <= |data|
      invariant LooksBack(data, 0) <==> LooksBack(data, index)
      decreases |data| - index
    {
      var escaped := EscapedBackslash(data, index);
      if data[index] != '\\' || data[index + 1] != 'u' || escaped {
        index := index + 1;
        continue;
      }
      var value := ParseHexCodeUnit(data, index + 2);
      if value.None? {
        index := index + 1;
        continue;
      }
      if IsHigh(value.value) {
        if index + 12 > |data| || data[index + 6] != '\\' || data[index + 7] != 'u' {
          return false;
        }
        var low := ParseHexCodeUnit(data, index + 8);
        assert data[index + 6..][2..] == data[index + 8..];
        if low.None? || !IsLow(low.value) {
          return false;
        }
        index := index + 12;
        continue;
      }
      if IsLow(value.value) {
        return false;
      }
      index := index + 6;
    }
    ok := true;
  }

  /** Looking back needs only one bit: whether an odd run of backslashes ends just before `s`. */
  predicate LooksBackBit(s: string, odd: bool)
    decreases |s|
  {
    if |s| < 6 then true
    else if !StartsUnicode(s) || odd || !IsCodeUnit(s[2..]) then LooksBackBit(s[1..], s[0] == '\\' && !odd)
    else if IsHigh(CodeUnit(s[2..])) then StartsLow(s[6..]) && LooksBackBit(s[12..], false)
    else !IsLow(CodeUnit(s[2..])) && LooksBackBit(s[6..], false)
  }

  lemma {:induction false} LookBackIsOneBit(data: string, index: nat)
    requires index <= |data|
    ensures LooksBack(data, index) <==> LooksBackBit(data[index..], Escaped(data, index))
    decreases |data| - index
  {
    var s := data[index..];
    if |s| >= 6 {
      assert s[2..] == data[index + 2..];
      if !StartsUnicode(s) || Escaped(data, index) || !IsCodeUnit(s[2..]) {
        assert s[1..] == data[index + 1..];
        LookBackIsOneBit(data, index + 1);
      } else {
        assert s[6..] == data[index + 6..];
        assert IsHex(data[index + 5]) && !Escaped(data, index + 6) by { assert s[5] == data[index + 5]; }
        if IsHigh(CodeUnit(s[2..])) {
          if StartsLow(s[6..]) {
            assert s[12..] == data[index + 12..];
            assert data[index + 11] == s[6..][2..][3];
            assert !Escaped(data, index + 12);
            LookBackIsOneBit(data, index + 12);
          }
        } else {
          LookBackIsOneBit(data, index + 6);
        }
      }
    }
  }

  // ----- Texts made of strings and gaps -------------------------------------------------------

  datatype Token = Plain(c: char) | Escape(c: char) | Unicode(digits: string) {
    predicate Valid() {
      match this
      case Plain(c) => c != '"' && c != '\\'
      case Escape(c) => c != 'u'
      case Unicode(digits) => |digits| == 4 && IsCodeUnit(digits)
    }

    function Text(): string {
      match this
      case Plain(c) => [c]
      case Escape(c) => ['\\', c]
      case Unicode(digits) => ['\\', 'u'] + digits
    }

    predicate High() {
      Unicode? && Valid() && IsHigh(CodeUnit(digits))
    }

    predicate Low() {
      Unicode? && Valid() && IsLow(CodeUnit(digits))
    }
  }

  predicate ValidTokens(tokens: seq<Token>) {
    forall t | t in tokens :: t.Valid()
  }

  /** The tokens, the closing quote, and what follows the string. */
  function Closed(tokens: seq<Token>, rest: string): string {
    if tokens == [] then "\"" + rest else tokens[0].Text() + Closed(tokens[1..], rest)
  }

  lemma TokenFacts(t: Token, tail: string)
    requires t.Valid()
    ensures var s := t.Text() + tail;
            match t
            case Plain(c) => s[0] == c && s[1..] == tail
            case Escape(c) => s[0] == '\\' && s[1] == c && s[1..] == [c] + tail && s[2..] == tail
            case Unicode(digits) =>
              && |s| == 6 + |tail| && StartsUnicode(s) && s[6..] == tail
              && IsCodeUnit(s[2..]) && CodeUnit(s[2..]) == CodeUnit(digits)
  {
    if t.Unicode? {
      assert (t.Text() + tail)[2..] == t.digits + tail;
    }
  }

  /** Every high surrogate is followed by a low one, and every low surrogate follows a high one
      (an unpaired surrogate is what section 8.2 of RFC 8259 warns of). */
  predicate Paired(tokens: seq<Token>) {
    && (forall i | 0 <= i < |tokens| && tokens[i].High() :: i + 1 < |tokens| && tokens[i + 1].Low())
    && (forall i | 0 <= i < |tokens| && tokens[i].Low() :: 0 < i && tokens[i - 1].High())
  }

  /** The same, decided from the front. */
  predicate PairsUp(tokens: seq<Token>)
    decreases |tokens|
  {
    if tokens == [] then true
    else if tokens[0].High() then |tokens| >= 2 && tokens[1].Low() && PairsUp(tokens[2..])
    else !tokens[0].Low() && PairsUp(tokens[1..])
  }

  lemma {:induction false} PairsUpIsPaired(tokens: seq<Token>)
    requires PairsUp(tokens)
    ensures Paired(tokens)
    decreases |tokens|
  {
    if tokens != [] {
      var n := if tokens[0].High() then 2 else 1;
      PairsUpIsPaired(tokens[n..]);
      forall i | n <= i < |tokens|
        ensures tokens[i].High() ==> i + 1 < |tokens| && tokens[i + 1].Low()
        ensures tokens[i].Low() ==> tokens[i - 1].High()
      {
        assert tokens[i] == tokens[n..][i - n];
      }
    }
  }

  lemma {:induction false} PairedPairsUp(tokens: seq<Token>)
    requires Paired(tokens)
    ensures PairsUp(tokens)
    decreases |tokens|
  {
    if tokens != [] {
      var n := if tokens[0].High() then 2 else 1;
      var tail := tokens[n..];
      forall i | 0 <= i < |tail|
        ensures tail[i].High() ==> i + 1 < |tail| && tail[i + 1].Low()
        ensures tail[i].Low() ==> 0 < i && tail[i - 1].High()
      {
        assert tail[i] == tokens[i + n];
        assert tokens[i + n].Low() ==> tokens[i + n - 1].High();
        assert i == 0 ==> !tokens[n - 1].High();
      }
      PairedPairsUp(tail);
    }
  }

  lemma PairedFromFront(tokens: seq<Token>)
    ensures PairsUp(tokens) <==> Paired(tokens)
  {
    if PairsUp(tokens) {
      PairsUpIsPaired(tokens);
    }
    if Paired(tokens) {
      PairedPairsUp(tokens);
    }
  }

  datatype Piece = Gap(c: char) | Str(tokens: seq<Token>) {
    predicate Valid() {
      match this
      case Gap(c) => c != '"'
      case Str(tokens) => ValidTokens(tokens)
    }
  }

  function PiecesText(doc: seq<Piece>): string {
    if doc == [] then ""
    else
      match doc[0]
      case Gap(c) => [c] + PiecesText(doc[1..])
      case Str(tokens) => "\"" + Closed(tokens, PiecesText(doc[1..]))
  }

  predicate ValidDoc(doc: seq<Piece>) {
    forall p | p in doc :: p.Valid()
  }

  predicate PieceOk(p: Piece) {
    p.Str? ==> Paired(p.tokens)
  }

  predicate AllPaired(doc: seq<Piece>) {
    forall p | p in doc :: PieceOk(p)
  }

  predicate NoBackslashGap(doc: seq<Piece>) {
    forall p | p in doc && p.Gap? :: p.c != '\\'
  }

  lemma AllPairedCons(doc: seq<Piece>)
    requires doc != []
    ensures AllPaired(doc) <==> PieceOk(doc[0]) && AllPaired(doc[1..])
  {
    assert doc == [doc[0]] + doc[1..];
  }

  // ----- The forward scanner accepts exactly the paired texts ---------------------------------

  /** What follows starts with a low surrogate exactly when the next token is one. */
  lemma NextIsLow(tokens: seq<Token>, rest: string)
    requires ValidTokens(tokens)
    ensures StartsLow(Closed(tokens, rest)) <==> tokens != [] && tokens[0].Low()
  {
    if tokens != [] {
      TokenFacts(tokens[0], Closed(tokens[1..], rest));
    }
  }

  lemma {:induction false} ForwardTokens(tokens: seq<Token>, rest: string)
    requires ValidTokens(tokens)
    ensures InsideString(Closed(tokens, rest)) <==> PairsUp(tokens) && OutsideString(rest)
    decreases |tokens|
  {
    var s := Closed(tokens, rest);
    if tokens == [] {
      assert s[1..] == rest;
    } else {
      TokenFacts(tokens[0], Closed(tokens[1..], rest));
      ForwardTokens(tokens[1..], rest);
      if tokens[0].High() {
        ForwardPair(tokens, rest);
      }
    }
  }

  lemma {:induction false} ForwardPair(tokens: seq<Token>, rest: string)
    requires ValidTokens(tokens) && tokens != [] && tokens[0].High()
    ensures InsideString(Closed(tokens, rest)) <==> PairsUp(tokens) && OutsideString(rest)
    decreases |tokens|, 0
  {
    var s := Closed(tokens, rest);
    TokenFacts(tokens[0], Closed(tokens[1..], rest));
    NextIsLow(tokens[1..], rest);
    if |tokens| >= 2 && tokens[1].Low() {
      TokenFacts(tokens[1], Closed(tokens[2..], rest));
      assert tokens[1..][1..] == tokens[2..];
      assert s[12..] == s[6..][6..] == Closed(tokens[2..], rest);
      ForwardTokens(tokens[2..], rest);
    }
  }

  lemma {:induction false} ForwardDoc(doc: seq<Piece>)
    requires ValidDoc(doc)
    ensures OutsideString(PiecesText(doc)) <==> AllPaired(doc)
    decreases |doc|
  {
    if doc != [] {
      var rest := PiecesText(doc[1..]);
      assert doc[0] in doc && doc[0].Valid();
      ForwardDoc(doc[1..]);
      AllPairedCons(doc);
      match doc[0]
      case Gap(c) => assert ([c] + rest)[1..] == rest;
      case Str(tokens) =>
        assert ("\"" + Closed(tokens, rest))[1..] == Closed(tokens, rest);
        ForwardTokens(tokens, rest);
        PairedFromFront(tokens);
    }
  }

  /** Whatever the forward scanner accepts splits into gaps and well-formed strings. */
  lemma {:induction false} AcceptedInside(s: string) returns (tokens: seq<Token>, rest: string)
    requires InsideString(s)
    ensures ValidTokens(tokens) && s == Closed(tokens, rest) && OutsideString(rest) && |rest| < |s|
    decreases |s|
  {
    if s[0] == '"' {
      tokens, rest := [], s[1..];
    } else {
      var t := if s[0] != '\\' then Plain(s[0]) else if s[1] != 'u' then Escape(s[1]) else Unicode(s[2..6]);
      var n := |t.Text()|;
      assert s == t.Text() + s[n..];
      var more;
      if t.High() {
        more, rest := AcceptedPair(s);
      } else {
        more, rest := AcceptedInside(s[n..]);
      }
      tokens := [t] + more;
      assert tokens[1..] == more;
    }
  }

  lemma {:induction false} AcceptedPair(s: string) returns (tokens: seq<Token>, rest: string)
    requires InsideString(s) && |s| >= 6 && StartsUnicode(s) && IsCodeUnit(s[2..]) && IsHigh(CodeUnit(s[2..]))
    ensures ValidTokens(tokens) && s[6..] == Closed(tokens, rest) && OutsideString(rest) && |rest| < |s|
    decreases |s|, 0
  {
    var u := Unicode(s[8..12]);
    assert s[6..][2..] == s[8..] && IsCodeUnit(s[8..12]);
    var more;
    more, rest := AcceptedInside(s[12..]);
    assert s[6..] == u.Text() + s[12..];
    tokens := [u] + more;
    assert tokens[1..] == more;
  }

  lemma {:induction false} AcceptedOutside(s: string) returns (doc: seq<Piece>)
    requires OutsideString(s)
    ensures ValidDoc(doc) && s == PiecesText(doc)
    decreases |s|
  {
    if s == "" {
      doc := [];
    } else {
      var p, rest := Gap(s[0]), s[1..];
      if s[0] == '"' {
        var tokens;
        tokens, rest := AcceptedInside(s[1..]);
        p := Str(tokens);
      }
      var more := AcceptedOutside(rest);
      doc := [p] + more;
      assert doc[1..] == more;
    }
  }

  /** On every byte sequence: accepted exactly when it is made of gaps and well-paired JSON strings. */
  lemma ForwardAcceptsExactly(raw: string)
    ensures OutsideString(raw) <==> exists doc :: ValidDoc(doc) && PiecesText(doc) == raw && AllPaired(doc)
  {
    if OutsideString(raw) {
      var doc := AcceptedOutside(raw);
      ForwardDoc(doc);
    }
    forall doc | ValidDoc(doc) && PiecesText(doc) == raw && AllPaired(doc) ensures OutsideString(raw) {
      ForwardDoc(doc);
    }
  }

  // ----- The scanner that looks back agrees ---------------------------------------------------

  lemma {:induction false} BackTokens(tokens: seq<Token>, rest: string)
    requires ValidTokens(tokens)
    ensures LooksBackBit(Closed(tokens, rest), false) <==> PairsUp(tokens) && LooksBackBit(rest, false)
    decreases |tokens|
  {
    var s := Closed(tokens, rest);
    if tokens == [] {
      assert s[1..] == rest;
    } else {
      var tail := Closed(tokens[1..], rest);
      TokenFacts(tokens[0], tail);
      BackTokens(tokens[1..], rest);
      match tokens[0]
      case Plain(c) =>
      case Escape(c) => assert ([c] + tail)[1..] == tail;
      case Unicode(digits) =>
        if tokens[0].High() {
          BackPair(tokens, rest);
        }
    }
  }

  lemma {:induction false} BackPair(tokens: seq<Token>, rest: string)
    requires ValidTokens(tokens) && tokens != [] && tokens[0].High()
    ensures LooksBackBit(Closed(tokens, rest), false) <==> PairsUp(tokens) && LooksBackBit(rest, false)
    decreases |tokens|, 0
  {
    var s := Closed(tokens, rest);
    TokenFacts(tokens[0], Closed(tokens[1..], rest));
    NextIsLow(tokens[1..], rest);
    if |tokens| >= 2 && tokens[1].Low() {
      TokenFacts(tokens[1], Closed(tokens[2..], rest));
      assert tokens[1..][1..] == tokens[2..];
      assert s[12..] == s[6..][6..] == Closed(tokens[2..], rest);
      BackTokens(tokens[2..], rest);
    }
  }

  lemma {:induction false} BackDoc(doc: seq<Piece>)
    requires ValidDoc(doc) && NoBackslashGap(doc)
    ensures LooksBackBit(PiecesText(doc), false) <==> AllPaired(doc)
    decreases |doc|
  {
    if doc != [] {
      var rest := PiecesText(doc[1..]);
      assert doc[0] in doc && doc[0].Valid();
      BackDoc(doc[1..]);
      AllPairedCons(doc);
      match doc[0]
      case Gap(c) => assert ([c] + rest)[1..] == rest;
      case Str(tokens) =>
        assert ("\"" + Closed(tokens, rest))[1..] == Closed(tokens, rest);
        BackTokens(tokens, rest);
        PairedFromFront(tokens);
    }
  }

  /** On every text of well-formed strings and gaps without backslashes both scanners give the same
      answer, and it is whether every surrogate is paired. */
  lemma ScannersAgree(doc: seq<Piece>)
    requires ValidDoc(doc) && NoBackslashGap(doc)
    ensures LooksBack(PiecesText(doc), 0) <==> OutsideString(PiecesText(doc))
    ensures OutsideString(PiecesText(doc)) <==> AllPaired(doc)
  {
    ForwardDoc(doc);
    BackDoc(doc);
    LookBackIsOneBit(PiecesText(doc), 0);
    assert PiecesText(doc)[0..] == PiecesText(doc);
  }

  lemma {:induction false} NoQuotes(s: string)
    requires '"' !in s
    ensures OutsideString(s)
  {
    if s != "" {
      NoQuotes(s[1..]);
    }
  }

  /** Outside that domain they differ both ways: an unterminated string, and an escape outside strings. */
  lemma ScannersDiffer()
    ensures LooksBack("\"", 0) && !OutsideString("\"")
    ensures OutsideString("\\ud800") && !LooksBack("\\ud800", 0)
  {
    assert "\""[1..] == "";
    var s := "\\ud800";
    NoQuotes(s);
    assert s[0..] == s && s[2..] == "d800" && s[6..] == "";
    assert CodeUnit(s[2..]) == 0xD800;
  }
}
