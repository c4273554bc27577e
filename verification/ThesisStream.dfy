/** Decoding an agent's answer while it is still being written. A character is its code
    point. */
module ThesisStream {
  import opened Wrappers

  const QUOTE := 0x22
  const BACKSLASH := 0x5C
  const SLASH := 0x2F
  const LETTER_U := 0x75
  const COLON := 0x3A

  /** How four characters that are not all hexadecimal digits read as a base-16 number. */
  type Lenient = seq<int> -> Option<int>

  // ----- the body of a string

  function HexDigit(c: int): Option<int> {
    if 0x30 <= c <= 0x39 then Some(c - 0x30)
    else if 0x41 <= c <= 0x46 then Some(c - 0x41 + 10)
    else if 0x61 <= c <= 0x66 then Some(c - 0x61 + 10)
    else None
  }

  predicate FourDigits(s: seq<int>) {
    |s| == 4 && forall k :: 0 <= k < 4 ==> HexDigit(s[k]).Some?
  }

  function FourValue(s: seq<int>): int
    requires FourDigits(s)
  {
    ((HexDigit(s[0]).value * 16 + HexDigit(s[1]).value) * 16 + HexDigit(s[2]).value) * 16 + HexDigit(s[3]).value
  }

  function CodeOf(s: seq<int>, lenient: Lenient): Option<int> {
    if FourDigits(s) then Some(FourValue(s)) else lenient(s)
  }

  /** What follows the backslash of a two-character escape; an unknown one stands for itself. */
  function Unescaped(c: int): int {
    if c == 0x62 then 0x08
    else if c == 0x66 then 0x0C
    else if c == 0x6E then 0x0A
    else if c == 0x72 then 0x0D
    else if c == 0x74 then 0x09
    else c
  }

  /** The characters of the string body that `s` begins with, as far as they have arrived. */
  function Body(s: seq<int>, lenient: Lenient): seq<int> {
    if s == [] || s[0] == QUOTE then []
    else if s[0] != BACKSLASH then [s[0]] + Body(s[1..], lenient)
    else if |s| < 2 then []
    else if s[1] != LETTER_U then [Unescaped(s[1])] + Body(s[2..], lenient)
    else if |s| < 6 then []
    else
      match CodeOf(s[2..6], lenient)
      case None => []
      case Some(code) => [code] + Body(s[6..], lenient)
  }

  /** The part of `buf` from `i` on. */
  function From(buf: seq<int>, i: nat, lenient: Lenient): seq<int>
    requires i <= |buf|
  {
    Body(buf[i..], lenient)
  }

  /** How much of the buffer the next character takes, if it has arrived, and the character. */
  function NextChar(buf: seq<int>, i: nat, lenient: Lenient): Option<(nat, int)>
    requires i <= |buf|
  {
    if i == |buf| || buf[i] == QUOTE then None
    else if buf[i] != BACKSLASH then Some((1, buf[i]))
    else if i + 1 >= |buf| then None
    else if buf[i + 1] != LETTER_U then Some((2, Unescaped(buf[i + 1])))
    else if i + 6 > |buf| then None
    else
      match CodeOf(buf[i + 2..i + 6], lenient)
      case None => None
      case Some(code) => Some((6, code))
  }

  lemma NextOfBody(buf: seq<int>, i: nat, lenient: Lenient)
    requires i <= |buf|
    ensures var next := NextChar(buf, i, lenient);
            && (next.Some? ==> i + next.value.0 <= |buf|
                               && From(buf, i, lenient) == [next.value.1] + From(buf, i + next.value.0, lenient))
            && (next.None? ==> From(buf, i, lenient) == [])
  {
    var rest := buf[i..];
    if i + 1 <= |buf| {
      assert rest[1..] == buf[i + 1..];
    }
    if i + 2 <= |buf| {
      assert rest[2..] == buf[i + 2..];
    }
    if i + 6 <= |buf| {
      assert rest[2..6] == buf[i + 2..i + 6] && rest[6..] == buf[i + 6..];
    }
  }

  method PartialString(buf: seq<int>, start: nat, lenient: Lenient) returns (text: seq<int>)
    requires start <= |buf|
    ensures text == Body(buf[start..], lenient)
  {
    hide Body, Unescaped, CodeOf;
    text := [];
    var i, n := start, |buf|;
    ghost var whole := From(buf, start, lenient);
    while i < n
      invariant start <= i <= n && text + From(buf, i, lenient) == whole
      decreases n - i
    {
      NextOfBody(buf, i, lenient);
      ghost var rest := From(buf, i, lenient);
      if buf[i] == QUOTE {
        break;
      }
      if buf[i] != BACKSLASH {
        text, i := text + [buf[i]], i + 1;
        continue;
      }
      if i + 1 >= n {
        break;
      }
      var escape := buf[i + 1];
      if escape == LETTER_U {
        if i + 6 > n {
          break;
        }
        var code := CodeOf(buf[i + 2..i + 6], lenient);
        if code.None? {
          break;
        }
        text, i := text + [code.value], i + 6;
        continue;
      }
      text, i := text + [Unescaped(escape)], i + 2;
    }
    NextOfBody(buf, i, lenient);
  }

  // ----- more text only adds characters

  /** A character that has arrived stays the first one. */
  lemma FirstStays(s: seq<int>, more: seq<int>, lenient: Lenient)
    requires NextChar(s, 0, lenient).Some?
    ensures NextChar(s + more, 0, lenient) == NextChar(s, 0, lenient)
    ensures 0 < NextChar(s, 0, lenient).value.0 <= |s|
    ensures (s + more)[NextChar(s, 0, lenient).value.0..] == s[NextChar(s, 0, lenient).value.0..] + more
  {
    hide CodeOf, Unescaped;
    assert |s| >= 6 ==> (s + more)[2..6] == s[2..6];
  }

  /** What has been decoded stays decoded, whatever arrives next. */
  lemma {:induction false} BodyOnlyGrows(s: seq<int>, more: seq<int>, lenient: Lenient)
    ensures Body(s, lenient) <= Body(s + more, lenient)
    decreases |s|
  {
    hide Body, NextChar;
    NextOfBody(s, 0, lenient);
    assert s[0..] == s && (s + more)[0..] == s + more;
    if NextChar(s, 0, lenient).Some? {
      NextOfBody(s + more, 0, lenient);
      FirstStays(s, more, lenient);
      BodyOnlyGrows(s[NextChar(s, 0, lenient).value.0..], more, lenient);
    }
  }

  // ----- what a writer may have meant: section 7 of RFC 8259

  /** One character as a JSON writer may put it: itself, a two-character escape, or the four
      digits of its code in the basic plane. */
  datatype Piece = Plain(c: int) | Short(letter: int) | Unicode(digits: seq<int>) {
    predicate Valid() {
      match this
      case Plain(c) => c >= 0x20 && c != QUOTE && c != BACKSLASH
      case Short(letter) =>
        letter == QUOTE || letter == BACKSLASH || letter == SLASH || letter == 0x62 || letter == 0x66
        || letter == 0x6E || letter == 0x72 || letter == 0x74
      case Unicode(digits) => FourDigits(digits)
    }

    function Text(): seq<int> {
      match this
      case Plain(c) => [c]
      case Short(letter) => [BACKSLASH, letter]
      case Unicode(digits) => [BACKSLASH, LETTER_U] + digits
    }

    function Meaning(): int
      requires Valid()
    {
      match this
      case Plain(c) => c
      case Short(letter) => Unescaped(letter)
      case Unicode(digits) => FourValue(digits)
    }
  }

  predicate AllValid(pieces: seq<Piece>) {
    forall k :: 0 <= k < |pieces| ==> pieces[k].Valid()
  }

  function Written(pieces: seq<Piece>): seq<int> {
    if pieces == [] then [] else pieces[0].Text() + Written(pieces[1..])
  }

  function Meant(pieces: seq<Piece>): seq<int>
    requires AllValid(pieces)
  {
    if pieces == [] then [] else [pieces[0].Meaning()] + Meant(pieces[1..])
  }

  lemma BodyOfPiece(p: Piece, rest: seq<int>, lenient: Lenient)
    requires p.Valid()
    ensures Body(p.Text() + rest, lenient) == [p.Meaning()] + Body(rest, lenient)
  {
    var s := p.Text() + rest;
    match p
    case Plain(c) => assert s[1..] == rest;
    case Short(letter) => assert s[2..] == rest;
    case Unicode(digits) => assert s[2..6] == digits && s[6..] == rest;
  }

  /** However its characters were escaped, a written and closed string decodes to what was
      meant, and nothing after its closing quote matters. */
  lemma {:induction false} ClosedStringDecodes(pieces: seq<Piece>, rest: seq<int>, lenient: Lenient)
    requires AllValid(pieces)
    ensures Body(Written(pieces) + [QUOTE] + rest, lenient) == Meant(pieces)
    decreases |pieces|
  {
    if pieces == [] {
      assert (Written(pieces) + [QUOTE] + rest)[0] == QUOTE;
    } else {
      var tail := Written(pieces[1..]) + [QUOTE] + rest;
      ClosedStringDecodes(pieces[1..], rest, lenient);
      BodyOfPiece(pieces[0], tail, lenient);
      assert Written(pieces) + [QUOTE] + rest == pieces[0].Text() + tail;
    }
  }

  /** The eight two-character escapes of RFC 8259, and any other letter for itself. */
  lemma EscapesMean(letter: int)
    ensures Short('b' as int).Meaning() == '\U{8}' as int && Short('f' as int).Meaning() == '\U{C}' as int
    ensures Short('n' as int).Meaning() == '\n' as int && Short('r' as int).Meaning() == '\r' as int
    ensures Short('t' as int).Meaning() == '\t' as int && Short('/' as int).Meaning() == '/' as int
    ensures Short('"' as int).Meaning() == '"' as int && Short('\\' as int).Meaning() == '\\' as int
    ensures letter !in ['b' as int, 'f' as int, 'n' as int, 'r' as int, 't' as int] ==> Unescaped(letter) == letter
  {
  }

  // ----- characters beyond the basic plane

  predicate HighHalf(unit: int) {
    0xD800 <= unit <= 0xDBFF
  }

  predicate LowHalf(unit: int) {
    0xDC00 <= unit <= 0xDFFF
  }

  /** The character that two surrogates stand for. */
  function Joined(high: int, low: int): int {
    0x10000 + (high - 0xD800) * 0x400 + (low - 0xDC00)
  }

  /** The characters that a string's units spell, a high half and the low half after it being one. */
  function Chars(units: seq<int>): seq<int> {
    if units == [] then []
    else if |units| >= 2 && HighHalf(units[0]) && LowHalf(units[1]) then
      [Joined(units[0], units[1])] + Chars(units[2..])
    else [units[0]] + Chars(units[1..])
  }

  predicate NoPair(units: seq<int>) {
    forall k :: 0 <= k < |units| - 1 ==> HighHalf(units[k]) ==> !LowHalf(units[k + 1])
  }

  lemma {:induction false} CharsAreFewer(units: seq<int>)
    ensures |Chars(units)| <= |units|
    decreases |units|
  {
    if |units| >= 2 && HighHalf(units[0]) && LowHalf(units[1]) {
      CharsAreFewer(units[2..]);
    } else if units != [] {
      CharsAreFewer(units[1..]);
    }
  }

  lemma {:induction false} UnitsAreCharsIff(units: seq<int>)
    ensures Chars(units) == units <==> NoPair(units)
    decreases |units|
  {
    if |units| >= 2 && HighHalf(units[0]) && LowHalf(units[1]) {
      CharsAreFewer(units[2..]);
      assert !NoPair(units);
    } else if units != [] {
      var rest := units[1..];
      UnitsAreCharsIff(rest);
      assert units == [units[0]] + rest;
      assert Chars(units) == units <==> Chars(rest) == rest by {
        if Chars(units) == units {
          assert ([units[0]] + Chars(rest))[1..] == Chars(rest);
        }
      }
      assert NoPair(units) <==> NoPair(rest) by {
        assert forall k :: 0 <= k < |rest| ==> rest[k] == units[k + 1];
        assert forall k :: 1 <= k < |units| ==> units[k] == rest[k - 1];
      }
    }
  }

  /** A closed string decodes to the characters its writer meant if and only if no two of its units
      are the halves of one character. */
  lemma DecodesToItsCharsIff(pieces: seq<Piece>, rest: seq<int>, lenient: Lenient)
    requires AllValid(pieces)
    ensures Body(Written(pieces) + [QUOTE] + rest, lenient) == Chars(Meant(pieces)) <==> NoPair(Meant(pieces))
  {
    ClosedStringDecodes(pieces, rest, lenient);
    UnitsAreCharsIff(Meant(pieces));
  }

  /** U+1F600 as its two escaped halves. */
  function EscapedPair(): (pair: seq<Piece>)
    ensures AllValid(pair) && Meant(pair) == [0xD83D, 0xDE00]
  {
    var high, low := Unicode([0x44, 0x38, 0x33, 0x44]), Unicode([0x44, 0x45, 0x30, 0x30]);
    assert high.Meaning() == 0xD83D && low.Meaning() == 0xDE00;
    assert [high, low][1..] == [low] && [low][1..] == [];
    assert Meant([]) == [] && Meant([low]) == [0xDE00];
    [high, low]
  }

  /** It comes out as the halves and not as the character. */
  lemma EscapedPairsStayApart(rest: seq<int>, lenient: Lenient)
    ensures Body(Written(EscapedPair()) + [QUOTE] + rest, lenient) == [0xD83D, 0xDE00]
    ensures Chars(Meant(EscapedPair())) == [0x1F600]
  {
    hide EscapedPair, Body, Meant, Written;
    ClosedStringDecodes(EscapedPair(), rest, lenient);
    assert [0xD83D, 0xDE00][2..] == [];
  }

  // ----- where the thesis starts

  /** `"reasoning"`, quotes included. */
  const KEY := [0x22, 0x72, 0x65, 0x61, 0x73, 0x6F, 0x6E, 0x69, 0x6E, 0x67, 0x22]

  predicate Space(c: int) {
    || 0x09 <= c <= 0x0D || 0x1C <= c <= 0x20 || c == 0x85 || c == 0xA0 || c == 0x1680
    || 0x2000 <= c <= 0x200A || c == 0x2028 || c == 0x2029 || c == 0x202F || c == 0x205F || c == 0x3000
  }

  /** The first place at or after `i` that is not space. */
  function SkipSpace(buf: seq<int>, i: nat): (j: nat)
    requires i <= |buf|
    ensures i <= j <= |buf| && (j < |buf| ==> !Space(buf[j]))
    ensures forall k :: i <= k < j ==> Space(buf[k])
    decreases |buf| - i
  {
    if i < |buf| && Space(buf[i]) then SkipSpace(buf, i + 1) else i
  }

  /** Just past a key that starts at `i`, its colon and its opening quote. */
  function KeyEnd(buf: seq<int>, i: nat): (end: Option<nat>)
    requires i <= |buf|
    ensures end.Some? ==> i < end.value <= |buf|
  {
    if i + |KEY| > |buf| || buf[i..i + |KEY|] != KEY then None
    else
      var colon := SkipSpace(buf, i + |KEY|);
      if colon >= |buf| || buf[colon] != COLON then None
      else
        var quote := SkipSpace(buf, colon + 1);
        if quote >= |buf| || buf[quote] != QUOTE then None else Some(quote + 1)
  }

  /** The leftmost match at or after `i`. */
  function FindKey(buf: seq<int>, i: nat): (end: Option<nat>)
    requires i <= |buf|
    ensures end.Some? ==> end.value <= |buf|
    decreases |buf| - i
  {
    if KeyEnd(buf, i).Some? then KeyEnd(buf, i)
    else if i < |buf| then FindKey(buf, i + 1)
    else None
  }

  /** The thesis as far as it has arrived. */
  function Thesis(buf: seq<int>, lenient: Lenient): seq<int> {
    match FindKey(buf, 0)
    case None => []
    case Some(start) => Body(buf[start..], lenient)
  }

  class Stream {
    const lenient: Lenient
    var buf: seq<int>
    var thesis: seq<int>

    ghost predicate Valid()
      reads this
    {
      thesis == Thesis(buf, lenient)
    }

    constructor (lenient: Lenient)
      ensures buf == [] && thesis == [] && Valid() && this.lenient == lenient
    {
      this.lenient, buf, thesis := lenient, [], [];
    }

    /** The thesis depends on the text received and not on how it was cut, and only grows. */
    method Feed(text: seq<int>)
      requires Valid()
      modifies this
      ensures Valid() && buf == old(buf) + text && old(thesis) <= thesis
    {
      ThesisOnlyGrows(buf, text, lenient);
      buf := buf + text;
      var start := FindKey(buf, 0);
      if start.Some? {
        thesis := PartialString(buf, start.value, lenient);
      }
    }
  }

  // ----- the start does not move

  lemma {:induction false} SkipSpaceSettles(buf: seq<int>, more: seq<int>, i: nat)
    requires i <= |buf|
    ensures SkipSpace(buf, i) < |buf| ==> SkipSpace(buf + more, i) == SkipSpace(buf, i)
    decreases |buf| - i
  {
    if i < |buf| && Space(buf[i]) {
      SkipSpaceSettles(buf, more, i + 1);
    }
  }

  /** A match that is there stays where it is. */
  lemma KeyStays(buf: seq<int>, more: seq<int>, i: nat)
    requires i <= |buf| && KeyEnd(buf, i).Some?
    ensures KeyEnd(buf + more, i) == KeyEnd(buf, i)
  {
    assert (buf + more)[i..i + |KEY|] == buf[i..i + |KEY|];
    var colon := SkipSpace(buf, i + |KEY|);
    SkipSpaceSettles(buf, more, i + |KEY|);
    SkipSpaceSettles(buf, more, colon + 1);
  }

  lemma {:induction false} SkipsTo(buf: seq<int>, i: nat, j: nat)
    requires i <= j < |buf| && !Space(buf[j]) && forall k :: i <= k < j ==> Space(buf[k])
    ensures SkipSpace(buf, i) == j
    decreases j - i
  {
    if i < j {
      SkipsTo(buf, i + 1, j);
    }
  }

  lemma SkipStops(buf: seq<int>, i: nat, j: nat)
    requires i <= j < |buf| && !Space(buf[j])
    ensures SkipSpace(buf, i) <= j
  {
  }

  /** A match within the shorter text is a match of it. */
  lemma KeyWasThere(buf: seq<int>, more: seq<int>, i: nat)
    requires i <= |buf| && KeyEnd(buf + more, i).Some? && KeyEnd(buf + more, i).value <= |buf|
    ensures KeyEnd(buf, i) == KeyEnd(buf + more, i)
  {
    var whole := buf + more;
    var after := i + |KEY|;
    var colon := SkipSpace(whole, after);
    var quote := SkipSpace(whole, colon + 1);
    assert quote < |buf|;
    assert buf[i..after] == whole[i..after];
    assert forall k :: 0 <= k < |buf| ==> buf[k] == whole[k];
    SkipsTo(buf, after, colon);
    SkipsTo(buf, colon + 1, quote);
  }

  lemma KeyLetters(buf: seq<int>, i: nat, k: nat)
    requires i + |KEY| <= |buf| && buf[i..i + |KEY|] == KEY && k < |KEY|
    ensures buf[i + k] == KEY[k]
  {
    assert buf[i..i + |KEY|][k] == buf[i + k];
  }

  lemma LetterAfterKey(buf: seq<int>, i: nat)
    requires i + |KEY| < |buf| && buf[i + |KEY|] == 0x72
    ensures KeyEnd(buf, i).None?
  {
    SkipStops(buf, i + |KEY|, i + |KEY|);
  }

  /** No match runs past the start of a later one: it would meet that one's opening quote
      and the letter behind it. */
  lemma MatchesDoNotOverlap(buf: seq<int>, i: nat, j: nat)
    requires i < j && j + |KEY| <= |buf| && buf[j..j + |KEY|] == KEY
    ensures KeyEnd(buf, i).Some? ==> KeyEnd(buf, i).value <= j + 1
  {
    hide SkipSpace;
    KeyLetters(buf, j, 0);
    KeyLetters(buf, j, 1);
    if KeyEnd(buf, i).Some? {
      var after := i + |KEY|;
      if j < after {
        if j - i == 10 {
          LetterAfterKey(buf, i);
        } else {
          KeyLetters(buf, i, j - i);
        }
      } else {
        SkipStops(buf, after, j);
        SkipStops(buf, SkipSpace(buf, after) + 1, j);
      }
    }
  }

  /** A place before a match never gains one. */
  lemma NoEarlierKey(buf: seq<int>, more: seq<int>, i: nat, j: nat)
    requires i < j <= |buf| && KeyEnd(buf, i).None? && KeyEnd(buf, j).Some?
    ensures KeyEnd(buf + more, i).None?
  {
    assert (buf + more)[j..j + |KEY|] == buf[j..j + |KEY|];
    MatchesDoNotOverlap(buf + more, i, j);
    if KeyEnd(buf + more, i).Some? {
      KeyWasThere(buf, more, i);
      assert false;
    }
  }

  lemma {:induction false} FindsAt(buf: seq<int>, i: nat) returns (j: nat)
    requires i <= |buf| && FindKey(buf, i).Some?
    ensures i <= j <= |buf| && KeyEnd(buf, j) == FindKey(buf, i)
    ensures forall k :: i <= k < j ==> KeyEnd(buf, k).None?
    decreases |buf| - i
  {
    if KeyEnd(buf, i).Some? {
      j := i;
    } else {
      j := FindsAt(buf, i + 1);
    }
  }

  lemma {:induction false} FindsFirst(buf: seq<int>, i: nat, j: nat)
    requires i <= j <= |buf| && KeyEnd(buf, j).Some? && forall k :: i <= k < j ==> KeyEnd(buf, k).None?
    ensures FindKey(buf, i) == KeyEnd(buf, j)
    decreases j - i
  {
    if i < j {
      FindsFirst(buf, i + 1, j);
    }
  }

  /** Once the thesis has started, more text does not move its start. */
  lemma StartStays(buf: seq<int>, more: seq<int>)
    requires FindKey(buf, 0).Some?
    ensures FindKey(buf + more, 0) == FindKey(buf, 0)
  {
    var j := FindsAt(buf, 0);
    KeyStays(buf, more, j);
    forall k | 0 <= k < j ensures KeyEnd(buf + more, k).None? {
      NoEarlierKey(buf, more, k, j);
    }
    FindsFirst(buf + more, 0, j);
  }

  /** The thesis decoded from a text begins the thesis decoded from any longer one. */
  lemma ThesisOnlyGrows(buf: seq<int>, more: seq<int>, lenient: Lenient)
    ensures Thesis(buf, lenient) <= Thesis(buf + more, lenient)
  {
    hide FindKey, Body;
    var start := FindKey(buf, 0);
    if start.Some? {
      StartStays(buf, more);
      BodyOnlyGrows(buf[start.value..], more, lenient);
      assert (buf + more)[start.value..] == buf[start.value..] + more;
    }
  }

  // ----- a whole answer

  /** How an answer may open its thesis: the key, a colon and a quote, spaced at will. */
  function Opening(before: seq<int>, after: seq<int>): seq<int> {
    KEY + before + [COLON] + after + [QUOTE]
  }

  predicate AllSpace(s: seq<int>) {
    forall k :: 0 <= k < |s| ==> Space(s[k])
  }

  lemma {:induction false} NoneFound(buf: seq<int>, i: nat, k: nat)
    requires i <= k <= |buf| && FindKey(buf, i).None?
    ensures KeyEnd(buf, k).None?
    decreases k - i
  {
    if i < k {
      NoneFound(buf, i + 1, k);
    }
  }

  lemma KeyEndsAt(buf: seq<int>, i: nat, colon: nat, quote: nat)
    requires i + |KEY| <= colon < quote < |buf| && buf[i..i + |KEY|] == KEY
    requires AllSpace(buf[i + |KEY|..colon]) && buf[colon] == COLON
    requires AllSpace(buf[colon + 1..quote]) && buf[quote] == QUOTE
    ensures KeyEnd(buf, i) == Some(quote + 1)
  {
    hide SkipSpace, Space;
    NoSpaceAt(buf, i + |KEY|, colon);
    NoSpaceAt(buf, colon + 1, quote);
  }

  lemma NoSpaceAt(buf: seq<int>, from: nat, to: nat)
    requires from <= to < |buf| && AllSpace(buf[from..to]) && (buf[to] == COLON || buf[to] == QUOTE)
    ensures SkipSpace(buf, from) == to
  {
    forall k | from <= k < to ensures Space(buf[k]) {
      assert buf[from..to][k - from] == buf[k];
    }
    SkipsTo(buf, from, to);
  }

  lemma OpeningParts(pre: seq<int>, before: seq<int>, after: seq<int>, rest: seq<int>)
    ensures var buf := pre + Opening(before, after) + rest;
            var key, colon := |pre| + |KEY|, |pre| + |KEY| + |before|;
            var quote := colon + 1 + |after|;
            && quote < |buf| && quote + 1 == |pre| + |Opening(before, after)|
            && buf[|pre|..key] == KEY && buf[key..colon] == before && buf[colon] == COLON
            && buf[colon + 1..quote] == after && buf[quote] == QUOTE
  {
  }

  lemma OpeningIsFound(pre: seq<int>, before: seq<int>, after: seq<int>, rest: seq<int>)
    requires AllSpace(before) && AllSpace(after)
    ensures var opening := Opening(before, after);
            KeyEnd(pre + opening + rest, |pre|) == Some(|pre| + |opening|)
  {
    hide KeyEnd, AllSpace, Opening;
    OpeningParts(pre, before, after, rest);
    var colon := |pre| + |KEY| + |before|;
    KeyEndsAt(pre + Opening(before, after) + rest, |pre|, colon, colon + 1 + |after|);
  }

  /** An answer in which nothing opens a thesis before its own does decodes to what was meant,
      however it was spaced and its characters escaped, and whatever follows. */
  lemma AnswerDecodes(
    pre: seq<int>, before: seq<int>, after: seq<int>, pieces: seq<Piece>, rest: seq<int>, lenient: Lenient)
    requires FindKey(pre + [QUOTE], 0).None? && AllSpace(before) && AllSpace(after) && AllValid(pieces)
    ensures Thesis(pre + Opening(before, after) + (Written(pieces) + [QUOTE] + rest), lenient) == Meant(pieces)
  {
    var opening, body := Opening(before, after), Written(pieces) + [QUOTE] + rest;
    var buf := pre + opening + body;
    OpeningIsFound(pre, before, after, body);
    assert buf[|pre|..|pre| + |KEY|] == KEY;
    hide Body, KeyEnd, FindKey, Written, Meant;
    forall k | 0 <= k < |pre| ensures KeyEnd(buf, k).None? {
      NothingOpensBefore(pre, buf, k);
    }
    FindsFirst(buf, 0, |pre|);
    assert buf[|pre| + |opening|..] == body;
    ClosedStringDecodes(pieces, rest, lenient);
  }

  lemma NothingOpensBefore(pre: seq<int>, buf: seq<int>, k: nat)
    requires k < |pre| && FindKey(pre + [QUOTE], 0).None?
    requires |pre| + |KEY| <= |buf| && buf[..|pre|] == pre && buf[|pre|..|pre| + |KEY|] == KEY
    ensures KeyEnd(buf, k).None?
  {
    hide KeyEnd, FindKey;
    var front, more := pre + [QUOTE], buf[|pre| + 1..];
    KeyLetters(buf, |pre|, 0);
    assert buf == front + more;
    NoneFound(front, 0, k);
    MatchesDoNotOverlap(buf, k, |pre|);
    if KeyEnd(buf, k).Some? {
      KeyWasThere(front, more, k);
      assert false;
    }
  }
}
