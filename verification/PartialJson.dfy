/** The decoder that recovers text from an unfinished JSON string. */
module PartialJson {

  /* ---- JSON strings (section 7 of RFC 8259) ---- */

  /** One element of a JSON string: a character as it is, a two-character escape, or a \u escape. */
  datatype Token = Raw(c: char) | Short(letter: char) | Unicode(digits: string)

  const QUOTE := '\"'
  const BACKSLASH := '\\'

  predicate IsHex(c: char) {
    '0' <= c <= '9' || 'a' <= c <= 'f' || 'A' <= c <= 'F'
  }

  function HexValue(c: char): nat
    requires IsHex(c)
  {
    if '0' <= c <= '9' then (c as int) - ('0' as int)
    else if 'a' <= c <= 'f' then (c as int) - ('a' as int) + 10
    else (c as int) - ('A' as int) + 10
  }

  /** The letters of the two-character escapes. */
  predicate IsShort(c: char) {
    c in {QUOTE, BACKSLASH, '/', 'b', 'f', 'n', 'r', 't'}
  }

  predicate Legal(t: Token) {
    match t
    case Raw(c) => c as int >= 0x20 && c != QUOTE && c != BACKSLASH
    case Short(letter) => IsShort(letter)
    case Unicode(digits) => |digits| == 4 && forall d :: d in digits ==> IsHex(d)
  }

  predicate AllLegal(ts: seq<Token>) {
    forall i :: 0 <= i < |ts| ==> Legal(ts[i])
  }

  function SpellOne(t: Token): string {
    match t
    case Raw(c) => [c]
    case Short(letter) => [BACKSLASH, letter]
    case Unicode(digits) => [BACKSLASH, 'u'] + digits
  }

  function Spell(ts: seq<Token>): string {
    if ts == [] then "" else SpellOne(ts[0]) + Spell(ts[1..])
  }

  /** The character that a token other than a \u escape stands for. */
  function Value(t: Token): char
    requires !t.Unicode?
  {
    match t
    case Raw(c) => c
    case Short(letter) =>
      if letter == 'n' then '\n' else if letter == 'r' then '\r' else if letter == 't' then '\t'
      else if letter == 'b' then 8 as char else if letter == 'f' then 12 as char else letter
  }

  function Number(digits: string): nat
    requires |digits| == 4 && forall d :: d in digits ==> IsHex(d)
  {
    ((HexValue(digits[0]) * 16 + HexValue(digits[1])) * 16 + HexValue(digits[2])) * 16 + HexValue(digits[3])
  }

  /** The UTF-16 code units of a character: beyond the basic plane, a pair of surrogates. */
  function Units(c: char): (r: seq<nat>)
    ensures 1 <= |r| <= 2
  {
    var n := c as int;
    if n < 0x1_0000 then [n] else [0xD800 + (n - 0x1_0000) / 0x400, 0xDC00 + (n - 0x1_0000) % 0x400]
  }

  function Utf16(text: string): seq<nat> {
    if text == "" then [] else Units(text[0]) + Utf16(text[1..])
  }

  /** What a token denotes: a \u escape is one code unit, which may be half of a surrogate pair. */
  function Meaning(t: Token): seq<nat>
    requires Legal(t)
  {
    if t.Unicode? then [Number(t.digits)] else Units(Value(t))
  }

  /** The text that a JSON string denotes, in code units. */
  function Denoted(ts: seq<Token>): seq<nat>
    requires AllLegal(ts)
  {
    if ts == [] then [] else Meaning(ts[0]) + Denoted(ts[1..])
  }

  /* ---- the decoder ---- */

  /** What the decoder makes of an escaped character. */
  function Unescape(c: char): char {
    if c == 'n' then '\n' else if c == 't' then '\t' else if c == 'r' then '\r' else c
  }

  function DecodeFrom(s: string, index: nat): string
    requires index <= |s|
    decreases |s| - index
  {
    if index == |s| then ""
    else if s[index] == BACKSLASH && index + 1 < |s| then [Unescape(s[index + 1])] + DecodeFrom(s, index + 2)
    else if s[index] == QUOTE then ""
    else [s[index]] + DecodeFrom(s, index + 1)
  }

  function Decode(s: string): string {
    DecodeFrom(s, 0)
  }

  /** One turn of the loop. */
  lemma DecodeStep(s: string, index: nat, decoded: string)
    requires index < |s|
    ensures s[index] == BACKSLASH && index + 1 < |s| ==>
              decoded + DecodeFrom(s, index) == (decoded + [Unescape(s[index + 1])]) + DecodeFrom(s, index + 2)
    ensures !(s[index] == BACKSLASH && index + 1 < |s|) && s[index] == QUOTE ==>
              decoded + DecodeFrom(s, index) == decoded
    ensures !(s[index] == BACKSLASH && index + 1 < |s|) && s[index] != QUOTE ==>
              decoded + DecodeFrom(s, index) == (decoded + [s[index]]) + DecodeFrom(s, index + 1)
  {
  }

  lemma DecodeEnd(s: string, decoded: string)
    ensures decoded + DecodeFrom(s, |s|) == decoded && "" + DecodeFrom(s, 0) == Decode(s)
  {
  }

  /** The loop of the source. */
  method UnescapePartialJsonString(rawContent: string) returns (decoded: string)
    ensures decoded == Decode(rawContent)
  {
    hide DecodeFrom, Decode;
    decoded := "";
    var index := 0;
    DecodeEnd(rawContent, decoded);
    while index < |rawContent|
      invariant index <= |rawContent|
      invariant decoded + DecodeFrom(rawContent, index) == Decode(rawContent)
      decreases |rawContent| - index
    {
      var c := rawContent[index];
      DecodeStep(rawContent, index, decoded);
      if c == BACKSLASH && index + 1 < |rawContent| {
        var escaped := rawContent[index + 1];
        if escaped == 'n' {
          decoded := decoded + "\n";
        } else if escaped == 't' {
          decoded := decoded + "\t";
        } else if escaped == 'r' {
          decoded := decoded + "\r";
        } else if escaped == QUOTE {
          decoded := decoded + [QUOTE];
        } else if escaped == BACKSLASH {
          decoded := decoded + [BACKSLASH];
        } else {
          decoded := decoded + [escaped];
        }
        index := index + 2;
        continue;
      }
      if c == QUOTE {
        return;
      }
      decoded := decoded + [c];
      index := index + 1;
    }
    DecodeEnd(rawContent, decoded);
  }

  /* ---- decoding token by token ---- */

  lemma {:induction false} DecodeSuffix(s: string, index: nat)
    requires index <= |s|
    ensures DecodeFrom(s, index) == Decode(s[index..])
    decreases |s| - index
  {
    DecodeShift(s, index, 0);
  }

  lemma {:induction false} DecodeShift(s: string, index: nat, k: nat)
    requires index + k <= |s|
    ensures DecodeFrom(s, index + k) == DecodeFrom(s[index..], k)
    decreases |s| - index - k
  {
    hide Unescape;
    if index + k < |s| {
      assert s[index..][k] == s[index + k];
      DecodeShift(s, index, k + 1);
      if index + k + 1 < |s| {
        assert s[index..][k + 1] == s[index + k + 1];
        DecodeShift(s, index, k + 2);
      }
    }
  }

  lemma DecodeRaw(c: char, rest: string)
    requires c != QUOTE && c != BACKSLASH
    ensures Decode([c] + rest) == [c] + Decode(rest)
  {
    DecodeSuffix([c] + rest, 1);
    assert ([c] + rest)[1..] == rest;
  }

  lemma DecodeEscape(c: char, rest: string)
    ensures Decode([BACKSLASH, c] + rest) == [Unescape(c)] + Decode(rest)
  {
    DecodeSuffix([BACKSLASH, c] + rest, 2);
    assert ([BACKSLASH, c] + rest)[2..] == rest;
  }

  /** What the decoder makes of one token. */
  function Seen(t: Token): string {
    match t
    case Raw(c) => [c]
    case Short(letter) => [Unescape(letter)]
    case Unicode(digits) => "u" + digits
  }

  lemma {:induction false} DecodeDigits(digits: string, rest: string)
    requires forall d :: d in digits ==> IsHex(d)
    ensures Decode(digits + rest) == digits + Decode(rest)
  {
    if digits == "" {
      assert digits + rest == rest;
    } else {
      assert digits + rest == [digits[0]] + (digits[1..] + rest);
      assert IsHex(digits[0]);
      DecodeRaw(digits[0], digits[1..] + rest);
      DecodeDigits(digits[1..], rest);
    }
  }

  lemma DecodeToken(t: Token, rest: string)
    requires Legal(t)
    ensures Decode(SpellOne(t) + rest) == Seen(t) + Decode(rest)
  {
    match t
    case Raw(c) => DecodeRaw(c, rest);
    case Short(letter) => DecodeEscape(letter, rest);
    case Unicode(digits) =>
      assert SpellOne(t) + rest == [BACKSLASH, 'u'] + (digits + rest);
      DecodeEscape('u', digits + rest);
      DecodeDigits(digits, rest);
  }

  function SeenAll(ts: seq<Token>): string {
    if ts == [] then "" else Seen(ts[0]) + SeenAll(ts[1..])
  }

  lemma {:induction false} DecodeSpelling(ts: seq<Token>, rest: string)
    requires AllLegal(ts)
    ensures Decode(Spell(ts) + rest) == SeenAll(ts) + Decode(rest)
  {
    hide Decode, DecodeFrom, SpellOne, Seen, Legal;
    if ts == [] {
      assert Spell(ts) + rest == rest;
    } else {
      assert Spell(ts) + rest == SpellOne(ts[0]) + (Spell(ts[1..]) + rest);
      DecodeToken(ts[0], Spell(ts[1..]) + rest);
      DecodeSpelling(ts[1..], rest);
      assert (Seen(ts[0]) + SeenAll(ts[1..])) + Decode(rest) == Seen(ts[0]) + (SeenAll(ts[1..]) + Decode(rest));
    }
  }

  /* ---- when decoding is right ---- */

  /** The decoder knows every token but \b, \f and the \u escapes. */
  predicate Known(t: Token) {
    !t.Unicode? && t != Short('b') && t != Short('f')
  }

  predicate AllKnown(ts: seq<Token>) {
    forall i :: 0 <= i < |ts| ==> Known(ts[i])
  }

  lemma {:induction false} Utf16Append(a: string, b: string)
    ensures Utf16(a + b) == Utf16(a) + Utf16(b)
  {
    hide Units;
    if a == "" {
      assert a + b == b;
    } else {
      assert (a + b)[1..] == a[1..] + b;
      Utf16Append(a[1..], b);
    }
  }

  lemma {:induction false} Utf16Length(text: string)
    ensures |Utf16(text)| >= |text|
  {
    if text != "" { Utf16Length(text[1..]); }
  }

  lemma Utf16None()
    ensures Utf16("") == []
  {
  }

  lemma Utf16One(c: char)
    ensures Utf16([c]) == Units(c)
  {
    assert Utf16([c][1..]) == [];
  }

  /** The decoder never makes fewer code units of a token than it denotes, and the same only if it knows it. */
  lemma SeenToken(t: Token)
    requires Legal(t)
    ensures |Utf16(Seen(t))| >= |Meaning(t)|
    ensures Utf16(Seen(t)) == Meaning(t) <==> Known(t)
  {
    match t
    case Raw(c) => Utf16One(c);
    case Short(letter) => Utf16One(Unescape(letter));
    case Unicode(digits) => Utf16Length(Seen(t));
  }

  lemma {:induction false} SeenLength(ts: seq<Token>)
    requires AllLegal(ts)
    ensures |Utf16(SeenAll(ts))| >= |Denoted(ts)|
  {
    hide Utf16, Meaning, Seen, Legal;
    if ts == [] {
      Utf16None();
    } else {
      SeenToken(ts[0]);
      SeenLength(ts[1..]);
      Utf16Append(Seen(ts[0]), SeenAll(ts[1..]));
    }
  }

  lemma SameHalves(a: seq<nat>, a2: seq<nat>, b: seq<nat>, b2: seq<nat>)
    requires |a| >= |b| && |a2| >= |b2|
    ensures a + a2 == b + b2 <==> a == b && a2 == b2
  {
    if a + a2 == b + b2 {
      assert |a + a2| == |b + b2|;
      assert a == (a + a2)[..|a|] && b == (b + b2)[..|a|];
      assert a2 == (a + a2)[|a|..] && b2 == (b + b2)[|a|..];
    }
  }

  lemma {:induction false} SeenIffKnown(ts: seq<Token>)
    requires AllLegal(ts)
    ensures Utf16(SeenAll(ts)) == Denoted(ts) <==> AllKnown(ts)
  {
    hide Utf16, Meaning, Seen, Legal, Known;
    if ts == [] {
      Utf16None();
    } else {
      SeenToken(ts[0]);
      SeenLength(ts[1..]);
      SeenIffKnown(ts[1..]);
      Utf16Append(Seen(ts[0]), SeenAll(ts[1..]));
      SameHalves(Utf16(Seen(ts[0])), Utf16(SeenAll(ts[1..])), Meaning(ts[0]), Denoted(ts[1..]));
      assert AllKnown(ts) <==> Known(ts[0]) && AllKnown(ts[1..]) by { KnownStep(ts); }
    }
  }

  lemma KnownStep(ts: seq<Token>)
    requires ts != []
    ensures AllKnown(ts) <==> Known(ts[0]) && AllKnown(ts[1..])
  {
    assert ts == [ts[0]] + ts[1..];
  }

  /** The characters of known tokens. */
  function Values(ts: seq<Token>): (r: string)
    requires AllKnown(ts)
    ensures |r| == |ts|
    ensures forall i :: 0 <= i < |ts| ==> r[i] == Value(ts[i])
  {
    if ts == [] then "" else [Value(ts[0])] + Values(ts[1..])
  }

  lemma {:induction false} KnownSeen(ts: seq<Token>)
    requires AllLegal(ts) && AllKnown(ts)
    ensures SeenAll(ts) == Values(ts)
  {
    if ts != [] { KnownSeen(ts[1..]); }
  }

  lemma DecodeClosed(ts: seq<Token>, rest: string)
    requires AllLegal(ts)
    ensures Decode(Spell(ts) + [QUOTE] + rest) == SeenAll(ts)
  {
    assert Decode([QUOTE] + rest) == "";
    hide Decode, DecodeFrom, Spell, SeenAll, AllLegal;
    DecodeSpelling(ts, [QUOTE] + rest);
    assert Spell(ts) + [QUOTE] + rest == Spell(ts) + ([QUOTE] + rest);
    assert SeenAll(ts) + "" == SeenAll(ts);
  }

  /** Up to the closing quote, whatever follows it, the decoder gives back the text that a JSON string denotes
      exactly when the string uses none of \b, \f and \u; texts are compared by their UTF-16 code units. */
  lemma DecodesIffKnown(ts: seq<Token>, rest: string)
    requires AllLegal(ts)
    ensures Utf16(Decode(Spell(ts) + [QUOTE] + rest)) == Denoted(ts) <==> AllKnown(ts)
  {
    DecodeClosed(ts, rest);
    SeenIffKnown(ts);
  }

  /* ---- the usual encoder ---- */

  function HexDigit(n: nat): char
    requires n < 16
  {
    "0123456789abcdef"[n]
  }

  function Digits(n: nat): string
    requires n < 0x20
  {
    ['0', '0', HexDigit(n / 16), HexDigit(n % 16)]
  }

  /** Escapes what has to be escaped, briefly where JSON has a brief form. */
  function EncodeChar(c: char): Token {
    if c == QUOTE || c == BACKSLASH then Short(c)
    else if c == '\n' then Short('n')
    else if c == '\r' then Short('r')
    else if c == '\t' then Short('t')
    else if c as int == 8 then Short('b')
    else if c as int == 12 then Short('f')
    else if c as int < 0x20 then Unicode(Digits(c as int))
    else Raw(c)
  }

  function Encode(text: string): seq<Token> {
    seq(|text|, i requires 0 <= i < |text| => EncodeChar(text[i]))
  }

  predicate Printable(c: char) {
    c as int >= 0x20 || c == '\n' || c == '\r' || c == '\t'
  }

  lemma DigitsDenote(n: nat)
    requires n < 0x20
    ensures (forall x :: x in Digits(n) ==> IsHex(x)) && Number(Digits(n)) == n
  {
    var high, low := n / 16, n % 16;
    assert high < 2;
    assert HexValue(HexDigit(high)) == high;
    assert HexValue(HexDigit(low)) == low;
  }

  lemma EncodeCharFacts(c: char)
    ensures Legal(EncodeChar(c)) && Meaning(EncodeChar(c)) == Units(c)
    ensures Known(EncodeChar(c)) <==> Printable(c)
    ensures Printable(c) ==> !EncodeChar(c).Unicode? && Value(EncodeChar(c)) == c
  {
    if c as int < 0x20 { DigitsDenote(c as int); }
  }

  /** An encoded text is a legal JSON string that denotes the text. */
  lemma {:induction false} EncodeFacts(text: string)
    ensures AllLegal(Encode(text)) && Denoted(Encode(text)) == Utf16(text)
    ensures AllKnown(Encode(text)) <==> forall i :: 0 <= i < |text| ==> Printable(text[i])
    ensures AllKnown(Encode(text)) ==> Values(Encode(text)) == text
  {
    hide Meaning, Units, Value, EncodeChar, Printable, Legal, Known;
    forall i | 0 <= i < |text|
      ensures Legal(Encode(text)[i])
      ensures Known(Encode(text)[i]) <==> Printable(text[i])
      ensures Printable(text[i]) ==> !Encode(text)[i].Unicode? && Value(Encode(text)[i]) == text[i]
    {
      EncodeCharFacts(text[i]);
    }
    if AllKnown(Encode(text)) {
      forall i | 0 <= i < |text| ensures Printable(text[i]) {
        assert Known(Encode(text)[i]);
      }
    }
    if text != "" {
      EncodeCharFacts(text[0]);
      EncodeFacts(text[1..]);
      assert Encode(text)[1..] == Encode(text[1..]);
    }
  }

  /** Round trip: the decoder inverts the encoder exactly on texts whose only control characters are line
      feed, carriage return and tab. */
  lemma RoundTripIffPrintable(text: string, rest: string)
    ensures Decode(Spell(Encode(text)) + [QUOTE] + rest) == text
       <==> forall i :: 0 <= i < |text| ==> Printable(text[i])
  {
    hide *;
    EncodeFacts(text);
    DecodesIffKnown(Encode(text), rest);
    DecodeClosed(Encode(text), rest);
    if AllKnown(Encode(text)) {
      KnownSeen(Encode(text));
    }
  }

  /* ---- unfinished strings ---- */

  /** A prefix of the original, with a backslash behind it if the text broke off inside an escape. */
  ghost predicate PrefixUpToBackslash(decoded: string, original: string) {
    || decoded <= original
    || (decoded != "" && decoded[|decoded| - 1] == BACKSLASH && decoded[..|decoded| - 1] <= original)
  }

  lemma {:induction false} TruncatedSpelling(ts: seq<Token>, k: nat)
    requires AllLegal(ts) && AllKnown(ts) && k <= |Spell(ts)|
    ensures PrefixUpToBackslash(Decode(Spell(ts)[..k]), Values(ts))
  {
    if ts == [] || k == 0 {
      assert Spell(ts)[..k] == "";
    } else {
      var one, rest := SpellOne(ts[0]), ts[1..];
      if k < |one| {
        assert k == 1 && one[0] == BACKSLASH;
        assert Spell(ts)[..k] == [BACKSLASH];
        assert Decode([BACKSLASH]) == [BACKSLASH] + DecodeFrom([BACKSLASH], 1);
      } else {
        assert Spell(ts)[..k] == one + Spell(rest)[..k - |one|];
        DecodeToken(ts[0], Spell(rest)[..k - |one|]);
        TruncatedSpelling(rest, k - |one|);
        FrontPrefix(Value(ts[0]), Decode(Spell(rest)[..k - |one|]), Values(rest));
      }
    }
  }

  lemma FrontPrefix(c: char, decoded: string, original: string)
    requires PrefixUpToBackslash(decoded, original)
    ensures PrefixUpToBackslash([c] + decoded, [c] + original)
  {
    if !(decoded <= original) {
      var all := [c] + decoded;
      assert all[..|all| - 1] == [c] + decoded[..|decoded| - 1];
    }
  }

  /** Cut anywhere, an encoded printable text decodes to a prefix of itself, up to one trailing backslash. */
  lemma TruncationIsPrefix(text: string, k: nat)
    requires forall i :: 0 <= i < |text| ==> Printable(text[i])
    requires k <= |Spell(Encode(text))|
    ensures PrefixUpToBackslash(Decode(Spell(Encode(text))[..k]), text)
  {
    EncodeFacts(text);
    TruncatedSpelling(Encode(text), k);
  }
}
