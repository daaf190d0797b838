/** Percent-encoding of path segments and query values, RFC 3986 sections 2.1 and 2.3, over UTF-8 bytes. */
module PercentCodec {
  import opened Wrappers

  const PERCENT: byte := '%' as byte
  const PLUS: byte := '+' as byte

  predicate IsUnreserved(b: byte) {
    var c := b as char;
    ('A' <= c <= 'Z') || ('a' <= c <= 'z') || ('0' <= c <= '9') || c == '-' || c == '_' || c == '.' || c == '~'
  }

  predicate IsUpperHex(b: byte) {
    ('0' <= b as char <= '9') || ('A' <= b as char <= 'F')
  }

  function UpperHex(digit: byte): byte
    requires digit < 16
  {
    if digit < 10 then digit + '0' as byte else digit - 10 + 'A' as byte
  }

  function HexValue(b: byte): (digit: Option<byte>)
    ensures digit.Some? ==> digit.value < 16 && b != PERCENT && b != PLUS
  {
    var c := b as char;
    if '0' <= c <= '9' then Some(b - '0' as byte)
    else if 'A' <= c <= 'F' then Some(b - 'A' as byte + 10)
    else if 'a' <= c <= 'f' then Some(b - 'a' as byte + 10)
    else None
  }

  /** A two-character number in base 16 as Rust parses it: the first character may be a plus sign. */
  function ParseHex(first: byte, second: byte): Option<byte> {
    if first == PLUS then HexValue(second)
    else if HexValue(first).Some? && HexValue(second).Some?
    then Some(HexValue(first).value * 16 + HexValue(second).value)
    else None
  }

  const UPPER := "ABCDEFGHIJKLMNOPQRSTUVWXYZ"
  const LOWER := "abcdefghijklmnopqrstuvwxyz"
  const DIGIT := "0123456789"
  const MARKS := "-._~"
  const HEXDIG := "0123456789ABCDEF"

  lemma UpperListed(c: char)
    ensures c in UPPER <==> 'A' <= c <= 'Z'
  {
    if 'A' <= c <= 'Z' { assert UPPER[c as int - 'A' as int] == c; }
  }

  lemma LowerListed(c: char)
    ensures c in LOWER <==> 'a' <= c <= 'z'
  {
    if 'a' <= c <= 'z' { assert LOWER[c as int - 'a' as int] == c; }
  }

  lemma DigitListed(c: char)
    ensures c in DIGIT <==> '0' <= c <= '9'
  {
    if '0' <= c <= '9' { assert DIGIT[c as int - '0' as int] == c; }
  }

  lemma MarkListed(c: char)
    ensures c in MARKS <==> c == '-' || c == '.' || c == '_' || c == '~'
  {
    assert MARKS[0] == '-' && MARKS[1] == '.' && MARKS[2] == '_' && MARKS[3] == '~';
  }

  /** Unreserved are the letters, the digits and four marks, as section 2.3 lists them. */
  lemma UnreservedAsListed(b: byte)
    ensures IsUnreserved(b)
       <==> b as char in UPPER || b as char in LOWER || b as char in DIGIT || b as char in MARKS
  {
    UpperListed(b as char);
    LowerListed(b as char);
    DigitListed(b as char);
    MarkListed(b as char);
    hide UPPER, LOWER, DIGIT, MARKS;
  }

  /** The digits of an escape count as their places in the list of section 2.1. */
  lemma DigitsAsListed(d: byte)
    requires d < 16
    ensures UpperHex(d) as char == HEXDIG[d as int] && HexValue(UpperHex(d)) == Some(d)
  {
  }

  // ---------- encoding ----------

  function Escape(b: byte): seq<byte> {
    if IsUnreserved(b) then [b] else [PERCENT, UpperHex(b / 16), UpperHex(b % 16)]
  }

  function Encoded(input: seq<byte>): seq<byte> {
    if input == [] then [] else Encoded(input[..|input| - 1]) + Escape(input[|input| - 1])
  }

  method PercentEncode(input: seq<byte>) returns (result: seq<byte>)
    ensures result == Encoded(input)
  {
    result := [];
    for i := 0 to |input|
      invariant result == Encoded(input[..i])
    {
      assert input[..i + 1][..i] == input[..i];
      if IsUnreserved(input[i]) {
        result := result + [input[i]];
      } else {
        result := result + [PERCENT];
        result := result + [UpperHex(input[i] / 16), UpperHex(input[i] % 16)];
      }
    }
    assert input[..|input|] == input;
  }

  // ---------- decoding ----------

  /** A slice of text may not start or end inside a character. */
  predicate IsBoundary(input: seq<byte>, i: nat)
    requires i <= |input|
  {
    i == |input| || !(0x80 <= input[i] < 0xC0)
  }

  predicate HasTwoMore(input: seq<byte>, i: nat) {
    i + 2 < |input|
  }

  predicate PercentAt(input: seq<byte>, i: nat) {
    i < |input| && input[i] == PERCENT && HasTwoMore(input, i)
  }

  /** Where reading the two characters after a percent sign cuts a character in half, which panics. */
  predicate CutsCharacter(input: seq<byte>, i: nat) {
    PercentAt(input, i) && !(IsBoundary(input, i + 1) && IsBoundary(input, i + 3))
  }

  predicate EscapeAt(input: seq<byte>, i: nat) {
    PercentAt(input, i) && ParseHex(input[i + 1], input[i + 2]).Some?
  }

  /** The bytes decoded from position `i` on, or nothing if decoding panics. */
  function DecodedFrom(input: seq<byte>, i: nat): Option<seq<byte>>
    requires i <= |input|
    decreases |input| - i
  {
    if i == |input| then Some([])
    else if CutsCharacter(input, i) then None
    else if EscapeAt(input, i) then
      Prefixed(ParseHex(input[i + 1], input[i + 2]).value, DecodedFrom(input, i + 3))
    else Prefixed(input[i], DecodedFrom(input, i + 1))
  }

  function Prefixed(b: byte, rest: Option<seq<byte>>): Option<seq<byte>> {
    if rest.Some? then Some([b] + rest.value) else None
  }

  function Decoded(input: seq<byte>): Option<seq<byte>> {
    DecodedFrom(input, 0)
  }

  function After(output: seq<byte>, rest: Option<seq<byte>>): Option<seq<byte>> {
    if rest.Some? then Some(output + rest.value) else None
  }

  method PercentDecode(input: seq<byte>) returns (output: Option<seq<byte>>)
    ensures output == Decoded(input)
  {
    hide CutsCharacter;
    var bytes, index := [], 0;
    AfterNothing(Decoded(input));
    while index < |input|
      invariant 0 <= index <= |input|
      invariant Decoded(input) == After(bytes, DecodedFrom(input, index))
    {
      NoCutElsewhere(input, index);
      if input[index] == PERCENT && index + 2 < |input| {
        if CutsCharacter(input, index) {
          return None;
        }
        var value := ParseHex(input[index + 1], input[index + 2]);
        if value.Some? {
          AfterPrefixed(bytes, value.value, DecodedFrom(input, index + 3));
          bytes := bytes + [value.value];
          index := index + 3;
          continue;
        }
      }
      AfterPrefixed(bytes, input[index], DecodedFrom(input, index + 1));
      bytes := bytes + [input[index]];
      index := index + 1;
    }
    assert bytes + [] == bytes;
    return Some(bytes);
  }

  lemma AfterNothing(rest: Option<seq<byte>>)
    ensures After([], rest) == rest
  {
    if rest.Some? {
      assert [] + rest.value == rest.value;
    }
  }

  lemma AfterPrefixed(output: seq<byte>, b: byte, rest: Option<seq<byte>>)
    ensures After(output, Prefixed(b, rest)) == After(output + [b], rest)
  {
    if rest.Some? {
      Assoc(output, [b], rest.value);
    }
  }

  lemma NoCutElsewhere(input: seq<byte>, i: nat)
    ensures !PercentAt(input, i) ==> !CutsCharacter(input, i)
  {
  }

  /** Decoding panics exactly if, somewhere, the two bytes after a percent sign do not end between characters. */
  lemma PanicsExactly(input: seq<byte>)
    ensures Decoded(input).None? <==> exists i :: CutsCharacter(input, i)
  {
    PanicsFrom(input, 0);
  }

  lemma {:induction false} PanicsFrom(input: seq<byte>, i: nat)
    requires i <= |input|
    ensures DecodedFrom(input, i).None? <==> exists j :: j >= i && CutsCharacter(input, j)
    decreases |input| - i
  {
    if i < |input| && !CutsCharacter(input, i) {
      if EscapeAt(input, i) {
        PanicsFrom(input, i + 3);
        assert !PercentAt(input, i + 1) && !PercentAt(input, i + 2);
      } else {
        PanicsFrom(input, i + 1);
      }
    }
  }

  /** A percent sign, a letter and a euro sign: the slice would end after the first of its three bytes. */
  lemma EuroSignPanics()
    ensures Decoded([0x25, 0x61, 0xE2, 0x82, 0xAC]).None?
  {
    assert CutsCharacter([0x25, 0x61, 0xE2, 0x82, 0xAC], 0);
  }

  // ---------- the round trip ----------

  lemma EscapeParses(b: byte)
    ensures b < 128 || !IsUnreserved(b)
    ensures b != PERCENT || !IsUnreserved(b)
    ensures ParseHex(UpperHex(b / 16), UpperHex(b % 16)) == Some(b)
    ensures IsUpperHex(UpperHex(b / 16)) && IsUpperHex(UpperHex(b % 16))
  {
  }

  lemma DecodesEscapeAt(text: seq<byte>, i: nat, b: byte)
    requires !IsUnreserved(b) && PercentAt(text, i)
    requires text[i + 1] == UpperHex(b / 16) && text[i + 2] == UpperHex(b % 16) && IsBoundary(text, i + 3)
    ensures DecodedFrom(text, i) == Prefixed(b, DecodedFrom(text, i + 3))
  {
    hide UpperHex, ParseHex, IsUnreserved;
    EscapeParses(b);
  }

  lemma DecodesPlain(text: seq<byte>, i: nat)
    requires i < |text| && text[i] != PERCENT
    ensures DecodedFrom(text, i) == Prefixed(text[i], DecodedFrom(text, i + 1))
  {
    hide ParseHex, IsBoundary;
  }

  lemma Middle<T>(before: seq<T>, middle: seq<T>, after: seq<T>)
    ensures forall k :: 0 <= k < |middle| ==> (before + middle + after)[|before| + k] == middle[k]
    ensures after != [] ==> (before + middle + after)[|before| + |middle|] == after[0]
  {
  }

  /** Decoding reads an escaped byte back from the middle of a text. */
  lemma DecodesEscape(before: seq<byte>, b: byte, after: seq<byte>)
    requires IsBoundary(after, 0)
    ensures var text := before + Escape(b) + after;
      DecodedFrom(text, |before|) == Prefixed(b, DecodedFrom(text, |before| + |Escape(b)|))
  {
    hide UpperHex, ParseHex, IsUnreserved, Prefixed, DecodedFrom;
    EscapeParses(b);
    var text, i := before + Escape(b) + after, |before|;
    Middle(before, Escape(b), after);
    assert text[i + 0] == Escape(b)[0];
    if IsUnreserved(b) {
      DecodesPlain(text, i);
    } else {
      assert text[i + 1] == Escape(b)[1];
      assert text[i + 2] == Escape(b)[2];
      assert IsBoundary(text, i + 3);
      DecodesEscapeAt(text, i, b);
    }
  }

  lemma {:induction false} EncodedStartsOnBoundary(input: seq<byte>)
    ensures input != [] ==> Encoded(input) != [] && Encoded(input)[0] < 128
  {
    if input != [] {
      EncodedStartsOnBoundary(input[..|input| - 1]);
      EscapeParses(input[|input| - 1]);
    }
  }

  lemma {:induction false} EncodedAppend(first: seq<byte>, second: seq<byte>)
    ensures Encoded(first + second) == Encoded(first) + Encoded(second)
    decreases |second|
  {
    hide Escape;
    if second == [] {
      assert first + second == first;
    } else {
      var n := |second| - 1;
      assert (first + second)[..|first + second| - 1] == first + second[..n];
      EncodedAppend(first, second[..n]);
    }
  }

  lemma EncodedOne(b: byte)
    ensures Encoded([b]) == Escape(b)
  {
    hide Escape;
    assert [b][..0] == [];
  }

  lemma EncodedNext(input: seq<byte>, i: nat)
    requires i < |input|
    ensures Encoded(input[i..]) == Escape(input[i]) + Encoded(input[i + 1..])
    ensures Encoded(input[..i + 1]) == Encoded(input[..i]) + Escape(input[i])
  {
    hide Encoded, Escape;
    DropNext(input, i);
    TakeNext(input, i);
    EncodedOne(input[i]);
    EncodedAppend([input[i]], input[i + 1..]);
    EncodedAppend(input[..i], [input[i]]);
  }

  lemma {:induction false} DecodesRest(input: seq<byte>, i: nat)
    requires i <= |input|
    ensures |Encoded(input[..i])| <= |Encoded(input)|
    ensures DecodedFrom(Encoded(input), |Encoded(input[..i])|) == Some(input[i..])
    decreases |input| - i
  {
    hide Encoded, DecodedFrom, Escape;
    SplitAt(input, i);
    EncodedAppend(input[..i], input[i..]);
    if i == |input| {
      EncodedNothing();
      assert input[..i] == input;
      DecodedFromEnd(Encoded(input));
    } else {
      EncodedNext(input, i);
      DecodesRest(input, i + 1);
      EncodedStartsOnBoundary(input[i + 1..]);
      EncodedNothing();
      var before, after := Encoded(input[..i]), Encoded(input[i + 1..]);
      Assoc(before, Escape(input[i]), after);
      DecodesEscape(before, input[i], after);
      DropNext(input, i);
    }
  }

  lemma EncodedNothing()
    ensures Encoded([]) == []
  {
  }

  lemma DecodedFromEnd(input: seq<byte>)
    ensures DecodedFrom(input, |input|) == Some([])
  {
  }

  /** Decoding undoes encoding, for every byte string. */
  lemma RoundTrip(input: seq<byte>)
    ensures Decoded(Encoded(input)) == Some(input)
  {
    DecodesRest(input, 0);
    assert input[..0] == [] && input[0..] == input;
  }

  lemma EncodedInjective(input1: seq<byte>, input2: seq<byte>)
    requires Encoded(input1) == Encoded(input2)
    ensures input1 == input2
  {
    RoundTrip(input1);
    RoundTrip(input2);
  }

  // ---------- the case of the digits ----------

  function Lower(b: byte): byte {
    if 'A' <= b as char <= 'Z' then b - 'A' as byte + 'a' as byte else b
  }

  /** Position i holds one of the two digits of an escape. */
  predicate IsDigitOfEscape(input: seq<byte>, i: nat) {
    (i >= 1 && EscapeAt(input, i - 1)) || (i >= 2 && EscapeAt(input, i - 2))
  }

  /** The texts differ at most in the case of the digits of escapes. */
  predicate SameUpToCase(input1: seq<byte>, input2: seq<byte>) {
    && |input1| == |input2|
    && forall i :: 0 <= i < |input1| ==>
         if IsDigitOfEscape(input1, i) then Lower(input1[i]) == Lower(input2[i]) else input1[i] == input2[i]
  }

  /** Letters of either case are the same digit, and other characters are no other digit's lower case. */
  lemma LowerIsSameDigit(a: byte, b: byte)
    requires Lower(a) == Lower(b)
    ensures HexValue(a) == HexValue(b) && (a == PLUS <==> b == PLUS)
    ensures a < 128 <==> b < 128
  {
  }

  lemma LowerKeepsBoundary(a: byte, b: byte)
    requires Lower(a) == Lower(b)
    ensures 0x80 <= a < 0xC0 <==> 0x80 <= b < 0xC0
    ensures a == PERCENT <==> b == PERCENT
  {
  }

  lemma SameByte(input1: seq<byte>, input2: seq<byte>, i: nat)
    requires SameUpToCase(input1, input2) && i < |input1|
    ensures Lower(input1[i]) == Lower(input2[i])
    ensures IsBoundary(input1, i) <==> IsBoundary(input2, i)
    ensures input1[i] == PERCENT <==> input2[i] == PERCENT
    ensures HexValue(input1[i]) == HexValue(input2[i]) && (input1[i] == PLUS <==> input2[i] == PLUS)
  {
    LowerIsSameDigit(input1[i], input2[i]);
    LowerKeepsBoundary(input1[i], input2[i]);
    hide HexValue, Lower;
  }

  /** Where one text is decoded, so is the other. */
  lemma DecodedAlikeAt(input1: seq<byte>, input2: seq<byte>, i: nat)
    requires SameUpToCase(input1, input2) && i < |input1| && !IsDigitOfEscape(input1, i)
    ensures CutsCharacter(input1, i) <==> CutsCharacter(input2, i)
    ensures EscapeAt(input1, i) <==> EscapeAt(input2, i)
    ensures EscapeAt(input1, i) ==> ParseHex(input1[i + 1], input1[i + 2]) == ParseHex(input2[i + 1], input2[i + 2])
    ensures input1[i] == input2[i]
  {
    SameByte(input1, input2, i);
    if HasTwoMore(input1, i) {
      SameByte(input1, input2, i + 1);
      SameByte(input1, input2, i + 2);
      if i + 3 < |input1| {
        SameByte(input1, input2, i + 3);
      }
    }
    hide HexValue, Lower;
  }

  lemma {:induction false} DecodedAlikeFrom(input1: seq<byte>, input2: seq<byte>, i: nat)
    requires SameUpToCase(input1, input2) && i <= |input1| && !IsDigitOfEscape(input1, i)
    ensures DecodedFrom(input1, i) == DecodedFrom(input2, i)
    decreases |input1| - i
  {
    if i < |input1| {
      DecodedAlikeAt(input1, input2, i);
      if EscapeAt(input1, i) {
        NoEscapeInside(input1, i);
        DecodedAlikeFrom(input1, input2, i + 3);
      } else {
        DecodedAlikeFrom(input1, input2, i + 1);
      }
      hide CutsCharacter, ParseHex, SameUpToCase;
    }
  }

  lemma NoEscapeInside(input: seq<byte>, i: nat)
    requires EscapeAt(input, i)
    ensures !IsDigitOfEscape(input, i + 3) && i + 3 <= |input|
  {
  }

  /** Decoding gives the bytes back whatever the case of the digits in the escapes. */
  lemma RoundTripAnyCase(input: seq<byte>, text: seq<byte>)
    requires SameUpToCase(Encoded(input), text)
    ensures Decoded(text) == Some(input)
  {
    RoundTrip(input);
    hide Encoded, SameUpToCase, DecodedFrom;
    DecodedAlikeFrom(Encoded(input), text, 0);
  }

  // ---------- what encoding produces ----------

  /** Unreserved characters, and percent signs each followed by two uppercase hexadecimal digits that stand for
      a byte that is not an unreserved character. */
  predicate Canonical(text: seq<byte>) {
    text == [] ||
    if text[0] == PERCENT then
      && |text| >= 3 && IsUpperHex(text[1]) && IsUpperHex(text[2])
      && !IsUnreserved(ParseHex(text[1], text[2]).value)
      && Canonical(text[3..])
    else IsUnreserved(text[0]) && Canonical(text[1..])
  }

  lemma UpperHexRoundTrip(first: byte, second: byte)
    requires IsUpperHex(first) && IsUpperHex(second)
    ensures var b := ParseHex(first, second).value; UpperHex(b / 16) == first && UpperHex(b % 16) == second
  {
    var high, low := HexValue(first).value, HexValue(second).value;
    assert (high * 16 + low) / 16 == high && (high * 16 + low) % 16 == low;
  }

  lemma CanonicalNext(b: byte, rest: seq<byte>)
    ensures Canonical(Escape(b) + rest) <==> Canonical(rest)
  {
    EscapeParses(b);
    var text := Escape(b) + rest;
    assert text[|Escape(b)|..] == rest;
    assert forall k :: 0 <= k < |Escape(b)| ==> text[k] == Escape(b)[k];
  }

  lemma {:induction false} EncodedIsCanonical(input: seq<byte>)
    ensures Canonical(Encoded(input))
  {
    hide Canonical, Escape;
    if input == [] {
      CanonicalNothing();
    } else {
      EncodedNext(input, 0);
      assert input[0..] == input;
      EncodedIsCanonical(input[1..]);
      CanonicalNext(input[0], Encoded(input[1..]));
    }
  }

  lemma CanonicalNothing()
    ensures Canonical([])
  {
  }

  /** Every canonical text is the encoding of some byte string. */
  lemma {:induction false} CanonicalIsEncoded(text: seq<byte>) returns (input: seq<byte>)
    requires Canonical(text)
    ensures Encoded(input) == text
  {
    if text == [] {
      input := [];
    } else {
      var length := if text[0] == PERCENT then 3 else 1;
      var b := if text[0] == PERCENT then ParseHex(text[1], text[2]).value else text[0];
      var rest := CanonicalIsEncoded(text[length..]);
      if text[0] == PERCENT {
        UpperHexRoundTrip(text[1], text[2]);
      }
      assert text == Escape(b) + text[length..];
      input := [b] + rest;
      EncodedOne(b);
      EncodedAppend([b], rest);
    }
  }

  /** Encoding undoes decoding exactly on the canonical texts. */
  lemma EncodesBackExactly(text: seq<byte>)
    ensures (Decoded(text).Some? && Encoded(Decoded(text).value) == text) <==> Canonical(text)
  {
    hide Encoded, Decoded, Canonical;
    if Canonical(text) {
      var input := CanonicalIsEncoded(text);
      RoundTrip(input);
    }
    if Decoded(text).Some? {
      EncodedIsCanonical(Decoded(text).value);
    }
  }

  // ---------- escapes with a plus sign ----------

  /** An escape with a plus sign for its first digit, which RFC 3986 section 2.1 does not allow. */
  predicate SignedEscapeAt(input: seq<byte>, i: nat) {
    PercentAt(input, i) && input[i + 1] == PLUS && HexValue(input[i + 2]).Some?
  }

  /** Decoding as section 2.1 has it: only two hexadecimal digits make an escape. */
  function StrictFrom(input: seq<byte>, i: nat): seq<byte>
    requires i <= |input|
    decreases |input| - i
  {
    if i == |input| then []
    else if EscapeAt(input, i) && !SignedEscapeAt(input, i) then
      [ParseHex(input[i + 1], input[i + 2]).value] + StrictFrom(input, i + 3)
    else [input[i]] + StrictFrom(input, i + 1)
  }

  /** "%+5" decodes to the single byte 5, where section 2.1 leaves the three characters alone. */
  lemma SignedEscapeDecodes()
    ensures var input: seq<byte> := [0x25, 0x2B, 0x35];
      Decoded(input) == Some([5]) && StrictFrom(input, 0) == input
  {
    var input: seq<byte> := [0x25, 0x2B, 0x35];
    assert ParseHex(0x2B, 0x35) == Some(5);
    assert EscapeAt(input, 0) && !CutsCharacter(input, 0);
    assert DecodedFrom(input, 3) == Some([]);
    var decoded: seq<byte> := [5];
    assert decoded + [] == decoded;
    assert DecodedFrom(input, 0) == Prefixed(5, DecodedFrom(input, 3));
    assert StrictFrom(input, 3) == [];
    assert StrictFrom(input, 2) == [0x35];
    assert StrictFrom(input, 1) == [0x2B, 0x35];
  }

  ghost predicate SignedFrom(input: seq<byte>, i: nat) {
    exists j :: j >= i && SignedEscapeAt(input, j)
  }

  lemma SignedFromNext(input: seq<byte>, i: nat)
    ensures SignedFrom(input, i) <==> SignedEscapeAt(input, i) || SignedFrom(input, i + 1)
  {
    if j :| j >= i && SignedEscapeAt(input, j) {
      assert j == i || j >= i + 1;
    }
  }

  /** Where decoding does not panic, it agrees with section 2.1 exactly if no escape has a sign. */
  lemma StrictExactly(input: seq<byte>)
    requires Decoded(input).Some?
    ensures Decoded(input).value == StrictFrom(input, 0) <==> !exists i :: SignedEscapeAt(input, i)
  {
    StrictAgrees(input, 0);
  }

  /** A signed escape makes the decoded text shorter than section 2.1 has it. */
  lemma {:induction false} StrictAgrees(input: seq<byte>, i: nat)
    requires i <= |input| && DecodedFrom(input, i).Some?
    ensures var decoded, strict := DecodedFrom(input, i).value, StrictFrom(input, i);
      if SignedFrom(input, i) then |decoded| < |strict| else decoded == strict
    decreases |input| - i
  {
    if i < |input| {
      hide CutsCharacter, ParseHex, SignedFrom;
      SignedFromNext(input, i);
      if SignedEscapeAt(input, i) {
        StrictAgrees(input, i + 3);
        StrictLiteral(input, i);
      } else if EscapeAt(input, i) {
        StrictAgrees(input, i + 3);
        EscapeHidesNothing(input, i);
        SignedFromNext(input, i + 1);
        SignedFromNext(input, i + 2);
      } else {
        StrictAgrees(input, i + 1);
      }
    } else {
      assert !SignedFrom(input, i);
    }
  }

  /** Section 2.1 leaves the three characters of a signed escape as they are. */
  lemma StrictLiteral(input: seq<byte>, i: nat)
    requires SignedEscapeAt(input, i)
    ensures |StrictFrom(input, i)| == 3 + |StrictFrom(input, i + 3)|
    ensures i + 3 <= |input|
  {
    hide EscapeAt;
    EscapesArePercents(input, i + 1);
    EscapesArePercents(input, i + 2);
    assert StrictFrom(input, i) == [input[i]] + StrictFrom(input, i + 1);
    assert StrictFrom(input, i + 1) == [input[i + 1]] + StrictFrom(input, i + 2);
    assert StrictFrom(input, i + 2) == [input[i + 2]] + StrictFrom(input, i + 3);
  }

  lemma EscapesArePercents(input: seq<byte>, i: nat)
    ensures EscapeAt(input, i) ==> PercentAt(input, i)
  {
  }

  lemma EscapeHidesNothing(input: seq<byte>, i: nat)
    requires EscapeAt(input, i)
    ensures !SignedEscapeAt(input, i + 1) && !SignedEscapeAt(input, i + 2)
  {
  }
}
