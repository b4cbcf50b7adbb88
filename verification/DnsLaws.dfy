/** The decoder against a writer of \DDD escapes, section 5.1 of RFC 1035. */
module DnsLaws {
  import opened Dns
  import opened Wrappers

  // ---------- UTF-8 ----------

  /** The digits of a rune in base 64. */
  lemma Base64Digits(r: Rune)
    requires 0 <= r <= 0x10FFFF
    ensures r == r / 64 * 64 + r % 64
    ensures r / 64 == r / 4096 * 64 + r / 64 % 64
    ensures r / 4096 == r / 262144 * 64 + r / 4096 % 64
  {
    assert r / 64 / 64 == r / 4096;
    assert r / 4096 / 64 == r / 262144;
  }

  lemma TwoBytesDecode(a: Byte, b: Byte, rest: seq<Byte>)
    requires 0xC2 <= a <= 0xDF && Continues(b)
    ensures DecodeRune([a, b] + rest) == (Join2(a, b), 2)
  {
  }

  lemma ThreeBytesDecode(a: Byte, b: Byte, c: Byte, rest: seq<Byte>)
    requires 0xE0 <= a <= 0xEF && AcceptsSecond(a, b) && Continues(c)
    ensures DecodeRune([a, b, c] + rest) == (Join3(a, b, c), 3)
  {
  }

  lemma FourBytesDecode(a: Byte, b: Byte, c: Byte, d: Byte, rest: seq<Byte>)
    requires 0xF0 <= a <= 0xF4 && AcceptsSecond(a, b) && Continues(c) && Continues(d)
    ensures DecodeRune([a, b, c, d] + rest) == (Join4(a, b, c, d), 4)
  {
  }

  lemma EncodedScalarDecodes(r: Rune, rest: seq<Byte>)
    requires Scalar(r)
    ensures DecodeRune(EncodeRune(r) + rest) == (r, |EncodeRune(r)|)
  {
    Base64Digits(r);
    if r < 0x80 {
    } else {
      hide DecodeRune;
      var e := EncodeRune(r);
      if r < 0x800 {
        TwoBytesDecode(e[0], e[1], rest);
      } else if r < 0x1_0000 {
        ThreeBytesDecode(e[0], e[1], e[2], rest);
      } else {
        FourBytesDecode(e[0], e[1], e[2], e[3], rest);
      }
    }
  }

  /** A string starts with the UTF-8 bytes of a scalar value. */
  ghost predicate StartsWith(p: seq<Byte>, r: Rune) {
    Scalar(r) && EncodeRune(r) <= p
  }

  lemma AsciiIsItself(b: Byte)
    requires b < 0x80
    ensures EncodeRune(b) == [b]
  {
  }

  lemma Base64(q: int, x: int)
    requires 0 <= q && 0 <= x < 64
    ensures (q * 64 + x) / 64 == q && (q * 64 + x) % 64 == x
  {
  }

  lemma TwoBytesEncode(a: Byte, b: Byte)
    requires 0xC2 <= a <= 0xDF && Continues(b)
    ensures Scalar(Join2(a, b)) && EncodeRune(Join2(a, b)) == [a, b]
  {
    Base64(a - 0xC0, b - 0x80);
  }

  lemma ThreeBytesEncode(a: Byte, b: Byte, c: Byte)
    requires 0xE0 <= a <= 0xEF && AcceptsSecond(a, b) && Continues(c)
    ensures Scalar(Join3(a, b, c)) && EncodeRune(Join3(a, b, c)) == [a, b, c]
  {
    var r, high := Join3(a, b, c), (a - 0xE0) * 64 + (b - 0x80);
    assert r == high * 64 + (c - 0x80);
    Base64(high, c - 0x80);
    Base64(a - 0xE0, b - 0x80);
    Base64Digits(r);
  }

  lemma FourBytesEncode(a: Byte, b: Byte, c: Byte, d: Byte)
    requires 0xF0 <= a <= 0xF4 && AcceptsSecond(a, b) && Continues(c) && Continues(d)
    ensures Scalar(Join4(a, b, c, d)) && EncodeRune(Join4(a, b, c, d)) == [a, b, c, d]
  {
    var r, top := Join4(a, b, c, d), (a - 0xF0) * 64 + (b - 0x80);
    var high := top * 64 + (c - 0x80);
    assert r == high * 64 + (d - 0x80);
    Base64(high, d - 0x80);
    Base64(top, c - 0x80);
    Base64(a - 0xF0, b - 0x80);
    Base64Digits(r);
  }

  /** What is decoded is written at the front of the string, or it is one malformed
      byte. */
  lemma DecodedIsEncoded(p: seq<Byte>)
    requires p != []
    ensures DecodeRune(p) == (RUNE_ERROR, 1)
            || (StartsWith(p, DecodeRune(p).0) && DecodeRune(p).1 == |EncodeRune(DecodeRune(p).0)|)
  {
    hide EncodeRune, Join2, Join3, Join4;
    var n := SequenceLength(p[0]);
    if n == 1 {
      AsciiIsItself(p[0]);
    } else if n > 1 && |p| >= n && AcceptsSecond(p[0], p[1]) {
      if n == 2 {
        TwoBytesEncode(p[0], p[1]);
        assert p[..2] == [p[0], p[1]];
      } else if n == 3 && Continues(p[2]) {
        ThreeBytesEncode(p[0], p[1], p[2]);
        assert p[..3] == [p[0], p[1], p[2]];
      } else if n == 4 && Continues(p[2]) && Continues(p[3]) {
        FourBytesEncode(p[0], p[1], p[2], p[3]);
        assert p[..4] == [p[0], p[1], p[2], p[3]];
      }
    }
  }

  /** A rune is decoded exactly where the bytes of a scalar value stand; any other
      byte gives U+FFFD. */
  lemma DecodesWhatIsEncoded(p: seq<Byte>, r: Rune)
    requires p != []
    ensures StartsWith(p, r) ==> DecodeRune(p) == (r, |EncodeRune(r)|)
    ensures (forall c :: !StartsWith(p, c)) ==> DecodeRune(p) == (RUNE_ERROR, 1)
  {
    hide EncodeRune, DecodeRune;
    if StartsWith(p, r) {
      var e := EncodeRune(r);
      assert p == e + p[|e|..];
      EncodedScalarDecodes(r, p[|e|..]);
    }
    DecodedIsEncoded(p);
  }

  ghost predicate Text(text: seq<Rune>) {
    forall r :: r in text ==> Scalar(r)
  }

  lemma {:induction false} TextDecodes(text: seq<Rune>)
    requires Text(text)
    ensures DecodeAll(Utf8(text)) == text
  {
    if text != [] {
      var rest := Utf8(text[1..]);
      EncodedScalarDecodes(text[0], rest);
      assert (EncodeRune(text[0]) + rest)[|EncodeRune(text[0])|..] == rest;
      assert Text(text[1..]);
      TextDecodes(text[1..]);
    }
  }

  /** What is decoded takes at least as many bytes to write again. */
  lemma DecodedRuneSize(p: seq<Byte>)
    requires p != []
    ensures |EncodeRune(DecodeRune(p).0)| >= DecodeRune(p).1
  {
  }

  lemma Utf8Step(r: Rune, rest: seq<Rune>)
    ensures Utf8([r] + rest) == EncodeRune(r) + Utf8(rest)
  {
    hide EncodeRune;
    assert ([r] + rest)[1..] == rest;
  }

  lemma NoRunes()
    ensures Utf8([]) == []
  {
  }

  lemma {:induction false} Utf8Concat(a: seq<Rune>, b: seq<Rune>)
    ensures Utf8(a + b) == Utf8(a) + Utf8(b)
  {
    hide *;
    if a == [] {
      NoRunes();
      assert [] + b == b;
    } else {
      var r, rest := a[0], a[1..];
      HeadAndTail(a, b);
      Utf8Concat(rest, b);
      Utf8Step(r, rest);
      Utf8Step(r, rest + b);
      Associative(EncodeRune(r), Utf8(rest), Utf8(b));
    }
  }

  lemma HeadAndTail(a: seq<Rune>, b: seq<Rune>)
    requires a != []
    ensures a == [a[0]] + a[1..] && a + b == [a[0]] + (a[1..] + b)
  {
  }

  lemma Associative(a: seq<Byte>, b: seq<Byte>, c: seq<Byte>)
    ensures a + (b + c) == a + b + c
  {
  }

  lemma Utf8One(r: Rune)
    ensures Utf8([r]) == EncodeRune(r)
  {
    hide EncodeRune;
    assert Utf8([r][1..]) == [];
  }

  lemma {:induction false} DecodedSize(p: seq<Byte>)
    ensures |Utf8(DecodeAll(p))| >= |p|
    decreases |p|
  {
    if p != [] {
      DecodeRuneAdvances(p);
      DecodedRuneSize(p);
      DecodedSize(p[DecodeRune(p).1..]);
      var all := DecodeAll(p);
      assert all[1..] == DecodeAll(p[DecodeRune(p).1..]);
    }
  }

  // ---------- the writer ----------

  /** The ways of section 5.1 of RFC 1035 to write a byte: as it is, as a
      backslash and three decimal digits, or behind a backslash. */
  datatype Form = Raw | Escaped | Quoted

  function Escape(b: Byte): seq<Byte> {
    [BACKSLASH, DIGIT_0 + b / 100, DIGIT_0 + b / 10 % 10, DIGIT_0 + b % 10]
  }

  function Written(b: Byte, form: Form): seq<Byte> {
    match form
    case Raw => [b]
    case Escaped => Escape(b)
    case Quoted => [BACKSLASH, b]
  }

  function Write(bytes: seq<Byte>, plan: seq<Form>): seq<Byte>
    requires |bytes| == |plan|
  {
    if bytes == [] then [] else Written(bytes[0], plan[0]) + Write(bytes[1..], plan[1..])
  }

  /** What the RFC lets a writer choose: a backslash is not written as it is, and
      no digit is quoted. */
  ghost predicate Plan(bytes: seq<Byte>, plan: seq<Form>) {
    && |bytes| == |plan|
    && forall i :: 0 <= i < |bytes| ==>
         (bytes[i] == BACKSLASH ==> plan[i] != Raw) && (plan[i] == Quoted ==> !IsDigit(bytes[i]))
  }

  ghost predicate AllRaw(plan: seq<Form>) {
    forall i :: 0 <= i < |plan| ==> plan[i] == Raw
  }

  /** Nothing is quoted, and every byte above ASCII is escaped. */
  ghost predicate Readable(bytes: seq<Byte>, plan: seq<Form>)
    requires |bytes| == |plan|
  {
    forall i :: 0 <= i < |bytes| ==> plan[i] != Quoted && (bytes[i] >= 0x80 ==> plan[i] == Escaped)
  }

  lemma ReadEscape(b: Byte, rest: seq<Byte>, pending: seq<Byte>)
    ensures DecodeRest(Escape(b) + rest, pending) == DecodeRest(rest, pending + [b])
  {
    var v := Escape(b) + rest;
    assert v[1..4] == Escape(b)[1..];
    assert b == b / 100 * 100 + b / 10 % 10 * 10 + b % 10;
    assert Atoi(v[1..4]) == Some(b);
    assert v[4..] == rest;
  }

  lemma ReadRaw(b: Byte, rest: seq<Byte>, pending: seq<Byte>)
    requires b != BACKSLASH
    ensures DecodeRest([b] + rest, pending) == DecodeAll(pending) + [b] + DecodeRest(rest, [])
  {
    assert ([b] + rest)[1..] == rest;
  }

  /** Bytes that are all escaped end up pending. */
  lemma {:induction false} ReadEscapes(bytes: seq<Byte>, more: seq<Byte>, plan: seq<Form>, pending: seq<Byte>)
    requires |bytes| + |more| == |plan| && forall i :: 0 <= i < |bytes| ==> plan[i] == Escaped
    ensures DecodeRest(Write(bytes + more, plan), pending) ==
            DecodeRest(Write(more, plan[|bytes|..]), pending + bytes)
  {
    if bytes == [] {
      assert bytes + more == more && plan[0..] == plan && pending + bytes == pending;
    } else {
      assert (bytes + more)[1..] == bytes[1..] + more;
      ReadEscape(bytes[0], Write(bytes[1..] + more, plan[1..]), pending);
      ReadEscapes(bytes[1..], more, plan[1..], pending + [bytes[0]]);
      assert plan[1..][|bytes| - 1..] == plan[|bytes|..];
      assert pending + [bytes[0]] + bytes[1..] == pending + bytes;
    }
  }

  /** With whole characters pending, the rest of a text reads back. */
  lemma {:induction false} ReadText(text: seq<Rune>, plan: seq<Form>, pending: seq<Rune>)
    requires Text(text) && Text(pending) && Plan(Utf8(text), plan) && Readable(Utf8(text), plan)
    ensures DecodeRest(Write(Utf8(text), plan), Utf8(pending)) == pending + text
    decreases |text|
  {
    hide EncodeRune, Plan, Readable, DecodeRest, DecodeAll, Write;
    if text == [] {
      ReadNothing(plan, pending);
    } else {
      var c, more := text[0], Utf8(text[1..]);
      RestOfPlan(EncodeRune(c), more, plan);
      EncodeRuneSize(c);
      var tail := plan[|EncodeRune(c)|..];
      assert Text(text[1..]);
      if plan[0] == Escaped {
        ReadEscapedHead(c, more, plan, pending);
        ReadText(text[1..], tail, pending + [c]);
        assert pending + [c] + text[1..] == pending + text;
      } else {
        ReadRawHead(c, more, plan, pending);
        ReadText(text[1..], tail, []);
        assert pending + [c] + ([] + text[1..]) == pending + text;
      }
    }
  }

  lemma EncodeRuneSize(r: Rune)
    ensures 1 <= |EncodeRune(r)| <= 4
  {
  }

  lemma ReadNothing(plan: seq<Form>, pending: seq<Rune>)
    requires Text(pending) && Plan([], plan)
    ensures DecodeRest(Write([], plan), Utf8(pending)) == pending + []
  {
    TextDecodes(pending);
  }

  lemma ReadEscapedHead(c: Rune, more: seq<Byte>, plan: seq<Form>, pending: seq<Rune>)
    requires Scalar(c) && Plan(EncodeRune(c) + more, plan) && Readable(EncodeRune(c) + more, plan)
    requires plan[0] == Escaped
    ensures DecodeRest(Write(EncodeRune(c) + more, plan), Utf8(pending)) ==
            DecodeRest(Write(more, plan[|EncodeRune(c)|..]), Utf8(pending + [c]))
  {
    HeadIsEscaped(c, more, plan);
    ReadEscapes(EncodeRune(c), more, plan, Utf8(pending));
    Utf8Concat(pending, [c]);
    Utf8One(c);
  }

  lemma ReadRawHead(c: Rune, more: seq<Byte>, plan: seq<Form>, pending: seq<Rune>)
    requires Scalar(c) && Text(pending)
    requires Plan(EncodeRune(c) + more, plan) && Readable(EncodeRune(c) + more, plan)
    requires plan[0] != Escaped
    ensures DecodeRest(Write(EncodeRune(c) + more, plan), Utf8(pending)) ==
            pending + [c] + DecodeRest(Write(more, plan[|EncodeRune(c)|..]), Utf8([]))
  {
    assert (EncodeRune(c) + more)[0] == EncodeRune(c)[0];
    assert plan[0] == Raw;
    assert EncodeRune(c) == [c];
    assert (EncodeRune(c) + more)[1..] == more;
    ReadRaw(c, Write(more, plan[1..]), Utf8(pending));
    TextDecodes(pending);
  }

  lemma RestOfPlan(head: seq<Byte>, more: seq<Byte>, plan: seq<Form>)
    requires Plan(head + more, plan) && Readable(head + more, plan)
    ensures |plan| == |head| + |more|
    ensures Plan(more, plan[|head|..]) && Readable(more, plan[|head|..])
  {
    assert forall i :: 0 <= i < |more| ==>
             (head + more)[|head| + i] == more[i] && plan[|head| + i] == plan[|head|..][i];
  }

  lemma HeadIsEscaped(c: Rune, more: seq<Byte>, plan: seq<Form>)
    requires Scalar(c) && |EncodeRune(c)| + |more| == |plan| && Readable(EncodeRune(c) + more, plan)
    requires plan[0] == Escaped
    ensures forall i :: 0 <= i < |EncodeRune(c)| ==> plan[i] == Escaped
  {
    var head := EncodeRune(c);
    forall i | 0 <= i < |head| ensures plan[i] == Escaped {
      assert (head + more)[i] == head[i];
    }
  }

  // ---------- raw bytes above ASCII do not read back ----------

  function RawNonAscii(bytes: seq<Byte>, plan: seq<Form>): nat
    requires |bytes| == |plan|
  {
    if bytes == [] then 0
    else (if bytes[0] >= 0x80 && plan[0] == Raw then 1 else 0) + RawNonAscii(bytes[1..], plan[1..])
  }

  /** Every raw byte above ASCII is read as a rune of its own and takes two bytes
      in the result. */
  lemma {:induction false} RawNonAsciiGrows(bytes: seq<Byte>, plan: seq<Form>, pending: seq<Byte>)
    requires Plan(bytes, plan) && Quoted !in plan
    ensures |Utf8(DecodeRest(Write(bytes, plan), pending))| >= |pending| + |bytes| + RawNonAscii(bytes, plan)
    decreases |bytes|
  {
    if bytes == [] {
      DecodedSize(pending);
    } else {
      var b, rest := bytes[0], Write(bytes[1..], plan[1..]);
      assert Plan(bytes[1..], plan[1..]);
      if plan[0] == Escaped {
        ReadEscape(b, rest, pending);
        RawNonAsciiGrows(bytes[1..], plan[1..], pending + [b]);
      } else {
        assert plan[0] in plan;
        ReadRaw(b, rest, pending);
        RawNonAsciiGrows(bytes[1..], plan[1..], []);
        DecodedSize(pending);
        Utf8Concat(DecodeAll(pending) + [b], DecodeRest(rest, []));
        Utf8Concat(DecodeAll(pending), [b]);
        Utf8One(b);
      }
    }
  }

  lemma {:induction false} SomeRawNonAscii(bytes: seq<Byte>, plan: seq<Form>)
    requires |bytes| == |plan| && Quoted !in plan
    ensures RawNonAscii(bytes, plan) == 0 <==> Readable(bytes, plan)
  {
    if bytes != [] {
      SomeRawNonAscii(bytes[1..], plan[1..]);
      assert plan[0] in plan;
      assert forall i :: 0 < i < |bytes| ==> bytes[i] == bytes[1..][i - 1] && plan[i] == plan[1..][i - 1];
      assert forall i :: 0 <= i < |bytes| - 1 ==> bytes[i + 1] == bytes[1..][i] && plan[i + 1] == plan[1..][i];
    }
  }

  // ---------- nor do quoted bytes ----------

  predicate IsSign(b: Byte) {
    b == PLUS || b == MINUS
  }

  /** Three digits, the first of which may be a sign. */
  predicate IsNumber(s: seq<Byte>) {
    |s| == 3 && (IsDigit(s[0]) || IsSign(s[0])) && IsDigit(s[1]) && IsDigit(s[2])
  }

  /** The byte that a number stands for, modulo 256. */
  function NumberByte(s: seq<Byte>): Byte
    requires IsNumber(s)
  {
    var a: int, b: int, c: int := s[0], s[1], s[2];
    var low := 10 * (b - 48) + (c - 48);
    if s[0] == PLUS then low else if s[0] == MINUS then (256 - low) % 256 else (100 * (a - 48) + low) % 256
  }

  lemma NumberByteIs(s: seq<Byte>)
    requires IsNumber(s)
    ensures Atoi(s).Some? && LowByte(Atoi(s).value) == NumberByte(s)
  {
    var b: int, c: int := s[1], s[2];
    var low := 10 * (b - 48) + (c - 48);
    assert 0 <= low < 100;
    assert low % 256 == low;
    assert (-low) % 256 == (256 - low) % 256;
  }

  /** A backslash is dropped exactly when a number of three bytes follows it, and
      the number with it; otherwise it is kept. So where section 5.1 of RFC 1035
      drops the backslash before a character that is no digit, here it is kept
      unless that character is the sign of a number. */
  lemma BackslashIsKept(rest: seq<Byte>, pending: seq<Byte>)
    ensures var v := [BACKSLASH] + rest;
            if |rest| >= 3 && IsNumber(rest[..3]) then
              && Atoi(rest[..3]).Some?
              && LowByte(Atoi(rest[..3]).value) == NumberByte(rest[..3])
              && DecodeRest(v, pending) == DecodeRest(rest[3..], pending + [LowByte(Atoi(rest[..3]).value)])
            else
              DecodeRest(v, pending) == DecodeAll(pending) + [BACKSLASH] + DecodeRest(rest, [])
  {
    hide DecodeAll;
    var v := [BACKSLASH] + rest;
    assert v[1..] == rest;
    if |rest| >= 3 {
      assert v[1..4] == rest[..3] && v[4..] == rest[3..];
      if IsNumber(rest[..3]) { NumberByteIs(rest[..3]); }
    }
  }

  /** How many elements are of the given kinds. */
  function Count(s: seq<int>, kinds: set<int>): nat {
    if s == [] then 0 else (if s[0] in kinds then 1 else 0) + Count(s[1..], kinds)
  }

  lemma {:induction false} CountConcat(a: seq<int>, b: seq<int>, kinds: set<int>)
    ensures Count(a + b, kinds) == Count(a, kinds) + Count(b, kinds)
  {
    if a == [] {
      assert a + b == b;
    } else {
      CountConcat(a[1..], b, kinds);
      assert (a + b)[1..] == a[1..] + b;
    }
  }

  ghost predicate Ascii(kinds: set<int>) {
    forall b :: b in kinds ==> 0 <= b < 0x80
  }

  /** Reading runes neither makes nor loses ASCII characters. */
  lemma {:induction false} DecodingKeepsAscii(p: seq<Byte>, kinds: set<int>)
    requires Ascii(kinds)
    ensures Count(DecodeAll(p), kinds) == Count(p, kinds)
    decreases |p|
  {
    if p != [] {
      DecodeRuneAdvances(p);
      var (r, n) := DecodeRune(p);
      DecodedRuneKeepsAscii(p, kinds);
      DecodingKeepsAscii(p[n..], kinds);
      assert p == p[..n] + p[n..];
      CountConcat(p[..n], p[n..], kinds);
      CountConcat([r], DecodeAll(p[n..]), kinds);
    }
  }

  lemma DecodedRuneKeepsAscii(p: seq<Byte>, kinds: set<int>)
    requires Ascii(kinds) && p != []
    ensures 0 < DecodeRune(p).1 <= |p|
    ensures Count(p[..DecodeRune(p).1], kinds) == Count([DecodeRune(p).0], kinds)
  {
    var (r, n) := DecodeRune(p);
    if n == 1 {
      assert p[..1] == [p[0]];
    } else {
      NoneCounted(p[..n], kinds);
      NoneCounted([r], kinds);
    }
  }

  lemma {:induction false} NoneCounted(s: seq<int>, kinds: set<int>)
    requires Ascii(kinds) && forall i :: 0 <= i < |s| ==> s[i] >= 0x80
    ensures Count(s, kinds) == 0
  {
    if s != [] { NoneCounted(s[1..], kinds); }
  }

  lemma {:induction false} WritingKeepsAscii(runes: seq<Rune>, kinds: set<int>)
    requires Ascii(kinds)
    ensures Count(Utf8(runes), kinds) == Count(runes, kinds)
  {
    if runes != [] {
      var e := EncodeRune(runes[0]);
      CountConcat(e, Utf8(runes[1..]), kinds);
      if !(0 <= runes[0] < 0x80) { NoneCounted(e, kinds); }
      WritingKeepsAscii(runes[1..], kinds);
    }
  }

  const NUMERIC: set<int> := {48, 49, 50, 51, 52, 53, 54, 55, 56, 57, PLUS, MINUS}

  function Numerics(s: seq<int>): nat {
    Count(s, NUMERIC)
  }

  function Backslashes(s: seq<int>): nat {
    Count(s, {BACKSLASH})
  }

  lemma Tally(a: seq<int>, b: seq<int>)
    ensures Numerics(a + b) == Numerics(a) + Numerics(b)
    ensures Backslashes(a + b) == Backslashes(a) + Backslashes(b)
  {
    CountConcat(a, b, NUMERIC);
    CountConcat(a, b, {BACKSLASH});
  }

  lemma TallyOne(b: int)
    ensures Numerics([b]) == if b in NUMERIC then 1 else 0
    ensures Backslashes([b]) == if b == BACKSLASH then 1 else 0
  {
    CountOne(b, NUMERIC);
    CountOne(b, {BACKSLASH});
  }

  lemma CountOne(b: int, kinds: set<int>)
    ensures Count([b], kinds) == if b in kinds then 1 else 0
  {
    assert Count([b][1..], kinds) == 0;
  }

  lemma TallyDecoded(p: seq<Byte>)
    ensures Numerics(DecodeAll(p)) == Numerics(p) && Backslashes(DecodeAll(p)) == Backslashes(p)
  {
    DecodingKeepsAscii(p, NUMERIC);
    DecodingKeepsAscii(p, {BACKSLASH});
  }

  lemma TallyNumber(number: seq<Byte>)
    requires IsNumber(number)
    ensures Numerics(number) == 3 && Backslashes(number) == 0
  {
    assert number == [number[0]] + ([number[1]] + [number[2]]);
    Tally([number[0]], [number[1]] + [number[2]]);
    Tally([number[1]], [number[2]]);
    TallyOne(number[0]);
    TallyOne(number[1]);
    TallyOne(number[2]);
  }

  /** A result with no more digits and signs than what was written, and no fewer
      backslashes; one of them differs if something was quoted. */
  ghost predicate Miscounts(result: seq<int>, given: seq<int>, quoted: bool) {
    && Numerics(result) <= Numerics(given)
    && Backslashes(result) >= Backslashes(given)
    && (quoted ==> Numerics(result) < Numerics(given) || Backslashes(result) > Backslashes(given))
  }

  /** What is written without a backslash is raw. */
  lemma {:induction false} RawAhead(bytes: seq<Byte>, plan: seq<Form>, k: nat)
    requires |bytes| == |plan| && k <= |Write(bytes, plan)|
    requires forall i :: 0 <= i < k ==> Write(bytes, plan)[i] != BACKSLASH
    ensures k <= |bytes| && Write(bytes, plan)[..k] == bytes[..k]
    ensures Write(bytes[k..], plan[k..]) == Write(bytes, plan)[k..]
  {
    hide Write;
    if k > 0 {
      RawHead(bytes, plan);
      var all, rest := Write(bytes, plan), Write(bytes[1..], plan[1..]);
      assert forall i :: 0 <= i < k - 1 ==> rest[i] == all[i + 1];
      RawAhead(bytes[1..], plan[1..], k - 1);
      assert bytes[1..][k - 1..] == bytes[k..] && plan[1..][k - 1..] == plan[k..];
      assert bytes[..k] == [bytes[0]] + bytes[1..][..k - 1];
      assert all[..k] == [bytes[0]] + rest[..k - 1] && all[k..] == rest[k - 1..];
    } else {
      assert bytes[0..] == bytes && plan[0..] == plan;
    }
  }

  lemma RawHead(bytes: seq<Byte>, plan: seq<Form>)
    requires |bytes| == |plan| && Write(bytes, plan) != [] && Write(bytes, plan)[0] != BACKSLASH
    ensures bytes != [] && Write(bytes, plan) == [bytes[0]] + Write(bytes[1..], plan[1..])
  {
    assert Write(bytes, plan)[0] == Written(bytes[0], plan[0])[0];
  }

  lemma KeptMiscounts(p: seq<Byte>, shown: seq<Rune>, tail: seq<Rune>, b: seq<Byte>, rest: seq<Byte>, quoted: bool)
    requires Miscounts(tail, rest, quoted)
    requires Numerics(shown) <= Numerics(b) && Backslashes(shown) >= Backslashes(b)
    ensures Miscounts(DecodeAll(p) + shown + tail, p + (b + rest), quoted)
    ensures Numerics(shown) < Numerics(b) || Backslashes(shown) > Backslashes(b) ==>
              Miscounts(DecodeAll(p) + shown + tail, p + (b + rest), true)
  {
    hide Numerics, Backslashes, DecodeAll;
    TallyDecoded(p);
    Tally(DecodeAll(p) + shown, tail);
    Tally(DecodeAll(p), shown);
    Tally(p, b + rest);
    Tally(b, rest);
  }

  /** A number that is read as one byte. */
  lemma NumberMiscounts(result: seq<Rune>, p: seq<Byte>, b: Byte, number: seq<Byte>, rest: seq<Byte>, quoted: bool)
    requires IsNumber(number) && Miscounts(result, p + [b] + rest, quoted)
    ensures Numerics(result) < Numerics(p + (number + rest))
    ensures Backslashes(result) >= Backslashes(p + (number + rest))
  {
    hide Numerics, Backslashes, IsNumber;
    TallyNumber(number);
    Tally(p + [b], rest);
    Tally(p, [b]);
    TallyOne(b);
    Tally(p, number + rest);
    Tally(number, rest);
  }

  /** In a plan, a number behind a quoted sign or backslash is raw. */
  lemma NumberAhead(bytes: seq<Byte>, plan: seq<Form>, k: nat)
    requires Plan(bytes, plan) && k <= |Write(bytes, plan)|
    requires forall i :: 0 <= i < k ==> IsDigit(Write(bytes, plan)[i]) || IsSign(Write(bytes, plan)[i])
    ensures k <= |bytes| && bytes == Write(bytes, plan)[..k] + bytes[k..]
    ensures Plan(bytes[k..], plan[k..]) && Write(bytes[k..], plan[k..]) == Write(bytes, plan)[k..]
  {
    hide Write;
    RawAhead(bytes, plan, k);
  }

  lemma {:induction false} PlanMiscounts(bytes: seq<Byte>, plan: seq<Form>, pending: seq<Byte>)
    requires Plan(bytes, plan)
    ensures Miscounts(DecodeRest(Write(bytes, plan), pending), pending + bytes, Quoted in plan)
    decreases |bytes|
  {
    hide Miscounts, DecodeRest, DecodeAll, Numerics, Backslashes, IsNumber, Escape;
    if bytes == [] {
      assert pending + bytes == pending;
      NothingMiscounts(pending);
    } else {
      var b, rest, tail := bytes[0], Write(bytes[1..], plan[1..]), plan[1..];
      assert Plan(bytes[1..], tail);
      assert bytes == [b] + bytes[1..] && plan == [plan[0]] + tail;
      assert [] + bytes[1..] == bytes[1..];
      match plan[0]
      case Escaped =>
        ReadEscape(b, rest, pending);
        PlanMiscounts(bytes[1..], tail, pending + [b]);
        assert pending + [b] + bytes[1..] == pending + bytes;
      case Raw =>
        ReadRaw(b, rest, pending);
        PlanMiscounts(bytes[1..], tail, []);
        KeptMiscounts(pending, [b], DecodeRest(rest, []), [b], bytes[1..], Quoted in tail);
      case Quoted =>
        if b == BACKSLASH { QuotedBackslash(bytes, plan, pending); } else { QuotedOther(bytes, plan, pending); }
    }
  }

  lemma NothingMiscounts(pending: seq<Byte>)
    ensures Miscounts(DecodeRest([], pending), pending, false)
  {
    TallyDecoded(pending);
  }

  lemma QuotedOther(bytes: seq<Byte>, plan: seq<Form>, pending: seq<Byte>)
    requires Plan(bytes, plan) && bytes != [] && plan[0] == Quoted && bytes[0] != BACKSLASH
    ensures Miscounts(DecodeRest(Write(bytes, plan), pending), pending + bytes, true)
    decreases |bytes|, 0
  {
    hide Miscounts, DecodeRest, DecodeAll, Numerics, Backslashes, Escape, IsNumber;
    var b, more, tail := bytes[0], bytes[1..], plan[1..];
    assert Plan(more, tail);
    var rest := Write(more, tail);
    assert Write(bytes, plan) == [BACKSLASH] + ([b] + rest);
    BackslashIsKept([b] + rest, pending);
    if |rest| >= 2 && IsNumber([b] + rest[..2]) {
      assert ([b] + rest)[..3] == [b] + rest[..2] && ([b] + rest)[3..] == rest[2..];
      QuotedSign(b, more, tail, pending, LowByte(Atoi([b] + rest[..2]).value));
      assert [b] + more == bytes;
    } else {
      assert |rest| >= 2 ==> ([b] + rest)[..3] == [b] + rest[..2];
      ReadRaw(b, rest, []);
      PlanMiscounts(more, tail, []);
      assert [] + more == more && [b] + more == bytes;
      ShownToo(b, DecodeRest(rest, []), pending, DecodeRest(Write(bytes, plan), pending));
      TallyTwo(b);
      KeptMiscounts(pending, [BACKSLASH, b], DecodeRest(rest, []), [b], more, Quoted in tail);
    }
  }

  lemma QuotedSign(b: Byte, more: seq<Byte>, tail: seq<Form>, pending: seq<Byte>, x: Byte)
    requires Plan(more, tail)
    requires |Write(more, tail)| >= 2 && IsNumber([b] + Write(more, tail)[..2])
    ensures Miscounts(DecodeRest(Write(more, tail)[2..], pending + [x]), pending + ([b] + more), true)
    decreases |more|, 1
  {
    hide Miscounts, DecodeRest, Numerics, Backslashes, IsNumber, Write;
    var rest := Write(more, tail);
    NumberDigits(b, rest[..2]);
    NumberAhead(more, tail, 2);
    PlanMiscounts(more[2..], tail[2..], pending + [x]);
    var read := DecodeRest(rest[2..], pending + [x]);
    NumberMiscounts(read, pending, x, [b] + rest[..2], more[2..], Quoted in tail[2..]);
    assert [b] + rest[..2] + more[2..] == [b] + more;
    FewerNumerics(read, pending + ([b] + more));
  }

  lemma NumberDigits(sign: Byte, digits: seq<Byte>)
    requires |digits| == 2 && IsNumber([sign] + digits)
    ensures IsDigit(digits[0]) && IsDigit(digits[1])
  {
    assert ([sign] + digits)[1] == digits[0] && ([sign] + digits)[2] == digits[1];
  }

  lemma FewerNumerics(result: seq<int>, given: seq<int>)
    requires Numerics(result) < Numerics(given) && Backslashes(result) >= Backslashes(given)
    ensures Miscounts(result, given, true)
  {
  }

  lemma TallyTwo(b: Byte)
    ensures Numerics([BACKSLASH, b]) <= Numerics([b]) && Backslashes([BACKSLASH, b]) > Backslashes([b])
  {
    Tally([BACKSLASH], [b]);
    TallyOne(BACKSLASH);
    assert [BACKSLASH] + [b] == [BACKSLASH, b];
  }

  lemma ShownToo(b: Byte, tail: seq<Rune>, pending: seq<Byte>, read: seq<Rune>)
    requires read == DecodeAll(pending) + [BACKSLASH] + (DecodeAll([]) + [b] + tail)
    ensures read == DecodeAll(pending) + [BACKSLASH, b] + tail
  {
  }

  lemma QuotedBackslash(bytes: seq<Byte>, plan: seq<Form>, pending: seq<Byte>)
    requires Plan(bytes, plan) && bytes != [] && plan[0] == Quoted && bytes[0] == BACKSLASH
    ensures Miscounts(DecodeRest(Write(bytes, plan), pending), pending + bytes, true)
    decreases |bytes|, 0
  {
    hide Miscounts, DecodeRest, DecodeAll, Numerics, Backslashes, Escape;
    var rest := Write(bytes[1..], plan[1..]);
    var read := DecodeRest(Write(bytes, plan), pending);
    assert Plan(bytes[1..], plan[1..]);
    assert Write(bytes, plan) == [BACKSLASH] + ([BACKSLASH] + rest) && bytes == [BACKSLASH] + bytes[1..];
    BackslashIsKept([BACKSLASH] + rest, pending);
    BackslashIsKept(rest, []);
    if |rest| >= 3 && IsNumber(rest[..3]) {
      var x := LowByte(Atoi(rest[..3]).value);
      NumberAhead(bytes[1..], plan[1..], 3);
      var more := bytes[1..][3..];
      PlanMiscounts(more, plan[1..][3..], [] + [x]);
      var tail := DecodeRest(rest[3..], [] + [x]);
      NumberMiscounts(tail, [], x, rest[..3], more, Quoted in plan[1..][3..]);
      assert [] + (rest[..3] + more) == bytes[1..];
      FewerNumerics(tail, bytes[1..]);
      KeptMiscounts(pending, [BACKSLASH], tail, [BACKSLASH], bytes[1..], true);
    } else {
      PlanMiscounts(bytes[1..], plan[1..], []);
      assert [] + bytes[1..] == bytes[1..];
      ShownToo(BACKSLASH, DecodeRest(rest, []), pending, read);
      TallyTwo(BACKSLASH);
      KeptMiscounts(pending, [BACKSLASH, BACKSLASH], DecodeRest(rest, []), [BACKSLASH], bytes[1..],
                    Quoted in plan[1..]);
    }
  }

  /** What was written with a quoted byte never reads back. */
  lemma QuotedDoesNotReadBack(bytes: seq<Byte>, plan: seq<Form>)
    requires Plan(bytes, plan) && Quoted in plan
    ensures Decoded(Write(bytes, plan)) != bytes
  {
    hide DecodeRest, Count, Plan, Write, Utf8;
    WriteHasBackslash(bytes, plan);
    var read := DecodeRest(Write(bytes, plan), []);
    PlanMiscounts(bytes, plan, []);
    assert [] + bytes == bytes;
    WritingKeepsAscii(read, NUMERIC);
    WritingKeepsAscii(read, {BACKSLASH});
  }

  // ---------- the round trip ----------

  lemma {:induction false} WriteHasBackslash(bytes: seq<Byte>, plan: seq<Form>)
    requires Plan(bytes, plan)
    ensures |bytes| == |plan| && (BACKSLASH in Write(bytes, plan) <==> !AllRaw(plan))
    ensures AllRaw(plan) ==> Write(bytes, plan) == bytes
  {
    if bytes != [] {
      assert Plan(bytes[1..], plan[1..]);
      WriteHasBackslash(bytes[1..], plan[1..]);
      assert plan == [plan[0]] + plan[1..] && bytes == [bytes[0]] + bytes[1..];
      assert forall i :: 0 < i < |plan| ==> plan[i] == plan[1..][i - 1];
      if plan[0] != Raw { assert Written(bytes[0], plan[0])[0] == BACKSLASH; }
    }
  }

  lemma QuotedIsUnreadable(bytes: seq<Byte>, plan: seq<Form>)
    requires |bytes| == |plan| && Quoted in plan
    ensures !Readable(bytes, plan)
  {
    var i :| 0 <= i < |plan| && plan[i] == Quoted;
  }

  /** For every text and every plan, decoding what was written gives the text
      back exactly when every byte was written raw, or nothing was quoted and
      every byte above ASCII was escaped. */
  lemma RoundTrip(text: seq<Rune>, plan: seq<Form>)
    requires Text(text) && Plan(Utf8(text), plan)
    ensures Decoded(Write(Utf8(text), plan)) == Utf8(text) <==>
            AllRaw(plan) || Readable(Utf8(text), plan)
  {
    hide DecodeRest, Plan, Write, Utf8, Readable, AllRaw;
    var bytes := Utf8(text);
    WriteHasBackslash(bytes, plan);
    if !AllRaw(plan) {
      assert Utf8([]) == [] by { NoRunes(); }
      if Quoted in plan {
        QuotedDoesNotReadBack(bytes, plan);
        QuotedIsUnreadable(bytes, plan);
      } else if Readable(bytes, plan) {
        ReadText(text, plan, []);
        assert [] + text == text;
      } else {
        SomeRawNonAscii(bytes, plan);
        RawNonAsciiGrows(bytes, plan, []);
      }
    }
  }

  /** Writing exactly the non-ASCII bytes and the backslashes as \DDD always
      round-trips. */
  lemma EscapedTextRoundTrips(text: seq<Rune>)
    requires Text(text)
    ensures var bytes := Utf8(text);
            var plan := seq(|bytes|, i requires 0 <= i < |bytes| =>
                                       if bytes[i] >= 0x80 || bytes[i] == BACKSLASH then Escaped else Raw);
            Decoded(Write(bytes, plan)) == bytes
  {
    hide Decoded, Write, Text;
    var bytes := Utf8(text);
    RoundTrip(text, seq(|bytes|, i requires 0 <= i < |bytes| =>
                                   if bytes[i] >= 0x80 || bytes[i] == BACKSLASH then Escaped else Raw));
  }

  /** A quoted sign with two digits behind it is read as one byte: of \+12 only
      the byte 12 is left, and \-05 leaves one that is no character. */
  lemma SignedNumbersAreBytes(a: Byte, b: Byte)
    requires a < 10 && b < 10
    ensures Decoded([BACKSLASH, PLUS, DIGIT_0 + a, DIGIT_0 + b]) == [10 * a + b]
    ensures Decoded([BACKSLASH, MINUS, DIGIT_0 + a, DIGIT_0 + b]) ==
            if a == b == 0 then [0] else EncodeRune(RUNE_ERROR)
  {
    hide DecodeAll, Decoded, Utf8, EncodeRune, LowByte;
    ReadSigned(PLUS, a, b, 10 * a + b);
    ReadSigned(MINUS, a, b, -(10 * a + b));
    OneByte(10 * a + b);
    OneByte(LowByte(-(10 * a + b)));
    AsciiIsItself(10 * a + b);
    MinusByte(10 * a + b);
  }

  lemma MinusByte(n: int)
    requires 0 <= n < 100
    ensures LowByte(n) == n
    ensures if n == 0 then LowByte(-n) == 0 else LowByte(-n) == 256 - n
  {
  }

  lemma ReadSigned(sign: Byte, a: Byte, b: Byte, n: int)
    requires a < 10 && b < 10 && Atoi([sign, DIGIT_0 + a, DIGIT_0 + b]) == Some(n)
    ensures Decoded([BACKSLASH, sign, DIGIT_0 + a, DIGIT_0 + b]) == Utf8(DecodeAll([LowByte(n)]))
  {
    hide DecodeAll, Atoi, Utf8, LowByte;
    var v := [BACKSLASH, sign, DIGIT_0 + a, DIGIT_0 + b];
    assert v[1..4] == [sign, DIGIT_0 + a, DIGIT_0 + b];
    StepEscape(v, []);
    assert v[4..] == [] && [] + [LowByte(n)] == [LowByte(n)];
  }

  lemma OneByte(b: Byte)
    ensures Utf8(DecodeAll([b])) == EncodeRune(if b < 0x80 then b else RUNE_ERROR)
  {
    assert DecodeRune([b]).1 == 1 && [b][1..] == [];
    assert DecodeAll([b]) == [DecodeRune([b]).0] + DecodeAll([]);
    Utf8One(DecodeRune([b]).0);
  }
}
