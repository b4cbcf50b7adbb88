/** Decoding of mDNS names: \DDD escapes give bytes, bytes give runes. */
module Dns {
  import opened Wrappers

  type Byte = b: int | 0 <= b < 256
  type Rune = int

  const BACKSLASH: Byte := 92
  const DIGIT_0: Byte := 48
  const PLUS: Byte := 43
  const MINUS: Byte := 45
  const RUNE_ERROR: Rune := 0xFFFD

  // ---------- UTF-8, section 3 of RFC 3629 ----------

  predicate Scalar(r: Rune) {
    0 <= r < 0xD800 || 0xE000 <= r <= 0x10FFFF
  }

  /** Go writes a rune that is no scalar value as U+FFFD. */
  function EncodeRune(r: Rune): seq<Byte> {
    if 0 <= r < 0x80 then [r]
    else if 0 <= r < 0x800 then [0xC0 + r / 64, 0x80 + r % 64]
    else if !Scalar(r) then [0xEF, 0xBF, 0xBD]
    else if r < 0x1_0000 then [0xE0 + r / 4096, 0x80 + r / 64 % 64, 0x80 + r % 64]
    else [0xF0 + r / 262144, 0x80 + r / 4096 % 64, 0x80 + r / 64 % 64, 0x80 + r % 64]
  }

  function Utf8(text: seq<Rune>): seq<Byte> {
    if text == [] then [] else EncodeRune(text[0]) + Utf8(text[1..])
  }

  predicate Continues(b: Byte) {
    0x80 <= b <= 0xBF
  }

  /** The length that a first byte announces; 0 if no sequence starts with it. */
  function SequenceLength(b: Byte): nat {
    if b < 0x80 then 1
    else if 0xC2 <= b <= 0xDF then 2
    else if 0xE0 <= b <= 0xEF then 3
    else if 0xF0 <= b <= 0xF4 then 4
    else 0
  }

  /** Second bytes that keep a sequence shortest, in range and out of the
      surrogates. */
  predicate AcceptsSecond(first: Byte, second: Byte) {
    && Continues(second)
    && (first == 0xE0 ==> second >= 0xA0)
    && (first == 0xED ==> second <= 0x9F)
    && (first == 0xF0 ==> second >= 0x90)
    && (first == 0xF4 ==> second <= 0x8F)
  }

  function Join2(a: int, b: int): Rune {
    (a - 0xC0) * 64 + (b - 0x80)
  }

  function Join3(a: int, b: int, c: int): Rune {
    (a - 0xE0) * 4096 + (b - 0x80) * 64 + (c - 0x80)
  }

  function Join4(a: int, b: int, c: int, d: int): Rune {
    (a - 0xF0) * 262144 + (b - 0x80) * 4096 + (c - 0x80) * 64 + (d - 0x80)
  }

  /** utf8.DecodeRune: the first rune and the number of bytes it takes; anything
      malformed is one byte of U+FFFD. */
  function DecodeRune(p: seq<Byte>): (Rune, nat)
    requires p != []
  {
    var n := SequenceLength(p[0]);
    if n == 1 then (p[0], 1)
    else if n == 0 || |p| < n || !AcceptsSecond(p[0], p[1]) then (RUNE_ERROR, 1)
    else if n == 2 then (Join2(p[0], p[1]), 2)
    else if !Continues(p[2]) then (RUNE_ERROR, 1)
    else if n == 3 then (Join3(p[0], p[1], p[2]), 3)
    else if !Continues(p[3]) then (RUNE_ERROR, 1)
    else (Join4(p[0], p[1], p[2], p[3]), 4)
  }

  lemma DecodeRuneAdvances(p: seq<Byte>)
    requires p != []
    ensures 0 < DecodeRune(p).1 <= |p|
  {
  }

  /** All runes of a string of bytes. */
  function DecodeAll(p: seq<Byte>): seq<Rune> {
    if p == [] then []
    else
      DecodeRuneAdvances(p);
      [DecodeRune(p).0] + DecodeAll(p[DecodeRune(p).1..])
  }

  // ---------- decode ----------

  predicate IsDigit(b: Byte) {
    DIGIT_0 <= b <= DIGIT_0 + 9
  }

  /** strconv.Atoi on three bytes: digits, the first of which may be a sign. */
  function Atoi(s: seq<Byte>): Option<int>
    requires |s| == 3
  {
    if !IsDigit(s[1]) || !IsDigit(s[2]) then None
    else
      var low := (s[1] - DIGIT_0) * 10 + (s[2] - DIGIT_0);
      if IsDigit(s[0]) then Some((s[0] - DIGIT_0) * 100 + low)
      else if s[0] == PLUS then Some(low)
      else if s[0] == MINUS then Some(-low)
      else None
  }

  /** Go's conversion of an int to a byte keeps the low eight bits. */
  function LowByte(v: int): Byte {
    v % 256
  }

  predicate StartsEscape(v: seq<Byte>) {
    |v| > 3 && v[0] == BACKSLASH && Atoi(v[1..4]).Some?
  }

  /** The runes of what is left of the value, with escaped bytes pending. */
  function DecodeRest(v: seq<Byte>, pending: seq<Byte>): seq<Rune> {
    if v == [] then DecodeAll(pending)
    else if StartsEscape(v) then DecodeRest(v[4..], pending + [LowByte(Atoi(v[1..4]).value)])
    else DecodeAll(pending) + [v[0]] + DecodeRest(v[1..], [])
  }

  function Decoded(v: seq<Byte>): seq<Byte> {
    if BACKSLASH !in v then v else Utf8(DecodeRest(v, []))
  }

  /** Turns the pending bytes into runes, behind those there are. */
  method DecodeRunes(r: seq<Rune>, toDecode: seq<Byte>) returns (r': seq<Rune>)
    ensures r' == r + DecodeAll(toDecode)
  {
    r' := r;
    var rest := toDecode;
    while |rest| > 0
      invariant r' + DecodeAll(rest) == r + DecodeAll(toDecode)
      decreases |rest|
    {
      DecodeRuneAdvances(rest);
      var (rr, size) := DecodeRune(rest);
      ghost var before := r' + DecodeAll(rest);
      r' := r' + [rr];
      rest := rest[size..];
      assert before == r' + DecodeAll(rest);
    }
  }

  lemma Slices(val: seq<Byte>, i: nat)
    requires i + 3 < |val|
    ensures val[i..][1..4] == val[i + 1..i + 4] && val[i..][4..] == val[i + 4..]
  {
  }

  lemma StepEscape(v: seq<Byte>, pending: seq<Byte>)
    requires StartsEscape(v)
    ensures DecodeRest(v, pending) == DecodeRest(v[4..], pending + [LowByte(Atoi(v[1..4]).value)])
  {
  }

  lemma StepRaw(v: seq<Byte>, pending: seq<Byte>, r: seq<Rune>)
    requires v != [] && !StartsEscape(v)
    ensures r + DecodeRest(v, pending) == r + DecodeAll(pending) + [v[0]] + DecodeRest(v[1..], [])
  {
  }

  method Decode(val: seq<Byte>) returns (decoded: seq<Byte>)
    ensures decoded == Decoded(val)
  {
    if BACKSLASH !in val {
      return val;
    }
    var r: seq<Rune> := [];
    var toDecode: seq<Byte> := [];
    var i := 0;
    while i < |val|
      invariant 0 <= i <= |val|
      invariant r + DecodeRest(val[i..], toDecode) == DecodeRest(val, [])
    {
      hide DecodeRest, DecodeAll, LowByte, Atoi;
      ghost var v := val[i..];
      assert v[1..] == val[i + 1..];
      if val[i] == BACKSLASH {
        if i + 3 < |val| {
          Slices(val, i);
          var n := Atoi(val[i + 1..i + 4]);
          if n.Some? {
            StepEscape(v, toDecode);
            toDecode := toDecode + [LowByte(n.value)];
            i := i + 4;
            continue;
          }
        }
      }
      StepRaw(v, toDecode, r);
      r := DecodeRunes(r, toDecode);
      toDecode := [];
      r := r + [val[i]];
      i := i + 1;
    }
    assert val[|val|..] == [];
    r := DecodeRunes(r, toDecode);
    decoded := Utf8(r);
  }
}
