/** `String.getBytes(UTF_8)` of UTF-16 code units: sections 3 and 4 of RFC 3629. */
module Utf8 {
  import opened Bits
  import opened MiniJson

  predicate High(c: Unit) {
    0xD800 <= c < 0xDC00
  }

  predicate Low(c: Unit) {
    0xDC00 <= c < 0xE000
  }

  /** The code point of a surrogate pair. */
  function Paired(high: Unit, low: Unit): (n: nat)
    requires High(high) && Low(low)
    ensures 0x1_0000 <= n < 0x11_0000
  {
    0x1_0000 + (high - 0xD800) as nat * 0x400 + (low - 0xDC00) as nat
  }

  function Octet(n: nat): Byte
    requires n < 256
  {
    n as Byte
  }

  /** Six bits in a byte that continues a sequence. */
  function Continuation(n: nat): Byte {
    Octet(0x80 + n % 0x40)
  }

  function CodePoint(n: nat): (s: seq<Byte>)
    requires n < 0x11_0000
    ensures n < 0x80 ==> s == [Octet(n)]
    ensures |s| >= (if n < 0x1_0000 then 1 else 4)
  {
    if n < 0x80 then [Octet(n)]
    else if n < 0x800 then [Octet(0xC0 + n / 0x40), Continuation(n)]
    else if n < 0x1_0000 then [Octet(0xE0 + n / 0x1000), Continuation(n / 0x40), Continuation(n)]
    else [Octet(0xF0 + n / 0x4_0000), Continuation(n / 0x1000), Continuation(n / 0x40), Continuation(n)]
  }

  /** A surrogate without its other half becomes a question mark. */
  function Encode(t: Text): seq<Byte> {
    if t == [] then []
    else if High(t[0]) && |t| > 1 && Low(t[1]) then CodePoint(Paired(t[0], t[1])) + Encode(t[2..])
    else if High(t[0]) || Low(t[0]) then [0x3F] + Encode(t[1..])
    else CodePoint(t[0] as nat) + Encode(t[1..])
  }

  lemma {:induction false} NotShorter(t: Text)
    ensures |Encode(t)| >= |t|
  {
    if t != [] {
      NotShorter(t[1..]);
      if |t| > 1 {
        NotShorter(t[2..]);
      }
    }
  }

  lemma LastOfConcat(a: seq<Byte>, b: seq<Byte>)
    requires b != []
    ensures (a + b)[|a + b| - 1] == b[|b| - 1]
  {
  }

  lemma {:induction false} AsciiStart(t: Text)
    requires t != []
    ensures Encode(t) != []
    ensures t[0] < 0x80 ==> Encode(t)[0] == t[0] as int as Byte
  {
  }

  lemma {:induction false} AsciiEnd(t: Text)
    requires t != [] && t[|t| - 1] < 0x80
    ensures Encode(t) != [] && Encode(t)[|Encode(t)| - 1] == t[|t| - 1] as int as Byte
  {
    if |t| == 1 {
      assert Encode(t[1..]) == [];
      assert Encode(t) == CodePoint(t[0] as nat) + [];
    } else if High(t[0]) && Low(t[1]) {
      AsciiEnd(t[2..]);
      LastOfConcat(CodePoint(Paired(t[0], t[1])), Encode(t[2..]));
    } else {
      AsciiEnd(t[1..]);
      LastOfConcat(if High(t[0]) || Low(t[0]) then [0x3F] else CodePoint(t[0] as nat), Encode(t[1..]));
    }
  }

  // ---- Decoding ----

  function Six(b: Byte): (n: nat)
    ensures n < 0x40
  {
    b as nat % 0x40
  }

  /** The code units of a code point. */
  function Units(n: nat): (t: Text)
    requires n < 0x11_0000
    ensures t != []
  {
    if n < 0x1_0000 then [n as Unit]
    else [(0xD800 + (n - 0x1_0000) / 0x400) as Unit, (0xDC00 + (n - 0x1_0000) % 0x400) as Unit]
  }

  function UnitsOrMark(n: nat): Text {
    if n < 0x11_0000 then Units(n) else [0x3F]
  }

  /** Reads sequences by their first bytes. */
  function Decode(s: seq<Byte>): Text {
    if s == [] then []
    else
      var b := s[0] as nat;
      if b < 0x80 then Units(b) + Decode(s[1..])
      else if 0xC0 <= b < 0xE0 && |s| >= 2 then UnitsOrMark((b - 0xC0) * 0x40 + Six(s[1])) + Decode(s[2..])
      else if 0xE0 <= b < 0xF0 && |s| >= 3 then
        UnitsOrMark((b - 0xE0) * 0x1000 + Six(s[1]) * 0x40 + Six(s[2])) + Decode(s[3..])
      else if 0xF0 <= b && |s| >= 4 then
        UnitsOrMark((b - 0xF0) * 0x4_0000 + Six(s[1]) * 0x1000 + Six(s[2]) * 0x40 + Six(s[3])) + Decode(s[4..])
      else [0x3F] + Decode(s[1..])
  }

  lemma SixOfContinuation(n: nat)
    ensures Six(Continuation(n)) == n % 0x40
  {
    var r := n % 0x40;
    assert (0x80 + r) % 0x40 == r;
  }

  lemma SplitSixes(n: nat)
    ensures n == n / 0x40 * 0x40 + n % 0x40
    ensures n == n / 0x1000 * 0x1000 + n / 0x40 % 0x40 * 0x40 + n % 0x40
    ensures n == n / 0x4_0000 * 0x4_0000 + n / 0x1000 % 0x40 * 0x1000 + n / 0x40 % 0x40 * 0x40 + n % 0x40
  {
    assert n / 0x40 / 0x40 == n / 0x1000;
    assert n / 0x1000 / 0x40 == n / 0x4_0000;
  }

  lemma {:induction false} CodePointRead(n: nat, rest: seq<Byte>)
    requires n < 0x11_0000
    ensures Decode(CodePoint(n) + rest) == Units(n) + Decode(rest)
  {
    var s := CodePoint(n) + rest;
    SplitSixes(n);
    SixOfContinuation(n);
    SixOfContinuation(n / 0x40);
    SixOfContinuation(n / 0x1000);
    assert s[|CodePoint(n)|..] == rest;
  }

  /** The text with a question mark for each surrogate without its other half. */
  function WellFormed(t: Text): Text {
    if t == [] then []
    else if High(t[0]) && |t| > 1 && Low(t[1]) then [t[0], t[1]] + WellFormed(t[2..])
    else if High(t[0]) || Low(t[0]) then [0x3F] + WellFormed(t[1..])
    else [t[0]] + WellFormed(t[1..])
  }

  lemma PairRead(high: Unit, low: Unit)
    requires High(high) && Low(low)
    ensures Units(Paired(high, low)) == [high, low]
  {
    var n := (high - 0xD800) as nat * 0x400 + (low - 0xDC00) as nat;
    assert n / 0x400 == (high - 0xD800) as nat && n % 0x400 == (low - 0xDC00) as nat;
  }

  /** Main result: decoding the bytes of a text gives it back, but for lone surrogates. */
  lemma {:induction false} DecodeUndoesEncode(t: Text)
    ensures Decode(Encode(t)) == WellFormed(t)
  {
    if t != [] {
      if High(t[0]) && |t| > 1 && Low(t[1]) {
        DecodeUndoesEncode(t[2..]);
        PairRead(t[0], t[1]);
        CodePointRead(Paired(t[0], t[1]), Encode(t[2..]));
      } else {
        DecodeUndoesEncode(t[1..]);
        var n := if High(t[0]) || Low(t[0]) then 0x3F else t[0] as nat;
        assert High(t[0]) || Low(t[0]) ==> CodePoint(n) == [0x3F];
        CodePointRead(n, Encode(t[1..]));
      }
    }
  }

  /** The examples of section 7 of RFC 3629: A, not identical to, alpha, full stop; a Hangul syllable; a
      character outside the first 65536, as a surrogate pair. */
  lemma {:induction false} Examples()
    ensures Encode([0x41]) == [0x41] && Encode([0x2262]) == [0xE2, 0x89, 0xA2]
    ensures Encode([0x0391]) == [0xCE, 0x91] && Encode([0xD55C]) == [0xED, 0x95, 0x9C]
    ensures Encode([0xD84C, 0xDFB4]) == [0xF0, 0xA3, 0x8E, 0xB4]
    ensures Encode([0xD84C]) == [0x3F]
  {
    EncodeOne(0x41);
    EncodeOne(0x2262);
    EncodeOne(0x0391);
    EncodeOne(0xD55C);
    EncodeOne(0xD84C);
    var pair: Text := [0xD84C, 0xDFB4];
    assert pair[2..] == [];
    assert Encode(pair) == CodePoint(0x233B4) + Encode(pair[2..]);
  }

  lemma {:induction false} EncodeOne(c: Unit)
    ensures Encode([c]) == if High(c) || Low(c) then [0x3F] else CodePoint(c as nat)
  {
    assert [c][1..] == [];
  }
}
