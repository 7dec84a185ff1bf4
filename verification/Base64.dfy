/** The Java client's Base64 encoder (clients/java/src/com/r0rpc/client/Base64Util.java), against
    section 4 of RFC 4648: groups of 24 bits become four digits of six bits. */
module Base64 {
  import opened Bits
  import opened Wrappers

  type Bytes = seq<Byte>

  /** The alphabet of RFC 4648, table 1. */
  function Digit(i: nat): char
    requires i < 64
  {
    if i < 26 then 'A' + i as char
    else if i < 52 then 'a' + (i - 26) as char
    else if i < 62 then '0' + (i - 52) as char
    else if i == 62 then '+' else '/'
  }

  const TABLE: string := seq(64, i requires 0 <= i < 64 => Digit(i))

  function Value(c: char): (v: Option<nat>)
    ensures v.Some? ==> v.value < 64 && Digit(v.value) == c && c as int < 128
  {
    if 'A' <= c <= 'Z' then Some((c - 'A') as nat)
    else if 'a' <= c <= 'z' then Some((c - 'a') as nat + 26)
    else if '0' <= c <= '9' then Some((c - '0') as nat + 52)
    else if c == '+' then Some(62) else if c == '/' then Some(63) else None
  }

  /** 24 bits. */
  function Bits24(a: Byte, b: Byte, c: Byte): nat {
    a as nat * 65536 + b as nat * 256 + c as nat
  }

  function Sextet(bits: nat, i: nat): (d: nat)
    requires bits < 0x100_0000 && i < 4
    ensures d < 64
  {
    if i == 0 then bits / 262144 else if i == 1 then bits / 4096 % 64 else if i == 2 then bits / 64 % 64 else bits % 64
  }

  /** The first n digits of 24 bits, padded to four characters. */
  function Group(bits: nat, n: nat): (s: string)
    requires bits < 0x100_0000 && 2 <= n <= 4
    ensures |s| == 4
  {
    [Digit(Sextet(bits, 0)), Digit(Sextet(bits, 1)), if n > 2 then Digit(Sextet(bits, 2)) else '=',
     if n > 3 then Digit(Sextet(bits, 3)) else '=']
  }

  function Encode(s: Bytes): string {
    if s == [] then ""
    else if |s| == 1 then Group(Bits24(s[0], 0, 0), 2)
    else if |s| == 2 then Group(Bits24(s[0], s[1], 0), 3)
    else Group(Bits24(s[0], s[1], s[2]), 4) + Encode(s[3..])
  }

  /** Four digits back to 24 bits. */
  function Join(a: nat, b: nat, c: nat, d: nat): (bits: nat)
    requires a < 64 && b < 64 && c < 64 && d < 64
    ensures bits < 0x100_0000
  {
    a * 262144 + b * 4096 + c * 64 + d
  }

  function Octets(bits: nat, n: nat): (s: Bytes)
    requires bits < 0x100_0000 && 1 <= n <= 3
    ensures |s| == n
  {
    [(bits / 65536) as Byte] + (if n > 1 then [(bits / 256 % 256) as Byte] else []) +
    (if n > 2 then [(bits % 256) as Byte] else [])
  }

  /** A decoder that wants padding and does not look at the bits that padding leaves over. */
  function Decode(t: string): Option<Bytes> {
    if t == "" then Some([])
    else if |t| < 4 then None
    else
      var (a, b, c, d) := (Value(t[0]), Value(t[1]), Value(t[2]), Value(t[3]));
      if a == None || b == None then None
      else if t[2..] == "==" then Some(Octets(Join(a.value, b.value, 0, 0), 1))
      else if c == None then None
      else if t[3..] == "=" then Some(Octets(Join(a.value, b.value, c.value, 0), 2))
      else if d == None then None
      else
        match Decode(t[4..])
        case None => None
        case Some(rest) => Some(Octets(Join(a.value, b.value, c.value, d.value), 3) + rest)
  }

  // ---- Properties ----

  lemma ValueOfDigit(i: nat)
    requires i < 64
    ensures Value(Digit(i)) == Some(i) && Digit(i) != '='
  {
  }

  lemma JoinSextets(bits: nat)
    requires bits < 0x100_0000
    ensures Join(Sextet(bits, 0), Sextet(bits, 1), Sextet(bits, 2), Sextet(bits, 3)) == bits
  {
    assert bits / 4096 == bits / 262144 * 64 + bits / 4096 % 64;
    assert bits / 64 == bits / 4096 * 64 + bits / 64 % 64;
  }

  lemma OctetsOfBits(a: nat, b: nat, c: nat)
    requires a < 256 && b < 256 && c < 256
    ensures var bits := a * 65536 + b * 256 + c;
            bits < 0x100_0000 && bits / 65536 == a && bits / 256 % 256 == b && bits % 256 == c
  {
    var bits := a * 65536 + b * 256 + c;
    assert bits / 256 == a * 256 + b;
  }

  lemma OctetsOf(a: Byte, b: Byte, c: Byte)
    ensures Bits24(a, b, c) < 0x100_0000
    ensures Octets(Bits24(a, b, c), 3) == [a, b, c]
    ensures Octets(Bits24(a, b, c), 2) == [a, b]
    ensures Octets(Bits24(a, b, c), 1) == [a]
  {
    OctetsOfBits(a as nat, b as nat, c as nat);
  }

  /** Section 4 of RFC 4648: decoding undoes encoding. */
  lemma {:induction false} DecodeUndoesEncode(s: Bytes)
    ensures Decode(Encode(s)) == Some(s)
  {
    if 0 < |s| < 3 {
      ShortRoundTrip(s);
    } else if s != [] {
      DecodeUndoesEncode(s[3..]);
      LongRoundTrip(s, Encode(s[3..]));
    }
  }

  lemma {:induction false} ShortRoundTrip(s: Bytes)
    requires 0 < |s| < 3
    ensures Decode(Encode(s)) == Some(s)
  {
    if |s| == 1 {
      OneByte(s[0]);
      assert s == [s[0]];
    } else {
      TwoBytes(s[0], s[1]);
      assert s == [s[0], s[1]];
    }
  }

  lemma {:induction false} LongRoundTrip(s: Bytes, rest: string)
    requires |s| > 2 && rest == Encode(s[3..]) && Decode(rest) == Some(s[3..])
    ensures Decode(Encode(s)) == Some(s)
  {
    ThreeBytes(s[0], s[1], s[2], rest);
    ThreeAndMore(s);
  }

  lemma ThreeAndMore(s: Bytes)
    requires |s| > 2
    ensures s == [s[0], s[1], s[2]] + s[3..]
    ensures Encode(s) == Group(Bits24(s[0], s[1], s[2]), 4) + Encode(s[3..])
  {
  }

  lemma {:induction false} OneByte(a: Byte)
    ensures Decode(Group(Bits24(a, 0, 0), 2)) == Some([a])
  {
    OctetsOf(a, 0, 0);
    PaddedTwice(Bits24(a, 0, 0));
  }

  lemma {:induction false} TwoBytes(a: Byte, b: Byte)
    ensures Decode(Group(Bits24(a, b, 0), 3)) == Some([a, b])
  {
    OctetsOf(a, b, 0);
    PaddedOnce(Bits24(a, b, 0));
  }

  lemma {:induction false} ThreeBytes(a: Byte, b: Byte, c: Byte, rest: string)
    ensures Decode(Group(Bits24(a, b, c), 4) + rest) ==
            if Decode(rest) == None then None else Some([a, b, c] + Decode(rest).value)
  {
    OctetsOf(a, b, c);
    DecodeGroup(Bits24(a, b, c), rest);
  }

  lemma TrailingZeros(bits: nat)
    requires bits < 0x100_0000
    ensures bits % 256 == 0 ==> Sextet(bits, 3) == 0
    ensures bits % 65536 == 0 ==> Sextet(bits, 2) == 0 && bits % 256 == 0
  {
    if bits % 65536 == 0 {
      var q := bits / 65536;
      assert bits == q * 65536;
      assert bits / 64 == q * 1024;
    }
  }

  lemma {:induction false} PaddedTwice(bits: nat)
    requires bits < 0x100_0000 && bits % 65536 == 0
    ensures Decode(Group(bits, 2)) == Some(Octets(bits, 1))
  {
    JoinSextets(bits);
    TrailingZeros(bits);
    ValueOfDigit(Sextet(bits, 0));
    ValueOfDigit(Sextet(bits, 1));
    assert Group(bits, 2)[2..] == "==";
  }

  lemma {:induction false} PaddedOnce(bits: nat)
    requires bits < 0x100_0000 && bits % 256 == 0
    ensures Decode(Group(bits, 3)) == Some(Octets(bits, 2))
  {
    JoinSextets(bits);
    TrailingZeros(bits);
    ValueOfDigit(Sextet(bits, 0));
    ValueOfDigit(Sextet(bits, 1));
    ValueOfDigit(Sextet(bits, 2));
    assert Group(bits, 3)[3..] == "=" && Group(bits, 3)[2..][0] != '=';
  }

  lemma {:induction false} DecodeGroup(bits: nat, rest: string)
    requires bits < 0x100_0000
    ensures Decode(Group(bits, 4) + rest) ==
            if Decode(rest) == None then None else Some(Octets(bits, 3) + Decode(rest).value)
  {
    JoinSextets(bits);
    ValueOfDigit(Sextet(bits, 0));
    ValueOfDigit(Sextet(bits, 1));
    ValueOfDigit(Sextet(bits, 2));
    ValueOfDigit(Sextet(bits, 3));
    var t := Group(bits, 4) + rest;
    assert t[4..] == rest && t[2] != '=' && t[3] != '=';
    assert t[2..][0] == t[2] && t[3..][0] == t[3];
  }

  /** Full groups of digits, with at most two signs of padding at the very end. */
  predicate Padded(t: string) {
    |t| % 4 == 0 &&
    forall i :: 0 <= i < |t| ==>
      Value(t[i]).Some? || (t[i] == '=' && (i == |t| - 1 || (i == |t| - 2 && t[|t| - 1] == '=')))
  }

  lemma PaddedTail(t: string)
    requires |t| > 4
    ensures Padded(t) <==> (forall i :: 0 <= i < 4 ==> Value(t[i]).Some?) && Padded(t[4..])
  {
    assert forall i :: 4 <= i < |t| ==> t[4..][i - 4] == t[i];
    if Padded(t[4..]) && forall i :: 0 <= i < 4 ==> Value(t[i]).Some? {
      forall i | 0 <= i < |t|
        ensures Value(t[i]).Some? || (t[i] == '=' && (i == |t| - 1 || (i == |t| - 2 && t[|t| - 1] == '=')))
      {
        if i >= 4 {
          assert t[4..][i - 4] == t[i] && t[4..][|t| - 5] == t[|t| - 1];
        }
      }
    }
  }

  lemma {:induction false} OneGroup(t: string)
    requires |t| == 4
    ensures Decode(t).Some? <==> Padded(t)
  {
    assert t[4..] == "";
    assert t[2..] == [t[2], t[3]] && t[3..] == [t[3]];
  }

  lemma {:induction false} MoreGroups(t: string)
    requires |t| > 4
    ensures Decode(t).Some? <==> (forall i :: 0 <= i < 4 ==> Value(t[i]).Some?) && Decode(t[4..]).Some?
  {
  }

  /** The decoder takes exactly such texts. */
  lemma {:induction false} DecodesExactly(t: string)
    ensures Decode(t).Some? <==> Padded(t)
  {
    if |t| > 4 {
      DecodesExactly(t[4..]);
      PaddedTail(t);
      MoreGroups(t);
    } else if |t| == 4 {
      OneGroup(t);
    }
  }

  /** The length that `encodePayload` predicts. */
  lemma {:induction false} EncodedLength(s: Bytes)
    ensures |Encode(s)| == (|s| + 2) / 3 * 4
  {
    if |s| > 2 {
      EncodedLength(s[3..]);
      ThreeAndMore(s);
      assert (|s| + 2) / 3 == (|s| - 1) / 3 + 1;
    }
  }

  lemma {:induction false} EncodedAlphabet(s: Bytes)
    ensures forall i :: 0 <= i < |Encode(s)| ==> Value(Encode(s)[i]).Some? || Encode(s)[i] == '='
  {
    if |s| > 2 {
      EncodedAlphabet(s[3..]);
      ThreeAndMore(s);
    }
  }

  /** Table 1 of RFC 4648: three runs of consecutive characters, and two more. */
  lemma AlphabetIsTable1()
    ensures |TABLE| == 64
    ensures TABLE[0] == 'A' && TABLE[25] == 'Z' && TABLE[26] == 'a' && TABLE[51] == 'z'
    ensures TABLE[52] == '0' && TABLE[61] == '9' && TABLE[62] == '+' && TABLE[63] == '/'
    ensures forall i :: 0 <= i < 61 && i != 25 && i != 51 ==> TABLE[i + 1] as int == TABLE[i] as int + 1
  {
  }

  /** The digits of a group, read as a number of base 64, are its bytes, read as a number of base 256. */
  lemma GroupIsANumber(a: Byte, b: Byte, c: Byte)
    ensures Bits24(a, b, c) < 0x100_0000
    ensures var n := Bits24(a, b, c);
      ((Sextet(n, 0) * 64 + Sextet(n, 1)) * 64 + Sextet(n, 2)) * 64 + Sextet(n, 3) ==
      (a as nat * 256 + b as nat) * 256 + c as nat
  {
    JoinSextets(Bits24(a, b, c));
  }

  /** Test vectors of section 10 of RFC 4648. */
  lemma {:induction false} TestVectors()
    ensures Encode([]) == "" && Encode([0x66]) == "Zg==" && Encode([0x66, 0x6F]) == "Zm8="
    ensures Encode([0x66, 0x6F, 0x6F]) == "Zm9v"
  {
    assert Encode([0x66, 0x6F, 0x6F]) == Group(Bits24(0x66, 0x6F, 0x6F), 4) + Encode([0x66, 0x6F, 0x6F][3..]);
    assert [0x66, 0x6F, 0x6F][3..] == [];
  }

  // ---- The encoder as it runs ----

  lemma SextetsOfBits(a: nat, b: nat, c: nat)
    requires a < 256 && b < 256 && c < 256
    ensures var bits := a * 65536 + b * 256 + c;
            bits / 262144 == a / 4 && bits / 4096 % 64 == a % 4 * 16 + b / 16
  {
    var bits := a * 65536 + b * 256 + c;
    assert a == a / 4 * 4 + a % 4 && b == b / 16 * 16 + b % 16;
    assert bits / 4096 == a * 16 + b / 16;
    Remainder64(a / 4, a % 4 * 16 + b / 16);
    assert bits / 262144 == bits / 4096 / 64;
  }

  lemma LowSextetsOfBits(a: nat, b: nat, c: nat)
    requires a < 256 && b < 256 && c < 256
    ensures var bits := a * 65536 + b * 256 + c;
            bits / 64 % 64 == b % 16 * 4 + c / 64 && bits % 64 == c % 64
  {
    var bits := a * 65536 + b * 256 + c;
    assert b == b / 16 * 16 + b % 16;
    assert bits / 64 == a * 1024 + b * 4 + c / 64;
    Remainder64(a * 16 + b / 16, b % 16 * 4 + c / 64);
  }

  lemma Remainder64(q: nat, r: nat)
    requires r < 64
    ensures (q * 64 + r) % 64 == r && (q * 64 + r) / 64 == q
  {
  }

  lemma SextetsOfBytes(a: Byte, b: Byte, c: Byte)
    ensures Bits24(a, b, c) < 0x100_0000
    ensures Sextet(Bits24(a, b, c), 0) == a as nat / 4
    ensures Sextet(Bits24(a, b, c), 1) == a as nat % 4 * 16 + b as nat / 16
    ensures Sextet(Bits24(a, b, c), 2) == b as nat % 16 * 4 + c as nat / 64
    ensures Sextet(Bits24(a, b, c), 3) == c as nat % 64
  {
    SextetsOfBits(a as nat, b as nat, c as nat);
    LowSextetsOfBits(a as nat, b as nat, c as nat);
  }

  /** Bit by bit of three bytes at a time; -1 stands for a byte past the end. */
  method EncodeBytes(input: Bytes) returns (builder: string)
    ensures builder == Encode(input)
  {
    builder := "";
    var index := 0;
    while index < |input|
      invariant index <= |input| && builder + Encode(input[index..]) == Encode(input)
    {
      ghost var start, left := builder, input[index..];
      var b0 := input[index] as int;
      index := index + 1;
      var b1 := -1;
      if index < |input| {
        b1 := input[index] as int;
        index := index + 1;
      }
      var b2 := -1;
      if index < |input| {
        b2 := input[index] as int;
        index := index + 1;
      }
      var group := EncodeGroup(b0, b1, b2);
      builder := builder + group;
      OneGroupMore(start, left, input[index..], group);
    }
    assert builder + "" == builder;
  }

  method EncodeGroup(b0: int, b1: int, b2: int) returns (s: string)
    requires 0 <= b0 < 256 && -1 <= b1 < 256 && -1 <= b2 < 256 && (b1 < 0 ==> b2 < 0)
    ensures s == Group(Bits24(b0 as Byte, if b1 < 0 then 0 else b1 as Byte, if b2 < 0 then 0 else b2 as Byte),
                       if b1 < 0 then 2 else if b2 < 0 then 3 else 4)
  {
    SextetsOfBytes(b0 as Byte, if b1 < 0 then 0 else b1 as Byte, if b2 < 0 then 0 else b2 as Byte);
    var d0 := b0 / 4;
    var d1 := b0 % 4 * 16 + (if b1 >= 0 then b1 / 16 else 0);
    var d2 := if b1 >= 0 then b1 % 16 * 4 + (if b2 >= 0 then b2 / 64 else 0) else 0;
    var d3 := if b2 >= 0 then b2 % 64 else 0;
    s := [TABLE[d0], TABLE[d1], if b1 >= 0 then TABLE[d2] else '=', if b2 >= 0 then TABLE[d3] else '='];
  }

  lemma OneGroupMore(start: string, left: Bytes, rest: Bytes, group: string)
    requires left != [] && rest == (if |left| < 3 then [] else left[3..])
    requires group == Group(Bits24(left[0], if |left| > 1 then left[1] else 0, if |left| > 2 then left[2] else 0),
                            if |left| == 1 then 2 else if |left| == 2 then 3 else 4)
    ensures start + Encode(left) == start + group + Encode(rest)
  {
    FirstGroup(left, rest, group);
    assert start + (group + Encode(rest)) == start + group + Encode(rest);
  }

  lemma FirstGroup(left: Bytes, rest: Bytes, group: string)
    requires left != [] && rest == (if |left| < 3 then [] else left[3..])
    requires group == Group(Bits24(left[0], if |left| > 1 then left[1] else 0, if |left| > 2 then left[2] else 0),
                            if |left| == 1 then 2 else if |left| == 2 then 3 else 4)
    ensures Encode(left) == group + Encode(rest)
  {
  }
}
