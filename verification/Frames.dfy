/** WebSocket frames as sections 5.2 and 5.3 of RFC 6455 lay them out, what the two ends write
    (internal/web/client_ws.go, clients/java/src/com/r0rpc/client/SimpleWebSocket.java), and what
    each of them reads from any stream of bytes. */
module Frames {
  import opened Bits
  import opened Sequences
  import opened Wrappers

  type Bytes = seq<Byte>

  type Key = k: Bytes | |k| == 4 witness [0, 0, 0, 0]

  const MAX_MESSAGE := 4 * 1024 * 1024
  const MAX_INT := 0x7FFF_FFFF
  const TWO_63 := 0x8000_0000_0000_0000
  const TWO_64 := 0x1_0000_0000_0000_0000

  const TEXT: Byte := 1
  const CLOSE: Byte := 8
  const PING: Byte := 9
  const PONG: Byte := 10

  datatype Frame = Frame(opcode: Byte, data: Bytes)

  // ---- Layout ----

  /** The three ways to write a payload length. */
  datatype Form = Short | Medium | Long

  predicate Fits(form: Form, n: nat) {
    match form
    case Short => n < 126
    case Medium => n < 0x1_0000
    case Long => n < TWO_64
  }

  function BigEndian(n: nat, width: nat): (s: Bytes)
    ensures |s| == width
  {
    if width == 0 then [] else BigEndian(n / 256, width - 1) + [(n % 256) as Byte]
  }

  function FromBigEndian(s: Bytes): nat {
    if s == [] then 0 else FromBigEndian(s[..|s| - 1]) * 256 + s[|s| - 1] as int
  }

  /** The seven bits after the mask bit. */
  function LengthCode(form: Form, n: nat): (code: Byte)
    requires Fits(form, n)
    ensures !Top(code)
  {
    match form
    case Short => n as Byte
    case Medium => 126
    case Long => 127
  }

  function Extension(form: Form, n: nat): Bytes {
    match form
    case Short => []
    case Medium => BigEndian(n, 2)
    case Long => BigEndian(n, 8)
  }

  function SecondByte(form: Form, n: nat, masked: bool): Byte
    requires Fits(form, n)
  {
    if masked then SetTop(LengthCode(form, n)) else LengthCode(form, n)
  }

  function Header(first: Byte, form: Form, n: nat, key: Option<Key>): Bytes
    requires Fits(form, n)
  {
    [first, SecondByte(form, n, key.Some?)] + Extension(form, n) +
    (if key.Some? then key.value else [])
  }

  /** Octet i of the payload is combined with octet i modulo 4 of the masking key. */
  function Mask(data: Bytes, key: Key): Bytes {
    seq(|data|, i requires 0 <= i < |data| => Xor(data[i], key[i % 4]))
  }

  function Masked(data: Bytes, key: Option<Key>): Bytes {
    if key.Some? then Mask(data, key.value) else data
  }

  function Layout(first: Byte, form: Form, key: Option<Key>, data: Bytes): Bytes
    requires Fits(form, |data|)
  {
    Header(first, form, |data|, key) + Masked(data, key)
  }

  /** s begins with an unfragmented frame, in any length form, masked or not, and rest follows. */
  ghost predicate StartsWith(s: Bytes, f: Frame, rest: Bytes) {
    exists first: Byte, form: Form, key: Option<Key> ::
      Fits(form, |f.data|) && Top(first) && Low4(first) == f.opcode &&
      s == Layout(first, form, key, f.data) + rest
  }

  // ---- What the two ends write ----

  function ShortestForm(n: nat): Form {
    if n < 126 then Short else if n < 0x1_0000 then Medium else Long
  }

  /** `wsConn.writeFrame`; None is a refusal. */
  function GoFrame(opcode: Byte, data: Bytes): Option<Bytes> {
    if |data| > MAX_MESSAGE then None else Some(Layout(SetTop(opcode), ShortestForm(|data|), None, data))
  }

  /** `SimpleWebSocket.sendFrame`; a Java array has at most 2^31 - 1 bytes. */
  function JavaFrame(opcode: Byte, key: Key, data: Bytes): Bytes
    requires |data| <= MAX_INT
  {
    Layout(SetTop(Low4(opcode)), ShortestForm(|data|), Some(key), data)
  }

  // ---- What the two ends read ----

  datatype Head = Head(first: Byte, form: Form, n: nat, key: Option<Key>, rest: Bytes)

  function TakeLength(code: Byte, s: Bytes): Option<(Form, nat, Bytes)>
  {
    if code == 126 then
      if |s| < 2 then None else Some((Medium, FromBigEndian(s[..2]), s[2..]))
    else if code == 127 then
      if |s| < 8 then None else Some((Long, FromBigEndian(s[..8]), s[8..]))
    else Some((Short, code as int, s))
  }

  /** Everything before the payload, or None where the stream ends first. */
  function ReadHead(s: Bytes): Option<Head> {
    if |s| < 2 then None
    else
      match TakeLength(Low7(s[1]), s[2..])
      case None => None
      case Some((form, n, after)) =>
        if !Top(s[1]) then Some(Head(s[0], form, n, None, after))
        else if |after| < 4 then None
        else Some(Head(s[0], form, n, Some(after[..4]), after[4..]))
  }

  /** One frame as the server reads it. None is one of its errors. */
  function GoRead(s: Bytes): (r: Option<(Frame, Bytes)>)
    ensures r.Some? ==> |r.value.1| < |s|
  {
    match ReadHead(s)
    case None => None
    case Some(h) =>
      if !Top(h.first) || h.n > MAX_MESSAGE || h.n > |h.rest| then None
      else Some((Frame(Low4(h.first), Masked(h.rest[..h.n], h.key)), h.rest[h.n..]))
  }

  /** Negative is a NegativeArraySizeException, Failed an IOException, End the null result. */
  datatype JavaResult = Got(f: Frame, rest: Bytes) | End | Failed | Negative

  function WrapLong(n: int): int {
    (n + TWO_63) % TWO_64 - TWO_63
  }

  function WrapInt(n: int): int {
    (n + 0x8000_0000) % 0x1_0000_0000 - 0x8000_0000
  }

  /** The `int` that the client takes a length field for; None where it refuses the length. A field
      from 2^63 up is a negative `long`, which passes the size check. */
  function JavaLength(n: nat): Option<int> {
    var length := WrapLong(n);
    if length > MAX_INT then None else Some(WrapInt(length))
  }

  function JavaRead(s: Bytes): (r: JavaResult)
    ensures r.Got? ==> |r.rest| < |s|
  {
    if s == [] then End
    else
      match ReadHead(s)
      case None => Failed
      case Some(h) =>
        if !Top(h.first) then Failed
        else
          match JavaLength(h.n)
          case None => Failed
          case Some(n) =>
            if n < 0 then Negative
            else if n > |h.rest| then Failed
            else Got(Frame(Low4(h.first), Masked(h.rest[..n], h.key)), h.rest[n..])
  }

  // ---- Length fields ----

  function Pow256(k: nat): nat {
    if k == 0 then 1 else 256 * Pow256(k - 1)
  }

  lemma Widths()
    ensures Pow256(2) == 0x1_0000 && Pow256(8) == TWO_64
  {
    assert Pow256(4) == 0x1_0000_0000;
    assert Pow256(6) == 0x1_0000_0000_0000;
  }

  lemma {:induction false} BigEndianRoundTrip(n: nat, width: nat)
    requires n < Pow256(width)
    ensures FromBigEndian(BigEndian(n, width)) == n
  {
    if width > 0 {
      BigEndianRoundTrip(n / 256, width - 1);
      assert BigEndian(n, width)[..width - 1] == BigEndian(n / 256, width - 1);
    }
  }

  lemma {:induction false} FromBigEndianRoundTrip(s: Bytes)
    ensures FromBigEndian(s) < Pow256(|s|)
    ensures BigEndian(FromBigEndian(s), |s|) == s
  {
    if s != [] {
      FromBigEndianRoundTrip(s[..|s| - 1]);
      assert s[..|s| - 1] + [s[|s| - 1]] == s;
    }
  }

  // ---- Masking ----

  lemma {:induction false} MaskUndoesMask(data: Bytes, key: Option<Key>)
    ensures |Masked(data, key)| == |data| && Masked(Masked(data, key), key) == data
  {
    if key.Some? {
      var twice := Masked(Masked(data, key), key);
      forall i | 0 <= i < |data| ensures twice[i] == data[i] {
        XorTwice(data[i], key.value[i % 4]);
      }
    }
  }

  // ---- Heads ----

  lemma SecondByteBits(form: Form, n: nat, masked: bool)
    requires Fits(form, n)
    ensures Top(SecondByte(form, n, masked)) == masked
    ensures Low7(SecondByte(form, n, masked)) == LengthCode(form, n)
  {
  }

  lemma TakeMedium(a: Bytes, rest: Bytes)
    requires |a| == 2
    ensures TakeLength(126, a + rest) == Some((Medium, FromBigEndian(a), rest))
  {
    SplitAfter(a, rest);
  }

  lemma TakeLong(a: Bytes, rest: Bytes)
    requires |a| == 8
    ensures TakeLength(127, a + rest) == Some((Long, FromBigEndian(a), rest))
  {
    SplitAfter(a, rest);
  }

  lemma {:induction false} ExtensionReadBack(form: Form, n: nat, rest: Bytes)
    requires Fits(form, n)
    ensures TakeLength(LengthCode(form, n), Extension(form, n) + rest) == Some((form, n, rest))
  {
    Widths();
    match form
    case Short =>
      assert [] + rest == rest;
    case Medium =>
      BigEndianRoundTrip(n, 2);
      TakeMedium(BigEndian(n, 2), rest);
    case Long =>
      BigEndianRoundTrip(n, 8);
      TakeLong(BigEndian(n, 8), rest);
  }

  lemma Assoc(a: Bytes, b: Bytes, c: Bytes, d: Bytes)
    ensures a + b + c + d == a + (b + (c + d))
  {
  }

  lemma {:induction false} HeaderReadBack(first: Byte, form: Form, n: nat, key: Option<Key>, rest: Bytes)
    requires Fits(form, n)
    ensures ReadHead(Header(first, form, n, key) + rest) == Some(Head(first, form, n, key, rest))
  {
    var second := SecondByte(form, n, key.Some?);
    var keyBytes: Bytes := if key.Some? then key.value else [];
    SecondByteBits(form, n, key.Some?);
    Assoc([first, second], Extension(form, n), keyBytes, rest);
    SplitAfter([first, second], Extension(form, n) + (keyBytes + rest));
    ExtensionReadBack(form, n, keyBytes + rest);
    SplitAfter(keyBytes, rest);
  }

  lemma {:induction false} TakeLengthIsExtension(code: Byte, s: Bytes)
    requires !Top(code) && TakeLength(code, s).Some?
    ensures var (form, n, rest) := TakeLength(code, s).value;
            Fits(form, n) && LengthCode(form, n) == code && s == Extension(form, n) + rest
  {
    Widths();
    if code == 126 {
      FromBigEndianRoundTrip(s[..2]);
      assert s == s[..2] + s[2..];
    } else if code == 127 {
      FromBigEndianRoundTrip(s[..8]);
      assert s == s[..8] + s[8..];
    } else {
      assert s == [] + s;
    }
  }

  lemma {:induction false} ReadHeadIsHeader(s: Bytes)
    requires ReadHead(s).Some?
    ensures var h := ReadHead(s).value;
            Fits(h.form, h.n) && s == Header(h.first, h.form, h.n, h.key) + h.rest
  {
    var h := ReadHead(s).value;
    var after := TakeLength(Low7(s[1]), s[2..]).value.2;
    var keyBytes: Bytes := if h.key.Some? then h.key.value else [];
    TakeLengthIsExtension(Low7(s[1]), s[2..]);
    assert after == keyBytes + h.rest;
    assert s == [s[0], s[1]] + s[2..];
    Assoc([s[0], s[1]], Extension(h.form, h.n), keyBytes, h.rest);
  }

  /** A stream that starts with a layout is read as its head, followed by the masked payload. */
  lemma {:induction false} LayoutReadBack(first: Byte, form: Form, key: Option<Key>, data: Bytes, rest: Bytes)
    requires Fits(form, |data|)
    ensures ReadHead(Layout(first, form, key, data) + rest) ==
            Some(Head(first, form, |data|, key, Masked(data, key) + rest))
    ensures (Masked(data, key) + rest)[..|data|] == Masked(data, key)
    ensures (Masked(data, key) + rest)[|data|..] == rest
    ensures Masked(Masked(data, key), key) == data
  {
    MaskUndoesMask(data, key);
    SplitAfter(Masked(data, key), rest);
    assert Layout(first, form, key, data) + rest == Header(first, form, |data|, key) + (Masked(data, key) + rest);
    HeaderReadBack(first, form, |data|, key, Masked(data, key) + rest);
  }

  /** A complete frame that has been read is on the stream as a layout. */
  lemma {:induction false} ReadHeadIsLayout(s: Bytes)
    requires ReadHead(s).Some? && ReadHead(s).value.n <= |ReadHead(s).value.rest|
    ensures var h := ReadHead(s).value;
            var data := Masked(h.rest[..h.n], h.key);
            |data| == h.n && Fits(h.form, h.n) && s == Layout(h.first, h.form, h.key, data) + h.rest[h.n..]
  {
    var h := ReadHead(s).value;
    ReadHeadIsHeader(s);
    MaskUndoesMask(h.rest[..h.n], h.key);
    Halves(h.rest, h.n);
    Regroup(Header(h.first, h.form, h.n, h.key), h.rest[..h.n], h.rest[h.n..]);
  }

  // ---- Main results ----

  /** The server accepts exactly the unfragmented frames of at most 4 MiB, in any length form. */
  lemma {:induction false} GoAcceptsExactly(s: Bytes, f: Frame, rest: Bytes)
    ensures GoRead(s) == Some((f, rest)) <==> StartsWith(s, f, rest) && |f.data| <= MAX_MESSAGE
  {
    if GoRead(s) == Some((f, rest)) {
      ReadHeadIsLayout(s);
    }
    if StartsWith(s, f, rest) && |f.data| <= MAX_MESSAGE {
      var first: Byte, form: Form, key: Option<Key> :|
        Fits(form, |f.data|) && Top(first) && Low4(first) == f.opcode &&
        s == Layout(first, form, key, f.data) + rest;
      LayoutReadBack(first, form, key, f.data, rest);
    }
  }

  /** How the client misreads a length field from 2^63 up: it takes the low 32 bits for the length. */
  ghost predicate TruncatedStart(s: Bytes, f: Frame, rest: Bytes) {
    exists first: Byte, n: nat, key: Option<Key> ::
      TWO_63 <= n < TWO_64 && n % 0x1_0000_0000 == |f.data| <= MAX_INT &&
      Top(first) && Low4(first) == f.opcode &&
      s == Header(first, Long, n, key) + Masked(f.data, key) + rest
  }

  lemma JavaLengthMeans(n: nat)
    requires n < TWO_64
    ensures n < TWO_63 ==> JavaLength(n) == if n <= MAX_INT then Some(n) else None
    ensures n >= TWO_63 ==>
      var low := n % 0x1_0000_0000;
      JavaLength(n) == Some(if low <= MAX_INT then low else low - 0x1_0000_0000)
  {
  }

  /** The client accepts exactly the unfragmented frames that fit a Java array, and besides them
      the frames whose length field has its top bit set (which section 5.2 forbids) and truncates
      to an array size. */
  lemma {:induction false} JavaAcceptsExactly(s: Bytes, f: Frame, rest: Bytes)
    ensures JavaRead(s) == Got(f, rest) <==>
            (StartsWith(s, f, rest) && |f.data| <= MAX_INT) || TruncatedStart(s, f, rest)
  {
    if JavaRead(s) == Got(f, rest) {
      JavaReadsAStart(s, f, rest);
    }
    if StartsWith(s, f, rest) && |f.data| <= MAX_INT {
      var first: Byte, form: Form, key: Option<Key> :|
        Fits(form, |f.data|) && Top(first) && Low4(first) == f.opcode &&
        s == Layout(first, form, key, f.data) + rest;
      LayoutReadBack(first, form, key, f.data, rest);
      JavaLengthMeans(|f.data|);
    }
    if TruncatedStart(s, f, rest) {
      JavaReadsTruncated(s, f, rest);
    }
  }

  lemma {:induction false} JavaReadsAStart(s: Bytes, f: Frame, rest: Bytes)
    requires JavaRead(s) == Got(f, rest)
    ensures (StartsWith(s, f, rest) && |f.data| <= MAX_INT) || TruncatedStart(s, f, rest)
  {
    var h := ReadHead(s).value;
    ReadHeadIsHeader(s);
    JavaLengthMeans(h.n);
    if h.n < TWO_63 {
      ReadHeadIsLayout(s);
    } else {
      JavaReadsLow(s, f, rest);
    }
  }

  lemma {:induction false} JavaReadsLow(s: Bytes, f: Frame, rest: Bytes)
    requires JavaRead(s) == Got(f, rest) && ReadHead(s).value.n >= TWO_63
    ensures TruncatedStart(s, f, rest)
  {
    var h := ReadHead(s).value;
    var n := |f.data|;
    ReadHeadIsHeader(s);
    JavaLengthMeans(h.n);
    MaskUndoesMask(h.rest[..n], h.key);
    Halves(h.rest, n);
    Regroup(Header(h.first, Long, h.n, h.key), Masked(f.data, h.key), rest);
  }

  lemma {:induction false} JavaReadsTruncated(s: Bytes, f: Frame, rest: Bytes)
    requires TruncatedStart(s, f, rest)
    ensures JavaRead(s) == Got(f, rest)
  {
    var first: Byte, n: nat, key: Option<Key> :|
      TWO_63 <= n < TWO_64 && n % 0x1_0000_0000 == |f.data| <= MAX_INT &&
      Top(first) && Low4(first) == f.opcode &&
      s == Header(first, Long, n, key) + Masked(f.data, key) + rest;
    Regroup(Header(first, Long, n, key), Masked(f.data, key), rest);
    HeaderReadBack(first, Long, n, key, Masked(f.data, key) + rest);
    MaskUndoesMask(f.data, key);
    SplitAfter(Masked(f.data, key), rest);
    JavaLengthMeans(n);
  }

  /** A stream on which the ends differ: the server refuses it, the client reads an empty frame. */
  lemma {:induction false} TopBitIsIgnored()
    ensures var s: Bytes := [0x81, 127, 0x80, 0, 0, 0, 0, 0, 0, 0];
            GoRead(s) == None && JavaRead(s) == Got(Frame(TEXT, []), [])
  {
    TopBitHeader();
    HeaderReadBack(0x81, Long, TWO_63, None, []);
    JavaLengthMeans(TWO_63);
  }

  lemma {:induction false} TopBitHeader()
    ensures Fits(Long, TWO_63)
    ensures Header(0x81, Long, TWO_63, None) + [] == [0x81, 127, 0x80, 0, 0, 0, 0, 0, 0, 0]
  {
    TopBitField();
    var ext: Bytes := [0x80, 0, 0, 0, 0, 0, 0, 0];
    assert [0x81, 127] + ext == [0x81, 127, 0x80, 0, 0, 0, 0, 0, 0, 0];
  }

  lemma {:induction false} TopBitField()
    ensures BigEndian(TWO_63, 8) == [0x80, 0, 0, 0, 0, 0, 0, 0]
  {
    assert BigEndian(0x80, 1) == [0x80];
    assert BigEndian(0x8000, 2) == [0x80, 0];
    assert BigEndian(0x80_0000, 3) == [0x80, 0, 0];
    assert BigEndian(0x8000_0000, 4) == [0x80, 0, 0, 0];
    assert BigEndian(0x80_0000_0000, 5) == [0x80, 0, 0, 0, 0];
    assert BigEndian(0x8000_0000_0000, 6) == [0x80, 0, 0, 0, 0, 0];
    assert BigEndian(0x80_0000_0000_0000, 7) == [0x80, 0, 0, 0, 0, 0, 0];
  }

  /** Java to Go: the server reads a client's frame back, unless it is over 4 MiB. */
  lemma {:induction false} GoReadsJavaFrame(opcode: Byte, key: Key, data: Bytes, rest: Bytes)
    requires |data| <= MAX_INT
    ensures GoRead(JavaFrame(opcode, key, data) + rest) ==
            if |data| <= MAX_MESSAGE then Some((Frame(Low4(opcode), data), rest)) else None
  {
    var first := SetTop(Low4(opcode));
    LayoutReadBack(first, ShortestForm(|data|), Some(key), data, rest);
  }

  /** Go to Java: the client reads back every frame that the server agrees to write. */
  lemma {:induction false} JavaReadsGoFrame(opcode: Byte, data: Bytes, rest: Bytes)
    requires |data| <= MAX_MESSAGE
    ensures JavaRead(GoFrame(opcode, data).value + rest) == Got(Frame(Low4(opcode), data), rest)
  {
    var first := SetTop(opcode);
    LayoutReadBack(first, ShortestForm(|data|), None, data, rest);
    JavaLengthMeans(|data|);
  }
}
