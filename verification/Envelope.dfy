/** The compressed payload envelope: what the Java client sends
    (clients/java/src/com/r0rpc/client/RelayClient.java) and how the server takes it back
    (internal/web/payload_codec.go). gzip and Go's JSON library are a parameter. */
module Envelope {
  import Base64
  import opened Bits
  import JsonAlike
  import opened JsonRoundTrip
  import opened JsonStrictness
  import opened MiniJson
  import opened StrictJson
  import Utf8
  import opened Wrappers

  type Bytes = seq<Byte>

  const THRESHOLD := 32 * 1024
  const GZIP_BASE64_JSON := "gzip+base64+json"

  /** `unquote` reads a JSON string, `valid` is `json.Valid`. */
  datatype Library = Library(gzip: Bytes -> Bytes, gunzip: Bytes -> Option<Bytes>, unquote: Bytes -> Option<string>,
                             valid: Bytes -> bool)

  predicate Base64Char(c: char) {
    Base64.Value(c).Some? || c == '='
  }

  /** A JSON string of characters that need no escaping. */
  function Quote(t: string): Bytes
    requires forall i :: 0 <= i < |t| ==> Base64Char(t[i])
  {
    [0x22] + seq(|t|, i requires 0 <= i < |t| && Base64Char(t[i]) => t[i] as int as Byte) + [0x22]
  }

  ghost predicate Reversible(lib: Library) {
    forall x: Bytes :: lib.gunzip(lib.gzip(x)) == Some(x)
  }

  /** A JSON string without escapes is read as it stands. */
  ghost predicate ReadsPlainStrings(lib: Library) {
    forall t: string :: (forall i :: 0 <= i < |t| ==> Base64Char(t[i])) ==> lib.unquote(Quote(t)) == Some(t)
  }

  /** `json.Valid` follows RFC 8259. */
  ghost predicate FollowsRfc8259(lib: Library) {
    forall t: Text :: lib.valid(Utf8.Encode(t)) <==> IsJson(t)
  }

  ghost predicate Lawful(lib: Library) {
    Reversible(lib) && ReadsPlainStrings(lib) && FollowsRfc8259(lib)
  }

  // ---- There are such libraries ----

  function Unquoted(b: Bytes): Option<string> {
    if |b| < 2 then None else Some(seq(|b| - 2, i requires 0 <= i < |b| - 2 => b[i + 1] as int as char))
  }

  /** It shortens one given text and prefixes all others. */
  function SomeLibrary(short: Bytes): Library {
    Library((x: Bytes) => if x == short then [0] else [1] + x,
            (y: Bytes) => if y == [0] then Some(short) else if y != [] && y[0] == 1 then Some(y[1..]) else None,
            Unquoted,
            (b: Bytes) => IsJson(Utf8.Decode(b)))
  }

  lemma UnquotedQuote(t: string)
    requires forall i :: 0 <= i < |t| ==> Base64Char(t[i])
    ensures Unquoted(Quote(t)) == Some(t)
  {
    var u := Unquoted(Quote(t)).value;
    forall i | 0 <= i < |t| ensures u[i] == t[i] {
      assert Base64Char(t[i]) && Quote(t)[i + 1] == t[i] as int as Byte;
    }
    assert u == t;
  }

  /** The laws can all be met, with a gzip that shortens any text one likes: that bytes are valid if they
      decode to JSON agrees with every text that they were made from. */
  lemma {:induction false} SomeLibraryIsLawful(short: Bytes)
    ensures Lawful(SomeLibrary(short)) && |SomeLibrary(short).gzip(short)| == 1
  {
    var lib := SomeLibrary(short);
    forall x: Bytes ensures lib.gunzip(lib.gzip(x)) == Some(x) {
      assert ([1] + x)[1..] == x;
    }
    forall t: string | forall i :: 0 <= i < |t| ==> Base64Char(t[i]) ensures lib.unquote(Quote(t)) == Some(t) {
      UnquotedQuote(t);
    }
    forall t: Text ensures lib.valid(Utf8.Encode(t)) <==> IsJson(t) {
      JsonAlike.BytesDecide(t);
    }
  }

  // ---- The client ----

  datatype Encoded = Identity | Compressed(text: string, rawSize: nat, compressedSize: nat)

  function WireSize(compressed: nat): nat {
    (compressed + 2) / 3 * 4
  }

  /** `encodePayload` of a payload whose JSON text is raw. */
  method EncodePayload(lib: Library, raw: Bytes) returns (e: Encoded)
    ensures e == Sent(lib, raw)
  {
    if |raw| < THRESHOLD {
      return Identity;
    }
    var compressed := lib.gzip(raw);
    var wireSize := (|compressed| + 2) / 3 * 4;
    if wireSize >= |raw| {
      return Identity;
    }
    var text := Base64.EncodeBytes(compressed);
    return Compressed(text, |raw|, |compressed|);
  }

  function Sent(lib: Library, raw: Bytes): Encoded {
    if |raw| < THRESHOLD || WireSize(|lib.gzip(raw)|) >= |raw| then Identity
    else Compressed(Base64.Encode(lib.gzip(raw)), |raw|, |lib.gzip(raw)|)
  }

  /** The JSON text of the payload in the result message. */
  function WirePayload(raw: Bytes, e: Encoded): Bytes
    requires e.Compressed? ==> forall i :: 0 <= i < |e.text| ==> Base64Char(e.text[i])
  {
    if e.Identity? then raw else Quote(e.text)
  }

  function WireEncoding(e: Encoded): string {
    if e.Identity? then "" else GZIP_BASE64_JSON
  }

  // ---- The server ----

  predicate AsciiSpace(b: Byte) {
    b == 0x20 || 0x09 <= b <= 0x0D
  }

  function TrimLeft(s: Bytes): (r: Bytes)
    ensures |r| <= |s|
  {
    if s != [] && AsciiSpace(s[0]) then TrimLeft(s[1..]) else s
  }

  function TrimRight(s: Bytes): (r: Bytes)
    ensures |r| <= |s|
  {
    if s != [] && AsciiSpace(s[|s| - 1]) then TrimRight(s[..|s| - 1]) else s
  }

  /** `bytes.TrimSpace` on ASCII white space. */
  function TrimSpace(s: Bytes): Bytes {
    TrimRight(TrimLeft(s))
  }

  predicate AsciiSpaceChar(c: char) {
    c as int < 128 && AsciiSpace(c as int as Byte)
  }

  /** `strings.TrimSpace` on ASCII white space. */
  function TrimText(s: string): string
    decreases |s|
  {
    if s != "" && AsciiSpaceChar(s[0]) then TrimText(s[1..])
    else if s != "" && AsciiSpaceChar(s[|s| - 1]) then TrimText(s[..|s| - 1])
    else s
  }

  /** Go's `DecodeString` skips line breaks. */
  function WithoutBreaks(t: string): string {
    if t == "" then "" else (if t[0] == '\r' || t[0] == '\n' then "" else [t[0]]) + WithoutBreaks(t[1..])
  }

  /** `decodeCompressedPayload`; None is one of its errors. */
  function DecodeCompressed(lib: Library, payload: Bytes): Option<Bytes> {
    match lib.unquote(payload)
    case None => None
    case Some(encoded) =>
      match Base64.Decode(WithoutBreaks(encoded))
      case None => None
      case Some(compressed) =>
        match lib.gunzip(compressed)
        case None => None
        case Some(plain) =>
          var trimmed := TrimSpace(plain);
          if trimmed == [] then Some([0x7B, 0x7D]) else if lib.valid(trimmed) then Some(trimmed) else None
  }

  /** Payload and encoding after `normalizeClientJobResult`; None is an error. */
  function Normalized(lib: Library, payload: Bytes, encoding: string): Option<(Bytes, string)> {
    if TrimText(encoding) == "" then Some((payload, encoding))
    else if TrimText(encoding) != GZIP_BASE64_JSON then None
    else
      match DecodeCompressed(lib, payload)
      case None => None
      case Some(plain) => Some((plain, ""))
  }

  class JobResult {
    var payload: Bytes
    var encoding: string

    constructor (payload: Bytes, encoding: string)
      ensures this.payload == payload && this.encoding == encoding
    {
      this.payload, this.encoding := payload, encoding;
    }

    /** Overwrites both fields; an error leaves them alone. */
    method Normalize(lib: Library) returns (ok: bool)
      modifies this
      ensures match Normalized(lib, old(payload), old(encoding))
              case None => !ok && payload == old(payload) && encoding == old(encoding)
              case Some((p, e)) => ok && payload == p && encoding == e
    {
      var trimmed := TrimText(encoding);
      if trimmed == "" {
        return true;
      }
      if trimmed == GZIP_BASE64_JSON {
        var decoded := DecodeCompressed(lib, payload);
        if decoded == None {
          return false;
        }
        payload := decoded.value;
        encoding := "";
        return true;
      }
      return false;
    }
  }

  // ---- Main results ----

  lemma {:induction false} TextIsBase64(compressed: Bytes)
    ensures forall i :: 0 <= i < |Base64.Encode(compressed)| ==> Base64Char(Base64.Encode(compressed)[i])
  {
    Base64.EncodedAlphabet(compressed);
  }

  /** The predicted size is the size of the text, so a payload is compressed exactly if it is large and
      its Base64 text is strictly shorter than its JSON text. */
  lemma {:induction false} CompressedIfShorter(lib: Library, raw: Bytes)
    ensures Sent(lib, raw).Compressed? <==> |raw| >= 32_768 && |Base64.Encode(lib.gzip(raw))| < |raw|
    ensures Sent(lib, raw).Compressed? ==>
      var e := Sent(lib, raw);
      Base64.Decode(e.text) == Some(lib.gzip(raw)) && e.rawSize == |raw| && e.compressedSize == |lib.gzip(raw)|
  {
    Base64.EncodedLength(lib.gzip(raw));
    Base64.DecodeUndoesEncode(lib.gzip(raw));
  }

  /** The quotes around the text are not counted: the compressed payload is longer than the plain one
      exactly if the text is only one byte shorter, and then by one byte. */
  lemma {:induction false} QuotesAreNotCounted(lib: Library, raw: Bytes)
    ensures forall i :: 0 <= i < |Base64.Encode(lib.gzip(raw))| ==> Base64Char(Base64.Encode(lib.gzip(raw))[i])
    ensures var e := Sent(lib, raw);
            |WirePayload(raw, e)| <= |raw| + 1 &&
            (|WirePayload(raw, e)| > |raw| <==>
               |raw| >= THRESHOLD && |Base64.Encode(lib.gzip(raw))| == |raw| - 1)
  {
    TextIsBase64(lib.gzip(raw));
    CompressedIfShorter(lib, raw);
  }

  lemma {:induction false} NoBreaks(t: string)
    requires forall i :: 0 <= i < |t| ==> Base64Char(t[i])
    ensures WithoutBreaks(t) == t
  {
    if t != "" {
      NoBreaks(t[1..]);
    }
  }

  lemma EncodingIsTrimmed()
    ensures TrimText(GZIP_BASE64_JSON) == GZIP_BASE64_JSON != ""
  {
    assert GZIP_BASE64_JSON[0] == 'g' && GZIP_BASE64_JSON[|GZIP_BASE64_JSON| - 1] == 'n';
  }

  lemma {:induction false} CompressedArrives(lib: Library, raw: Bytes, text: string)
    requires Reversible(lib) && ReadsPlainStrings(lib) && text == Base64.Encode(lib.gzip(raw))
    requires |raw| >= 2 && raw[0] == 0x7B && raw[|raw| - 1] == 0x7D
    ensures forall i :: 0 <= i < |text| ==> Base64Char(text[i])
    ensures DecodeCompressed(lib, Quote(text)) == if lib.valid(raw) then Some(raw) else None
  {
    TextIsBase64(lib.gzip(raw));
    TextArrives(lib, text);
    Base64.DecodeUndoesEncode(lib.gzip(raw));
    NothingToTrim(raw);
  }

  lemma {:induction false} TextArrives(lib: Library, text: string)
    requires ReadsPlainStrings(lib) && forall i :: 0 <= i < |text| ==> Base64Char(text[i])
    ensures lib.unquote(Quote(text)) == Some(text) && WithoutBreaks(text) == text
  {
    NoBreaks(text);
  }

  lemma {:induction false} NothingToTrim(raw: Bytes)
    requires |raw| >= 2 && raw[0] == 0x7B && raw[|raw| - 1] == 0x7D
    ensures TrimSpace(raw) == raw
  {
  }

  /** The bytes that `encodePayload` starts from. */
  function Raw(payload: Json): Bytes {
    Utf8.Encode(Print(payload))
  }

  lemma {:induction false} RawObject(payload: Json)
    requires payload.Obj?
    ensures var raw := Raw(payload); |raw| >= 2 && raw[0] == 0x7B && raw[|raw| - 1] == 0x7D
  {
    Utf8.NotShorter(Print(payload));
    Utf8.AsciiStart(Print(payload));
    Utf8.AsciiEnd(Print(payload));
  }

  lemma {:induction false} BytesRoundTrip(lib: Library, raw: Bytes)
    requires Reversible(lib) && ReadsPlainStrings(lib)
    requires |raw| >= 2 && raw[0] == 0x7B && raw[|raw| - 1] == 0x7D
    ensures forall i :: 0 <= i < |Base64.Encode(lib.gzip(raw))| ==> Base64Char(Base64.Encode(lib.gzip(raw))[i])
    ensures var e := Sent(lib, raw);
            Normalized(lib, WirePayload(raw, e), WireEncoding(e)) ==
            if e.Identity? || lib.valid(raw) then Some((raw, "")) else None
  {
    CompressedArrives(lib, raw, Base64.Encode(lib.gzip(raw)));
    EncodingIsTrimmed();
  }

  lemma {:induction false} ValidExactly(lib: Library, payload: Json)
    requires FollowsRfc8259(lib) && Printable(payload)
    ensures lib.valid(Raw(payload)) <==> Exact(payload)
  {
    PrintedIsJsonExactly(payload);
  }

  /** Main result: given the laws of the library, a payload arrives as it was sent exactly if it went
      uncompressed, or all its control units have a short escape and all its numbers are finite;
      otherwise the server reports an error. */
  lemma {:induction false} EnvelopeRoundTrip(lib: Library, payload: Json)
    requires Lawful(lib) && payload.Obj? && Printable(payload)
    ensures var text := Base64.Encode(lib.gzip(Raw(payload)));
            forall i :: 0 <= i < |text| ==> Base64Char(text[i])
    ensures var raw := Raw(payload); var e := Sent(lib, raw);
            Normalized(lib, WirePayload(raw, e), WireEncoding(e)) ==
            if e.Identity? || Exact(payload) then Some((raw, "")) else None
  {
    var raw := Raw(payload);
    RawObject(payload);
    ValidExactly(lib, payload);
    BytesRoundTrip(lib, raw);
  }

  lemma {:induction false} EscapeIsNotShorter(s: Text)
    ensures |Escape(s)| >= |s|
  {
    EscapeIsPerUnit(s);
    if s != [] {
      EscapeIsPerUnit(s[1..]);
      EscapeIsNotShorter(s[1..]);
    }
  }

  /** An object of one string. */
  function OneString(key: Text, s: Text): Json {
    Obj([Entry(key, Str(s))])
  }

  lemma {:induction false} LongString(key: Text, s: Text)
    requires |s| >= THRESHOLD
    ensures |Raw(OneString(key, s))| >= THRESHOLD
  {
    var v := OneString(key, s);
    EscapeIsNotShorter(s);
    Utf8.NotShorter(Print(v));
    var e := Entry(key, Str(s));
    assert PrintEntries([e], true) == [] + PrintEntry(e) + PrintEntries([e][1..], false);
  }

  /** Payloads that are lost: one long string with the control unit 1 in front, if gzip makes it short
      enough to be compressed. */
  lemma {:induction false} ControlIsRefused(lib: Library, key: Text, s: Text)
    requires Lawful(lib) && |s| >= THRESHOLD && s[0] == 1
    requires var raw := Raw(OneString(key, s)); WireSize(|lib.gzip(raw)|) < |raw|
    ensures var text := Base64.Encode(lib.gzip(Raw(OneString(key, s))));
            forall i :: 0 <= i < |text| ==> Base64Char(text[i])
    ensures var raw := Raw(OneString(key, s)); var e := Sent(lib, raw);
            e.Compressed? && Normalized(lib, WirePayload(raw, e), WireEncoding(e)) == None
  {
    LongString(key, s);
    NotExact(key, s);
    EnvelopeRoundTrip(lib, OneString(key, s));
  }

  lemma {:induction false} NotExact(key: Text, s: Text)
    requires s != [] && s[0] == 1
    ensures Printable(OneString(key, s)) && !Exact(OneString(key, s))
  {
    assert !OnlyNamedControls(s);
    assert !ExactEntry(OneString(key, s).entries[0]);
  }

  /** Normalising a second time changes nothing. */
  lemma {:induction false} NormalizeIsIdempotent(lib: Library, payload: Bytes, encoding: string)
    ensures match Normalized(lib, payload, encoding)
            case None => true
            case Some((p, e)) => Normalized(lib, p, e) == Some((p, e))
  {
  }

  // ---- What the server makes of other envelopes ----

  /** Tab, line feed, vertical tab, form feed, return and space. */
  predicate White(code: int) {
    0x09 <= code <= 0x0D || code == 0x20
  }

  predicate WhiteText(s: string) {
    forall i :: 0 <= i < |s| ==> White(s[i] as int)
  }

  predicate WhiteBytes(s: Bytes) {
    forall i :: 0 <= i < |s| ==> White(s[i] as int)
  }

  lemma {:induction false} TrimTextExactly(pre: string, mid: string, post: string)
    requires WhiteText(pre) && WhiteText(post)
    requires mid != "" ==> !White(mid[0] as int) && !White(mid[|mid| - 1] as int)
    ensures TrimText(pre + mid + post) == mid
    decreases |pre| + |post|
  {
    var t := pre + mid + post;
    if pre != "" {
      assert t[1..] == pre[1..] + mid + post;
      TrimTextExactly(pre[1..], mid, post);
    } else if post != "" {
      if mid == "" {
        assert t == post && t[1..] == pre + mid + post[1..];
        TrimTextExactly(pre, mid, post[1..]);
      } else {
        assert t[..|t| - 1] == pre + mid + post[..|post| - 1];
        TrimTextExactly(pre, mid, post[..|post| - 1]);
      }
    } else {
      assert t == mid;
    }
  }

  lemma {:induction false} TrimRightExactly(mid: Bytes, post: Bytes)
    requires WhiteBytes(post) && (mid != [] ==> !White(mid[|mid| - 1] as int))
    ensures TrimRight(mid + post) == mid
    decreases |post|
  {
    if post == [] {
      assert mid + post == mid;
    } else {
      assert (mid + post)[..|mid + post| - 1] == mid + post[..|post| - 1];
      TrimRightExactly(mid, post[..|post| - 1]);
    }
  }

  lemma {:induction false} TrimLeftExactly(pre: Bytes, t: Bytes)
    requires WhiteBytes(pre) && (t != [] ==> !White(t[0] as int))
    ensures TrimLeft(pre + t) == t
  {
    if pre == [] {
      assert pre + t == t;
    } else {
      assert (pre + t)[1..] == pre[1..] + t;
      TrimLeftExactly(pre[1..], t);
    }
  }

  lemma {:induction false} TrimSpaceExactly(pre: Bytes, mid: Bytes, post: Bytes)
    requires WhiteBytes(pre) && WhiteBytes(post)
    requires mid != [] ==> !White(mid[0] as int) && !White(mid[|mid| - 1] as int)
    ensures TrimSpace(pre + mid + post) == mid
  {
    if mid == [] {
      assert pre + mid + post == pre + post + [];
      TrimLeftExactly(pre + post, []);
    } else {
      assert pre + mid + post == pre + (mid + post);
      TrimLeftExactly(pre, mid + post);
      TrimRightExactly(mid, post);
    }
  }

  /** Go's decoder skips returns and line feeds wherever they stand. */
  lemma {:induction false} BreaksAreSkipped(a: string, breaks: string, b: string)
    requires forall i :: 0 <= i < |breaks| ==> breaks[i] == '\r' || breaks[i] == '\n'
    ensures WithoutBreaks(a + breaks + b) == WithoutBreaks(a + b)
  {
    if a != "" {
      assert (a + breaks + b)[1..] == a[1..] + breaks + b && (a + b)[1..] == a[1..] + b;
      BreaksAreSkipped(a[1..], breaks, b);
    } else if breaks != "" {
      assert (a + breaks + b)[1..] == a + breaks[1..] + b;
      BreaksAreSkipped(a, breaks[1..], b);
    } else {
      assert a + breaks + b == a + b;
    }
  }

  /** Main result: which encodings are known, with white space around them, and what becomes of the payload. */
  lemma EncodingDecides(lib: Library, payload: Bytes, pre: string, encoding: string, post: string)
    requires WhiteText(pre) && WhiteText(post)
    requires encoding != "" ==> !White(encoding[0] as int) && !White(encoding[|encoding| - 1] as int)
    ensures Normalized(lib, payload, pre + encoding + post) ==
      if encoding == "" then Some((payload, pre + encoding + post))
      else if encoding == "gzip+base64+json" then
        match DecodeCompressed(lib, payload)
        case None => None
        case Some(plain) => Some((plain, ""))
      else None
  {
    TrimTextExactly(pre, encoding, post);
  }

  /** A compressed payload is decoded without the white space around it; nothing at all stands for an empty
      object, and what is not JSON is an error. */
  lemma PlainIsTrimmed(lib: Library, payload: Bytes, text: string, pre: Bytes, plain: Bytes, post: Bytes)
    requires lib.unquote(payload) == Some(text) && Base64.Decode(WithoutBreaks(text)).Some?
    requires lib.gunzip(Base64.Decode(WithoutBreaks(text)).value) == Some(pre + plain + post)
    requires WhiteBytes(pre) && WhiteBytes(post)
    requires plain != [] ==> !White(plain[0] as int) && !White(plain[|plain| - 1] as int)
    ensures DecodeCompressed(lib, payload) ==
            if plain == [] then Some([0x7B, 0x7D]) else if lib.valid(plain) then Some(plain) else None
  {
    TrimSpaceExactly(pre, plain, post);
  }
}
