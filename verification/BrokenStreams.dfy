/** Streams that end, break off or carry an impossible length (internal/web/client_ws.go,
    clients/java/src/com/r0rpc/client/SimpleWebSocket.java). */
module BrokenStreams {
  import opened Bits
  import opened Frames
  import opened FrameStreams
  import opened Sequences
  import opened Wrappers

  /** A head whose length field has its top bit set and whose low 32 bits are negative as an `int`. */
  ghost predicate NegativeStart(s: Bytes) {
    exists first: Byte, n: nat, key: Option<Key>, rest: Bytes ::
      Top(first) && TWO_63 <= n < TWO_64 && n % 0x1_0000_0000 >= 0x8000_0000 &&
      s == Header(first, Long, n, key) + rest
  }

  lemma {:induction false} CrashesAtHead(first: Byte, n: nat, key: Option<Key>, rest: Bytes)
    requires Top(first) && TWO_63 <= n < TWO_64 && n % 0x1_0000_0000 >= 0x8000_0000
    ensures JavaRead(Header(first, Long, n, key) + rest) == Negative
  {
    HeaderReadBack(first, Long, n, key, rest);
    JavaLengthMeans(n);
  }

  /** Main result: the client's reader ends cleanly exactly on an empty stream, crashes exactly on a negative
      length, and reports an I/O error on everything else that is no frame to it. */
  lemma {:induction false} JavaRefusesExactly(s: Bytes)
    ensures JavaRead(s) == End <==> s == []
    ensures JavaRead(s) == Negative <==> NegativeStart(s)
    ensures JavaRead(s) == Failed <==>
            s != [] && !NegativeStart(s) &&
            forall f: Frame, rest: Bytes ::
              !(StartsWith(s, f, rest) && |f.data| <= MAX_INT) && !TruncatedStart(s, f, rest)
  {
    forall f: Frame, rest: Bytes
      ensures JavaRead(s) == Got(f, rest) <==>
              (StartsWith(s, f, rest) && |f.data| <= MAX_INT) || TruncatedStart(s, f, rest)
    {
      JavaAcceptsExactly(s, f, rest);
    }
    if JavaRead(s) == Negative {
      var h := ReadHead(s).value;
      ReadHeadIsHeader(s);
      JavaLengthMeans(h.n);
    }
    if NegativeStart(s) {
      var first: Byte, n: nat, key: Option<Key>, rest: Bytes :|
        Top(first) && TWO_63 <= n < TWO_64 && n % 0x1_0000_0000 >= 0x8000_0000 &&
        s == Header(first, Long, n, key) + rest;
      CrashesAtHead(first, n, key, rest);
    }
  }

  /** What such a stream does to the client's loop over frames: an I/O error closes the socket, a negative length
      is an exception that leaves it open, and an empty stream is a clean end. */
  lemma {:induction false} LoopStops(s: Bytes, keys: seq<Key>, drawn: nat)
    ensures NegativeStart(s) ==> JavaNext(s, keys, drawn) == JavaStep(Crashed, [], drawn)
    ensures s == [] ==> JavaNext(s, keys, drawn) == JavaStep(Over(false), [], drawn)
    ensures JavaRead(s) == Failed ==> JavaNext(s, keys, drawn) == JavaStep(Broken, [], drawn)
  {
    JavaRefusesExactly(s);
  }

  // ---- Frames that break off ----

  lemma StartsLonger(s: Bytes, f: Frame, rest: Bytes, more: Bytes)
    requires StartsWith(s, f, rest)
    ensures StartsWith(s + more, f, rest + more)
  {
    var first: Byte, form: Form, key: Option<Key> :|
      Fits(form, |f.data|) && Top(first) && Low4(first) == f.opcode && s == Layout(first, form, key, f.data) + rest;
    Regroup(Layout(first, form, key, f.data), rest, more);
  }

  lemma TruncatedLonger(s: Bytes, f: Frame, rest: Bytes, more: Bytes)
    requires TruncatedStart(s, f, rest)
    ensures TruncatedStart(s + more, f, rest + more)
  {
    var first: Byte, n: nat, key: Option<Key> :|
      TWO_63 <= n < TWO_64 && n % 0x1_0000_0000 == |f.data| <= MAX_INT &&
      Top(first) && Low4(first) == f.opcode &&
      s == Header(first, Long, n, key) + Masked(f.data, key) + rest;
    Regroup(Header(first, Long, n, key) + Masked(f.data, key), rest, more);
  }

  lemma NegativeLonger(s: Bytes, more: Bytes)
    requires NegativeStart(s)
    ensures NegativeStart(s + more)
  {
    var first: Byte, n: nat, key: Option<Key>, rest: Bytes :|
      Top(first) && TWO_63 <= n < TWO_64 && n % 0x1_0000_0000 >= 0x8000_0000 &&
      s == Header(first, Long, n, key) + rest;
    Regroup(Header(first, Long, n, key), rest, more);
  }

  /** What has been read of a stream does not depend on what follows. */
  lemma {:induction false} ReadsLonger(s: Bytes, more: Bytes)
    ensures JavaRead(s).Got? ==> JavaRead(s + more) == Got(JavaRead(s).f, JavaRead(s).rest + more)
    ensures JavaRead(s) == Negative ==> JavaRead(s + more) == Negative
    ensures GoRead(s).Some? ==> GoRead(s + more) == Some((GoRead(s).value.0, GoRead(s).value.1 + more))
  {
    if JavaRead(s).Got? {
      var f, rest := JavaRead(s).f, JavaRead(s).rest;
      JavaAcceptsExactly(s, f, rest);
      JavaAcceptsExactly(s + more, f, rest + more);
      if StartsWith(s, f, rest) {
        StartsLonger(s, f, rest, more);
      } else {
        TruncatedLonger(s, f, rest, more);
      }
    }
    JavaRefusesExactly(s);
    JavaRefusesExactly(s + more);
    if JavaRead(s) == Negative {
      NegativeLonger(s, more);
    }
    if GoRead(s).Some? {
      var (f, rest) := GoRead(s).value;
      GoAcceptsExactly(s, f, rest);
      StartsLonger(s, f, rest, more);
      GoAcceptsExactly(s + more, f, rest + more);
    }
  }

  /** Main result: a frame of the server that breaks off is an I/O error for the client, which then closes; an end
      between frames is a clean end. */
  lemma {:induction false} BrokenFrames(f: Frame, k: nat, keys: seq<Key>, drawn: nat)
    requires Sendable(f) && k < |GoFrame(f.opcode, f.data).value|
    ensures JavaNext(GoFrame(f.opcode, f.data).value[..k], keys, drawn) ==
            JavaStep(if k == 0 then Over(false) else Broken, [], drawn)
  {
    var wire := GoFrame(f.opcode, f.data).value;
    var s, more := wire[..k], wire[k..];
    Halves(wire, k);
    JavaReadsNext(f, []);
    assert wire + [] == wire;
    ReadsLonger(s, more);
    JavaRefusesExactly(s);
  }

  /** The same for the server: a client's frame that breaks off ends the connection without a message. */
  lemma {:induction false} BrokenClientFrames(f: Frame, key: Key, k: nat)
    requires Sendable(f) && k < |JavaFrame(f.opcode, key, f.data)|
    ensures GoNext(JavaFrame(f.opcode, key, f.data)[..k]) == (Ended, [])
  {
    var wire := JavaFrame(f.opcode, key, f.data);
    Halves(wire, k);
    GoReadsNext(f, key, []);
    assert wire + [] == wire;
    ReadsLonger(wire[..k], wire[k..]);
  }
}
