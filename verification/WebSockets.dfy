/** The two ends of a WebSocket as they run: headers appended byte by byte, streams that deliver
    what they have, payloads unmasked in place (internal/web/client_ws.go,
    clients/java/src/com/r0rpc/client/SimpleWebSocket.java). Failing writes are not modelled. */
module WebSockets {
  import opened Bits
  import opened Frames
  import opened FrameStreams
  import opened Sequences
  import opened Wrappers

  /** `payload[i] ^= mask[i % 4]`, on both ends. */
  method ApplyMask(payload: array<Byte>, key: Key)
    modifies payload
    ensures payload[..] == Mask(old(payload[..]), key)
  {
    for i := 0 to payload.Length
      invariant forall k :: 0 <= k < i ==> payload[k] == Xor(old(payload[k]), key[k % 4])
      invariant forall k :: i <= k < payload.Length ==> payload[k] == old(payload[k])
    {
      payload[i] := Xor(payload[i], key[i % 4]);
    }
  }

  // ---- The server ----

  class Conn {
    var incoming: Bytes
    var written: Bytes

    constructor (incoming: Bytes)
      ensures this.incoming == incoming && written == []
    {
      this.incoming := incoming;
      written := [];
    }

    /** `io.ReadFull`. */
    method ReadFull(n: nat) returns (buffer: array<Byte>, ok: bool)
      modifies `incoming
      ensures fresh(buffer) && ok == (n <= |old(incoming)|)
      ensures ok ==> buffer[..] == old(incoming)[..n] && incoming == old(incoming)[n..]
    {
      buffer := new Byte[n](_ => 0);
      ok := n <= |incoming|;
      if ok {
        ghost var before := incoming;
        for i := 0 to n
          invariant buffer[..i] == before[..i] && incoming == before
        {
          buffer[i] := incoming[i];
        }
        assert buffer[..] == buffer[..n];
        incoming := incoming[n..];
      }
    }

    method WriteFrame(opcode: Byte, payload: Bytes) returns (ok: bool)
      modifies `written
      ensures match GoFrame(opcode, payload)
              case None => !ok && written == old(written)
              case Some(frame) => ok && written == old(written) + frame
    {
      if |payload| > MAX_MESSAGE {
        return false;
      }
      var n := |payload|;
      var header: Bytes := [SetTop(opcode)];
      if n < 126 {
        header := header + [n as Byte];
      } else if n <= 65535 {
        header := header + [126, (n / 256) as Byte, (n % 256) as Byte];
        assert BigEndian(n, 2) == [(n / 256) as Byte, (n % 256) as Byte] by {
          assert BigEndian(n / 256, 1) == [(n / 256) as Byte];
        }
      } else {
        header := header + [127];
        header := header + BigEndian(n, 8);
      }
      assert header == Header(SetTop(opcode), ShortestForm(n), n, None);
      written := written + header;
      if n > 0 {
        written := written + payload;
      }
      return true;
    }

    method ReadLength(code: Byte) returns (r: Option<nat>)
      modifies `incoming
      ensures match TakeLength(code, old(incoming))
              case None => r == None
              case Some((_, n, rest)) =>
                if code == 127 && n > MAX_MESSAGE then r == None else r == Some(n) && incoming == rest
    {
      if code == 126 {
        var ext, ok := ReadFull(2);
        return if ok then Some(FromBigEndian(ext[..])) else None;
      } else if code == 127 {
        var ext, ok := ReadFull(8);
        if !ok {
          return None;
        }
        var length := FromBigEndian(ext[..]);
        return if length > MAX_MESSAGE then None else Some(length);
      }
      return Some(code as int);
    }

    /** The part of one round of `ReadMessage` that reads a frame. */
    method ReadFrame() returns (r: Option<Frame>)
      modifies `incoming
      ensures match GoRead(old(incoming))
              case None => r == None
              case Some((f, rest)) => r == Some(f) && incoming == rest
    {
      var head, headOk := ReadFull(2);
      if !headOk {
        return None;
      }
      var first, second := head[0], head[1];
      assert first == old(incoming)[0] && second == old(incoming)[1];
      if !Top(first) {
        return None;
      }
      var length := ReadLength(Low7(second));
      if length == None || length.value > MAX_MESSAGE {
        return None;
      }
      var key: Option<Key> := None;
      if Top(second) {
        var maskKey, keyOk := ReadFull(4);
        if !keyOk {
          return None;
        }
        key := Some(maskKey[..]);
      }
      var payload, payloadOk := ReadFull(length.value);
      if !payloadOk {
        return None;
      }
      if key.Some? {
        ApplyMask(payload, key.value);
      }
      return Some(Frame(Low4(first), payload[..]));
    }

    /** None is an error, among them the end of the stream after a close frame. */
    method ReadMessage() returns (r: Option<Frame>)
      modifies this
      ensures written == old(written) + GoNext(old(incoming)).1
      ensures match GoNext(old(incoming)).0
              case Ended => r == None
              case Message(f, rest) => r == Some(f) && incoming == rest
    {
      while true
        invariant GoNext(old(incoming)).0 == GoNext(incoming).0
        invariant old(written) + GoNext(old(incoming)).1 == written + GoNext(incoming).1
        decreases |incoming|
      {
        ghost var before, later := written, GoNext(incoming).1;
        assert before + [] == before;
        var frame := ReadFrame();
        if frame == None {
          return None;
        }
        if frame.value.opcode == PING {
          var ok := WriteFrame(PONG, frame.value.data);
          if !ok {
            return None;
          }
          Regroup(before, GoFrame(PONG, frame.value.data).value, GoNext(incoming).1);
        } else if frame.value.opcode == PONG {
          return frame;
        } else if frame.value.opcode == CLOSE {
          return None;
        } else if frame.value.opcode == TEXT {
          return frame;
        }
      }
    }
  }

  // ---- The client ----

  lemma ShiftedByte(n: nat, i: nat)
    requires i < 8
    ensures BigEndian(n, 8)[i] as int == ShiftRight(n, 7 - i) % 256
  {
    BigEndianAt(n, 8, i);
  }

  /** `n >>> 8 * times`. */
  function ShiftRight(n: nat, times: nat): nat {
    if times == 0 then n else ShiftRight(n / 256, times - 1)
  }

  lemma {:induction false} BigEndianAt(n: nat, width: nat, i: nat)
    requires i < width
    ensures BigEndian(n, width)[i] as int == ShiftRight(n, width - 1 - i) % 256
  {
    if i < width - 1 {
      BigEndianAt(n / 256, width - 1, i);
      assert BigEndian(n, width)[i] == BigEndian(n / 256, width - 1)[i];
    }
  }

  /** `(n << 8) | b` on a `long` and a byte: the shift leaves room for the byte. */
  function ShiftIn(n: int, b: Byte): int {
    WrapLong(n * 256 + b as int)
  }

  lemma ShiftInStep(s: Bytes)
    requires s != []
    ensures ShiftIn(WrapLong(FromBigEndian(s[..|s| - 1])), s[|s| - 1]) == WrapLong(FromBigEndian(s))
  {
    var n, b := FromBigEndian(s[..|s| - 1]), s[|s| - 1];
    var turns := (n + TWO_63) / TWO_64;
    assert WrapLong(n) == n - turns * TWO_64;
    WrapTurns(n * 256 + b as int, turns * 256);
  }

  lemma WrapTurns(n: int, turns: int)
    ensures WrapLong(n - turns * TWO_64) == WrapLong(n)
  {
  }

  class InputStream {
    var rest: Bytes

    constructor (bytes: Bytes)
      ensures rest == bytes
    {
      rest := bytes;
    }

    /** -1 at the end of the stream. */
    method Read() returns (b: int)
      modifies this
      ensures old(rest) == [] ==> b == -1 && rest == []
      ensures old(rest) != [] ==> b == old(rest)[0] as int && rest == old(rest)[1..]
    {
      if rest == [] {
        return -1;
      }
      b := rest[0] as int;
      rest := rest[1..];
    }

    /** Stores some of the bytes asked for, at least one; -1 at the end of the stream. */
    method ReadInto(data: array<Byte>, offset: nat, length: nat) returns (n: int)
      requires 0 < length && offset + length <= data.Length
      modifies this, data
      ensures old(rest) == [] ==> n == -1 && rest == []
      ensures old(rest) != [] ==>
        0 < n <= length && n <= |old(rest)| && rest == old(rest)[n..] &&
        data[..offset] == old(data[..offset]) && data[offset..offset + n] == old(rest)[..n]
    {
      if rest == [] {
        return -1;
      }
      n :| 0 < n <= length && n <= |rest|;
      for i := 0 to n
        invariant rest == old(rest) && data[..offset] == old(data[..offset])
        invariant data[offset..offset + i] == rest[..i]
      {
        data[offset + i] := rest[i];
      }
      rest := rest[n..];
    }
  }

  lemma JoinFrame(start: Bytes, before: Bytes, first: Byte, key: Key, data: Bytes)
    requires |data| <= MAX_INT
    requires var form := ShortestForm(|data|);
             before == start + ([first, SecondByte(form, |data|, true)] + Extension(form, |data|)) + key
    ensures before + Mask(data, key) == start + Layout(first, ShortestForm(|data|), Some(key), data)
  {
    var form := ShortestForm(|data|);
    Assoc(start, [first, SecondByte(form, |data|, true)] + Extension(form, |data|), key, Mask(data, key));
    Regroup([first, SecondByte(form, |data|, true)] + Extension(form, |data|), key, Mask(data, key));
  }

  /** Two ways to go on that end with the same result, keys drawn and bytes written in all. */
  ghost predicate SameStep(a: JavaStep, writtenBeforeA: Bytes, b: JavaStep, writtenBeforeB: Bytes) {
    a.outcome == b.outcome && a.drawn == b.drawn && writtenBeforeA + a.replies == writtenBeforeB + b.replies
  }

  lemma {:induction false} StopsAt(s: Bytes, keys: seq<Key>, drawn: nat)
    ensures match JavaRead(s)
            case End => JavaNext(s, keys, drawn) == JavaStep(Over(false), [], drawn)
            case Failed => JavaNext(s, keys, drawn) == JavaStep(Broken, [], drawn)
            case Negative => JavaNext(s, keys, drawn) == JavaStep(Crashed, [], drawn)
            case Got(f, rest) =>
              |f.data| <= MAX_INT &&
              (f.opcode == TEXT ==> JavaNext(s, keys, drawn) == JavaStep(Text(f.data, rest), [], drawn)) &&
              (f.opcode == CLOSE ==>
                JavaNext(s, keys, drawn) == JavaStep(Over(true), JavaFrame(CLOSE, KeyAt(keys, drawn), []), drawn + 1))
  {
  }

  lemma {:induction false} GoOn(s: Bytes, f: Frame, rest: Bytes, keys: seq<Key>, drawn: nat, before: Bytes,
                                start: JavaStep, written: Bytes)
    requires JavaRead(s) == Got(f, rest) && f.opcode != TEXT && f.opcode != CLOSE && |f.data| <= MAX_INT
    requires SameStep(JavaNext(s, keys, drawn), before, start, written)
    ensures if f.opcode == PING then
              SameStep(JavaNext(rest, keys, drawn + 1), before + JavaFrame(PONG, KeyAt(keys, drawn), f.data), start,
                       written)
            else SameStep(JavaNext(rest, keys, drawn), before, start, written)
  {
    if f.opcode == PING {
      Regroup(before, JavaFrame(PONG, KeyAt(keys, drawn), f.data), JavaNext(rest, keys, drawn + 1).replies);
    }
  }

  lemma {:induction false} PingAnswered(s: Bytes, f: Frame, rest: Bytes, keys: seq<Key>, drawn: nat, written: Bytes)
    requires JavaRead(s) == Got(f, rest) && f.opcode == PING
    ensures |f.data| <= MAX_INT && |rest| < |s|
    ensures SameStep(JavaNext(rest, keys, drawn + 1), written + JavaFrame(PONG, KeyAt(keys, drawn), f.data),
                     JavaNext(s, keys, drawn), written)
  {
    JavaReadIsBounded(s);
    GoOn(s, f, rest, keys, drawn, written, JavaNext(s, keys, drawn), written);
  }

  lemma {:induction false} TwoOctets(s: Bytes)
    requires |s| >= 2
    ensures FromBigEndian(s[..2]) == s[0] as int * 256 + s[1] as int
  {
    assert s[..2][..1] == [s[0]] && s[..2][1] == s[1];
    assert [s[0]][..0] == [];
    assert FromBigEndian([s[0]]) == FromBigEndian([]) * 256 + s[0] as int;
  }

  class SimpleWebSocket {
    const input: InputStream
    const keys: seq<Key>
    var drawn: nat
    var written: Bytes
    var closed: bool

    constructor (input: InputStream, keys: seq<Key>)
      ensures this.input == input && this.keys == keys && drawn == 0 && written == [] && !closed
    {
      this.input := input;
      this.keys := keys;
      drawn, written, closed := 0, [], false;
    }

    /** Not ok is an IOException. */
    method SendFrame(opcode: Byte, payload: Bytes) returns (ok: bool)
      requires |payload| <= MAX_INT
      modifies `drawn, `written
      ensures ok == !closed
      ensures !ok ==> drawn == old(drawn) && written == old(written)
      ensures ok ==> drawn == old(drawn) + 1 &&
                     written == old(written) + JavaFrame(opcode, KeyAt(keys, old(drawn)), payload)
    {
      if closed {
        return false;
      }
      var mask := KeyAt(keys, drawn);
      drawn := drawn + 1;
      WriteHeader(SetTop(Low4(opcode)), |payload|);
      written := written + mask;
      ghost var before := written;
      JoinFrame(old(written), before, SetTop(Low4(opcode)), mask, payload);
      for i := 0 to |payload|
        invariant written == before + Mask(payload, mask)[..i] && drawn == old(drawn) + 1
      {
        written := written + [Xor(payload[i], mask[i % 4])];
      }
      assert Mask(payload, mask)[..|payload|] == Mask(payload, mask);
      assert written == old(written) + JavaFrame(opcode, mask, payload);
      return true;
    }

    /** The header up to the masking key. */
    method WriteHeader(first: Byte, n: nat)
      requires n <= MAX_INT
      modifies `written
      ensures var form := ShortestForm(n);
              written == old(written) + ([first, SecondByte(form, n, true)] + Extension(form, n))
    {
      written := written + [first];
      if n < 126 {
        written := written + [SetTop(n as Byte)];
      } else if n <= 0xFFFF {
        written := written + [SetTop(126)];
        written := written + [(n / 256 % 256) as Byte];
        written := written + [(n % 256) as Byte];
        assert BigEndian(n, 2) == [(n / 256 % 256) as Byte, (n % 256) as Byte] by {
          assert BigEndian(n / 256, 1) == [(n / 256 % 256) as Byte];
        }
      } else {
        written := written + [SetTop(127)];
        ghost var before := written;
        for k := 0 to 8
          invariant written == before + BigEndian(n, 8)[..k]
        {
          ShiftedByte(n, k);
          written := written + [(ShiftRight(n, 7 - k) % 256) as Byte];
        }
        assert BigEndian(n, 8)[..8] == BigEndian(n, 8);
      }
    }

    /** None is an IOException. */
    method ReadFully(length: nat) returns (r: Option<array<Byte>>)
      modifies input
      ensures r.Some? == (length <= |old(input.rest)|)
      ensures r.Some? ==> fresh(r.value) && r.value[..] == old(input.rest)[..length] &&
                          input.rest == old(input.rest)[length..]
    {
      var data := new Byte[length](_ => 0);
      var offset := 0;
      while offset < length
        invariant offset <= length && offset <= |old(input.rest)|
        invariant data[..offset] == old(input.rest)[..offset] && input.rest == old(input.rest)[offset..]
      {
        ghost var taken := data[..offset];
        var read := input.ReadInto(data, offset, length - offset);
        if read < 0 {
          return None;
        }
        assert data[..offset + read] == taken + data[offset..offset + read];
        offset := offset + read;
      }
      assert data[..] == data[..length];
      return Some(data);
    }

    /** The length that a frame announces. Failed is an IOException. */
    method ReadLength(code: Byte) returns (r: Option<int>)
      modifies input
      ensures match TakeLength(code, old(input.rest))
              case None => r == None
              case Some((_, n, rest)) => r == JavaLength(n) && (r.Some? ==> input.rest == rest)
    {
      if code == 126 {
        var high := input.Read();
        if high < 0 {
          return None;
        }
        var low := input.Read();
        if low < 0 {
          return None;
        }
        TwoOctets(old(input.rest));
        return Some(high * 256 + low);
      } else if code == 127 {
        r := ReadLongLength();
      } else {
        return Some(code as int);
      }
    }

    method ReadLongLength() returns (r: Option<int>)
      modifies input
      ensures |old(input.rest)| < 8 ==> r == None
      ensures |old(input.rest)| >= 8 ==> r == JavaLength(FromBigEndian(old(input.rest)[..8]))
      ensures r.Some? ==> input.rest == old(input.rest)[8..]
    {
      var length := 0;
      ghost var s := input.rest;
      for i := 0 to 8
        invariant i <= |s| && input.rest == s[i..]
        invariant length == WrapLong(FromBigEndian(s[..i]))
      {
        var b := input.Read();
        if b < 0 {
          return None;
        }
        ShiftInStep(s[..i + 1]);
        assert s[..i + 1][..i] == s[..i];
        length := ShiftIn(length, b as Byte);
      }
      return if length > MAX_INT then None else Some(WrapInt(length));
    }

    method ReadFrame() returns (r: JavaResult)
      modifies input
      ensures r == JavaRead(old(input.rest))
      ensures r.Got? ==> input.rest == r.rest
    {
      var first := input.Read();
      if first < 0 {
        return End;
      }
      var second := input.Read();
      if second < 0 || !Top(first as Byte) {
        return Failed;
      }
      var length := ReadLength(Low7(second as Byte));
      if length == None {
        return Failed;
      }
      var key: Option<Key> := None;
      if Top(second as Byte) {
        var mask := ReadFully(4);
        if mask == None {
          return Failed;
        }
        key := Some(mask.value[..]);
      }
      if length.value < 0 {
        return Negative;
      }
      var payload := ReadFully(length.value);
      if payload == None {
        return Failed;
      }
      if key.Some? {
        ApplyMask(payload.value, key.value);
      }
      return Got(Frame(Low4(first as Byte), payload.value[..]), input.rest);
    }

    method AbortSocket()
      modifies `closed
      ensures closed
    {
      closed := true;
    }

    method Close()
      modifies this
      ensures closed
      ensures old(closed) ==> drawn == old(drawn) && written == old(written)
      ensures !old(closed) ==> drawn == old(drawn) + 1 &&
                               written == old(written) + JavaFrame(CLOSE, KeyAt(keys, old(drawn)), [])
    {
      if closed {
        return;
      }
      var _ := SendFrame(CLOSE, []);
      AbortSocket();
    }

    /** r is how one round of the loop of `readText` leaves the socket, if s was left to read before:
        with a result, or with None to go on with the next frame. */
    twostate predicate Rounded(s: Bytes, new r: Option<JavaOutcome>)
      reads this, input
    {
      var step := JavaNext(s, keys, old(drawn));
      match r
      case None =>
        !closed && |input.rest| < |s| &&
        SameStep(JavaNext(input.rest, keys, drawn), written, step, old(written))
      case Some(outcome) =>
        outcome == step.outcome && drawn == step.drawn && written == old(written) + step.replies &&
        closed == (outcome == Over(true) || outcome == Broken) &&
        (outcome.Text? ==> input.rest == outcome.rest)
    }

    method SendPong(data: Bytes)
      requires !closed && |data| <= MAX_INT
      modifies this
      ensures !closed && drawn == old(drawn) + 1
      ensures written == old(written) + JavaFrame(PONG, KeyAt(keys, old(drawn)), data)
    {
      var _ := SendFrame(PONG, data);
    }

    /** The switch of `readText`. */
    method HandleFrame(f: Frame, ghost s: Bytes) returns (r: Option<JavaOutcome>)
      requires !closed && JavaRead(s) == Got(f, input.rest)
      modifies this
      ensures Rounded(s, r)
    {
      StopsAt(s, keys, drawn);
      assert written + [] == written;
      if f.opcode == TEXT {
        return Some(Text(f.data, input.rest));
      } else if f.opcode == PING {
        PingAnswered(s, f, input.rest, keys, drawn, written);
        SendPong(f.data);
      } else if f.opcode == CLOSE {
        Close();
        return Some(Over(true));
      } else {
        GoOn(s, f, input.rest, keys, drawn, written, JavaNext(s, keys, drawn), written);
      }
      return None;
    }

    method ReadRound() returns (r: Option<JavaOutcome>)
      requires !closed
      modifies this, input
      ensures Rounded(old(input.rest), r)
    {
      ghost var before, s := written, input.rest;
      assert before + [] == before;
      StopsAt(s, keys, drawn);
      var frame := ReadFrame();
      if frame.End? {
        return Some(Over(false));
      }
      if frame.Failed? {
        AbortSocket();
        return Some(Broken);
      }
      if frame.Negative? {
        return Some(Crashed);
      }
      r := HandleFrame(frame.f, s);
    }

    /** On a closed socket the result is null at once. */
    method ReadText() returns (r: JavaOutcome)
      modifies this, input
      ensures old(closed) ==> r == Over(true) && closed && written == old(written) && drawn == old(drawn)
      ensures !old(closed) ==>
        var step := JavaNext(old(input.rest), keys, old(drawn));
        r == step.outcome && written == old(written) + step.replies && drawn == step.drawn &&
        closed == (r == Over(true) || r == Broken)
      ensures !old(closed) && r.Text? ==> input.rest == r.rest
    {
      ghost var start := JavaNext(input.rest, keys, drawn);
      while !closed
        invariant closed == old(closed)
        invariant closed ==> written == old(written) && drawn == old(drawn)
        invariant !closed ==> SameStep(JavaNext(input.rest, keys, drawn), written, start, old(written))
        decreases |input.rest|
      {
        var result := ReadRound();
        if result.Some? {
          return result.value;
        }
      }
      return Over(true);
    }
  }
}
