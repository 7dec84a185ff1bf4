/** The examples of section 5.7 of RFC 6455, as the two ends write them
    (internal/web/client_ws.go, clients/java/src/com/r0rpc/client/SimpleWebSocket.java). */
module FrameExamples {
  import opened Bits
  import opened Frames
  import opened Wrappers

  /** The text of the examples. */
  const HELLO: Bytes := [0x48, 0x65, 0x6C, 0x6C, 0x6F]

  lemma {:induction false} ShortHeader(first: Byte, n: nat, key: Option<Key>)
    requires n < 126
    ensures Header(first, ShortestForm(n), n, key) ==
            if key.Some? then [first, (0x80 + n) as Byte] + key.value else [first, n as Byte]
  {
    var second := SecondByte(Short, n, key.Some?);
    assert [first, second] + [] == [first, second];
    assert [first, second] + [] + [] == [first, second];
  }

  /** What the server writes: a text, a ping and a close frame. */
  lemma {:induction false} ServerExamples()
    ensures GoFrame(TEXT, HELLO) == Some([0x81, 0x05, 0x48, 0x65, 0x6C, 0x6C, 0x6F])
    ensures GoFrame(PING, HELLO) == Some([0x89, 0x05, 0x48, 0x65, 0x6C, 0x6C, 0x6F])
    ensures GoFrame(CLOSE, []) == Some([0x88, 0x00])
  {
    ShortHeader(0x81, 5, None);
    ShortHeader(0x89, 5, None);
    ShortHeader(0x88, 0, None);
    assert [0x81, 0x05] + HELLO == [0x81, 0x05, 0x48, 0x65, 0x6C, 0x6C, 0x6F];
    assert [0x89, 0x05] + HELLO == [0x89, 0x05, 0x48, 0x65, 0x6C, 0x6C, 0x6F];
    assert [0x88, 0x00] + [] == [0x88, 0x00];
  }

  lemma {:induction false} TwoOctets(n: nat)
    requires n < 0x1_0000
    ensures BigEndian(n, 2) == [(n / 256) as Byte, (n % 256) as Byte]
  {
    assert BigEndian(n / 256, 1) == BigEndian(n / 256 / 256, 0) + [(n / 256 % 256) as Byte];
    assert BigEndian(n / 256 / 256, 0) == [];
  }

  /** Lengths of 126 to 65535 stand in two octets behind 126. */
  lemma {:induction false} MediumExample(data: Bytes)
    requires |data| == 256
    ensures GoFrame(2, data) == Some([0x82, 0x7E, 0x01, 0x00] + data)
  {
    TwoOctets(256);
    assert [0x82, 0x7E] + BigEndian(256, 2) + [] == [0x82, 0x7E, 0x01, 0x00];
  }

  lemma {:induction false} EightOctets()
    ensures BigEndian(0x1_0000, 8) == [0, 0, 0, 0, 0, 1, 0, 0]
  {
    assert BigEndian(0, 5) == [0, 0, 0, 0, 0];
    assert BigEndian(1, 6) == [0, 0, 0, 0, 0, 1];
    assert BigEndian(0x100, 7) == [0, 0, 0, 0, 0, 1, 0];
  }

  /** Longer ones in eight octets behind 127. */
  lemma {:induction false} LongExample(data: Bytes)
    requires |data| == 0x1_0000
    ensures GoFrame(2, data) == Some([0x82, 0x7F, 0, 0, 0, 0, 0, 1, 0, 0] + data)
  {
    EightOctets();
    assert [0x82, 0x7F] + BigEndian(0x1_0000, 8) + [] == [0x82, 0x7F, 0, 0, 0, 0, 0, 1, 0, 0];
  }

  /** 4 MiB is the most that the server writes. */
  lemma LargestMessage(opcode: Byte, data: Bytes)
    ensures GoFrame(opcode, data).Some? <==> |data| <= 4_194_304
  {
  }

  /** What the client writes: the length with the mask bit, the key, and octet i of the payload combined with
      octet i modulo 4 of the key. */
  lemma {:induction false} ClientExample(key: Key)
    ensures JavaFrame(PONG, key, HELLO) ==
            [0x8A, 0x85, key[0], key[1], key[2], key[3],
             Xor(0x48, key[0]), Xor(0x65, key[1]), Xor(0x6C, key[2]), Xor(0x6C, key[3]), Xor(0x6F, key[0])]
  {
    ShortHeader(0x8A, 5, Some(key));
    var masked := [Xor(0x48, key[0]), Xor(0x65, key[1]), Xor(0x6C, key[2]), Xor(0x6C, key[3]), Xor(0x6F, key[0])];
    assert key == [key[0], key[1], key[2], key[3]];
    assert Mask(HELLO, key) == masked;
    assert [0x8A, 0x85] + key == [0x8A, 0x85, key[0], key[1], key[2], key[3]];
  }

  /** A masking key of zeros leaves every payload as it is. */
  lemma {:induction false} ZeroKeyMasksNothing(data: Bytes)
    ensures Mask(data, [0, 0, 0, 0]) == data
  {
    forall i | 0 <= i < |data| ensures Mask(data, [0, 0, 0, 0])[i] == data[i] {
      XorZero(data[i]);
    }
  }
}
