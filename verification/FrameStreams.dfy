/** Streams of WebSocket frames: what each end makes of everything the other end writes
    (internal/web/client_ws.go, clients/java/src/com/r0rpc/client/SimpleWebSocket.java). */
module FrameStreams {
  import opened Bits
  import opened Frames
  import opened Sequences
  import opened Wrappers

  /** A frame that either end can write and the other accepts. */
  predicate Sendable(f: Frame) {
    f.opcode < 16 && |f.data| <= MAX_MESSAGE
  }

  predicate AllSendable(frames: seq<Frame>) {
    forall i :: 0 <= i < |frames| ==> Sendable(frames[i])
  }

  function GoWire(frames: seq<Frame>): Bytes
    requires AllSendable(frames)
  {
    if frames == [] then [] else GoFrame(frames[0].opcode, frames[0].data).value + GoWire(frames[1..])
  }

  /** The masking key that the client draws after i others. The keys of a run are given beforehand, in
      the order in which they are drawn; a list may be as long as the run needs. */
  function KeyAt(keys: seq<Key>, i: nat): Key {
    if i < |keys| then keys[i] else [0, 0, 0, 0]
  }

  /** The client's frames, the first of them masked with the key drawn after `drawn` others. */
  function JavaWire(frames: seq<Frame>, keys: seq<Key>, drawn: nat): Bytes
    requires AllSendable(frames)
  {
    if frames == [] then []
    else JavaFrame(frames[0].opcode, KeyAt(keys, drawn), frames[0].data) + JavaWire(frames[1..], keys, drawn + 1)
  }

  // ---- Frame by frame ----

  /** All frames that can be read, and the bytes that are left. */
  function GoReadAll(s: Bytes): (seq<Frame>, Bytes)
    decreases |s|
  {
    match GoRead(s)
    case None => ([], s)
    case Some((f, rest)) => var (frames, left) := GoReadAll(rest); ([f] + frames, left)
  }

  function JavaReadAll(s: Bytes): (seq<Frame>, Bytes)
    decreases |s|
  {
    match JavaRead(s)
    case Got(f, rest) => var (frames, left) := JavaReadAll(rest); ([f] + frames, left)
    case End => ([], s)
    case Failed => ([], s)
    case Negative => ([], s)
  }

  lemma {:induction false} GoReadsNext(f: Frame, key: Key, rest: Bytes)
    requires Sendable(f)
    ensures GoRead(JavaFrame(f.opcode, key, f.data) + rest) == Some((f, rest))
  {
    assert Low4(f.opcode) == f.opcode;
    GoReadsJavaFrame(f.opcode, key, f.data, rest);
  }

  lemma {:induction false} JavaReadsNext(f: Frame, rest: Bytes)
    requires Sendable(f)
    ensures JavaRead(GoFrame(f.opcode, f.data).value + rest) == Got(f, rest)
  {
    JavaReadsGoFrame(f.opcode, f.data, rest);
  }

  /** Every frame that the client sends arrives at the server, in order, and nothing is left. */
  lemma {:induction false} GoReadsJavaStream(frames: seq<Frame>, keys: seq<Key>, drawn: nat)
    requires AllSendable(frames)
    ensures GoReadAll(JavaWire(frames, keys, drawn)) == (frames, [])
    decreases |frames|
  {
    if frames != [] {
      GoReadsNext(frames[0], KeyAt(keys, drawn), JavaWire(frames[1..], keys, drawn + 1));
      GoReadsJavaStream(frames[1..], keys, drawn + 1);
      assert [frames[0]] + frames[1..] == frames;
    }
  }

  /** Every frame that the server sends arrives at the client, in order, and nothing is left. */
  lemma {:induction false} JavaReadsGoStream(frames: seq<Frame>)
    requires AllSendable(frames)
    ensures JavaReadAll(GoWire(frames)) == (frames, [])
  {
    if frames != [] {
      JavaReadsNext(frames[0], GoWire(frames[1..]));
      JavaReadsGoStream(frames[1..]);
      assert [frames[0]] + frames[1..] == frames;
    }
  }

  // ---- Messages: control frames are handled where they arrive ----

  datatype GoOutcome = Message(f: Frame, rest: Bytes) | Ended

  /** `wsConn.ReadMessage`: its result, and the bytes that it writes on the way. */
  function GoNext(s: Bytes): (r: (GoOutcome, Bytes))
    ensures r.0.Message? ==> |r.0.rest| < |s|
    decreases |s|
  {
    match GoRead(s)
    case None => (Ended, [])
    case Some((f, rest)) =>
      if f.opcode == PING then
        match GoFrame(PONG, f.data)
        case None => (Ended, [])
        case Some(pong) => var (outcome, replies) := GoNext(rest); (outcome, pong + replies)
      else if f.opcode == PONG || f.opcode == TEXT then (Message(f, rest), [])
      else if f.opcode == CLOSE then (Ended, [])
      else GoNext(rest)
  }

  /** All messages until `ReadMessage` fails, and all bytes written back. */
  function GoMessages(s: Bytes): (seq<Frame>, Bytes)
    decreases |s|
  {
    var (outcome, replies) := GoNext(s);
    match outcome
    case Ended => ([], replies)
    case Message(f, rest) => var (more, later) := GoMessages(rest); ([f] + more, replies + later)
  }

  /** Broken is an IOException, Crashed a NegativeArraySizeException, Over a null result. */
  datatype JavaOutcome = Text(data: Bytes, rest: Bytes) | Over(closed: bool) | Broken | Crashed

  datatype JavaStep = JavaStep(outcome: JavaOutcome, replies: Bytes, drawn: nat)

  /** `SimpleWebSocket.readText` on an open socket: its result, the bytes that it writes, and how many
      masking keys have been drawn. */
  function JavaNext(s: Bytes, keys: seq<Key>, drawn: nat): (r: JavaStep)
    ensures r.outcome.Text? ==> |r.outcome.rest| < |s|
    decreases |s|
  {
    match JavaRead(s)
    case End => JavaStep(Over(false), [], drawn)
    case Failed => JavaStep(Broken, [], drawn)
    case Negative => JavaStep(Crashed, [], drawn)
    case Got(f, rest) =>
      if f.opcode == TEXT then JavaStep(Text(f.data, rest), [], drawn)
      else if f.opcode == PING then
        JavaReadIsBounded(s);
        var later := JavaNext(rest, keys, drawn + 1);
        JavaStep(later.outcome, JavaFrame(PONG, KeyAt(keys, drawn), f.data) + later.replies, later.drawn)
      else if f.opcode == CLOSE then JavaStep(Over(true), JavaFrame(CLOSE, KeyAt(keys, drawn), []), drawn + 1)
      else JavaNext(rest, keys, drawn)
  }

  lemma {:induction false} JavaReadIsBounded(s: Bytes)
    requires JavaRead(s).Got?
    ensures |JavaRead(s).f.data| <= MAX_INT
  {
  }

  /** All texts until `readText` returns null or throws, the bytes written back, and how it ended. */
  function JavaTexts(s: Bytes, keys: seq<Key>, drawn: nat): (seq<Bytes>, Bytes, JavaOutcome)
    decreases |s|
  {
    var step := JavaNext(s, keys, drawn);
    if !step.outcome.Text? then ([], step.replies, step.outcome)
    else
      var (more, later, end) := JavaTexts(step.outcome.rest, keys, step.drawn);
      ([step.outcome.data] + more, step.replies + later, end)
  }

  // ---- What a list of frames asks for ----

  /** The frames before the first close. */
  function BeforeClose(frames: seq<Frame>): seq<Frame> {
    if frames == [] || frames[0].opcode == CLOSE then [] else [frames[0]] + BeforeClose(frames[1..])
  }

  function Only(frames: seq<Frame>, opcodes: set<Byte>): seq<Frame> {
    if frames == [] then []
    else (if frames[0].opcode in opcodes then [frames[0]] else []) + Only(frames[1..], opcodes)
  }

  function Payloads(frames: seq<Frame>): seq<Bytes> {
    seq(|frames|, i requires 0 <= i < |frames| => frames[i].data)
  }

  /** A pong for every ping, with its payload. */
  function Pongs(frames: seq<Frame>): seq<Frame> {
    if frames == [] then []
    else (if frames[0].opcode == PING then [Frame(PONG, frames[0].data)] else []) + Pongs(frames[1..])
  }

  lemma {:induction false} PongsAreSendable(frames: seq<Frame>)
    requires AllSendable(frames)
    ensures AllSendable(BeforeClose(frames)) && AllSendable(Pongs(BeforeClose(frames)))
  {
    if frames != [] && frames[0].opcode != CLOSE {
      assert AllSendable(frames[1..]);
      PongsAreSendable(frames[1..]);
      assert BeforeClose(frames)[1..] == BeforeClose(frames[1..]);
    }
  }

  // ---- Main results ----

  lemma {:induction false} PrependPong(data: Bytes, tail: seq<Frame>)
    requires |data| <= MAX_MESSAGE && AllSendable(tail)
    ensures AllSendable([Frame(PONG, data)] + tail)
    ensures GoWire([Frame(PONG, data)] + tail) == GoFrame(PONG, data).value + GoWire(tail)
  {
    assert ([Frame(PONG, data)] + tail)[1..] == tail;
  }

  lemma {:induction false} FirstBeforeClose(frames: seq<Frame>)
    requires frames != [] && frames[0].opcode != CLOSE
    ensures BeforeClose(frames) == [frames[0]] + BeforeClose(frames[1..])
    ensures BeforeClose(frames)[0] == frames[0] && BeforeClose(frames)[1..] == BeforeClose(frames[1..])
  {
  }

  lemma {:induction false} GoSkipsPing(s: Bytes, data: Bytes, tail: Bytes)
    requires GoRead(s) == Some((Frame(PING, data), tail)) && |data| <= MAX_MESSAGE
    ensures GoMessages(s) == (GoMessages(tail).0, GoFrame(PONG, data).value + GoMessages(tail).1)
  {
    var pong := GoFrame(PONG, data).value;
    var (outcome, replies) := GoNext(tail);
    assert GoNext(s) == (outcome, pong + replies);
    if outcome.Message? {
      Regroup(pong, replies, GoMessages(outcome.rest).1);
    }
  }

  lemma {:induction false} GoDelivers(s: Bytes, f: Frame, tail: Bytes)
    requires GoRead(s) == Some((f, tail)) && (f.opcode == TEXT || f.opcode == PONG)
    ensures GoMessages(s) == ([f] + GoMessages(tail).0, GoMessages(tail).1)
  {
    assert GoNext(s) == (Message(f, tail), []);
    assert [] + GoMessages(tail).1 == GoMessages(tail).1;
  }

  lemma {:induction false} GoSkips(s: Bytes, f: Frame, tail: Bytes)
    requires GoRead(s) == Some((f, tail)) && f.opcode !in {TEXT, CLOSE, PING, PONG}
    ensures GoMessages(s) == GoMessages(tail)
  {
    assert GoNext(s) == GoNext(tail);
  }

  ghost predicate ServerGets(frames: seq<Frame>, s: Bytes)
    requires AllSendable(frames)
  {
    PongsAreSendable(frames);
    GoMessages(s) == (Only(BeforeClose(frames), {TEXT, PONG}), GoWire(Pongs(BeforeClose(frames))))
  }

  lemma {:induction false} ServerGetsNothing(frames: seq<Frame>, s: Bytes)
    requires AllSendable(frames) && BeforeClose(frames) == [] && GoNext(s) == (Ended, [])
    ensures ServerGets(frames, s)
  {
  }

  lemma {:induction false} ServerGetsNext(frames: seq<Frame>, s: Bytes, tail: Bytes)
    requires AllSendable(frames) && frames != [] && frames[0].opcode != CLOSE
    requires GoRead(s) == Some((frames[0], tail)) && ServerGets(frames[1..], tail)
    ensures ServerGets(frames, s)
  {
    var f, later := frames[0], BeforeClose(frames[1..]);
    PongsAreSendable(frames);
    PongsAreSendable(frames[1..]);
    FirstBeforeClose(frames);
    if f.opcode == PING {
      PrependPong(f.data, Pongs(later));
      GoSkipsPing(s, f.data, tail);
      assert [] + Only(later, {TEXT, PONG}) == Only(later, {TEXT, PONG});
    } else {
      assert [] + Pongs(later) == Pongs(later);
      if f.opcode == TEXT || f.opcode == PONG {
        GoDelivers(s, f, tail);
      } else {
        GoSkips(s, f, tail);
        assert [] + Only(later, {TEXT, PONG}) == Only(later, {TEXT, PONG});
      }
    }
  }

  /** The server hands on exactly the texts and pongs before the first close, in order, and answers
      each ping before it with a pong of the same payload. */
  lemma {:induction false} ServerReceives(frames: seq<Frame>, keys: seq<Key>, drawn: nat)
    requires AllSendable(frames)
    ensures AllSendable(Pongs(BeforeClose(frames)))
    ensures GoMessages(JavaWire(frames, keys, drawn)) ==
            (Only(BeforeClose(frames), {TEXT, PONG}), GoWire(Pongs(BeforeClose(frames))))
    decreases |frames|
  {
    PongsAreSendable(frames);
    var s := JavaWire(frames, keys, drawn);
    if frames == [] {
      ServerGetsNothing(frames, s);
    } else {
      var f, tail := frames[0], JavaWire(frames[1..], keys, drawn + 1);
      GoReadsNext(f, KeyAt(keys, drawn), tail);
      if f.opcode == CLOSE {
        ServerGetsNothing(frames, s);
      } else {
        ServerReceives(frames[1..], keys, drawn + 1);
        ServerGetsNext(frames, s, tail);
      }
    }
  }

  function EndOf(frames: seq<Frame>): JavaOutcome {
    Over(|BeforeClose(frames)| < |frames|)
  }

  /** What the client writes: pongs, and a close if it was sent one. */
  function Answers(frames: seq<Frame>): seq<Frame> {
    Pongs(BeforeClose(frames)) + (if |BeforeClose(frames)| < |frames| then [Frame(CLOSE, [])] else [])
  }

  lemma {:induction false} AnswersAreSendable(frames: seq<Frame>)
    requires AllSendable(frames)
    ensures AllSendable(Answers(frames))
  {
    PongsAreSendable(frames);
  }

  lemma {:induction false} FirstAnswer(frames: seq<Frame>)
    requires frames != [] && frames[0].opcode == PING
    ensures Answers(frames) == [Frame(PONG, frames[0].data)] + Answers(frames[1..])
    ensures EndOf(frames) == EndOf(frames[1..])
  {
    FirstBeforeClose(frames);
  }

  lemma {:induction false} SameAnswers(frames: seq<Frame>)
    requires frames != [] && frames[0].opcode != PING && frames[0].opcode != CLOSE
    ensures Answers(frames) == Answers(frames[1..])
    ensures EndOf(frames) == EndOf(frames[1..])
  {
    FirstBeforeClose(frames);
    assert [] + Pongs(BeforeClose(frames[1..])) == Pongs(BeforeClose(frames[1..]));
  }

  lemma {:induction false} PrependPayload(f: Frame, tail: seq<Frame>)
    ensures Payloads([f] + tail) == [f.data] + Payloads(tail)
  {
  }

  lemma {:induction false} JavaSkipsPing(s: Bytes, data: Bytes, tail: Bytes, keys: seq<Key>, drawn: nat)
    requires JavaRead(s) == Got(Frame(PING, data), tail) && |data| <= MAX_MESSAGE
    ensures var (texts, replies, end) := JavaTexts(tail, keys, drawn + 1);
            JavaTexts(s, keys, drawn) == (texts, JavaFrame(PONG, KeyAt(keys, drawn), data) + replies, end)
  {
    var pong := JavaFrame(PONG, KeyAt(keys, drawn), data);
    var step, later := JavaNext(s, keys, drawn), JavaNext(tail, keys, drawn + 1);
    assert step == JavaStep(later.outcome, pong + later.replies, later.drawn);
    if later.outcome.Text? {
      Regroup(pong, later.replies, JavaTexts(later.outcome.rest, keys, later.drawn).1);
    }
  }

  lemma {:induction false} JavaDelivers(s: Bytes, data: Bytes, tail: Bytes, keys: seq<Key>, drawn: nat)
    requires JavaRead(s) == Got(Frame(TEXT, data), tail)
    ensures var (texts, replies, end) := JavaTexts(tail, keys, drawn);
            JavaTexts(s, keys, drawn) == ([data] + texts, replies, end)
  {
    var (texts, replies, end) := JavaTexts(tail, keys, drawn);
    assert JavaNext(s, keys, drawn) == JavaStep(Text(data, tail), [], drawn);
    assert [] + replies == replies;
  }

  lemma {:induction false} JavaSkips(s: Bytes, f: Frame, tail: Bytes, keys: seq<Key>, drawn: nat)
    requires JavaRead(s) == Got(f, tail) && f.opcode !in {TEXT, CLOSE, PING}
    ensures JavaTexts(s, keys, drawn) == JavaTexts(tail, keys, drawn)
  {
    assert JavaNext(s, keys, drawn) == JavaNext(tail, keys, drawn);
  }

  ghost predicate ClientGets(frames: seq<Frame>, s: Bytes, keys: seq<Key>, drawn: nat)
    requires AllSendable(frames)
  {
    AnswersAreSendable(frames);
    JavaTexts(s, keys, drawn) ==
    (Payloads(Only(BeforeClose(frames), {TEXT})), JavaWire(Answers(frames), keys, drawn), EndOf(frames))
  }

  lemma {:induction false} ClientGetsNothing(s: Bytes, keys: seq<Key>, drawn: nat)
    requires JavaNext(s, keys, drawn) == JavaStep(Over(false), [], drawn)
    ensures ClientGets([], s, keys, drawn)
  {
    assert Payloads([]) == [] && Answers([]) == [];
  }

  lemma {:induction false} ClientGetsClose(frames: seq<Frame>, s: Bytes, tail: Bytes, keys: seq<Key>, drawn: nat)
    requires AllSendable(frames) && frames != [] && frames[0].opcode == CLOSE
    requires JavaRead(s) == Got(frames[0], tail)
    ensures ClientGets(frames, s, keys, drawn)
  {
    assert Answers(frames) == [Frame(CLOSE, [])] && Payloads([]) == [];
    assert JavaWire([Frame(CLOSE, [])], keys, drawn) == JavaFrame(CLOSE, KeyAt(keys, drawn), []) + [];
    assert JavaFrame(CLOSE, KeyAt(keys, drawn), []) + [] == JavaFrame(CLOSE, KeyAt(keys, drawn), []);
    assert JavaNext(s, keys, drawn) == JavaStep(Over(true), JavaFrame(CLOSE, KeyAt(keys, drawn), []), drawn + 1);
  }

  lemma {:induction false} ClientGetsPing(frames: seq<Frame>, s: Bytes, tail: Bytes, keys: seq<Key>, drawn: nat)
    requires AllSendable(frames) && frames != [] && frames[0].opcode == PING
    requires JavaRead(s) == Got(frames[0], tail) && ClientGets(frames[1..], tail, keys, drawn + 1)
    ensures ClientGets(frames, s, keys, drawn)
  {
    AnswersAreSendable(frames);
    AnswersAreSendable(frames[1..]);
    FirstBeforeClose(frames);
    FirstAnswer(frames);
    var later := Only(BeforeClose(frames[1..]), {TEXT});
    assert [] + later == later;
    assert Answers(frames)[1..] == Answers(frames[1..]);
    JavaSkipsPing(s, frames[0].data, tail, keys, drawn);
  }

  lemma {:induction false} ClientGetsOther(frames: seq<Frame>, s: Bytes, tail: Bytes, keys: seq<Key>, drawn: nat)
    requires AllSendable(frames) && frames != [] && frames[0].opcode != PING && frames[0].opcode != CLOSE
    requires JavaRead(s) == Got(frames[0], tail) && ClientGets(frames[1..], tail, keys, drawn)
    ensures ClientGets(frames, s, keys, drawn)
  {
    FirstBeforeClose(frames);
    SameAnswers(frames);
    var later := Only(BeforeClose(frames[1..]), {TEXT});
    if frames[0].opcode == TEXT {
      PrependPayload(frames[0], later);
      JavaDelivers(s, frames[0].data, tail, keys, drawn);
    } else {
      assert [] + later == later;
      JavaSkips(s, frames[0], tail, keys, drawn);
    }
  }

  /** The client hands on exactly the texts before the first close, in order, answers each ping
      before it with a masked pong of the same payload, and closes exactly if it was sent a close. */
  lemma {:induction false} ClientReceives(frames: seq<Frame>, keys: seq<Key>, drawn: nat)
    requires AllSendable(frames)
    ensures AllSendable(Answers(frames))
    ensures JavaTexts(GoWire(frames), keys, drawn) ==
            (Payloads(Only(BeforeClose(frames), {TEXT})), JavaWire(Answers(frames), keys, drawn), EndOf(frames))
    decreases |frames|
  {
    AnswersAreSendable(frames);
    var s := GoWire(frames);
    if frames == [] {
      ClientGetsNothing(s, keys, drawn);
    } else {
      var tail := GoWire(frames[1..]);
      JavaReadsNext(frames[0], tail);
      if frames[0].opcode == CLOSE {
        ClientGetsClose(frames, s, tail, keys, drawn);
      } else if frames[0].opcode == PING {
        ClientReceives(frames[1..], keys, drawn + 1);
        ClientGetsPing(frames, s, tail, keys, drawn);
      } else {
        ClientReceives(frames[1..], keys, drawn);
        ClientGetsOther(frames, s, tail, keys, drawn);
      }
    }
  }

  lemma {:induction false} PongsStayWhole(frames: seq<Frame>, tail: seq<Frame>)
    requires tail == [] || tail == [Frame(CLOSE, [])]
    ensures BeforeClose(Pongs(frames) + tail) == Pongs(frames)
    ensures Only(Pongs(frames), {TEXT, PONG}) == Pongs(frames)
    ensures Pongs(Pongs(frames)) == []
  {
    if frames == [] {
      assert Pongs(frames) + tail == tail;
    } else {
      PongsStayWhole(frames[1..], tail);
      if frames[0].opcode == PING {
        var pong := Frame(PONG, frames[0].data);
        assert Pongs(frames) == [pong] + Pongs(frames[1..]);
        assert (Pongs(frames) + tail)[0] == pong && (Pongs(frames) + tail)[1..] == Pongs(frames[1..]) + tail;
        assert Pongs(frames)[1..] == Pongs(frames[1..]);
      } else {
        assert Pongs(frames) == Pongs(frames[1..]);
      }
    }
  }

  /** The keep-alive: whatever the server sends, each ping that the client reads comes back to the
      server as a pong of the same payload, in order, and the server writes nothing more in answer. */
  lemma {:induction false} PingsComeBackAsPongs(frames: seq<Frame>, keys: seq<Key>, drawn: nat)
    requires AllSendable(frames)
    ensures var replies := JavaTexts(GoWire(frames), keys, drawn).1;
            GoMessages(replies) == (Pongs(BeforeClose(frames)), [])
  {
    ClientReceives(frames, keys, drawn);
    ServerReceives(Answers(frames), keys, drawn);
    PongsStayWhole(BeforeClose(frames), Answers(frames)[|Pongs(BeforeClose(frames))|..]);
    assert Answers(frames) == Pongs(BeforeClose(frames)) + Answers(frames)[|Pongs(BeforeClose(frames))|..];
    assert GoWire([]) == [];
  }
}
