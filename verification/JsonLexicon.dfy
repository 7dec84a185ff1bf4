/** What the client's parser makes of single code units, escapes, digits and words, told by their code points
    and by the tables of RFC 8259 (clients/java/src/com/r0rpc/client/MiniJson.java). */
module JsonLexicon {
  import opened JsonRoundTrip
  import opened MiniJson
  import opened StrictJson
  import opened Wrappers

  // ---- Code units ----

  /** White space of section 2. */
  lemma BlankUnits(c: Unit)
    ensures Blank(c) <==> c in {0x20, 0x09, 0x0A, 0x0D}
  {
  }

  /** The units that `parseNumber` collects: digits, signs, point and both letters e. */
  lemma NumberCharacters(c: Unit)
    ensures NumberUnit(c) <==> 0x30 <= c <= 0x39 || c in {0x2B, 0x2D, 0x2E, 0x45, 0x65}
  {
  }

  function Spelled(s: string): Text
    requires forall i :: 0 <= i < |s| ==> s[i] as int < 0x80
  {
    seq(|s|, i requires 0 <= i < |s| && s[i] as int < 0x80 => s[i] as int as Unit)
  }

  lemma Words()
    ensures NULL_TEXT == Spelled("null") && TRUE_TEXT == Spelled("true") && FALSE_TEXT == Spelled("false")
    ensures [LBRACE, RBRACE, LBRACKET, RBRACKET, COLON, COMMA, QUOTE, BACKSLASH] == Spelled("{}[]:,\"\\")
  {
  }

  // ---- Escapes ----

  /** Main result: the eight escapes of section 7 stand for what its table says, and a backslash before any
      other unit but `u` is dropped. */
  lemma {:induction false} EscapeRead(c: Unit, rest: Text, built: Text)
    requires c != 0x75
    ensures StringLoop([0x5C, c] + rest, built) ==
            StringLoop(rest, built + [if c in ESCAPES then ESCAPES[c] else c])
  {
    var t := [0x5C, c] + rest;
    assert t[0] == 0x5C && t[1] == c && t[2..] == rest;
  }

  /** `Integer.parseInt` of a part of the four units. */
  function Digits3(s: Text): Option<nat>
    requires |s| == 3
  {
    match (HexDigitValue(s[0]), TwoDigits(s[1], s[2]))
    case (Some(high), Some(low)) => Some(high * 0x100 + low)
    case _ => None
  }

  lemma SameHexDigits(c: Unit)
    ensures HexValue(c) == HexDigitValue(c)
  {
  }

  lemma {:induction false} OneMoreHex(s: Text, c: Unit)
    ensures HexNumber(s + [c]) ==
            if HexNumber(s).Some? && HexDigitValue(c).Some? then Some(HexNumber(s).value * 16 + HexDigitValue(c).value)
            else None
  {
    SameHexDigits(c);
    assert (s + [c])[..|s|] == s;
  }

  lemma {:induction false} ThreeHex(s: Text)
    requires |s| == 3
    ensures HexNumber(s) == Digits3(s)
  {
    OneMoreHex([], s[0]);
    OneMoreHex([s[0]], s[1]);
    OneMoreHex([s[0], s[1]], s[2]);
    assert [] + [s[0]] == [s[0]] && [s[0]] + [s[1]] == [s[0], s[1]] && [s[0], s[1]] + [s[2]] == s;
  }

  lemma FourHex(s: Text)
    requires |s| == 4
    ensures HexNumber(s) == match FourDigits(s) case Some(c) => Some(c as nat) case None => None
  {
    ThreeHex(s[..3]);
    OneMoreHex(s[..3], s[3]);
    assert s == s[..3] + [s[3]];
  }

  /** Main result: four hexadecimal digits stand for their number, a sign and three digits for theirs modulo
      65536, and anything else is an error. */
  lemma {:induction false} HexRead(s: Text)
    requires |s| == 4
    ensures HexUnit(s) ==
      if s[0] == 0x2B || s[0] == 0x2D then
        match Digits3(s[1..])
        case None => None
        case Some(n) => Some((if s[0] == 0x2D && n > 0 then 0x1_0000 - n else n) as Unit)
      else FourDigits(s)
  {
    if s[0] == 0x2B || s[0] == 0x2D {
      ThreeHex(s[1..]);
    } else {
      FourHex(s);
    }
  }

  // ---- Whole numbers ----

  function Power10(n: nat): nat {
    if n == 0 then 1 else 10 * Power10(n - 1)
  }

  /** The value of decimal digits by their places. */
  function ByPlaces(s: Text): nat
    requires AllDigits(s)
  {
    if s == [] then 0 else (s[0] as int - 0x30) * Power10(|s| - 1) + ByPlaces(s[1..])
  }

  lemma {:induction false} PlacesOfOneMore(s: Text, c: Unit)
    requires AllDigits(s) && 0x30 <= c <= 0x39
    ensures AllDigits(s + [c]) && ByPlaces(s + [c]) == ByPlaces(s) * 10 + (c as int - 0x30)
  {
    if s == [] {
      assert s + [c] == [c] && [c][1..] == [];
    } else {
      assert (s + [c])[1..] == s[1..] + [c];
      PlacesOfOneMore(s[1..], c);
      OnePlaceUp(s[0] as int - 0x30, Power10(|s| - 1), ByPlaces(s[1..]), c as int - 0x30);
    }
  }

  lemma OnePlaceUp(head: nat, power: nat, tail: nat, last: nat)
    ensures head * (10 * power) + (tail * 10 + last) == (head * power + tail) * 10 + last
  {
  }

  lemma {:induction false} ValueByPlaces(s: Text)
    requires AllDigits(s)
    ensures DigitsValue(s) == ByPlaces(s)
  {
    if s != [] {
      ValueByPlaces(s[..|s| - 1]);
      PlacesOfOneMore(s[..|s| - 1], s[|s| - 1]);
      assert s == s[..|s| - 1] + [s[|s| - 1]];
    }
  }

  /** Main result: a token is a whole number exactly if it is digits, with at most one sign in front, and its
      decimal value has 64 bits. */
  lemma {:induction false} LongRead(token: Text)
    ensures var signed := token != [] && token[0] in {0x2B, 0x2D};
      var digits := if signed then token[1..] else token;
      ParseLong(token) ==
      if digits == [] || !AllDigits(digits) then None
      else
        var n := if token[0] == 0x2D then 0 - ByPlaces(digits) else ByPlaces(digits);
        if -9_223_372_036_854_775_808 <= n <= 9_223_372_036_854_775_807 then Some(n) else None
  {
    var signed := token != [] && token[0] in {0x2B, 0x2D};
    var digits := if signed then token[1..] else token;
    if digits != [] && AllDigits(digits) {
      ValueByPlaces(digits);
    }
  }

  // ---- Maps and the ends of the text ----

  predicate Names(entries: seq<Entry>, key: Text) {
    exists i :: 0 <= i < |entries| && entries[i].key == key
  }

  /** `LinkedHashMap.put`: a new key goes to the end; a known one gets the value where it stands. */
  lemma {:induction false} PutExactly(entries: seq<Entry>, key: Text, value: Json)
    ensures !Names(entries, key) ==> Put(entries, key, value) == entries + [Entry(key, value)]
    ensures DistinctKeys(entries) ==>
      forall i :: 0 <= i < |entries| && entries[i].key == key ==>
        Put(entries, key, value) == entries[i := Entry(key, value)]
  {
    if !Names(entries, key) {
      PutNew(entries, key, value);
    }
    if DistinctKeys(entries) && entries != [] && entries[0].key != key {
      PutExactly(entries[1..], key, value);
      assert DistinctKeys(entries[1..]);
      forall i | 0 <= i < |entries| && entries[i].key == key
        ensures Put(entries, key, value) == entries[i := Entry(key, value)]
      {
        assert entries[1..][i - 1] == entries[i];
        assert entries[i := Entry(key, value)] == [entries[0]] + entries[1..][i - 1 := Entry(key, value)];
      }
    }
  }

  predicate AllLow(s: Text) {
    forall i :: 0 <= i < |s| ==> s[i] <= 0x20
  }

  predicate TrimmedOf(t: Text, pre: Text, mid: Text, post: Text) {
    t == pre + mid + post && AllLow(pre) && AllLow(post)
  }

  lemma MoreInFront(c: Unit, t: Text, pre: Text, mid: Text, post: Text)
    requires c <= 0x20 && TrimmedOf(t, pre, mid, post)
    ensures TrimmedOf([c] + t, [c] + pre, mid, post)
  {
    assert [c] + (pre + mid + post) == [c] + pre + mid + post;
  }

  lemma MoreBehind(c: Unit, t: Text, pre: Text, mid: Text, post: Text)
    requires c <= 0x20 && TrimmedOf(t, pre, mid, post)
    ensures TrimmedOf(t + [c], pre, mid, post + [c])
  {
    assert pre + mid + post + [c] == pre + mid + (post + [c]);
  }

  /** `String.trim` takes off units up to the space at both ends, and no others. */
  lemma {:induction false} TrimExactly(t: Text) returns (pre: Text, post: Text)
    ensures TrimmedOf(t, pre, Trim(t), post)
    decreases |t|
  {
    if t != [] && t[0] <= 0x20 {
      pre, post := TrimExactly(t[1..]);
      MoreInFront(t[0], t[1..], pre, Trim(t), post);
      pre := [t[0]] + pre;
      assert t == [t[0]] + t[1..];
    } else if t != [] && t[|t| - 1] <= 0x20 {
      var c, front := t[|t| - 1], t[..|t| - 1];
      pre, post := TrimExactly(front);
      MoreBehind(c, front, pre, Trim(t), post);
      post := post + [c];
      assert t == front + [c];
    } else {
      pre, post := [], [];
      assert t == [] + t + [];
    }
  }

  lemma {:induction false} TrimEnds(t: Text)
    ensures Trim(t) != [] ==> Trim(t)[0] > 0x20 && Trim(t)[|Trim(t)| - 1] > 0x20
    decreases |t|
  {
    if t != [] && t[0] <= 0x20 {
      TrimEnds(t[1..]);
    } else if t != [] && t[|t| - 1] <= 0x20 {
      TrimEnds(t[..|t| - 1]);
    }
  }
}
