/** The client's parser reads the texts of RFC 8259
    (clients/java/src/com/r0rpc/client/MiniJson.java). */
module JsonCoverage {
  import opened JsonNumbers
  import opened JsonRoundTrip
  import opened MiniJson
  import opened StrictJson
  import opened Wrappers

  /** All whole numbers have 64 bits. */
  predicate Fits(v: Json) {
    match v
    case Num(n) => InLong(n)
    case Arr(items) => forall i :: 0 <= i < |items| ==> Fits(items[i])
    case Obj(entries) => forall i :: 0 <= i < |entries| ==> Fits(entries[i].value)
    case _ => true
  }

  /** The value with the last member of each name only, as a map keeps it. */
  function Merged(v: Json): Json
    decreases v, 1
  {
    match v
    case Arr(items) => Arr(MergedItems(items))
    case Obj(entries) => Obj(MergedEntries(entries))
    case _ => v
  }

  function MergedItems(items: seq<Json>): seq<Json>
    decreases items, 0
  {
    if items == [] then [] else MergedItems(items[..|items| - 1]) + [Merged(items[|items| - 1])]
  }

  function MergedEntries(entries: seq<Entry>): seq<Entry>
    decreases entries, 0
  {
    if entries == [] then []
    else
      var last := entries[|entries| - 1];
      Put(MergedEntries(entries[..|entries| - 1]), last.key, Merged(last.value))
  }

  /** What the client's parser makes of a value that was read strictly. */
  function Read(v: Json, rest: Text): Parsed<Json> {
    if Fits(v) then Good(Merged(v), rest) else Bad
  }

  // ---- Strings ----

  lemma {:induction false} TwoDigitsRead(s: Text, x: Unit, y: Unit)
    requires HexNumber(s).Some? && TwoDigits(x, y).Some?
    ensures HexNumber(s + [x, y]) == Some(HexNumber(s).value * 0x100 + TwoDigits(x, y).value)
  {
    HexNumberStep(s, x);
    HexNumberStep(s + [x], y);
    assert s + [x] + [y] == s + [x, y];
  }

  lemma {:induction false} FourDigitsRead(s: Text)
    requires |s| == 4 && FourDigits(s).Some?
    ensures HexUnit(s) == FourDigits(s)
  {
    TwoDigitsRead([], s[0], s[1]);
    assert [] + [s[0], s[1]] == [s[0], s[1]];
    TwoDigitsRead([s[0], s[1]], s[2], s[3]);
    assert [s[0], s[1]] + [s[2], s[3]] == s;
    assert HexNumber(s) == Some(FourDigits(s).value as nat);
  }

  lemma {:induction false} CharsRead(t: Text, built: Text)
    requires StrictChars(t, built).Good?
    ensures StringLoop(t, built) == StrictChars(t, built)
    decreases |t|
  {
    if t[0] == QUOTE {
    } else if t[0] != BACKSLASH {
      CharsRead(t[1..], built + [t[0]]);
    } else if NamedEscape(t[1]) {
      CharsRead(t[2..], built + [ESCAPES[t[1]]]);
    } else {
      FourDigitsRead(t[2..6]);
      CharsRead(t[6..], built + [FourDigits(t[2..6]).value]);
    }
  }

  lemma {:induction false} StringRead(t: Text)
    requires StrictString(t).Good?
    ensures ParseString(t) == StrictString(t)
  {
    CharsRead(Expect(t, QUOTE).value, []);
  }

  // ---- Values ----

  /** A value that is followed by a separator, or by blanks at the end, ends where a number does. */
  lemma {:induction false} SeparatedEnds(t: Text, close: Unit)
    requires close == RBRACKET || close == RBRACE
    requires !NextSeparator(t, close).Broken?
    ensures Ends(t)
  {
  }

  lemma {:induction false} WordRead(t: Text, isDouble: Text -> bool)
    requires t != [] && t[0] in {LOWER_N, LOWER_T, LOWER_F} && StrictWord(t).Good?
    ensures ParseValue(t, isDouble) == Read(StrictWord(t).value, StrictWord(t).rest)
  {
  }

  lemma {:induction false} SimpleRead(t: Text, isDouble: Text -> bool)
    requires t != [] && !Blank(t[0]) && t[0] != LBRACE && t[0] != LBRACKET
    requires StrictValue(t).Good? && Ends(StrictValue(t).rest) && TakesReals(isDouble)
    ensures ParseValue(t, isDouble) == Read(StrictValue(t).value, StrictValue(t).rest)
  {
    if t[0] == QUOTE {
      StringRead(t);
    } else if t[0] in {LOWER_N, LOWER_T, LOWER_F} {
      WordRead(t, isDouble);
    } else {
      NumberRead(t, isDouble);
    }
  }

  lemma {:induction false} BlanksFirst(t: Text, isDouble: Text -> bool)
    ensures ParseValue(SkipBlanks(t), isDouble) == ParseValue(t, isDouble)
  {
    assert SkipBlanks(SkipBlanks(t)) == SkipBlanks(t);
  }

  lemma {:induction false} BlanksOff(t: Text)
    ensures StrictValue(SkipBlanks(t)) == StrictValue(t)
  {
    assert SkipBlanks(SkipBlanks(t)) == SkipBlanks(t);
  }

  lemma {:induction false} MoreMerged(items: seq<Json>, v: Json)
    ensures MergedItems(items + [v]) == MergedItems(items) + [Merged(v)]
    ensures Fits(Arr(items + [v])) <==> Fits(Arr(items)) && Fits(v)
  {
    assert (items + [v])[..|items|] == items;
  }

  lemma {:induction false} MoreMembers(entries: seq<Entry>, e: Entry)
    ensures MergedEntries(entries + [e]) == Put(MergedEntries(entries), e.key, Merged(e.value))
    ensures Fits(Obj(entries + [e])) <==> Fits(Obj(entries)) && Fits(e.value)
  {
    assert (entries + [e])[..|entries|] == entries;
  }

  lemma {:induction false} PrefixFits(v: Json, raw: seq<Json>)
    requires v.Arr? && raw <= v.items && !Fits(Arr(raw))
    ensures !Fits(v)
  {
  }

  lemma {:induction false} PrefixMembersFit(v: Json, raw: seq<Entry>)
    requires v.Obj? && raw <= v.entries && !Fits(Obj(raw))
    ensures !Fits(v)
  {
  }

  /** Main result on values: the parser finds the value and its end. */
  lemma {:induction false} ValueRead(t: Text, isDouble: Text -> bool)
    requires StrictValue(t).Good? && Ends(StrictValue(t).rest) && TakesReals(isDouble)
    ensures ParseValue(t, isDouble) == Read(StrictValue(t).value, StrictValue(t).rest)
    decreases |t|, 1
  {
    var rest := SkipBlanks(t);
    BlanksFirst(t, isDouble);
    BlanksOff(t);
    if rest[0] == LBRACE {
      var inner := SkipBlanks(rest[1..]);
      if inner == [] || inner[0] != RBRACE {
        MembersRead(inner, [], isDouble);
      }
    } else if rest[0] == LBRACKET {
      var inner := SkipBlanks(rest[1..]);
      if inner == [] || inner[0] != RBRACKET {
        ItemsRead(inner, [], isDouble);
      }
    } else {
      SimpleRead(rest, isDouble);
    }
  }

  lemma {:induction false} ItemsRead(t: Text, raw: seq<Json>, isDouble: Text -> bool)
    requires StrictItems(t, raw).Good? && TakesReals(isDouble)
    ensures var r := StrictItems(t, raw);
      && r.value.Arr? && raw <= r.value.items
      && (Fits(Arr(raw)) ==> ArrayLoop(t, MergedItems(raw), isDouble) == Read(r.value, r.rest))
    decreases |t|, 2
  {
    var value, after := StrictValue(t).value, StrictValue(t).rest;
    SeparatedEnds(after, RBRACKET);
    ValueRead(t, isDouble);
    MoreMerged(raw, value);
    if NextSeparator(after, RBRACKET).More? {
      ItemsRead(NextSeparator(after, RBRACKET).rest, raw + [value], isDouble);
    }
    if !Fits(value) {
      PrefixFits(StrictItems(t, raw).value, raw + [value]);
    }
  }

  lemma {:induction false} MemberRead(t: Text, isDouble: Text -> bool)
    requires StrictMember(t).Good? && Ends(StrictMember(t).rest) && TakesReals(isDouble)
    ensures ParseEntry(t, isDouble) ==
      var r := StrictMember(t);
      if Fits(r.value.value) then Good(Entry(r.value.key, Merged(r.value.value)), r.rest) else Bad
    decreases |t|, 2
  {
    StringRead(t);
    ValueRead(Expect(StrictString(t).rest, COLON).value, isDouble);
  }

  lemma {:induction false} MembersRead(t: Text, raw: seq<Entry>, isDouble: Text -> bool)
    requires StrictMembers(t, raw).Good? && TakesReals(isDouble)
    ensures var r := StrictMembers(t, raw);
      && r.value.Obj? && raw <= r.value.entries
      && (Fits(Obj(raw)) ==> ObjectLoop(t, MergedEntries(raw), isDouble) == Read(r.value, r.rest))
    decreases |t|, 3
  {
    var e, after := StrictMember(t).value, StrictMember(t).rest;
    SeparatedEnds(after, RBRACE);
    MemberRead(t, isDouble);
    MoreMembers(raw, e);
    if NextSeparator(after, RBRACE).More? {
      MembersRead(NextSeparator(after, RBRACE).rest, raw + [e], isDouble);
    }
    if !Fits(e.value) {
      PrefixMembersFit(StrictMembers(t, raw).value, raw + [e]);
    }
  }

  // ---- Where a value ends: `String.trim` takes off no more than blanks ----

  predicate Suffix(t: Text, rest: Text) {
    |rest| <= |t| && t[|t| - |rest|..] == rest
  }

  /** The rest stands behind something that `trim` leaves alone. */
  predicate After(t: Text, rest: Text) {
    |rest| < |t| && t[|t| - |rest|..] == rest && t[|t| - |rest| - 1] > SPACE
  }

  lemma SuffixOfSuffix(t: Text, mid: Text, rest: Text)
    requires Suffix(t, mid) && Suffix(mid, rest)
    ensures Suffix(t, rest)
  {
  }

  lemma AfterSuffix(t: Text, mid: Text, rest: Text)
    requires Suffix(t, mid) && After(mid, rest)
    ensures After(t, rest)
  {
    SuffixOfSuffix(t, mid, rest);
  }

  lemma {:induction false} SkippedSuffix(t: Text)
    ensures Suffix(t, SkipBlanks(t))
  {
    if t != [] && Blank(t[0]) {
      SkippedSuffix(t[1..]);
      SuffixOfSuffix(t, t[1..], SkipBlanks(t));
    }
  }

  lemma {:induction false} ExpectedSuffix(t: Text, c: Unit)
    requires Expect(t, c).Some?
    ensures Suffix(t, Expect(t, c).value) && (c > SPACE ==> After(t, Expect(t, c).value))
  {
    SkippedSuffix(t);
    var rest := SkipBlanks(t);
    SuffixOfSuffix(t, rest, rest[1..]);
    if c > SPACE {
      AfterSuffix(t, rest, rest[1..]);
    }
  }

  lemma {:induction false} SeparatorAfter(t: Text, close: Unit)
    requires close > SPACE && !NextSeparator(t, close).Broken?
    ensures After(t, NextSeparator(t, close).rest)
  {
    if Peek(t, close) {
      assert Expect(t, close).Some?;
      ExpectedSuffix(t, close);
    } else {
      ExpectedSuffix(t, COMMA);
    }
  }

  lemma {:induction false} CharsAfter(t: Text, built: Text)
    requires StrictChars(t, built).Good?
    ensures After(t, StrictChars(t, built).rest)
    decreases |t|
  {
    var rest := StrictChars(t, built).rest;
    if t[0] == QUOTE {
    } else if t[0] != BACKSLASH {
      CharsAfter(t[1..], built + [t[0]]);
      AfterSuffix(t, t[1..], rest);
    } else if NamedEscape(t[1]) {
      CharsAfter(t[2..], built + [ESCAPES[t[1]]]);
      AfterSuffix(t, t[2..], rest);
    } else {
      CharsAfter(t[6..], built + [FourDigits(t[2..6]).value]);
      AfterSuffix(t, t[6..], rest);
    }
  }

  lemma {:induction false} StringAfter(t: Text)
    requires StrictString(t).Good?
    ensures After(t, StrictString(t).rest)
  {
    var rest := Expect(t, QUOTE).value;
    ExpectedSuffix(t, QUOTE);
    CharsAfter(rest, []);
    AfterSuffix(t, rest, StrictString(t).rest);
  }

  lemma {:induction false} NumberAfter(t: Text)
    requires StrictNumber(t).Good?
    ensures After(t, StrictNumber(t).rest)
  {
    var token := NumberSplits(t);
    assert t[|token| - 1] == token[|token| - 1] && t[|token|..] == StrictNumber(t).rest;
  }

  lemma Inner(t: Text) returns (inner: Text)
    requires t != []
    ensures inner == SkipBlanks(t[1..]) && Suffix(t, inner)
  {
    inner := SkipBlanks(t[1..]);
    SkippedSuffix(t[1..]);
    SuffixOfSuffix(t, t[1..], inner);
  }

  lemma {:induction false} ValueAfter(t: Text)
    requires StrictValue(t).Good?
    ensures After(t, StrictValue(t).rest)
    decreases |t|, 1
  {
    var rest := SkipBlanks(t);
    SkippedSuffix(t);
    BlanksOff(t);
    if rest[0] == LBRACE || rest[0] == LBRACKET {
      var inner := Inner(rest);
      if rest[0] == LBRACE && inner[0] != RBRACE {
        MembersAfter(inner, []);
      }
      if rest[0] == LBRACKET && inner[0] != RBRACKET {
        ItemsAfter(inner, []);
      }
      BracketAfter(rest, inner);
    } else {
      SimpleAfter(rest);
    }
    AfterSuffix(t, rest, StrictValue(t).rest);
  }

  lemma {:induction false} BracketAfter(t: Text, inner: Text)
    requires t != [] && (t[0] == LBRACE || t[0] == LBRACKET) && StrictValue(t).Good?
    requires inner == SkipBlanks(t[1..]) && inner != [] && Suffix(t, inner)
    requires t[0] == LBRACE && inner[0] != RBRACE ==>
      StrictMembers(inner, []).Good? && After(inner, StrictMembers(inner, []).rest)
    requires t[0] == LBRACKET && inner[0] != RBRACKET ==>
      StrictItems(inner, []).Good? && After(inner, StrictItems(inner, []).rest)
    ensures After(t, StrictValue(t).rest)
  {
    AfterSuffix(t, inner, StrictValue(t).rest);
  }

  lemma {:induction false} SimpleAfter(t: Text)
    requires t != [] && !Blank(t[0]) && t[0] != LBRACE && t[0] != LBRACKET && StrictValue(t).Good?
    ensures After(t, StrictValue(t).rest)
  {
    if t[0] == QUOTE {
      StringAfter(t);
    } else if t[0] !in {LOWER_N, LOWER_T, LOWER_F} {
      NumberAfter(t);
    }
  }

  lemma {:induction false} ItemsAfter(t: Text, raw: seq<Json>)
    requires StrictItems(t, raw).Good?
    ensures After(t, StrictItems(t, raw).rest)
    decreases |t|, 2
  {
    var value, after := StrictValue(t).value, StrictValue(t).rest;
    var next := NextSeparator(after, RBRACKET).rest;
    ValueAfter(t);
    SeparatorAfter(after, RBRACKET);
    AfterSuffix(t, after, next);
    if NextSeparator(after, RBRACKET).More? {
      ItemsAfter(next, raw + [value]);
      AfterSuffix(t, next, StrictItems(t, raw).rest);
    }
  }

  lemma {:induction false} MemberAfter(t: Text)
    requires StrictMember(t).Good?
    ensures After(t, StrictMember(t).rest)
    decreases |t|, 2
  {
    var afterKey := StrictString(t).rest;
    var value := Expect(afterKey, COLON).value;
    StringAfter(t);
    ExpectedSuffix(afterKey, COLON);
    SuffixOfSuffix(t, afterKey, value);
    ValueAfter(value);
    AfterSuffix(t, value, StrictMember(t).rest);
  }

  lemma {:induction false} MembersAfter(t: Text, raw: seq<Entry>)
    requires StrictMembers(t, raw).Good?
    ensures After(t, StrictMembers(t, raw).rest)
    decreases |t|, 3
  {
    var e, after := StrictMember(t).value, StrictMember(t).rest;
    var next := NextSeparator(after, RBRACE).rest;
    MemberAfter(t);
    SeparatorAfter(after, RBRACE);
    AfterSuffix(t, after, next);
    if NextSeparator(after, RBRACE).More? {
      MembersAfter(next, raw + [e]);
      AfterSuffix(t, next, StrictMembers(t, raw).rest);
    }
  }

  /** A strict value that is no blank in front starts with something that `trim` leaves alone. */
  lemma {:induction false} ValueStart(t: Text)
    requires StrictValue(t).Good? && t != [] && !Blank(t[0])
    ensures t[0] > SPACE
  {
  }

  /** If blanks stand around a text that `trim` leaves alone, `trim` takes off just these. */
  lemma {:induction false} TrimmedBlanks(t: Text)
    requires var u := DropBlanks(SkipBlanks(t)); u != [] && u[0] > SPACE && u[|u| - 1] > SPACE
    ensures Trim(t) == DropBlanks(SkipBlanks(t))
    decreases |t|
  {
    if t != [] && Blank(t[0]) {
      TrimmedBlanks(t[1..]);
    } else if t != [] && Blank(t[|t| - 1]) {
      DroppedStart(t);
      TrimmedBlanks(t[..|t| - 1]);
    }
  }

  lemma {:induction false} DroppedStart(t: Text)
    ensures DropBlanks(t) != [] ==> DropBlanks(t)[0] == t[0]
    decreases |t|
  {
    if t != [] && Blank(t[|t| - 1]) {
      DroppedStart(t[..|t| - 1]);
    }
  }

  /** Main result: the client parses every text of RFC 8259 whose whole numbers have 64 bits to its
      value, with the last one of repeated names, and rejects the others. */
  lemma {:induction false} EveryTextIsRead(t: Text, isDouble: Text -> bool)
    requires IsJson(t) && TakesReals(isDouble)
    ensures var v := StrictParse(t).value;
      Parse(t, isDouble) == if Fits(v) then Some(Merged(v)) else None
  {
    var u := DropBlanks(SkipBlanks(t));
    ValueAfter(u);
    DroppedStart(SkipBlanks(t));
    ValueStart(u);
    TrimmedBlanks(t);
    ValueRead(u, isDouble);
  }
}
