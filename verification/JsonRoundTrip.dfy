/** Parsing what was printed gives the value back (clients/java/src/com/r0rpc/client/MiniJson.java). */
module JsonRoundTrip {
  import opened Wrappers
  import opened JsonNumbers
  import opened MiniJson
  import opened StrictJson

  // ---- Escaping: seven passes are one ----

  /** What one code unit becomes. */
  function EscapeUnit(c: Unit): Text {
    if c == BACKSLASH then [BACKSLASH, BACKSLASH]
    else if c == QUOTE then [BACKSLASH, QUOTE]
    else if c == BACKSPACE then [BACKSLASH, LOWER_B]
    else if c == FORMFEED then [BACKSLASH, LOWER_F]
    else if c == NEWLINE then [BACKSLASH, LOWER_N]
    else if c == RETURN then [BACKSLASH, LOWER_R]
    else if c == TAB then [BACKSLASH, LOWER_T]
    else [c]
  }

  function EscapeEach(s: Text): Text {
    if s == [] then [] else EscapeUnit(s[0]) + EscapeEach(s[1..])
  }

  lemma {:induction false} ReplaceConcat(a: Text, b: Text, c: Unit, replacement: Text)
    ensures Replace(a + b, c, replacement) == Replace(a, c, replacement) + Replace(b, c, replacement)
  {
    if a == [] {
      assert a + b == b;
    } else {
      assert (a + b)[1..] == a[1..] + b;
      ReplaceConcat(a[1..], b, c, replacement);
    }
  }

  lemma {:induction false} EscapeConcat(a: Text, b: Text)
    ensures Escape(a + b) == Escape(a) + Escape(b)
  {
    ReplaceConcat(a, b, BACKSLASH, [BACKSLASH, BACKSLASH]);
    var a1, b1 := Replace(a, BACKSLASH, [BACKSLASH, BACKSLASH]), Replace(b, BACKSLASH, [BACKSLASH, BACKSLASH]);
    ReplaceConcat(a1, b1, QUOTE, [BACKSLASH, QUOTE]);
    var a2, b2 := Replace(a1, QUOTE, [BACKSLASH, QUOTE]), Replace(b1, QUOTE, [BACKSLASH, QUOTE]);
    ReplaceConcat(a2, b2, BACKSPACE, [BACKSLASH, LOWER_B]);
    var a3, b3 := Replace(a2, BACKSPACE, [BACKSLASH, LOWER_B]), Replace(b2, BACKSPACE, [BACKSLASH, LOWER_B]);
    ReplaceConcat(a3, b3, FORMFEED, [BACKSLASH, LOWER_F]);
    var a4, b4 := Replace(a3, FORMFEED, [BACKSLASH, LOWER_F]), Replace(b3, FORMFEED, [BACKSLASH, LOWER_F]);
    ReplaceConcat(a4, b4, NEWLINE, [BACKSLASH, LOWER_N]);
    var a5, b5 := Replace(a4, NEWLINE, [BACKSLASH, LOWER_N]), Replace(b4, NEWLINE, [BACKSLASH, LOWER_N]);
    ReplaceConcat(a5, b5, RETURN, [BACKSLASH, LOWER_R]);
    var a6, b6 := Replace(a5, RETURN, [BACKSLASH, LOWER_R]), Replace(b5, RETURN, [BACKSLASH, LOWER_R]);
    ReplaceConcat(a6, b6, TAB, [BACKSLASH, LOWER_T]);
  }

  lemma {:induction false} ReplaceOne(x: Unit, c: Unit, replacement: Text)
    ensures Replace([x], c, replacement) == if x == c then replacement else [x]
  {
    assert [x][1..] == [];
    assert (if x == c then replacement else [x]) + [] == if x == c then replacement else [x];
  }

  lemma {:induction false} ReplaceTwo(x: Unit, y: Unit, c: Unit, replacement: Text)
    requires x != c && y != c
    ensures Replace([x, y], c, replacement) == [x, y]
  {
    assert [x, y][1..] == [y];
    ReplaceOne(y, c, replacement);
  }

  /** The later passes leave alone what an earlier pass has put in. */
  lemma {:induction false} EscapeOne(c: Unit)
    ensures Escape([c]) == EscapeUnit(c)
  {
    forall x: Unit, y: Unit ensures Replace([c], x, [BACKSLASH, y]) == if c == x then [BACKSLASH, y] else [c] {
      ReplaceOne(c, x, [BACKSLASH, y]);
    }
    forall x: Unit, y: Unit, z: Unit | x != BACKSLASH && z != x
      ensures Replace([BACKSLASH, z], x, [BACKSLASH, y]) == [BACKSLASH, z]
    {
      ReplaceTwo(BACKSLASH, z, x, [BACKSLASH, y]);
    }
  }

  /** Main result: the order of the passes is right, so together they escape each unit once. */
  lemma {:induction false} EscapeIsPerUnit(s: Text)
    ensures Escape(s) == EscapeEach(s)
  {
    if s == [] {
    } else {
      assert s == [s[0]] + s[1..];
      EscapeConcat([s[0]], s[1..]);
      EscapeOne(s[0]);
      EscapeIsPerUnit(s[1..]);
    }
  }

  lemma {:induction false} UnitUnescapes(c: Unit, after: Text, built: Text)
    ensures StringLoop(EscapeUnit(c) + after, built) == StringLoop(after, built + [c])
  {
    var t := EscapeUnit(c) + after;
    if |EscapeUnit(c)| == 1 {
      assert t[0] == c && t[1..] == after;
    } else {
      assert t[0] == BACKSLASH && t[1] == EscapeUnit(c)[1] && t[2..] == after;
      assert Unescaped(t[1]) == c;
    }
  }

  /** Main result: the string loop undoes the escaping of any text and stops at the closing quote. */
  lemma {:induction false} StringLoopUnescapes(s: Text, built: Text, post: Text)
    ensures StringLoop(EscapeEach(s) + [QUOTE] + post, built) == Good(built + s, post)
  {
    if s == [] {
      var t := [QUOTE] + post;
      assert EscapeEach(s) + [QUOTE] + post == t && t[1..] == post && built + s == built;
    } else {
      Together(EscapeUnit(s[0]), EscapeEach(s[1..]), [QUOTE], post);
      UnitUnescapes(s[0], EscapeEach(s[1..]) + [QUOTE] + post, built);
      StringLoopUnescapes(s[1..], built + [s[0]], post);
      Regrouped(built, s);
    }
  }

  lemma Together(a: Text, b: Text, c: Text, d: Text)
    ensures a + b + c + d == a + (b + c + d)
  {
  }

  lemma Regrouped<T>(before: seq<T>, items: seq<T>)
    requires items != []
    ensures before + [items[0]] + items[1..] == before + items
  {
  }

  lemma {:induction false} StringRoundTrip(s: Text, post: Text)
    ensures ParseString(Quoted(s) + post) == Good(s, post)
  {
    EscapeIsPerUnit(s);
    var t := Quoted(s) + post;
    assert t[1..] == EscapeEach(s) + [QUOTE] + post;
    StringLoopUnescapes(s, [], post);
    assert [] + s == s;
  }

  // ---- Numbers ----

  /** What follows a value in an array, in an object or at the end of the text. */
  ghost predicate Closed(post: Text) {
    post == [] || post[0] == COMMA || post[0] == RBRACKET || post[0] == RBRACE
  }

  lemma {:induction false} StartsNumber(t: Text, isDouble: Text -> bool)
    requires t != [] && NumberUnit(t[0])
    ensures ParseValue(t, isDouble) == ParseNumber(t, isDouble)
  {
    assert !Blank(t[0]) && t[0] !in {LBRACE, LBRACKET, QUOTE, LOWER_T, LOWER_F, LOWER_N};
    assert SkipBlanks(t) == t;
  }

  /** Printed numbers: integers of 64 bits, and others that are spelled as in section 6 of RFC 8259. */
  ghost predicate PlainNumber(v: Json) {
    match v
    case Num(n) => InLong(n)
    case Dbl(token) => StrictNumber(token) == Good(v, [])
    case _ => false
  }

  lemma {:induction false} PrintedNumber(v: Json)
    requires PlainNumber(v)
    ensures StrictNumber(Print(v)) == Good(v, [])
  {
    if v.Num? {
      DecimalIsStrict(v.n);
    }
  }

  lemma {:induction false} NumberRoundTrip(v: Json, post: Text, isDouble: Text -> bool)
    requires PlainNumber(v) && Closed(post) && TakesReals(isDouble)
    ensures ParseValue(Print(v) + post, isDouble) == Good(v, post)
  {
    var t := Print(v) + post;
    PrintedNumber(v);
    NumberEnds(Print(v), post);
    NumberRead(t, isDouble);
    NumberStart(t);
    StartsNumber(t, isDouble);
  }

  // ---- Values ----

  ghost predicate DistinctKeys(entries: seq<Entry>) {
    forall i, j :: 0 <= i < j < |entries| ==> entries[i].key != entries[j].key
  }

  /** Built from null, booleans, numbers, strings, lists and maps, as the client builds them. */
  ghost predicate Plain(v: Json) {
    match v
    case Num(_) => PlainNumber(v)
    case Dbl(_) => PlainNumber(v)
    case Arr(items) => forall i :: 0 <= i < |items| ==> Plain(items[i])
    case Obj(entries) => DistinctKeys(entries) && forall i :: 0 <= i < |entries| ==> Plain(entries[i].value)
    case _ => true
  }

  /** A printed value is not empty, and starts and ends with something that is not blank. */
  lemma {:induction false} PrintEdges(v: Json)
    requires Plain(v)
    ensures Print(v) != [] && Print(v)[0] > SPACE && Print(v)[|Print(v)| - 1] > SPACE
    ensures Print(v)[0] != RBRACKET && Print(v)[0] != RBRACE
  {
    if v.Num? || v.Dbl? {
      PrintedNumber(v);
      NumberUnits(Print(v));
    }
  }

  lemma {:induction false} PutNew(entries: seq<Entry>, key: Text, value: Json)
    requires forall i :: 0 <= i < |entries| ==> entries[i].key != key
    ensures Put(entries, key, value) == entries + [Entry(key, value)]
  {
    if entries != [] {
      PutNew(entries[1..], key, value);
      assert entries == [entries[0]] + entries[1..];
    }
  }

  // ---- One turn of the two loops ----

  lemma {:induction false} LastItem(t: Text, before: seq<Json>, v: Json, post: Text, isDouble: Text -> bool)
    requires t != [] && ParseValue(t, isDouble) == Good(v, [RBRACKET] + post)
    ensures ArrayLoop(t, before, isDouble) == Good(Arr(before + [v]), post)
  {
    var after := [RBRACKET] + post;
    assert SkipBlanks(after) == after && after[1..] == post;
  }

  lemma {:induction false} MoreItems(t: Text, before: seq<Json>, v: Json, next: Text, isDouble: Text -> bool)
    requires t != [] && ParseValue(t, isDouble) == Good(v, [COMMA] + next)
    ensures |next| < |t| && ArrayLoop(t, before, isDouble) == ArrayLoop(next, before + [v], isDouble)
  {
    var after := [COMMA] + next;
    assert SkipBlanks(after) == after && after[1..] == next;
  }

  /** Key, colon and value of one entry. */
  ghost predicate ReadsEntry(t: Text, e: Entry, after: Text, isDouble: Text -> bool) {
    && t != []
    && exists colon :: (ParseString(t) == Good(e.key, colon) && Expect(colon, COLON).Some?
                        && ParseValue(Expect(colon, COLON).value, isDouble) == Good(e.value, after))
  }

  lemma {:induction false} LastEntry(t: Text, before: seq<Entry>, e: Entry, post: Text, isDouble: Text -> bool)
    requires ReadsEntry(t, e, [RBRACE] + post, isDouble)
    ensures ObjectLoop(t, before, isDouble) == Good(Obj(Put(before, e.key, e.value)), post)
  {
    var after := [RBRACE] + post;
    assert SkipBlanks(after) == after && after[1..] == post;
  }

  lemma {:induction false} MoreEntries(t: Text, before: seq<Entry>, e: Entry, next: Text, isDouble: Text -> bool)
    requires ReadsEntry(t, e, [COMMA] + next, isDouble)
    ensures |next| < |t|
    ensures ObjectLoop(t, before, isDouble) == ObjectLoop(next, Put(before, e.key, e.value), isDouble)
  {
    var after := [COMMA] + next;
    assert SkipBlanks(after) == after && after[1..] == next;
  }

  lemma EntryParts(quoted: Text, value: Text, after: Text)
    ensures quoted + [COLON] + value + after == quoted + ([COLON] + (value + after))
  {
  }

  lemma {:induction false} EntryRead(e: Entry, after: Text, isDouble: Text -> bool)
    requires ParseValue(Print(e.value) + after, isDouble) == Good(e.value, after)
    ensures ReadsEntry(PrintEntry(e) + after, e, after, isDouble)
  {
    var colon := [COLON] + (Print(e.value) + after);
    EntryParts(Quoted(e.key), Print(e.value), after);
    StringRoundTrip(e.key, colon);
    assert SkipBlanks(colon) == colon && colon[1..] == Print(e.value) + after;
    assert Expect(colon, COLON) == Some(Print(e.value) + after);
  }

  /** An opening bracket or brace, and what follows it. */
  lemma {:induction false} Opened(open: Unit, inner: Text, isDouble: Text -> bool)
    requires open == LBRACKET || open == LBRACE
    requires inner != [] && !Blank(inner[0])
    ensures ParseValue([open] + inner, isDouble) ==
      if open == LBRACKET then
        if inner[0] == RBRACKET then Good(Arr([]), inner[1..]) else ArrayLoop(inner, [], isDouble)
      else
        if inner[0] == RBRACE then Good(Obj([]), inner[1..]) else ObjectLoop(inner, [], isDouble)
  {
    var t := [open] + inner;
    assert SkipBlanks(t) == t && t[1..] == inner && SkipBlanks(inner) == inner;
  }

  lemma {:induction false} WordRoundTrip(v: Json, post: Text, isDouble: Text -> bool)
    requires v.Null? || v.Bool?
    ensures ParseValue(Print(v) + post, isDouble) == Good(v, post)
  {
    var t := Print(v) + post;
    assert SkipBlanks(t) == t && t[|Print(v)|..] == post;
    if v == Bool(false) {
      assert t[0] != TRUE_TEXT[0];
    }
  }

  lemma {:induction false} QuotedRoundTrip(s: Text, post: Text, isDouble: Text -> bool)
    ensures ParseValue(Quoted(s) + post, isDouble) == Good(Str(s), post)
  {
    var t := Quoted(s) + post;
    StringRoundTrip(s, post);
    assert t[0] == QUOTE && SkipBlanks(t) == t;
  }

  /** Main result: whatever is printed parses back to itself, and the parser stops right after it. */
  lemma {:induction false} ValueRoundTrip(v: Json, post: Text, isDouble: Text -> bool)
    requires Plain(v) && Closed(post) && TakesReals(isDouble)
    ensures ParseValue(Print(v) + post, isDouble) == Good(v, post)
    decreases v, 1
  {
    match v
    case Null => WordRoundTrip(v, post, isDouble);
    case Bool(b) => WordRoundTrip(v, post, isDouble);
    case Num(_) => NumberRoundTrip(v, post, isDouble);
    case Dbl(_) => NumberRoundTrip(v, post, isDouble);
    case Str(s) => QuotedRoundTrip(s, post, isDouble);
    case Arr(items) =>
      if items != [] {
        PrintEdges(items[0]);
        ItemsRoundTrip(items, [], post, isDouble);
        assert [] + items == items;
      }
      ArrayRead(items, post, isDouble);
    case Obj(entries) =>
      if entries != [] {
        EntriesRoundTrip(entries, [], post, isDouble);
        assert [] + entries == entries;
      }
      ObjectRead(entries, post, isDouble);
  }

  lemma {:induction false} ArrayRead(items: seq<Json>, post: Text, isDouble: Text -> bool)
    requires items != [] ==>
      Print(items[0]) != [] && !Blank(Print(items[0])[0]) && Print(items[0])[0] != RBRACKET &&
      ArrayLoop(PrintItems(items, true) + [RBRACKET] + post, [], isDouble) == Good(Arr(items), post)
    ensures ParseValue(Print(Arr(items)) + post, isDouble) == Good(Arr(items), post)
  {
    var inner := PrintItems(items, true) + [RBRACKET] + post;
    assert Print(Arr(items)) + post == [LBRACKET] + inner;
    if items == [] {
      assert inner == [RBRACKET] + post;
    } else {
      ItemsStart(items);
    }
    Opened(LBRACKET, inner, isDouble);
  }

  lemma {:induction false} ObjectRead(entries: seq<Entry>, post: Text, isDouble: Text -> bool)
    requires entries != [] ==>
      ObjectLoop(PrintEntries(entries, true) + [RBRACE] + post, [], isDouble) == Good(Obj(entries), post)
    ensures ParseValue(Print(Obj(entries)) + post, isDouble) == Good(Obj(entries), post)
  {
    var inner := PrintEntries(entries, true) + [RBRACE] + post;
    assert Print(Obj(entries)) + post == [LBRACE] + inner;
    if entries == [] {
      assert inner == [RBRACE] + post;
    } else {
      EntriesStart(entries);
    }
    Opened(LBRACE, inner, isDouble);
  }

  lemma {:induction false} ItemsStart(items: seq<Json>)
    requires items != [] && Print(items[0]) != []
    ensures PrintItems(items, true) == Print(items[0]) + PrintItems(items[1..], false)
    ensures PrintItems(items, false) == [COMMA] + PrintItems(items, true)
    ensures PrintItems(items, true)[0] == Print(items[0])[0]
  {
  }

  lemma {:induction false} EntriesStart(entries: seq<Entry>)
    requires entries != []
    ensures PrintEntries(entries, true) == PrintEntry(entries[0]) + PrintEntries(entries[1..], false)
    ensures PrintEntries(entries, false) == [COMMA] + PrintEntries(entries, true)
    ensures PrintEntries(entries, true)[0] == QUOTE
  {
    var first, rest := PrintEntry(entries[0]), PrintEntries(entries[1..], false);
    assert [] + first == first;
    assert [COMMA] + first + rest == [COMMA] + (first + rest);
    assert first[0] == QUOTE;
  }

  /** What stands in front of the first item, of the items after it, and after them. */
  lemma {:induction false} SplitItems(items: seq<Json>, post: Text)
    requires items != [] && forall i :: 0 <= i < |items| ==> Print(items[i]) != []
    ensures PrintItems(items, true) + [RBRACKET] + post == Print(items[0]) + AfterItem(items, post)
    ensures Closed(AfterItem(items, post))
  {
    ItemsStart(items);
    var tail := items[1..];
    Together(Print(items[0]), PrintItems(tail, false), [RBRACKET], post);
    if tail != [] {
      ItemsStart(tail);
      Together([COMMA], PrintItems(tail, true), [RBRACKET], post);
    } else {
      assert [] + [RBRACKET] + post == [RBRACKET] + post;
    }
  }

  function AfterItem(items: seq<Json>, post: Text): Text
    requires items != []
  {
    if |items| == 1 then [RBRACKET] + post else [COMMA] + (PrintItems(items[1..], true) + [RBRACKET] + post)
  }

  lemma {:induction false} ItemsRoundTrip(items: seq<Json>, before: seq<Json>, post: Text, isDouble: Text -> bool)
    requires items != [] && (forall i :: 0 <= i < |items| ==> Plain(items[i])) && TakesReals(isDouble)
    ensures ArrayLoop(PrintItems(items, true) + [RBRACKET] + post, before, isDouble) == Good(Arr(before + items), post)
    decreases items, 0
  {
    var t := PrintItems(items, true) + [RBRACKET] + post;
    forall i | 0 <= i < |items| ensures Print(items[i]) != [] {
      PrintEdges(items[i]);
    }
    SplitItems(items, post);
    ValueRoundTrip(items[0], AfterItem(items, post), isDouble);
    assert before + [items[0]] + items[1..] == before + items;
    if |items| == 1 {
      assert items == [items[0]];
      LastItem(t, before, items[0], post, isDouble);
    } else {
      MoreItems(t, before, items[0], PrintItems(items[1..], true) + [RBRACKET] + post, isDouble);
      ItemsRoundTrip(items[1..], before + [items[0]], post, isDouble);
    }
  }

  lemma {:induction false} SplitEntries(entries: seq<Entry>, post: Text)
    requires entries != []
    ensures PrintEntries(entries, true) + [RBRACE] + post == PrintEntry(entries[0]) + AfterEntry(entries, post)
    ensures Closed(AfterEntry(entries, post))
  {
    EntriesStart(entries);
    var tail := entries[1..];
    Together(PrintEntry(entries[0]), PrintEntries(tail, false), [RBRACE], post);
    if tail != [] {
      EntriesStart(tail);
      Together([COMMA], PrintEntries(tail, true), [RBRACE], post);
    } else {
      assert [] + [RBRACE] + post == [RBRACE] + post;
    }
  }

  function AfterEntry(entries: seq<Entry>, post: Text): Text
    requires entries != []
  {
    if |entries| == 1 then [RBRACE] + post else [COMMA] + (PrintEntries(entries[1..], true) + [RBRACE] + post)
  }

  lemma {:induction false} EntriesRoundTrip(entries: seq<Entry>, before: seq<Entry>, post: Text, isDouble: Text -> bool)
    requires entries != [] && (forall i :: 0 <= i < |entries| ==> Plain(entries[i].value))
    requires DistinctKeys(before + entries) && TakesReals(isDouble)
    ensures ObjectLoop(PrintEntries(entries, true) + [RBRACE] + post, before, isDouble) ==
            Good(Obj(before + entries), post)
    decreases entries, 0
  {
    var e := entries[0];
    ValueRoundTrip(e.value, AfterEntry(entries, post), isDouble);
    NewKey(before, entries);
    EntriesTurn(entries, before, post, isDouble);
    if |entries| > 1 {
      Regrouped(before, entries);
      EntriesRoundTrip(entries[1..], before + [e], post, isDouble);
    } else {
      assert entries == [e];
    }
  }

  lemma {:induction false} EntriesTurn(entries: seq<Entry>, before: seq<Entry>, post: Text, isDouble: Text -> bool)
    requires entries != [] && Put(before, entries[0].key, entries[0].value) == before + [entries[0]]
    requires ParseValue(Print(entries[0].value) + AfterEntry(entries, post), isDouble) ==
             Good(entries[0].value, AfterEntry(entries, post))
    ensures ObjectLoop(PrintEntries(entries, true) + [RBRACE] + post, before, isDouble) ==
      if |entries| == 1 then Good(Obj(before + [entries[0]]), post)
      else ObjectLoop(PrintEntries(entries[1..], true) + [RBRACE] + post, before + [entries[0]], isDouble)
  {
    var t, e := PrintEntries(entries, true) + [RBRACE] + post, entries[0];
    SplitEntries(entries, post);
    EntryRead(e, AfterEntry(entries, post), isDouble);
    if |entries| == 1 {
      LastEntry(t, before, e, post, isDouble);
    } else {
      MoreEntries(t, before, e, PrintEntries(entries[1..], true) + [RBRACE] + post, isDouble);
    }
  }

  lemma {:induction false} NewKey(before: seq<Entry>, entries: seq<Entry>)
    requires entries != [] && DistinctKeys(before + entries)
    ensures Put(before, entries[0].key, entries[0].value) == before + [entries[0]]
  {
    forall i | 0 <= i < |before| ensures before[i].key != entries[0].key {
      assert (before + entries)[i] == before[i] && (before + entries)[|before|] == entries[0];
    }
    PutNew(before, entries[0].key, entries[0].value);
  }

  lemma {:induction false} TrimKeeps(t: Text)
    requires t != [] && t[0] > SPACE && t[|t| - 1] > SPACE
    ensures Trim(t) == t
  {
  }

  /** Main result: `parse(stringify(v))` is `v`. */
  lemma ParseUndoesStringify(v: Json, isDouble: Text -> bool)
    requires Plain(v) && TakesReals(isDouble)
    ensures Parse(Print(v), isDouble) == Some(v)
  {
    PrintEdges(v);
    TrimKeeps(Print(v));
    assert Print(v) + [] == Print(v);
    ValueRoundTrip(v, [], isDouble);
  }

  // ---- Escapes that the printer never writes ----

  function HexDigit(n: nat): Unit
    requires n < 16
  {
    if n < 10 then DIGIT0 + n as Unit else 0x61 + (n - 10) as Unit
  }

  /** Four lower-case hexadecimal digits. */
  function Hex4(c: Unit): Text {
    var n := c as nat;
    [HexDigit(n / 4096), HexDigit(n / 256 % 16), HexDigit(n / 16 % 16), HexDigit(n % 16)]
  }

  lemma {:induction false} HexNumberStep(s: Text, c: Unit)
    requires HexNumber(s).Some? && HexValue(c).Some?
    ensures HexNumber(s + [c]) == Some(HexNumber(s).value * 16 + HexValue(c).value)
  {
    assert (s + [c])[..|s|] == s;
  }

  lemma {:induction false} Hex4Value(a: nat, b: nat, c: nat, d: nat)
    requires a < 16 && b < 16 && c < 16 && d < 16
    ensures HexNumber([HexDigit(a), HexDigit(b), HexDigit(c), HexDigit(d)]) == Some(((a * 16 + b) * 16 + c) * 16 + d)
  {
    var w, x, y, z := HexDigit(a), HexDigit(b), HexDigit(c), HexDigit(d);
    HexNumberStep([], w);
    assert [] + [w] == [w] && [w] + [x] == [w, x] && [w, x] + [y] == [w, x, y] && [w, x, y] + [z] == [w, x, y, z];
    HexNumberStep([w], x);
    HexNumberStep([w, x], y);
    HexNumberStep([w, x, y], z);
  }

  /** Every code unit written as a hexadecimal escape is read back as itself (section 7 of RFC 8259). */
  lemma {:induction false} UnicodeEscapeRead(c: Unit, rest: Text, built: Text)
    ensures StringLoop([BACKSLASH, LOWER_U] + Hex4(c) + rest, built) == StringLoop(rest, built + [c])
  {
    var n, t := c as nat, [BACKSLASH, LOWER_U] + Hex4(c) + rest;
    Hex4Value(n / 4096, n / 256 % 16, n / 16 % 16, n % 16);
    DigitsOf(n);
    assert t[2..6] == Hex4(c) && t[6..] == rest;
  }

  lemma DigitsOf(n: nat)
    requires n < 0x1_0000
    ensures ((n / 4096 * 16 + n / 256 % 16) * 16 + n / 16 % 16) * 16 + n % 16 == n
  {
    assert n / 16 == n / 256 * 16 + n / 16 % 16;
    assert n / 256 == n / 4096 * 16 + n / 256 % 16;
  }

  /** `Integer.parseInt` takes a sign, so a minus in the place of the first digit wraps around. */
  lemma {:induction false} SignedEscapeWraps(d: nat)
    requires 0 < d < 16
    ensures HexUnit([MINUS, DIGIT0, DIGIT0, HexDigit(d)]) == Some((0x1_0000 - d) as Unit)
  {
    var s := [MINUS, DIGIT0, DIGIT0, HexDigit(d)];
    HexNumberStep([], DIGIT0);
    assert [] + [DIGIT0] == [DIGIT0];
    HexNumberStep([DIGIT0], DIGIT0);
    HexNumberStep([DIGIT0, DIGIT0], HexDigit(d));
    assert [DIGIT0] + [DIGIT0] == [DIGIT0, DIGIT0];
    assert s[1..] == [DIGIT0, DIGIT0] + [HexDigit(d)];
  }
}
