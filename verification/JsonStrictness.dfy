/** Which values the client prints as JSON that RFC 8259 allows
    (clients/java/src/com/r0rpc/client/MiniJson.java). */
module JsonStrictness {
  import opened JsonNumbers
  import opened JsonRoundTrip
  import opened MiniJson
  import opened StrictJson
  import opened Wrappers

  const NAN_TEXT: Text := [0x4E, 0x61, 0x4E]
  const INFINITY_TEXT: Text := [0x49, 0x6E, 0x66, 0x69, 0x6E, 0x69, 0x74, 0x79]

  predicate Nonfinite(token: Text) {
    token in {NAN_TEXT, INFINITY_TEXT, [MINUS] + INFINITY_TEXT}
  }

  /** What `Double.toString` writes: a number of RFC 8259, or the name of a value that is none. */
  predicate DoubleText(token: Text) {
    Nonfinite(token) || StrictNumber(token) == Good(Dbl(token), [])
  }

  /** Any value a client can print. */
  predicate Printable(v: Json) {
    match v
    case Dbl(token) => DoubleText(token)
    case Arr(items) => forall i :: 0 <= i < |items| ==> Printable(items[i])
    case Obj(entries) => forall i :: 0 <= i < |entries| ==> Printable(entries[i].value)
    case _ => true
  }

  predicate NamedControl(c: Unit) {
    c in {BACKSPACE, TAB, NEWLINE, FORMFEED, RETURN}
  }

  /** Every control unit has a short escape. */
  predicate OnlyNamedControls(s: Text) {
    forall i :: 0 <= i < |s| ==> s[i] >= SPACE || NamedControl(s[i])
  }

  /** All strings and keys have only named controls, and all numbers are finite. */
  predicate Exact(v: Json) {
    match v
    case Dbl(token) => !Nonfinite(token)
    case Str(s) => OnlyNamedControls(s)
    case Arr(items) => forall i :: 0 <= i < |items| ==> Exact(items[i])
    case Obj(entries) => forall i :: 0 <= i < |entries| ==> ExactEntry(entries[i])
    case _ => true
  }

  predicate ExactEntry(e: Entry) {
    OnlyNamedControls(e.key) && Exact(e.value)
  }

  function If<T>(good: bool, value: T, rest: Text): Parsed<T> {
    if good then Good(value, rest) else Bad
  }

  // ---- Strings ----

  lemma {:induction false} StrictUnit(c: Unit, after: Text, built: Text)
    ensures StrictChars(EscapeUnit(c) + after, built) ==
            if c >= SPACE || NamedControl(c) then StrictChars(after, built + [c]) else Bad
  {
    var t := EscapeUnit(c) + after;
    if |EscapeUnit(c)| == 1 {
      assert t[0] == c && t[1..] == after;
    } else {
      assert t[0] == BACKSLASH && t[1] == EscapeUnit(c)[1] && t[2..] == after;
      assert NamedEscape(t[1]) && ESCAPES[t[1]] == c;
    }
  }

  /** Main result: an escaped string is one of RFC 8259, and has its value, exactly if all its control
      units have a short escape; the others go out as they are. */
  lemma {:induction false} StringIsStrictExactly(s: Text, built: Text, post: Text)
    ensures StrictChars(Escape(s) + [QUOTE] + post, built) == If(OnlyNamedControls(s), built + s, post)
  {
    EscapeIsPerUnit(s);
    if s == [] {
      var t := [QUOTE] + post;
      assert Escape(s) + [QUOTE] + post == t && t[1..] == post && built + s == built;
    } else {
      var tail := s[1..];
      EscapeIsPerUnit(tail);
      Together(EscapeUnit(s[0]), EscapeEach(tail), [QUOTE], post);
      StrictUnit(s[0], EscapeEach(tail) + [QUOTE] + post, built);
      StringIsStrictExactly(tail, built + [s[0]], post);
      Regrouped(built, s);
      assert s == [s[0]] + tail;
    }
  }

  lemma {:induction false} StrictQuoted(s: Text, post: Text)
    ensures StrictString(Quoted(s) + post) == If(OnlyNamedControls(s), s, post)
  {
    var t := Quoted(s) + post;
    assert t[1..] == Escape(s) + [QUOTE] + post;
    StringIsStrictExactly(s, [], post);
    assert [] + s == s;
  }

  // ---- Values without members ----

  lemma {:induction false} StrictStart(t: Text)
    requires t != [] && !Blank(t[0])
    ensures StrictValue(t) ==
      var inner := SkipBlanks(t[1..]);
      if t[0] == LBRACE then
        if inner != [] && inner[0] == RBRACE then Good(Obj([]), inner[1..]) else StrictMembers(inner, [])
      else if t[0] == LBRACKET then
        if inner != [] && inner[0] == RBRACKET then Good(Arr([]), inner[1..]) else StrictItems(inner, [])
      else if t[0] == QUOTE then
        match StrictString(t)
        case Good(s, after) => Good(Str(s), after)
        case Bad => Bad
      else if t[0] in {LOWER_N, LOWER_T, LOWER_F} then StrictWord(t)
      else StrictNumber(t)
  {
  }

  lemma {:induction false} StrictSimple(v: Json, post: Text)
    requires v.Null? || v.Bool? || v.Str?
    ensures StrictValue(Print(v) + post) == If(Exact(v), v, post)
  {
    var t := Print(v) + post;
    StrictStart(t);
    if v.Str? {
      StrictQuoted(v.s, post);
    } else {
      assert t[|Print(v)|..] == post && t[..|Print(v)|] == Print(v);
      assert t[0] == Print(v)[0];
    }
  }

  lemma {:induction false} NotANumber(token: Text, post: Text)
    requires Nonfinite(token)
    ensures StrictNumber(token + post) == Bad
  {
    var t := token + post;
    if token == [MINUS] + INFINITY_TEXT {
      assert t[0] == MINUS && t[1..][0] == INFINITY_TEXT[0];
    } else {
      assert t[0] == token[0];
    }
  }

  lemma {:induction false} StrictPrintedNumber(v: Json, post: Text)
    requires (v.Num? || v.Dbl?) && Printable(v) && JsonRoundTrip.Closed(post)
    ensures StrictValue(Print(v) + post) == If(Exact(v), v, post)
  {
    var t := Print(v) + post;
    if Exact(v) {
      if v.Num? {
        DecimalIsStrict(v.n);
      }
      NumberEnds(Print(v), post);
      NumberStart(t);
    } else {
      NotANumber(v.token, post);
    }
    StrictStart(t);
  }

  /** A printed value starts and ends with something that is not blank. */
  lemma {:induction false} PrintedEdges(v: Json)
    requires Printable(v)
    ensures Print(v) != [] && Print(v)[0] > SPACE && Print(v)[|Print(v)| - 1] > SPACE
    ensures Print(v)[0] != RBRACKET
  {
    if v.Num? {
      DecimalIsStrict(v.n);
      NumberUnits(Print(v));
    } else if v.Dbl? && !Nonfinite(v.token) {
      NumberUnits(Print(v));
    }
  }

  // ---- Members ----

  lemma {:induction false} StrictSeparator(post: Text, close: Unit)
    requires close == RBRACKET || close == RBRACE
    ensures NextSeparator([close] + post, close) == Separator.Closed(post)
    ensures NextSeparator([COMMA] + post, close) == More(post)
  {
    assert ([close] + post)[1..] == post && ([COMMA] + post)[1..] == post;
  }

  lemma {:induction false} StrictPrintedEntry(e: Entry, after: Text)
    requires StrictValue(Print(e.value) + after) == If(Exact(e.value), e.value, after)
    ensures StrictMember(PrintEntry(e) + after) == If(ExactEntry(e), e, after)
  {
    var colon := [COLON] + (Print(e.value) + after);
    EntryParts(Quoted(e.key), Print(e.value), after);
    StrictQuoted(e.key, colon);
    assert SkipBlanks(colon) == colon && colon[1..] == Print(e.value) + after;
  }

  lemma {:induction false} ExactItems(items: seq<Json>)
    requires items != []
    ensures Exact(Arr(items)) <==> Exact(items[0]) && Exact(Arr(items[1..]))
    ensures |items| == 1 ==> items[1..] == [] && items == [items[0]]
  {
    assert items == [items[0]] + items[1..];
  }

  lemma {:induction false} ExactEntries(entries: seq<Entry>)
    requires entries != []
    ensures Exact(Obj(entries)) <==> ExactEntry(entries[0]) && Exact(Obj(entries[1..]))
    ensures |entries| == 1 ==> entries[1..] == [] && entries == [entries[0]]
  {
    assert entries == [entries[0]] + entries[1..];
  }

  lemma {:induction false} StrictItemsTurn(items: seq<Json>, before: seq<Json>, post: Text)
    requires items != [] && forall i :: 0 <= i < |items| ==> Print(items[i]) != []
    requires StrictValue(Print(items[0]) + AfterItem(items, post)) ==
             If(Exact(items[0]), items[0], AfterItem(items, post))
    ensures StrictItems(PrintItems(items, true) + [RBRACKET] + post, before) ==
      if !Exact(items[0]) then Bad
      else if |items| == 1 then Good(Arr(before + [items[0]]), post)
      else StrictItems(PrintItems(items[1..], true) + [RBRACKET] + post, before + [items[0]])
  {
    SplitItems(items, post);
    StrictSeparator(if |items| == 1 then post else PrintItems(items[1..], true) + [RBRACKET] + post, RBRACKET);
  }

  lemma {:induction false} StrictEntriesTurn(entries: seq<Entry>, before: seq<Entry>, post: Text)
    requires entries != []
    requires StrictMember(PrintEntry(entries[0]) + AfterEntry(entries, post)) ==
             If(ExactEntry(entries[0]), entries[0], AfterEntry(entries, post))
    ensures StrictMembers(PrintEntries(entries, true) + [RBRACE] + post, before) ==
      if !ExactEntry(entries[0]) then Bad
      else if |entries| == 1 then Good(Obj(before + [entries[0]]), post)
      else StrictMembers(PrintEntries(entries[1..], true) + [RBRACE] + post, before + [entries[0]])
  {
    SplitEntries(entries, post);
    StrictSeparator(if |entries| == 1 then post else PrintEntries(entries[1..], true) + [RBRACE] + post, RBRACE);
  }

  lemma {:induction false} StrictArray(items: seq<Json>, post: Text)
    requires items != [] ==>
      Print(items[0]) != [] && !Blank(Print(items[0])[0]) && Print(items[0])[0] != RBRACKET &&
      StrictItems(PrintItems(items, true) + [RBRACKET] + post, []) == If(Exact(Arr(items)), Arr(items), post)
    ensures StrictValue(Print(Arr(items)) + post) == If(Exact(Arr(items)), Arr(items), post)
  {
    var inner := PrintItems(items, true) + [RBRACKET] + post;
    var t := Print(Arr(items)) + post;
    assert t == [LBRACKET] + inner && t[1..] == inner;
    if items == [] {
      assert inner == [RBRACKET] + post && inner[1..] == post;
    } else {
      ItemsStart(items);
    }
    assert SkipBlanks(inner) == inner;
    StrictStart(t);
  }

  lemma {:induction false} StrictObject(entries: seq<Entry>, post: Text)
    requires entries != [] ==>
      StrictMembers(PrintEntries(entries, true) + [RBRACE] + post, []) == If(Exact(Obj(entries)), Obj(entries), post)
    ensures StrictValue(Print(Obj(entries)) + post) == If(Exact(Obj(entries)), Obj(entries), post)
  {
    var inner := PrintEntries(entries, true) + [RBRACE] + post;
    var t := Print(Obj(entries)) + post;
    assert t == [LBRACE] + inner && t[1..] == inner;
    if entries == [] {
      assert inner == [RBRACE] + post && inner[1..] == post;
    } else {
      EntriesStart(entries);
    }
    assert SkipBlanks(inner) == inner;
    StrictStart(t);
  }

  // ---- Any value ----

  lemma {:induction false} ValueIsStrictExactly(v: Json, post: Text)
    requires Printable(v) && JsonRoundTrip.Closed(post)
    ensures StrictValue(Print(v) + post) == If(Exact(v), v, post)
    decreases v, 1
  {
    match v
    case Num(_) => StrictPrintedNumber(v, post);
    case Dbl(_) => StrictPrintedNumber(v, post);
    case Arr(items) =>
      if items != [] {
        PrintedEdges(items[0]);
        ItemsAreStrictExactly(items, [], post);
        assert [] + items == items;
      }
      StrictArray(items, post);
    case Obj(entries) =>
      if entries != [] {
        EntriesAreStrictExactly(entries, [], post);
        assert [] + entries == entries;
      }
      StrictObject(entries, post);
    case _ => StrictSimple(v, post);
  }

  lemma {:induction false} ItemsAreStrictExactly(items: seq<Json>, before: seq<Json>, post: Text)
    requires items != [] && forall i :: 0 <= i < |items| ==> Printable(items[i])
    ensures StrictItems(PrintItems(items, true) + [RBRACKET] + post, before) ==
            If(Exact(Arr(items)), Arr(before + items), post)
    decreases items, 0
  {
    forall i | 0 <= i < |items| ensures Print(items[i]) != [] {
      PrintedEdges(items[i]);
    }
    SplitItems(items, post);
    ValueIsStrictExactly(items[0], AfterItem(items, post));
    StrictItemsTurn(items, before, post);
    ExactItems(items);
    if |items| > 1 && Exact(items[0]) {
      ItemsAreStrictExactly(items[1..], before + [items[0]], post);
      Regrouped(before, items);
    }
  }

  lemma {:induction false} EntriesAreStrictExactly(entries: seq<Entry>, before: seq<Entry>, post: Text)
    requires entries != [] && forall i :: 0 <= i < |entries| ==> Printable(entries[i].value)
    ensures StrictMembers(PrintEntries(entries, true) + [RBRACE] + post, before) ==
            If(Exact(Obj(entries)), Obj(before + entries), post)
    decreases entries, 0
  {
    SplitEntries(entries, post);
    ValueIsStrictExactly(entries[0].value, AfterEntry(entries, post));
    StrictPrintedEntry(entries[0], AfterEntry(entries, post));
    StrictEntriesTurn(entries, before, post);
    ExactEntries(entries);
    if |entries| > 1 && ExactEntry(entries[0]) {
      EntriesAreStrictExactly(entries[1..], before + [entries[0]], post);
      Regrouped(before, entries);
    }
  }

  /** Main result: what is printed is JSON, of the value printed, exactly if every string and every key
      has only control units with a short escape and every number is finite. */
  lemma {:induction false} PrintedIsJsonExactly(v: Json)
    requires Printable(v)
    ensures StrictParse(Print(v)) == if Exact(v) then Some(v) else None
  {
    var t := Print(v);
    PrintedEdges(v);
    assert DropBlanks(SkipBlanks(t)) == t == t + [];
    ValueIsStrictExactly(v, []);
  }
}
