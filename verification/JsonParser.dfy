/** The printer and the parser as the Java client runs them: a shared string builder, and an index
    that moves over the text (clients/java/src/com/r0rpc/client/MiniJson.java). Each method is
    proved against the function of the same name in MiniJson.dfy. */
module JsonParser {
  import opened Sequences
  import opened Wrappers
  import opened MiniJson

  class StringBuilder {
    var text: Text

    constructor ()
      ensures text == []
    {
      text := [];
    }

    method Append(s: Text)
      modifies this
      ensures text == old(text) + s
    {
      text := text + s;
    }
  }

  method Stringify(value: Json) returns (json: Text)
    ensures json == Print(value)
  {
    var builder := new StringBuilder();
    WriteValue(builder, value);
    json := builder.text;
  }

  method WriteValue(builder: StringBuilder, value: Json)
    modifies builder
    ensures builder.text == old(builder.text) + Print(value)
    decreases value, 1
  {
    match value
    case Null => builder.Append(NULL_TEXT);
    case Str(s) => WriteQuoted(builder, s);
    case Num(n) => builder.Append(Decimal(n));
    case Dbl(token) => builder.Append(token);
    case Bool(b) => builder.Append(if b then TRUE_TEXT else FALSE_TEXT);
    case Obj(entries) => WriteEntries(builder, entries);
    case Arr(items) => WriteItems(builder, items);
  }

  method WriteQuoted(builder: StringBuilder, s: Text)
    modifies builder
    ensures builder.text == old(builder.text) + Quoted(s)
  {
    builder.Append([QUOTE]);
    builder.Append(Escape(s));
    builder.Append([QUOTE]);
  }

  method WriteItems(builder: StringBuilder, items: seq<Json>)
    modifies builder
    ensures builder.text == old(builder.text) + ([LBRACKET] + PrintItems(items, true) + [RBRACKET])
    decreases items, 0
  {
    builder.Append([LBRACKET]);
    ghost var start := builder.text;
    var first := true;
    for i := 0 to |items|
      invariant builder.text + PrintItems(items[i..], first) == start + PrintItems(items, true)
    {
      assert items[i..][1..] == items[i + 1..];
      ghost var before, comma := builder.text, if first then [] else [COMMA];
      RegroupItem(before, comma, Print(items[i]), PrintItems(items[i + 1..], false));
      if !first {
        builder.Append([COMMA]);
      }
      first := false;
      WriteValue(builder, items[i]);
      assert builder.text == before + comma + Print(items[i]);
    }
    assert items[|items|..] == [] && builder.text + [] == builder.text;
    builder.Append([RBRACKET]);
  }

  lemma RegroupItem(a: Text, b: Text, c: Text, d: Text)
    ensures a + (b + c + d) == a + b + c + d
  {
  }

  method WriteEntries(builder: StringBuilder, entries: seq<Entry>)
    modifies builder
    ensures builder.text == old(builder.text) + ([LBRACE] + PrintEntries(entries, true) + [RBRACE])
    decreases entries, 0
  {
    builder.Append([LBRACE]);
    ghost var start := builder.text;
    var first := true;
    for i := 0 to |entries|
      invariant builder.text + PrintEntries(entries[i..], first) == start + PrintEntries(entries, true)
    {
      assert entries[i..][1..] == entries[i + 1..];
      ghost var before, comma := builder.text, if first then [] else [COMMA];
      RegroupItem(before, comma, PrintEntry(entries[i]), PrintEntries(entries[i + 1..], false));
      if !first {
        builder.Append([COMMA]);
      }
      first := false;
      WriteEntry(builder, entries[i]);
      assert builder.text == before + comma + PrintEntry(entries[i]);
    }
    assert entries[|entries|..] == [] && builder.text + [] == builder.text;
    builder.Append([RBRACE]);
  }

  method WriteEntry(builder: StringBuilder, e: Entry)
    modifies builder
    ensures builder.text == old(builder.text) + PrintEntry(e)
    decreases e, 0
  {
    WriteQuoted(builder, e.key);
    builder.Append([COLON]);
    WriteValue(builder, e.value);
  }

  // ---- Parsing ----

  lemma DropStep(t: Text, i: nat)
    requires i < |t|
    ensures Drop(t, i) != [] && Drop(t, i)[0] == t[i] && Drop(t, i)[1..] == Drop(t, i + 1)
  {
  }

  lemma DropMore(t: Text, i: nat, n: nat)
    ensures Drop(Drop(t, i), n) == Drop(t, i + n)
  {
  }

  lemma SkipTwice(t: Text)
    ensures SkipBlanks(SkipBlanks(t)) == SkipBlanks(t)
  {
  }

  /** A result of None is one of Java's exceptions; the parser is not used any more after it. */
  class Parser {
    const text: Text
    const isDouble: Text -> bool
    var index: nat

    ghost function Rest(): Text
      reads this
    {
      Drop(text, index)
    }

    constructor (json: Text, isDouble: Text -> bool)
      ensures Rest() == Trim(json) && this.isDouble == isDouble
    {
      text := Trim(json);
      this.isDouble := isDouble;
      index := 0;
    }

    method SkipWhitespace()
      modifies this
      ensures Rest() == SkipBlanks(old(Rest()))
      ensures index <= |text| || index == old(index)
    {
      while index < |text|
        invariant SkipBlanks(Rest()) == SkipBlanks(old(Rest()))
        invariant index <= |text| || index == old(index)
        decreases |text| - index
      {
        DropStep(text, index);
        if !Blank(text[index]) {
          break;
        }
        index := index + 1;
      }
    }

    method Peek(expected: Unit) returns (found: bool)
      modifies this
      ensures Rest() == SkipBlanks(old(Rest()))
      ensures found == MiniJson.Peek(old(Rest()), expected)
      ensures found ==> index < |text|
    {
      SkipWhitespace();
      found := index < |text| && text[index] == expected;
      if index < |text| {
        DropStep(text, index);
      }
    }

    method Expect(expected: Unit) returns (found: bool)
      modifies this
      ensures found <==> MiniJson.Expect(old(Rest()), expected).Some?
      ensures found ==> Rest() == MiniJson.Expect(old(Rest()), expected).value && index <= |text|
    {
      SkipWhitespace();
      if index >= |text| || text[index] != expected {
        return false;
      }
      DropStep(text, index);
      index := index + 1;
      return true;
    }

    method ParseString() returns (r: Option<Text>)
      modifies this
      ensures match MiniJson.ParseString(old(Rest()))
              case Good(s, rest) => r == Some(s) && Rest() == rest
              case Bad => r == None
    {
      var found := Expect(QUOTE);
      if !found {
        return None;
      }
      r := ParseStringTail();
    }

    /** The loop of `parseString`. */
    method ParseStringTail() returns (r: Option<Text>)
      modifies this
      ensures match StringLoop(old(Rest()), [])
              case Good(s, rest) => r == Some(s) && Rest() == rest
              case Bad => r == None
    {
      var built: Text := [];
      while index < |text|
        invariant StringLoop(Rest(), built) == StringLoop(old(Rest()), [])
        decreases |text| - index
      {
        DropStep(text, index);
        ghost var t := Rest();
        var ch := text[index];
        index := index + 1;
        if ch == QUOTE {
          return Some(built);
        }
        if ch != BACKSLASH {
          built := built + [ch];
        } else {
          if index >= |text| {
            break;
          }
          var next := TakeEscape(built, t);
          if next == None {
            return None;
          }
          built := next.value;
        }
      }
      return None;
    }

    /** The switch on the unit after a backslash; t is the text from the backslash on. */
    method TakeEscape(built: Text, ghost t: Text) returns (r: Option<Text>)
      requires index < |text| && t != [] && t[0] == BACKSLASH && t[1..] == Rest()
      modifies this
      ensures old(index) < index
      ensures StringLoop(t, built) == if r == None then Bad else StringLoop(Rest(), r.value)
    {
      DropStep(text, index);
      assert t[1] == text[index] && t[2..] == Drop(text, index + 1);
      var escaped := text[index];
      index := index + 1;
      if escaped != LOWER_U {
        return Some(built + [Unescaped(escaped)]);
      }
      if index + 4 > |text| {
        return Some(built);
      }
      assert text[index..index + 4] == t[2..6] && Drop(text, index + 4) == t[6..];
      var c := HexUnit(text[index..index + 4]);
      if c == None {
        return None;
      }
      index := index + 4;
      return Some(built + [c.value]);
    }

    method NumberText() returns (token: Text)
      requires index <= |text|
      modifies this
      ensures token == NumberToken(old(Rest())) && Rest() == old(Rest())[|token|..]
    {
      var start := index;
      while index < |text|
        invariant start <= index <= |text|
        invariant NumberToken(old(Rest())) == text[start..index] + NumberToken(Rest())
      {
        DropStep(text, index);
        if !NumberUnit(text[index]) {
          break;
        }
        assert text[start..index] + [text[index]] == text[start..index + 1];
        MoveNext(text[start..index], text[index], NumberToken(Drop(text, index + 1)));
        index := index + 1;
      }
      token := text[start..index];
      assert token + [] == token;
    }

    method ParseNumber() returns (r: Option<Json>)
      requires index <= |text|
      modifies this
      ensures match MiniJson.ParseNumber(old(Rest()), isDouble)
              case Good(v, rest) => r == Some(v) && Rest() == rest
              case Bad => r == None
    {
      var token := NumberText();
      if DOT in token || LOWER_E in token || UPPER_E in token {
        return if isDouble(token) then Some(Dbl(token)) else None;
      }
      match ParseLong(token)
      case None => return None;
      case Some(n) => return Some(Num(n));
    }

    method ParseBoolean() returns (r: Option<Json>)
      requires index <= |text|
      modifies this
      ensures match MiniJson.ParseBoolean(old(Rest()))
              case Good(v, rest) => r == Some(v) && Rest() == rest
              case Bad => r == None
    {
      if TRUE_TEXT <= text[index..] {
        index := index + 4;
        return Some(Bool(true));
      }
      if FALSE_TEXT <= text[index..] {
        index := index + 5;
        return Some(Bool(false));
      }
      return None;
    }

    method ParseValue() returns (r: Option<Json>)
      modifies this
      ensures match MiniJson.ParseValue(old(Rest()), isDouble)
              case Good(v, rest) => r == Some(v) && Rest() == rest
              case Bad => r == None
      decreases |Rest()|, 1
    {
      SkipWhitespace();
      if index >= |text| {
        return Some(Null);
      }
      DropStep(text, index);
      var ch := text[index];
      if ch == LBRACE {
        r := ParseObject();
      } else if ch == LBRACKET {
        r := ParseArray();
      } else if ch == QUOTE {
        var s := ParseString();
        r := if s.Some? then Some(Str(s.value)) else None;
      } else if ch == LOWER_T || ch == LOWER_F {
        r := ParseBoolean();
      } else if ch == LOWER_N {
        DropMore(text, index, 4);
        index := index + 4;
        r := Some(Null);
      } else {
        r := ParseNumber();
      }
    }

    /** The close, or the comma, that must follow a member. */
    method TakeSeparator(close: Unit) returns (r: Separator)
      modifies this
      ensures r == NextSeparator(old(Rest()), close)
      ensures !r.Broken? ==> Rest() == r.rest
    {
      SkipWhitespace();
      SkipTwice(old(Rest()));
      var done := Peek(close);
      if done {
        DropStep(text, index);
        index := index + 1;
        return Closed(text[index..]);
      }
      var comma := Expect(COMMA);
      return if comma then More(text[index..]) else Broken;
    }

    /** Steps over the opening bracket, and over the closing one if it follows. */
    method TakeOpening(close: Unit) returns (empty: bool)
      requires Rest() != []
      modifies this
      ensures empty == MiniJson.Peek(old(Rest())[1..], close)
      ensures empty ==> Rest() == SkipBlanks(old(Rest())[1..])[1..]
      ensures !empty ==> Rest() == SkipBlanks(old(Rest())[1..])
    {
      DropStep(text, index);
      index := index + 1;
      SkipTwice(Rest());
      SkipWhitespace();
      empty := Peek(close);
      if empty {
        DropStep(text, index);
        index := index + 1;
      }
    }

    method ParseEntry() returns (r: Option<Entry>)
      modifies this
      ensures match MiniJson.ParseEntry(old(Rest()), isDouble)
              case Good(e, rest) => r == Some(e) && Rest() == rest
              case Bad => r == None
      decreases |Rest()|, 2
    {
      var key := ParseString();
      if key == None {
        return None;
      }
      SkipTwice(Rest());
      SkipWhitespace();
      var colon := Expect(COLON);
      if !colon {
        return None;
      }
      var value := ParseValue();
      return if value == None then None else Some(Entry(key.value, value.value));
    }

    method ParseObject() returns (r: Option<Json>)
      requires Rest() != []
      modifies this
      ensures match MiniJson.ParseObject(old(Rest())[1..], isDouble)
              case Good(v, rest) => r == Some(v) && Rest() == rest
              case Bad => r == None
      decreases |Rest()|, 0
    {
      var entries: seq<Entry> := [];
      var empty := TakeOpening(RBRACE);
      if empty {
        return Some(Obj(entries));
      }
      while index < |text|
        invariant |Rest()| < |old(Rest())|
        invariant ObjectLoop(Rest(), entries, isDouble) == MiniJson.ParseObject(old(Rest())[1..], isDouble)
        decreases |Rest()|
      {
        var e := ParseEntry();
        if e == None {
          return None;
        }
        entries := Put(entries, e.value.key, e.value.value);
        var next := TakeSeparator(RBRACE);
        if next.Closed? {
          return Some(Obj(entries));
        }
        if next.Broken? {
          return None;
        }
      }
      return None;
    }

    method ParseArray() returns (r: Option<Json>)
      requires Rest() != []
      modifies this
      ensures match MiniJson.ParseArray(old(Rest())[1..], isDouble)
              case Good(v, rest) => r == Some(v) && Rest() == rest
              case Bad => r == None
      decreases |Rest()|, 0
    {
      var items: seq<Json> := [];
      var empty := TakeOpening(RBRACKET);
      if empty {
        return Some(Arr(items));
      }
      while index < |text|
        invariant |Rest()| < |old(Rest())|
        invariant ArrayLoop(Rest(), items, isDouble) == MiniJson.ParseArray(old(Rest())[1..], isDouble)
        decreases |Rest()|
      {
        var value := ParseValue();
        if value == None {
          return None;
        }
        items := items + [value.value];
        var next := TakeSeparator(RBRACKET);
        if next.Closed? {
          return Some(Arr(items));
        }
        if next.Broken? {
          return None;
        }
      }
      return None;
    }
  }

  /** `MiniJson.parse`: an exception is None. Ending at all, on every text, is part of the claim. */
  method Parse(json: Text, isDouble: Text -> bool) returns (r: Option<Json>)
    ensures r == MiniJson.Parse(json, isDouble)
  {
    var parser := new Parser(json, isDouble);
    r := parser.ParseValue();
  }
}
