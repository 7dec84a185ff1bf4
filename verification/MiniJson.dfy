/** What the Java client's JSON printer writes and its parser reads
    (clients/java/src/com/r0rpc/client/MiniJson.java). A Java string is a sequence of UTF-16 code
    units, so text is modelled as numbers below 65536. */
module MiniJson {
  import opened Wrappers

  newtype Unit = x: int | 0 <= x < 0x1_0000

  type Text = seq<Unit>

  const BACKSPACE: Unit := 0x08
  const TAB: Unit := 0x09
  const NEWLINE: Unit := 0x0A
  const FORMFEED: Unit := 0x0C
  const RETURN: Unit := 0x0D
  const SPACE: Unit := 0x20
  const QUOTE: Unit := 0x22
  const PLUS: Unit := 0x2B
  const COMMA: Unit := 0x2C
  const MINUS: Unit := 0x2D
  const DOT: Unit := 0x2E
  const SLASH: Unit := 0x2F
  const DIGIT0: Unit := 0x30
  const DIGIT9: Unit := 0x39
  const COLON: Unit := 0x3A
  const UPPER_E: Unit := 0x45
  const LBRACKET: Unit := 0x5B
  const BACKSLASH: Unit := 0x5C
  const RBRACKET: Unit := 0x5D
  const LOWER_B: Unit := 0x62
  const LOWER_E: Unit := 0x65
  const LOWER_F: Unit := 0x66
  const LOWER_N: Unit := 0x6E
  const LOWER_R: Unit := 0x72
  const LOWER_T: Unit := 0x74
  const LOWER_U: Unit := 0x75
  const LBRACE: Unit := 0x7B
  const RBRACE: Unit := 0x7D

  const NULL_TEXT: Text := [0x6E, 0x75, 0x6C, 0x6C]
  const TRUE_TEXT: Text := [0x74, 0x72, 0x75, 0x65]
  const FALSE_TEXT: Text := [0x66, 0x61, 0x6C, 0x73, 0x65]

  const MIN_LONG := -0x8000_0000_0000_0000
  const MAX_LONG := 0x7FFF_FFFF_FFFF_FFFF

  /** A `Double` is known only by its text. An object lists its entries in insertion order. */
  datatype Json = Null | Bool(b: bool) | Num(n: int) | Dbl(token: Text) | Str(s: Text)
                | Arr(items: seq<Json>) | Obj(entries: seq<Entry>)

  datatype Entry = Entry(key: Text, value: Json)

  // ---- Printing ----

  /** `String.replace` of one code unit by a text. */
  function Replace(s: Text, c: Unit, replacement: Text): Text {
    if s == [] then [] else (if s[0] == c then replacement else [s[0]]) + Replace(s[1..], c, replacement)
  }

  /** Seven passes over the whole string, one after the other. */
  function Escape(s: Text): Text {
    var s1 := Replace(s, BACKSLASH, [BACKSLASH, BACKSLASH]);
    var s2 := Replace(s1, QUOTE, [BACKSLASH, QUOTE]);
    var s3 := Replace(s2, BACKSPACE, [BACKSLASH, LOWER_B]);
    var s4 := Replace(s3, FORMFEED, [BACKSLASH, LOWER_F]);
    var s5 := Replace(s4, NEWLINE, [BACKSLASH, LOWER_N]);
    var s6 := Replace(s5, RETURN, [BACKSLASH, LOWER_R]);
    Replace(s6, TAB, [BACKSLASH, LOWER_T])
  }

  function Digits(n: nat): Text {
    if n < 10 then [DIGIT0 + n as Unit] else Digits(n / 10) + [DIGIT0 + (n % 10) as Unit]
  }

  /** `Long.toString`. */
  function Decimal(n: int): Text {
    if n < 0 then [MINUS] + Digits(-n) else Digits(n)
  }

  function Quoted(s: Text): Text {
    [QUOTE] + Escape(s) + [QUOTE]
  }

  function Print(v: Json): Text
    decreases v, 1
  {
    match v
    case Null => NULL_TEXT
    case Bool(b) => if b then TRUE_TEXT else FALSE_TEXT
    case Num(n) => Decimal(n)
    case Dbl(token) => token
    case Str(s) => Quoted(s)
    case Arr(items) => [LBRACKET] + PrintItems(items, true) + [RBRACKET]
    case Obj(entries) => [LBRACE] + PrintEntries(entries, true) + [RBRACE]
  }

  function PrintItems(items: seq<Json>, first: bool): Text
    decreases items, 0
  {
    if items == [] then []
    else (if first then [] else [COMMA]) + Print(items[0]) + PrintItems(items[1..], false)
  }

  function PrintEntries(entries: seq<Entry>, first: bool): Text
    decreases entries, 0
  {
    if entries == [] then []
    else (if first then [] else [COMMA]) + PrintEntry(entries[0]) + PrintEntries(entries[1..], false)
  }

  function PrintEntry(e: Entry): Text
    decreases e, 0
  {
    Quoted(e.key) + [COLON] + Print(e.value)
  }

  // ---- Parsing: every function takes the text that is left and says what is left after it ----

  datatype Parsed<+T> = Good(value: T, rest: Text) | Bad

  predicate Blank(c: Unit) {
    c == SPACE || c == NEWLINE || c == RETURN || c == TAB
  }

  function SkipBlanks(t: Text): (rest: Text)
    ensures |rest| <= |t|
    ensures rest == [] || !Blank(rest[0])
  {
    if t != [] && Blank(t[0]) then SkipBlanks(t[1..]) else t
  }

  function Peek(t: Text, c: Unit): bool {
    var rest := SkipBlanks(t);
    rest != [] && rest[0] == c
  }

  /** The text after blanks and an expected code unit. */
  function Expect(t: Text, c: Unit): (r: Option<Text>)
    ensures r.Some? ==> |r.value| < |t|
  {
    var rest := SkipBlanks(t);
    if rest == [] || rest[0] != c then None else Some(rest[1..])
  }

  function HexValue(c: Unit): Option<nat> {
    if DIGIT0 <= c <= DIGIT9 then Some((c - DIGIT0) as nat)
    else if 0x41 <= c <= 0x46 then Some((c - 0x41) as nat + 10)
    else if 0x61 <= c <= 0x66 then Some((c - 0x61) as nat + 10)
    else None
  }

  function HexNumber(s: Text): Option<nat> {
    if s == [] then Some(0)
    else
      match (HexNumber(s[..|s| - 1]), HexValue(s[|s| - 1]))
      case (Some(high), Some(low)) => Some(high * 16 + low)
      case _ => None
  }

  /** `(char) Integer.parseInt(hex, 16)` on four code units: a sign is allowed, and a negative
      number wraps around. */
  function HexUnit(s: Text): Option<Unit>
    requires |s| == 4
  {
    var signed := s[0] == MINUS || s[0] == PLUS;
    match HexNumber(if signed then s[1..] else s)
    case None => None
    case Some(v) => Some(((if s[0] == MINUS then 0 - v as int else v as int) % 0x1_0000) as Unit)
  }

  /** What `\c` stands for, for every `c` but `u`. */
  function Unescaped(c: Unit): Unit {
    if c == LOWER_B then BACKSPACE
    else if c == LOWER_F then FORMFEED
    else if c == LOWER_N then NEWLINE
    else if c == LOWER_R then RETURN
    else if c == LOWER_T then TAB
    else c
  }

  /** The loop of `parseString`, after `built` has been read. */
  function StringLoop(t: Text, built: Text): (r: Parsed<Text>)
    ensures r.Good? ==> |r.rest| < |t|
    decreases |t|
  {
    if t == [] then Bad
    else if t[0] == QUOTE then Good(built, t[1..])
    else if t[0] != BACKSLASH then StringLoop(t[1..], built + [t[0]])
    else if |t| == 1 then Bad
    else if t[1] != LOWER_U then StringLoop(t[2..], built + [Unescaped(t[1])])
    else if |t| < 6 then StringLoop(t[2..], built)
    else
      match HexUnit(t[2..6])
      case None => Bad
      case Some(c) => StringLoop(t[6..], built + [c])
  }

  function ParseString(t: Text): (r: Parsed<Text>)
    ensures r.Good? ==> |r.rest| < |t|
  {
    match Expect(t, QUOTE)
    case None => Bad
    case Some(rest) => StringLoop(rest, [])
  }

  predicate NumberUnit(c: Unit) {
    DIGIT0 <= c <= DIGIT9 || c == MINUS || c == PLUS || c == DOT || c == LOWER_E || c == UPPER_E
  }

  function NumberToken(t: Text): (token: Text)
    ensures |token| <= |t| && token == t[..|token|]
  {
    if t == [] || !NumberUnit(t[0]) then [] else [t[0]] + NumberToken(t[1..])
  }

  predicate AllDigits(s: Text) {
    forall i :: 0 <= i < |s| ==> DIGIT0 <= s[i] <= DIGIT9
  }

  function DigitsValue(s: Text): nat
    requires AllDigits(s)
  {
    if s == [] then 0 else DigitsValue(s[..|s| - 1]) * 10 + (s[|s| - 1] - DIGIT0) as nat
  }

  /** `Integer.valueOf`, and `Long.valueOf` where that fails, compared by value. */
  function ParseLong(token: Text): Option<int> {
    var signed := token != [] && (token[0] == MINUS || token[0] == PLUS);
    var digits := if signed then token[1..] else token;
    if digits == [] || !AllDigits(digits) then None
    else
      var n := if token[0] == MINUS then 0 - DigitsValue(digits) as int else DigitsValue(digits) as int;
      if MIN_LONG <= n <= MAX_LONG then Some(n) else None
  }

  /** `isDouble` says which tokens `Double.valueOf` accepts. */
  function ParseNumber(t: Text, isDouble: Text -> bool): (r: Parsed<Json>)
    ensures r.Good? ==> |r.rest| <= |t|
  {
    var token := NumberToken(t);
    var rest := t[|token|..];
    if DOT in token || LOWER_E in token || UPPER_E in token then
      if isDouble(token) then Good(Dbl(token), rest) else Bad
    else
      match ParseLong(token)
      case Some(n) => Good(Num(n), rest)
      case None => Bad
  }

  function ParseBoolean(t: Text): (r: Parsed<Json>)
    ensures r.Good? ==> |r.rest| < |t|
  {
    if TRUE_TEXT <= t then Good(Bool(true), t[4..])
    else if FALSE_TEXT <= t then Good(Bool(false), t[5..])
    else Bad
  }

  /** `LinkedHashMap.put`: a known key keeps its place. */
  function Put(entries: seq<Entry>, key: Text, value: Json): seq<Entry> {
    if entries == [] then [Entry(key, value)]
    else if entries[0].key == key then [Entry(key, value)] + entries[1..]
    else [entries[0]] + Put(entries[1..], key, value)
  }

  function Drop(t: Text, n: nat): (rest: Text)
    ensures |rest| <= |t|
  {
    if n <= |t| then t[n..] else []
  }

  /** A word that starts with `n` is skipped unread, even if fewer than four units are left. */
  function ParseValue(t: Text, isDouble: Text -> bool): (r: Parsed<Json>)
    ensures r.Good? ==> |r.rest| <= |t|
    decreases |t|, 1
  {
    var rest := SkipBlanks(t);
    if rest == [] then Good(Null, [])
    else if rest[0] == LBRACE then ParseObject(rest[1..], isDouble)
    else if rest[0] == LBRACKET then ParseArray(rest[1..], isDouble)
    else if rest[0] == QUOTE then
      match ParseString(rest)
      case Good(s, after) => Good(Str(s), after)
      case Bad => Bad
    else if rest[0] == LOWER_T || rest[0] == LOWER_F then ParseBoolean(rest)
    else if rest[0] == LOWER_N then Good(Null, Drop(rest, 4))
    else ParseNumber(rest, isDouble)
  }

  /** What stands after a member of an object or an array. */
  datatype Separator = Closed(rest: Text) | More(rest: Text) | Broken

  function NextSeparator(t: Text, close: Unit): (r: Separator)
    ensures !r.Broken? ==> |r.rest| < |t|
  {
    if Peek(t, close) then Closed(SkipBlanks(t)[1..])
    else
      match Expect(t, COMMA)
      case None => Broken
      case Some(rest) => More(rest)
  }

  function ParseObject(t: Text, isDouble: Text -> bool): (r: Parsed<Json>)
    ensures r.Good? ==> |r.rest| <= |t|
    decreases |t|, 4
  {
    if Peek(t, RBRACE) then Good(Obj([]), SkipBlanks(t)[1..]) else ObjectLoop(SkipBlanks(t), [], isDouble)
  }

  function ParseEntry(t: Text, isDouble: Text -> bool): (r: Parsed<Entry>)
    ensures r.Good? ==> |r.rest| < |t|
    decreases |t|, 2
  {
    match ParseString(t)
    case Bad => Bad
    case Good(key, afterKey) =>
      match Expect(afterKey, COLON)
      case None => Bad
      case Some(afterColon) =>
        match ParseValue(afterColon, isDouble)
        case Bad => Bad
        case Good(value, rest) => Good(Entry(key, value), rest)
  }

  function ObjectLoop(t: Text, entries: seq<Entry>, isDouble: Text -> bool): (r: Parsed<Json>)
    ensures r.Good? ==> |r.rest| <= |t|
    decreases |t|, 3
  {
    if t == [] then Bad
    else
      match ParseEntry(t, isDouble)
      case Bad => Bad
      case Good(e, afterEntry) =>
        var entries' := Put(entries, e.key, e.value);
        match NextSeparator(afterEntry, RBRACE)
        case Closed(rest) => Good(Obj(entries'), rest)
        case More(next) => ObjectLoop(next, entries', isDouble)
        case Broken => Bad
  }

  function ParseArray(t: Text, isDouble: Text -> bool): (r: Parsed<Json>)
    ensures r.Good? ==> |r.rest| <= |t|
    decreases |t|, 4
  {
    if Peek(t, RBRACKET) then Good(Arr([]), SkipBlanks(t)[1..]) else ArrayLoop(SkipBlanks(t), [], isDouble)
  }

  function ArrayLoop(t: Text, items: seq<Json>, isDouble: Text -> bool): (r: Parsed<Json>)
    ensures r.Good? ==> |r.rest| <= |t|
    decreases |t|, 3
  {
    if t == [] then Bad
    else
      match ParseValue(t, isDouble)
      case Bad => Bad
      case Good(value, afterValue) =>
        match NextSeparator(afterValue, RBRACKET)
        case Closed(rest) => Good(Arr(items + [value]), rest)
        case More(next) => ArrayLoop(next, items + [value], isDouble)
        case Broken => Bad
  }

  /** `String.trim`: drops code units up to the space at both ends. */
  function Trim(t: Text): Text {
    if t != [] && t[0] <= SPACE then Trim(t[1..])
    else if t != [] && t[|t| - 1] <= SPACE then Trim(t[..|t| - 1])
    else t
  }

  function Parse(json: Text, isDouble: Text -> bool): Option<Json> {
    match ParseValue(Trim(json), isDouble)
    case Good(v, _) => Some(v)
    case Bad => None
  }
}
