/** The grammar of RFC 8259, with the value of every text, as the reference for the client's JSON
    printer and parser (clients/java/src/com/r0rpc/client/MiniJson.java). Sections 2 to 7 of RFC 8259
    are followed on UTF-16 code units; blanks and structural characters are those of MiniJson. */
module StrictJson {
  import opened MiniJson
  import opened Wrappers

  // ---- Numbers: section 6 ----

  predicate Digit(c: Unit) {
    DIGIT0 <= c <= DIGIT9
  }

  function DigitRun(t: Text): (run: Text)
    ensures AllDigits(run)
  {
    if t == [] || !Digit(t[0]) then [] else [t[0]] + DigitRun(t[1..])
  }

  function AfterDigits(t: Text): (rest: Text)
    ensures |rest| <= |t|
  {
    if t == [] || !Digit(t[0]) then t else AfterDigits(t[1..])
  }

  /** One digit or more, put behind what was read already. */
  function DigitsBehind(mark: Text, t: Text): (r: Parsed<Text>)
    ensures r.Good? ==> |r.rest| <= |t|
  {
    if DigitRun(t) == [] then Bad else Good(mark + DigitRun(t), AfterDigits(t))
  }

  /** No zero stands in front of other digits. */
  function Whole(t: Text): (r: Parsed<Text>)
    ensures r.Good? ==> |r.rest| < |t| && AllDigits(r.value)
  {
    if t == [] || !Digit(t[0]) then Bad
    else if t[0] == DIGIT0 then Good([DIGIT0], t[1..])
    else Good([t[0]] + DigitRun(t[1..]), AfterDigits(t[1..]))
  }

  function Fraction(t: Text): (r: Parsed<Text>)
    ensures r.Good? ==> |r.rest| <= |t|
  {
    if t == [] || t[0] != DOT then Good([], t) else DigitsBehind([DOT], t[1..])
  }

  function Exponent(t: Text): (r: Parsed<Text>)
    ensures r.Good? ==> |r.rest| <= |t|
  {
    if t == [] || (t[0] != LOWER_E && t[0] != UPPER_E) then Good([], t)
    else if |t| > 1 && (t[1] == PLUS || t[1] == MINUS) then DigitsBehind([t[0], t[1]], t[2..])
    else DigitsBehind([t[0]], t[1..])
  }

  datatype Spelling = Spelling(whole: Text, fraction: Text, exponent: Text)

  function Unsigned(t: Text): (r: Parsed<Spelling>)
    ensures r.Good? ==> |r.rest| < |t| && AllDigits(r.value.whole)
  {
    match Whole(t)
    case Bad => Bad
    case Good(whole, t1) =>
      match Fraction(t1)
      case Bad => Bad
      case Good(fraction, t2) =>
        match Exponent(t2)
        case Bad => Bad
        case Good(exponent, rest) => Good(Spelling(whole, fraction, exponent), rest)
  }

  /** A number without fraction and exponent is an integer of any size, every other one is known by
      its text. */
  function NumberOf(negative: bool, s: Spelling): Json
    requires AllDigits(s.whole)
  {
    if s.fraction == [] && s.exponent == [] then
      Num(if negative then 0 - DigitsValue(s.whole) else DigitsValue(s.whole))
    else Dbl((if negative then [MINUS] else []) + s.whole + s.fraction + s.exponent)
  }

  function StrictNumber(t: Text): (r: Parsed<Json>)
    ensures r.Good? ==> |r.rest| < |t|
  {
    var negative := t != [] && t[0] == MINUS;
    match Unsigned(if negative then t[1..] else t)
    case Bad => Bad
    case Good(s, rest) => Good(NumberOf(negative, s), rest)
  }

  // ---- Strings: section 7 ----

  /** The table of section 7: what a unit after a backslash stands for. */
  const ESCAPES: map<Unit, Unit> :=
    map[0x22 := 0x22, 0x5C := 0x5C, 0x2F := 0x2F, 0x62 := 0x08, 0x66 := 0x0C, 0x6E := 0x0A, 0x72 := 0x0D, 0x74 := 0x09]

  predicate NamedEscape(c: Unit) {
    c in ESCAPES
  }

  /** The value of a hexadecimal digit, in either case. */
  function HexDigitValue(c: Unit): (v: Option<nat>)
    ensures v.Some? ==> v.value < 16
  {
    if 0x30 <= c <= 0x39 then Some(c as int - 0x30)
    else if 0x41 <= c <= 0x46 then Some(c as int - 0x37)
    else if 0x61 <= c <= 0x66 then Some(c as int - 0x57)
    else None
  }

  function TwoDigits(high: Unit, low: Unit): (r: Option<nat>)
    ensures r.Some? ==> r.value < 0x100
  {
    match (HexDigitValue(high), HexDigitValue(low))
    case (Some(a), Some(b)) => Some(a * 16 + b)
    case _ => None
  }

  function FourDigits(s: Text): Option<Unit>
    requires |s| == 4
  {
    match (TwoDigits(s[0], s[1]), TwoDigits(s[2], s[3]))
    case (Some(high), Some(low)) => Some((high * 0x100 + low) as Unit)
    case _ => None
  }

  /** The rest of a string of which `built` has been read. */
  function StrictChars(t: Text, built: Text): (r: Parsed<Text>)
    ensures r.Good? ==> |r.rest| < |t|
    decreases |t|
  {
    if t == [] then Bad
    else if t[0] == QUOTE then Good(built, t[1..])
    else if t[0] < SPACE then Bad
    else if t[0] != BACKSLASH then StrictChars(t[1..], built + [t[0]])
    else if |t| > 1 && NamedEscape(t[1]) then StrictChars(t[2..], built + [ESCAPES[t[1]]])
    else if |t| < 6 || t[1] != LOWER_U then Bad
    else
      match FourDigits(t[2..6])
      case None => Bad
      case Some(c) => StrictChars(t[6..], built + [c])
  }

  function StrictString(t: Text): (r: Parsed<Text>)
    ensures r.Good? ==> |r.rest| < |t|
  {
    match Expect(t, QUOTE)
    case None => Bad
    case Some(rest) => StrictChars(rest, [])
  }

  // ---- Values, arrays and objects: sections 3 to 5 ----

  function StrictWord(t: Text): (r: Parsed<Json>)
    ensures r.Good? ==> |r.rest| < |t|
  {
    if NULL_TEXT <= t then Good(Null, t[4..])
    else if TRUE_TEXT <= t then Good(Bool(true), t[4..])
    else if FALSE_TEXT <= t then Good(Bool(false), t[5..])
    else Bad
  }

  /** An object lists its members as they stand, repeated names included. */
  function StrictValue(t: Text): (r: Parsed<Json>)
    ensures r.Good? ==> |r.rest| < |t|
    decreases |t|, 1
  {
    var rest := SkipBlanks(t);
    if rest == [] then Bad
    else if rest[0] == LBRACE then
      var inner := SkipBlanks(rest[1..]);
      if inner != [] && inner[0] == RBRACE then Good(Obj([]), inner[1..]) else StrictMembers(inner, [])
    else if rest[0] == LBRACKET then
      var inner := SkipBlanks(rest[1..]);
      if inner != [] && inner[0] == RBRACKET then Good(Arr([]), inner[1..]) else StrictItems(inner, [])
    else if rest[0] == QUOTE then
      match StrictString(rest)
      case Good(s, after) => Good(Str(s), after)
      case Bad => Bad
    else if rest[0] in {LOWER_N, LOWER_T, LOWER_F} then StrictWord(rest)
    else StrictNumber(rest)
  }

  function StrictMember(t: Text): (r: Parsed<Entry>)
    ensures r.Good? ==> |r.rest| < |t|
    decreases |t|, 2
  {
    match StrictString(t)
    case Bad => Bad
    case Good(key, afterKey) =>
      match Expect(afterKey, COLON)
      case None => Bad
      case Some(afterColon) =>
        match StrictValue(afterColon)
        case Bad => Bad
        case Good(value, rest) => Good(Entry(key, value), rest)
  }

  function StrictMembers(t: Text, entries: seq<Entry>): (r: Parsed<Json>)
    ensures r.Good? ==> |r.rest| < |t|
    decreases |t|, 3
  {
    match StrictMember(t)
    case Bad => Bad
    case Good(e, afterEntry) =>
      match NextSeparator(afterEntry, RBRACE)
      case Closed(rest) => Good(Obj(entries + [e]), rest)
      case More(next) => StrictMembers(next, entries + [e])
      case Broken => Bad
  }

  function StrictItems(t: Text, items: seq<Json>): (r: Parsed<Json>)
    ensures r.Good? ==> |r.rest| < |t|
    decreases |t|, 3
  {
    match StrictValue(t)
    case Bad => Bad
    case Good(value, afterValue) =>
      match NextSeparator(afterValue, RBRACKET)
      case Closed(rest) => Good(Arr(items + [value]), rest)
      case More(next) => StrictItems(next, items + [value])
      case Broken => Bad
  }

  // ---- Texts: section 2 ----

  function DropBlanks(t: Text): Text {
    if t != [] && Blank(t[|t| - 1]) then DropBlanks(t[..|t| - 1]) else t
  }

  /** One value with nothing but blanks around it. */
  function StrictParse(t: Text): Option<Json> {
    match StrictValue(DropBlanks(SkipBlanks(t)))
    case Good(v, rest) => if rest == [] then Some(v) else None
    case Bad => None
  }

  predicate IsJson(t: Text) {
    StrictParse(t).Some?
  }
}
