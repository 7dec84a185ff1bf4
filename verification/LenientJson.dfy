/** The texts that the client's parser takes, as syntax trees that keep every code unit
    (clients/java/src/com/r0rpc/client/MiniJson.java). What goes beyond RFC 8259 is in the leaves: words that
    only start with `n`, strings with raw control units and any escape, numbers in other spellings, and what
    the end of the text cuts off. */
module LenientJson {
  import opened JsonNumbers
  import opened MiniJson
  import opened Wrappers

  /** A part of a string: a code unit as it is, a backslash before any unit but `u`, `\u` before four units
      that `Integer.parseInt` reads, or `\u` with fewer than four units left in the whole text. */
  datatype Piece = Plain(c: Unit) | Escaped(c: Unit) | Hex(digits: Text) | Cut

  datatype Tree = Missing(pre: Text)
                | NWord(pre: Text, word: Text)
                | Truth(pre: Text, b: bool)
                | Token(pre: Text, token: Text)
                | Quote(pre: Text, pieces: seq<Piece>)
                | Hollow(pre: Text, braces: bool, gap: Text)
                | List(pre: Text, items: seq<Item>)
                | Table(pre: Text, fields: seq<Field>)

  /** A value and the blanks after it. */
  datatype Item = Item(tree: Tree, post: Text)

  datatype Field = Field(pre: Text, key: seq<Piece>, mid: Text, tree: Tree, post: Text)

  predicate AllBlank(s: Text) {
    forall i :: 0 <= i < |s| ==> Blank(s[i])
  }

  // ---- Spelling: the text of a tree in front of the rest of the text ----

  function SpellPiece(p: Piece, rest: Text): Text {
    match p
    case Plain(c) => [c] + rest
    case Escaped(c) => [BACKSLASH, c] + rest
    case Hex(digits) => [BACKSLASH, LOWER_U] + (digits + rest)
    case Cut => [BACKSLASH, LOWER_U] + rest
  }

  function SpellPieces(pieces: seq<Piece>, rest: Text): Text {
    if pieces == [] then [QUOTE] + rest else SpellPiece(pieces[0], SpellPieces(pieces[1..], rest))
  }

  function Open(braces: bool): Unit {
    if braces then LBRACE else LBRACKET
  }

  function Close(braces: bool): Unit {
    if braces then RBRACE else RBRACKET
  }

  function Word(b: bool): Text {
    if b then TRUE_TEXT else FALSE_TEXT
  }

  function Spell(t: Tree, rest: Text): Text
    decreases t, 1
  {
    t.pre + Core(t, rest)
  }

  /** Without the blanks in front. */
  function Core(t: Tree, rest: Text): Text
    decreases t, 0
  {
    match t
    case Missing(_) => rest
    case NWord(_, word) => word + rest
    case Truth(_, b) => Word(b) + rest
    case Token(_, token) => token + rest
    case Quote(_, pieces) => [QUOTE] + SpellPieces(pieces, rest)
    case Hollow(_, braces, gap) => [Open(braces)] + (gap + ([Close(braces)] + rest))
    case List(_, items) => [LBRACKET] + SpellItems(items, rest)
    case Table(_, fields) => [LBRACE] + SpellFields(fields, rest)
  }

  function SpellItems(items: seq<Item>, rest: Text): Text
    decreases items, 2
  {
    if items == [] then []
    else
      var tail := SpellItems(items[1..], rest);
      Spell(items[0].tree, items[0].post + (if |items| == 1 then [RBRACKET] + rest else [COMMA] + tail))
  }

  function SpellFields(fields: seq<Field>, rest: Text): Text
    decreases fields, 2
  {
    if fields == [] then []
    else
      var tail := SpellFields(fields[1..], rest);
      SpellField(fields[0], if |fields| == 1 then [RBRACE] + rest else [COMMA] + tail)
  }

  function SpellField(f: Field, after: Text): Text
    decreases f, 2
  {
    f.pre + ([QUOTE] + SpellPieces(f.key, f.mid + ([COLON] + Spell(f.tree, f.post + after))))
  }

  /** What stands behind the first item or field and the blanks after it. */
  function AfterItem(items: seq<Item>, rest: Text): Text
    requires items != []
  {
    if |items| == 1 then [RBRACKET] + rest else [COMMA] + SpellItems(items[1..], rest)
  }

  function AfterField(fields: seq<Field>, rest: Text): Text
    requires fields != []
  {
    if |fields| == 1 then [RBRACE] + rest else [COMMA] + SpellFields(fields[1..], rest)
  }

  // ---- Which trees are legal in front of a rest ----

  predicate LegalPieces(pieces: seq<Piece>, rest: Text) {
    pieces != [] ==>
      LegalPieces(pieces[1..], rest) &&
      match pieces[0]
      case Plain(c) => c != QUOTE && c != BACKSLASH
      case Escaped(c) => c != LOWER_U
      case Hex(digits) => |digits| == 4 && HexUnit(digits).Some?
      case Cut => |SpellPieces(pieces[1..], rest)| < 4
  }

  predicate LegalToken(token: Text, rest: Text, isDouble: Text -> bool) {
    AllNumberUnits(token) && Ends(rest) && if HasMark(token) then isDouble(token) else ParseLong(token).Some?
  }

  predicate Legal(t: Tree, rest: Text, isDouble: Text -> bool)
    decreases t, 0
  {
    AllBlank(t.pre) &&
    match t
    case Missing(_) => rest == []
    case NWord(_, word) => 0 < |word| <= 4 && word[0] == LOWER_N && (|word| < 4 ==> rest == [])
    case Truth(_, _) => true
    case Token(_, token) => LegalToken(token, rest, isDouble)
    case Quote(_, pieces) => LegalPieces(pieces, rest)
    case Hollow(_, _, gap) => AllBlank(gap)
    case List(_, items) => items != [] && LegalItems(items, rest, isDouble)
    case Table(_, fields) => fields != [] && LegalFields(fields, rest, isDouble)
  }

  predicate LegalItems(items: seq<Item>, rest: Text, isDouble: Text -> bool)
    decreases items, 1
  {
    items != [] ==>
      AllBlank(items[0].post) && Legal(items[0].tree, items[0].post + AfterItem(items, rest), isDouble) &&
      LegalItems(items[1..], rest, isDouble)
  }

  predicate LegalFields(fields: seq<Field>, rest: Text, isDouble: Text -> bool)
    decreases fields, 1
  {
    fields != [] ==>
      LegalField(fields[0], AfterField(fields, rest), isDouble) && LegalFields(fields[1..], rest, isDouble)
  }

  predicate LegalField(f: Field, after: Text, isDouble: Text -> bool)
    decreases f, 1
  {
    AllBlank(f.pre) && AllBlank(f.mid) && AllBlank(f.post) &&
    LegalPieces(f.key, f.mid + ([COLON] + Spell(f.tree, f.post + after))) &&
    Legal(f.tree, f.post + after, isDouble)
  }

  // ---- What a tree means ----

  function PieceValue(p: Piece): Text {
    match p
    case Plain(c) => [c]
    case Escaped(c) => [Unescaped(c)]
    case Hex(digits) => if |digits| == 4 && HexUnit(digits).Some? then [HexUnit(digits).value] else []
    case Cut => []
  }

  function TextOf(pieces: seq<Piece>): Text {
    if pieces == [] then [] else PieceValue(pieces[0]) + TextOf(pieces[1..])
  }

  function Meaning(t: Tree): Json
    decreases t, 0
  {
    match t
    case Missing(_) => Null
    case NWord(_, _) => Null
    case Truth(_, b) => Bool(b)
    case Token(_, token) =>
      if HasMark(token) || ParseLong(token) == None then Dbl(token) else Num(ParseLong(token).value)
    case Quote(_, pieces) => Str(TextOf(pieces))
    case Hollow(_, braces, _) => if braces then Obj([]) else Arr([])
    case List(_, items) => Arr(Meanings([], items))
    case Table(_, fields) => Obj(Entries([], fields))
  }

  function Meanings(before: seq<Json>, items: seq<Item>): seq<Json>
    decreases items, 1
  {
    if items == [] then before else Meanings(before + [Meaning(items[0].tree)], items[1..])
  }

  /** The last one of repeated names, in the place of the first. */
  function Entries(before: seq<Entry>, fields: seq<Field>): seq<Entry>
    decreases fields, 1
  {
    if fields == [] then before
    else Entries(Put(before, TextOf(fields[0].key), Meaning(fields[0].tree)), fields[1..])
  }
}
