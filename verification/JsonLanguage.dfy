/** Exactly which texts the client's parser takes, and what it makes of them
    (clients/java/src/com/r0rpc/client/MiniJson.java). */
module JsonLanguage {
  import opened JsonCoverage
  import opened JsonNumbers
  import JsonRoundTrip
  import opened LenientJson
  import opened MiniJson
  import Sequences
  import opened Wrappers

  // ---- Legal trees are read ----

  lemma {:induction false} BlanksGo(pre: Text, t: Text)
    requires AllBlank(pre)
    ensures SkipBlanks(pre + t) == SkipBlanks(t)
  {
    if pre == [] {
      assert pre + t == t;
    } else {
      assert (pre + t)[1..] == pre[1..] + t;
      BlanksGo(pre[1..], t);
    }
  }

  lemma Head(c: Unit, t: Text)
    ensures ([c] + t)[0] == c && ([c] + t)[1..] == t
  {
  }

  lemma HeadTwo(c: Unit, d: Unit, t: Text)
    ensures ([c, d] + t)[0] == c && ([c, d] + t)[1] == d && ([c, d] + t)[2..] == t
  {
  }

  lemma {:induction false} PieceRead(p: Piece, t: Text, built: Text)
    requires match p
      case Plain(c) => c != QUOTE && c != BACKSLASH
      case Escaped(c) => c != LOWER_U
      case Hex(digits) => |digits| == 4 && HexUnit(digits).Some?
      case Cut => |t| < 4
    ensures StringLoop(SpellPiece(p, t), built) == StringLoop(t, built + PieceValue(p))
  {
    match p
    case Plain(c) => Head(c, t);
    case Escaped(c) => HeadTwo(BACKSLASH, c, t);
    case Hex(digits) =>
      HeadTwo(BACKSLASH, LOWER_U, digits + t);
      var s := [BACKSLASH, LOWER_U] + (digits + t);
      assert s[2..6] == digits && s[6..] == t;
    case Cut =>
      HeadTwo(BACKSLASH, LOWER_U, t);
      assert built + [] == built;
  }

  lemma {:induction false} PiecesRead(pieces: seq<Piece>, rest: Text, built: Text)
    requires LegalPieces(pieces, rest)
    ensures StringLoop(SpellPieces(pieces, rest), built) == Good(built + TextOf(pieces), rest)
  {
    if pieces == [] {
      Head(QUOTE, rest);
      assert built + [] == built;
    } else {
      var t := SpellPieces(pieces[1..], rest);
      PieceRead(pieces[0], t, built);
      PiecesRead(pieces[1..], rest, built + PieceValue(pieces[0]));
      Sequences.Regroup(built, PieceValue(pieces[0]), TextOf(pieces[1..]));
    }
  }

  lemma {:induction false} QuotedRead(pre: Text, pieces: seq<Piece>, rest: Text)
    requires AllBlank(pre) && LegalPieces(pieces, rest)
    ensures ParseString(pre + ([QUOTE] + SpellPieces(pieces, rest))) == Good(TextOf(pieces), rest)
  {
    BlanksGo(pre, [QUOTE] + SpellPieces(pieces, rest));
    Head(QUOTE, SpellPieces(pieces, rest));
    PiecesRead(pieces, rest, []);
    assert [] + TextOf(pieces) == TextOf(pieces);
  }

  lemma {:induction false} SeparatorRead(post: Text, c: Unit, rest: Text, close: Unit)
    requires AllBlank(post) && (c == close || c == COMMA) && (close == RBRACKET || close == RBRACE)
    ensures NextSeparator(post + ([c] + rest), close) == if c == close then Separator.Closed(rest) else More(rest)
  {
    BlanksGo(post, [c] + rest);
    Head(c, rest);
  }

  lemma {:induction false} TokenRead(token: Text, rest: Text, isDouble: Text -> bool)
    requires LegalToken(token, rest, isDouble)
    ensures ParseNumber(token + rest, isDouble) == Good(Meaning(Token([], token)), rest)
    ensures token != []
  {
    TokenIsMaximal(token, rest);
    assert (token + rest)[|token|..] == rest;
    assert !HasMark([]) && ParseLong([]) == None;
  }

  /** How a value starts. */
  lemma {:induction false} CoreStart(t: Tree, rest: Text, isDouble: Text -> bool)
    requires Legal(t, rest, isDouble) && !t.Missing?
    ensures var core := Core(t, rest);
      core != [] && !Blank(core[0]) && core[0] !in {RBRACKET, RBRACE, COMMA, COLON} &&
      SkipBlanks(Spell(t, rest)) == core
  {
    if t.Token? {
      TokenRead(t.token, rest, isDouble);
    }
    BlanksGo(t.pre, Core(t, rest));
  }

  lemma {:induction false} NWordRead(word: Text, rest: Text, isDouble: Text -> bool)
    requires 0 < |word| <= 4 && word[0] == LOWER_N && (|word| < 4 ==> rest == [])
    ensures ParseValue(word + rest, isDouble) == Good(Null, rest)
  {
    assert (word + rest)[|word|..] == rest;
  }

  lemma {:induction false} TruthRead(b: bool, rest: Text, isDouble: Text -> bool)
    ensures ParseValue(Word(b) + rest, isDouble) == Good(Bool(b), rest)
  {
    var t := Word(b) + rest;
    assert t[|Word(b)|..] == rest && t[..|Word(b)|] == Word(b) && t[0] == Word(b)[0];
  }

  lemma {:induction false} TokenValue(token: Text, rest: Text, isDouble: Text -> bool)
    requires LegalToken(token, rest, isDouble)
    ensures ParseValue(token + rest, isDouble) == Good(Meaning(Token([], token)), rest)
  {
    TokenRead(token, rest, isDouble);
    JsonRoundTrip.StartsNumber(token + rest, isDouble);
  }

  lemma {:induction false} QuotedValue(pieces: seq<Piece>, rest: Text, isDouble: Text -> bool)
    requires LegalPieces(pieces, rest)
    ensures ParseValue([QUOTE] + SpellPieces(pieces, rest), isDouble) == Good(Str(TextOf(pieces)), rest)
  {
    QuotedRead([], pieces, rest);
    assert [] + ([QUOTE] + SpellPieces(pieces, rest)) == [QUOTE] + SpellPieces(pieces, rest);
  }

  lemma {:induction false} LeafRead(t: Tree, rest: Text, isDouble: Text -> bool)
    requires Legal(t, rest, isDouble) && (t.NWord? || t.Truth? || t.Token? || t.Quote?)
    ensures ParseValue(Core(t, rest), isDouble) == Good(Meaning(t), rest)
  {
    match t
    case NWord(_, word) => NWordRead(word, rest, isDouble);
    case Truth(_, b) => TruthRead(b, rest, isDouble);
    case Token(_, token) => TokenValue(token, rest, isDouble);
    case Quote(_, pieces) => QuotedValue(pieces, rest, isDouble);
  }

  lemma {:induction false} HollowRead(t: Tree, rest: Text, isDouble: Text -> bool)
    requires Legal(t, rest, isDouble) && t.Hollow?
    ensures ParseValue(Core(t, rest), isDouble) == Good(Meaning(t), rest)
  {
    var close := [Close(t.braces)] + rest;
    Head(Open(t.braces), t.gap + close);
    BlanksGo(t.gap, close);
    Head(Close(t.braces), rest);
  }

  lemma {:induction false} LoopsSkipBlanks(t: Text, items: seq<Json>, entries: seq<Entry>, isDouble: Text -> bool)
    requires SkipBlanks(t) != []
    ensures ArrayLoop(SkipBlanks(t), items, isDouble) == ArrayLoop(t, items, isDouble)
    ensures ObjectLoop(SkipBlanks(t), entries, isDouble) == ObjectLoop(t, entries, isDouble)
  {
    BlanksFirst(t, isDouble);
    assert SkipBlanks(SkipBlanks(t)) == SkipBlanks(t);
  }

  /** An opening bracket or brace in front of something. */
  lemma {:induction false} OpenRead(braces: bool, inner: Text, isDouble: Text -> bool)
    requires SkipBlanks(inner) != [] && SkipBlanks(inner)[0] != Close(braces)
    ensures ParseValue([Open(braces)] + inner, isDouble) ==
            if braces then ObjectLoop(inner, [], isDouble) else ArrayLoop(inner, [], isDouble)
  {
    Head(Open(braces), inner);
    LoopsSkipBlanks(inner, [], [], isDouble);
  }

  /** Main result, one way: a legal tree is read as a whole, with its meaning. */
  lemma {:induction false} TreeRead(t: Tree, rest: Text, isDouble: Text -> bool)
    requires Legal(t, rest, isDouble)
    ensures ParseValue(Spell(t, rest), isDouble) == Good(Meaning(t), rest)
    decreases t, 0
  {
    BlanksGo(t.pre, Core(t, rest));
    BlanksFirst(Spell(t, rest), isDouble);
    BlanksFirst(Core(t, rest), isDouble);
    match t
    case Missing(_) =>
    case Hollow(_, _, _) => HollowRead(t, rest, isDouble);
    case List(_, items) =>
      ItemsStart(items, rest, isDouble);
      LegalItemsRead(items, [], rest, isDouble);
      OpenRead(false, SpellItems(items, rest), isDouble);
    case Table(_, fields) =>
      FieldsStart(fields, rest, isDouble);
      LegalFieldsRead(fields, [], rest, isDouble);
      OpenRead(true, SpellFields(fields, rest), isDouble);
    case _ => LeafRead(t, rest, isDouble);
  }

  lemma {:induction false} ItemsStart(items: seq<Item>, rest: Text, isDouble: Text -> bool)
    requires items != [] && LegalItems(items, rest, isDouble)
    ensures var start := SkipBlanks(SpellItems(items, rest)); start != [] && start[0] != RBRACKET
  {
    CoreStart(items[0].tree, items[0].post + AfterItem(items, rest), isDouble);
  }

  lemma {:induction false} FieldsStart(fields: seq<Field>, rest: Text, isDouble: Text -> bool)
    requires fields != [] && LegalFields(fields, rest, isDouble)
    ensures var start := SkipBlanks(SpellFields(fields, rest)); start != [] && start[0] == QUOTE
  {
    var f := fields[0];
    var after := [QUOTE] + SpellPieces(f.key, f.mid + ([COLON] + Spell(f.tree, f.post + AfterField(fields, rest))));
    BlanksGo(f.pre, after);
  }

  lemma {:induction false} LegalItemsRead(items: seq<Item>, before: seq<Json>, rest: Text, isDouble: Text -> bool)
    requires items != [] && LegalItems(items, rest, isDouble)
    ensures ArrayLoop(SpellItems(items, rest), before, isDouble) == Good(Arr(Meanings(before, items)), rest)
    decreases items, 1
  {
    var item, after := items[0], AfterItem(items, rest);
    ItemsStart(items, rest, isDouble);
    TreeRead(item.tree, item.post + after, isDouble);
    if |items| == 1 {
      SeparatorRead(item.post, RBRACKET, rest, RBRACKET);
    } else {
      SeparatorRead(item.post, COMMA, SpellItems(items[1..], rest), RBRACKET);
      LegalItemsRead(items[1..], before + [Meaning(item.tree)], rest, isDouble);
    }
  }

  lemma {:induction false} LegalFieldRead(f: Field, after: Text, isDouble: Text -> bool)
    requires LegalField(f, after, isDouble)
    ensures ParseEntry(SpellField(f, after), isDouble) == Good(Entry(TextOf(f.key), Meaning(f.tree)), f.post + after)
    decreases f, 1
  {
    var value := Spell(f.tree, f.post + after);
    QuotedRead(f.pre, f.key, f.mid + ([COLON] + value));
    BlanksGo(f.mid, [COLON] + value);
    Head(COLON, value);
    TreeRead(f.tree, f.post + after, isDouble);
  }

  lemma {:induction false} LegalFieldsRead(fields: seq<Field>, before: seq<Entry>, rest: Text, isDouble: Text -> bool)
    requires fields != [] && LegalFields(fields, rest, isDouble)
    ensures ObjectLoop(SpellFields(fields, rest), before, isDouble) == Good(Obj(Entries(before, fields)), rest)
    decreases fields, 1
  {
    var f, after := fields[0], AfterField(fields, rest);
    FieldsStart(fields, rest, isDouble);
    LegalFieldRead(f, after, isDouble);
    if |fields| == 1 {
      SeparatorRead(f.post, RBRACE, rest, RBRACE);
    } else {
      SeparatorRead(f.post, COMMA, SpellFields(fields[1..], rest), RBRACE);
      LegalFieldsRead(fields[1..], Put(before, TextOf(f.key), Meaning(f.tree)), rest, isDouble);
    }
  }

  // ---- Whatever is read was the text of a legal tree ----

  /** The blanks in front of a text. */
  function Lead(t: Text): Text {
    if t != [] && Blank(t[0]) then [t[0]] + Lead(t[1..]) else []
  }

  lemma {:induction false} LeadSplits(t: Text)
    ensures AllBlank(Lead(t)) && t == Lead(t) + SkipBlanks(t)
  {
    if t != [] && Blank(t[0]) {
      LeadSplits(t[1..]);
      HeadSplits(t);
      Sequences.Regroup([t[0]], Lead(t[1..]), SkipBlanks(t[1..]));
    }
  }

  lemma HeadSplits(t: Text)
    requires t != []
    ensures t == [t[0]] + t[1..]
  {
  }

  /** The first piece of the rest of a string, and what is left of it. */
  lemma {:induction false} FirstPiece(t: Text, built: Text) returns (p: Piece, next: Text)
    requires t != [] && t[0] != QUOTE && StringLoop(t, built).Good?
    ensures |next| < |t| && t == SpellPiece(p, next)
    ensures StringLoop(t, built) == StringLoop(next, built + PieceValue(p))
    ensures match p
      case Plain(c) => c != QUOTE && c != BACKSLASH
      case Escaped(c) => c != LOWER_U
      case Hex(digits) => |digits| == 4 && HexUnit(digits).Some?
      case Cut => |next| < 4
  {
    if t[0] != BACKSLASH {
      p, next := Plain(t[0]), t[1..];
      HeadSplits(t);
    } else if t[1] != LOWER_U {
      p, next := Escaped(t[1]), t[2..];
      assert t == [t[0], t[1]] + t[2..];
    } else if |t| < 6 {
      p, next := Cut, t[2..];
      assert t == [t[0], t[1]] + t[2..];
      assert built + [] == built;
    } else {
      p, next := Hex(t[2..6]), t[6..];
      assert t == [t[0], t[1]] + (t[2..6] + t[6..]);
    }
  }

  lemma {:induction false} PiecesOf(t: Text, built: Text) returns (pieces: seq<Piece>)
    requires StringLoop(t, built).Good?
    ensures var r := StringLoop(t, built);
      LegalPieces(pieces, r.rest) && t == SpellPieces(pieces, r.rest) && r.value == built + TextOf(pieces)
    decreases |t|
  {
    if t[0] == QUOTE {
      pieces := [];
      HeadSplits(t);
      assert built + [] == built;
    } else {
      var p, next := FirstPiece(t, built);
      var tail := PiecesOf(next, built + PieceValue(p));
      pieces := [p] + tail;
      assert pieces[1..] == tail;
      Sequences.Regroup(built, PieceValue(p), TextOf(tail));
    }
  }

  lemma {:induction false} QuotedOf(t: Text) returns (pre: Text, pieces: seq<Piece>)
    requires ParseString(t).Good?
    ensures var r := ParseString(t);
      AllBlank(pre) && LegalPieces(pieces, r.rest) && t == pre + ([QUOTE] + SpellPieces(pieces, r.rest)) &&
      r.value == TextOf(pieces)
  {
    pre := Lead(t);
    LeadSplits(t);
    HeadSplits(SkipBlanks(t));
    pieces := PiecesOf(SkipBlanks(t)[1..], []);
    assert [] + TextOf(pieces) == TextOf(pieces);
  }

  lemma {:induction false} TokenSplits(t: Text)
    ensures var token := NumberToken(t); AllNumberUnits(token) && t == token + t[|token|..] && Ends(t[|token|..])
  {
    if t != [] && NumberUnit(t[0]) {
      TokenSplits(t[1..]);
      assert t[1..][|NumberToken(t[1..])|..] == t[|NumberToken(t)|..];
    }
  }

  lemma {:induction false} TokenOf(t: Text, isDouble: Text -> bool) returns (token: Text)
    requires ParseNumber(t, isDouble).Good?
    ensures var r := ParseNumber(t, isDouble);
      LegalToken(token, r.rest, isDouble) && t == token + r.rest && r.value == Meaning(Token([], token))
  {
    token := NumberToken(t);
    TokenSplits(t);
  }

  lemma {:induction false} LeafOf(t: Text, isDouble: Text -> bool) returns (tree: Tree)
    requires t != [] && !Blank(t[0]) && t[0] != LBRACE && t[0] != LBRACKET
    requires ParseValue(t, isDouble).Good?
    ensures var r := ParseValue(t, isDouble);
      tree.pre == [] && Legal(tree, r.rest, isDouble) && t == Core(tree, r.rest) && r.value == Meaning(tree)
  {
    if t[0] == QUOTE {
      var pre, pieces := QuotedOf(t);
      tree := Quote([], pieces);
      LeadIsEmpty(pre, t, [QUOTE] + SpellPieces(pieces, ParseString(t).rest));
    } else if t[0] == LOWER_T || t[0] == LOWER_F {
      tree := Truth([], TRUE_TEXT <= t);
      assert t == Word(tree.b) + t[|Word(tree.b)|..];
    } else if t[0] == LOWER_N {
      tree := NWord([], if |t| < 4 then t else t[..4]);
      assert t == tree.word + Drop(t, 4);
    } else {
      var token := TokenOf(t, isDouble);
      tree := Token([], token);
    }
  }

  lemma LeadIsEmpty(pre: Text, t: Text, rest: Text)
    requires AllBlank(pre) && t == pre + rest && t != [] && !Blank(t[0])
    ensures pre == [] && t == rest
  {
  }

  /** Blanks in front of a tree that has none of its own. */
  function WithBlanks(pre: Text, tree: Tree): Tree {
    match tree
    case Missing(_) => Missing(pre)
    case NWord(_, word) => NWord(pre, word)
    case Truth(_, b) => Truth(pre, b)
    case Token(_, token) => Token(pre, token)
    case Quote(_, pieces) => Quote(pre, pieces)
    case Hollow(_, braces, gap) => Hollow(pre, braces, gap)
    case List(_, items) => List(pre, items)
    case Table(_, fields) => Table(pre, fields)
  }

  lemma {:induction false} MoreBlanks(pre: Text, tree: Tree, rest: Text, isDouble: Text -> bool)
    requires AllBlank(pre) && Legal(tree, rest, isDouble)
    ensures var tree' := WithBlanks(pre, tree);
      Legal(tree', rest, isDouble) && Spell(tree', rest) == pre + Core(tree, rest) && Meaning(tree') == Meaning(tree)
  {
  }

  /** An empty array or object. */
  lemma {:induction false} HollowOf(t: Text, braces: bool) returns (tree: Tree)
    requires t != [] && t[0] == Open(braces)
    requires var inner := SkipBlanks(t[1..]); inner != [] && inner[0] == Close(braces)
    ensures tree.Hollow? && tree.pre == [] && tree.braces == braces && AllBlank(tree.gap)
    ensures t == Core(tree, SkipBlanks(t[1..])[1..])
  {
    var inner := SkipBlanks(t[1..]);
    tree := Hollow([], braces, Lead(t[1..]));
    LeadSplits(t[1..]);
    HeadSplits(t);
    HeadSplits(inner);
  }

  lemma {:induction false} SeparatorOf(t: Text, close: Unit) returns (post: Text)
    requires !NextSeparator(t, close).Broken?
    ensures var s := NextSeparator(t, close);
      AllBlank(post) && t == post + ([if s.Closed? then close else COMMA] + s.rest)
  {
    post := Lead(t);
    LeadSplits(t);
    HeadSplits(SkipBlanks(t));
  }

  /** Main result, the other way: what is read was the text of a legal tree with that meaning. */
  lemma {:induction false} TreeOf(t: Text, isDouble: Text -> bool) returns (tree: Tree)
    requires ParseValue(t, isDouble).Good?
    ensures var r := ParseValue(t, isDouble);
      Legal(tree, r.rest, isDouble) && t == Spell(tree, r.rest) && r.value == Meaning(tree)
    decreases |t|, 1
  {
    var core, pre := SkipBlanks(t), Lead(t);
    LeadSplits(t);
    BlanksFirst(t, isDouble);
    if core == [] {
      tree := Missing([]);
    } else if core[0] == LBRACE || core[0] == LBRACKET {
      tree := BracketOf(core, isDouble);
    } else {
      tree := LeafOf(core, isDouble);
    }
    MoreBlanks(pre, tree, ParseValue(t, isDouble).rest, isDouble);
    tree := WithBlanks(pre, tree);
  }

  lemma {:induction false} NothingInside(t: Text, isDouble: Text -> bool)
    requires t != [] && (t[0] == LBRACE || t[0] == LBRACKET)
    ensures SkipBlanks(t[1..]) == [] ==> ParseValue(t, isDouble) == Bad
  {
    assert ObjectLoop([], [], isDouble) == Bad && ArrayLoop([], [], isDouble) == Bad;
  }

  lemma {:induction false} BracketOf(t: Text, isDouble: Text -> bool) returns (tree: Tree)
    requires t != [] && (t[0] == LBRACE || t[0] == LBRACKET) && ParseValue(t, isDouble).Good?
    ensures var r := ParseValue(t, isDouble);
      tree.pre == [] && Legal(tree, r.rest, isDouble) && t == Core(tree, r.rest) && r.value == Meaning(tree)
    decreases |t|, 0
  {
    var braces := t[0] == LBRACE;
    var inner := SkipBlanks(t[1..]);
    HeadSplits(t);
    NothingInside(t, isDouble);
    if inner[0] == Close(braces) {
      tree := HollowOf(t, braces);
    } else if braces {
      LoopsSkipBlanks(t[1..], [], [], isDouble);
      var fields := FieldsOf(t[1..], [], isDouble);
      tree := Table([], fields);
    } else {
      LoopsSkipBlanks(t[1..], [], [], isDouble);
      var items := ItemsOf(t[1..], [], isDouble);
      tree := List([], items);
    }
  }

  lemma {:induction false} ItemsOf(t: Text, before: seq<Json>, isDouble: Text -> bool) returns (items: seq<Item>)
    requires ArrayLoop(t, before, isDouble).Good?
    ensures var r := ArrayLoop(t, before, isDouble);
      items != [] && LegalItems(items, r.rest, isDouble) && t == SpellItems(items, r.rest) &&
      r.value == Arr(Meanings(before, items))
    decreases |t|, 2
  {
    var value, after := ParseValue(t, isDouble).value, ParseValue(t, isDouble).rest;
    var rest := ArrayLoop(t, before, isDouble).rest;
    var tree := TreeOf(t, isDouble);
    var post := SeparatorOf(after, RBRACKET);
    var tail: seq<Item> := [];
    if NextSeparator(after, RBRACKET).More? {
      tail := ItemsOf(NextSeparator(after, RBRACKET).rest, before + [value], isDouble);
    }
    items := [Item(tree, post)] + tail;
    assert items[1..] == tail;
    assert after == post + AfterItem(items, rest);
  }

  lemma {:induction false} FieldOf(t: Text, isDouble: Text -> bool, post: Text, after: Text) returns (f: Field)
    requires ParseEntry(t, isDouble).Good? && ParseEntry(t, isDouble).rest == post + after && AllBlank(post)
    ensures LegalField(f, after, isDouble) && t == SpellField(f, after) && f.post == post
    ensures ParseEntry(t, isDouble).value == Entry(TextOf(f.key), Meaning(f.tree))
    decreases |t|, 1
  {
    var afterKey := ParseString(t).rest;
    var value := Expect(afterKey, COLON).value;
    var pre, key := QuotedOf(t);
    var mid := Lead(afterKey);
    LeadSplits(afterKey);
    HeadSplits(SkipBlanks(afterKey));
    var tree := TreeOf(value, isDouble);
    f := Field(pre, key, mid, tree, post);
  }

  lemma {:induction false} FieldsOf(t: Text, before: seq<Entry>, isDouble: Text -> bool) returns (fields: seq<Field>)
    requires ObjectLoop(t, before, isDouble).Good?
    ensures var r := ObjectLoop(t, before, isDouble);
      fields != [] && LegalFields(fields, r.rest, isDouble) && t == SpellFields(fields, r.rest) &&
      r.value == Obj(Entries(before, fields))
    decreases |t|, 2
  {
    var e, after := ParseEntry(t, isDouble).value, ParseEntry(t, isDouble).rest;
    var rest := ObjectLoop(t, before, isDouble).rest;
    var post := SeparatorOf(after, RBRACE);
    var tail: seq<Field> := [];
    if NextSeparator(after, RBRACE).More? {
      tail := FieldsOf(NextSeparator(after, RBRACE).rest, Put(before, e.key, e.value), isDouble);
    }
    var next := if tail == [] then [RBRACE] + rest else [COMMA] + SpellFields(tail, rest);
    var f := FieldOf(t, isDouble, post, next);
    fields := [f] + tail;
    assert fields[1..] == tail;
    assert next == AfterField(fields, rest);
  }

  // ---- The language ----

  /** The trimmed text is a legal tree, and anything after it. */
  ghost predicate Reads(json: Text, tree: Tree, rest: Text, isDouble: Text -> bool) {
    Legal(tree, rest, isDouble) && Trim(json) == Spell(tree, rest)
  }

  /** Main result: `parse` takes exactly the texts that are, once trimmed, a legal tree with anything after
      it, and gives the meaning of that tree. */
  lemma ParseExactly(json: Text, isDouble: Text -> bool)
    ensures Parse(json, isDouble).Some? <==> exists tree, rest :: Reads(json, tree, rest, isDouble)
    ensures forall tree, rest :: Reads(json, tree, rest, isDouble) ==> Parse(json, isDouble) == Some(Meaning(tree))
  {
    forall tree, rest | Reads(json, tree, rest, isDouble) ensures Parse(json, isDouble) == Some(Meaning(tree)) {
      TreeRead(tree, rest, isDouble);
    }
    if Parse(json, isDouble).Some? {
      var tree := TreeOf(Trim(json), isDouble);
      assert Reads(json, tree, ParseValue(Trim(json), isDouble).rest, isDouble);
    }
  }
}
