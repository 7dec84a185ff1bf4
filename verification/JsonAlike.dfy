/** Texts that UTF-8 does not tell apart are alike to RFC 8259: whether bytes are JSON does not depend on the
    text that they were made from (internal/web/payload_codec.go). */
module JsonAlike {
  import opened MiniJson
  import opened StrictJson
  import Utf8

  const MARK: Unit := 0x3F

  /** Units that mean nothing to the grammar: legal in strings and nowhere else. */
  predicate Inert(c: Unit) {
    c == MARK || Utf8.High(c) || Utf8.Low(c)
  }

  /** The same but for inert units. */
  predicate Alike(t: Text, u: Text) {
    |t| == |u| && forall i :: 0 <= i < |t| ==> t[i] == u[i] || (Inert(t[i]) && Inert(u[i]))
  }

  /** Both readers go on alike, or neither goes on. */
  predicate AlikeAfter<T>(a: Parsed<T>, b: Parsed<T>) {
    a.Good? == b.Good? && (a.Good? ==> Alike(a.rest, b.rest))
  }

  lemma AlikeFrom(t: Text, u: Text, n: nat)
    requires Alike(t, u) && n <= |t|
    ensures Alike(t[n..], u[n..])
  {
  }

  lemma {:induction false} AlikeBlanks(t: Text, u: Text)
    requires Alike(t, u)
    ensures Alike(SkipBlanks(t), SkipBlanks(u))
  {
    if t != [] && Blank(t[0]) {
      AlikeFrom(t, u, 1);
      AlikeBlanks(t[1..], u[1..]);
    }
  }

  lemma {:induction false} AlikeTrailing(t: Text, u: Text)
    requires Alike(t, u)
    ensures Alike(DropBlanks(t), DropBlanks(u))
  {
    if t != [] && Blank(t[|t| - 1]) {
      AlikeTrailing(t[..|t| - 1], u[..|u| - 1]);
    }
  }

  lemma {:induction false} AlikeExpect(t: Text, u: Text, c: Unit)
    requires Alike(t, u) && !Inert(c)
    ensures Expect(t, c).Some? == Expect(u, c).Some?
    ensures Expect(t, c).Some? ==> Alike(Expect(t, c).value, Expect(u, c).value)
  {
    AlikeBlanks(t, u);
  }

  lemma {:induction false} AlikeSeparator(t: Text, u: Text, close: Unit)
    requires Alike(t, u) && !Inert(close)
    ensures var a, b := NextSeparator(t, close), NextSeparator(u, close);
      a.Closed? == b.Closed? && a.More? == b.More? && (!a.Broken? ==> Alike(a.rest, b.rest))
  {
    AlikeBlanks(t, u);
    AlikeExpect(t, u, COMMA);
  }

  // ---- Numbers ----

  lemma {:induction false} AlikeRun(t: Text, u: Text)
    requires Alike(t, u)
    ensures DigitRun(t) == DigitRun(u) && Alike(AfterDigits(t), AfterDigits(u))
  {
    if t != [] && Digit(t[0]) {
      AlikeFrom(t, u, 1);
      AlikeRun(t[1..], u[1..]);
    }
  }

  lemma {:induction false} AlikeWhole(t: Text, u: Text)
    requires Alike(t, u)
    ensures AlikeAfter(Whole(t), Whole(u))
  {
    if t != [] {
      AlikeFrom(t, u, 1);
      AlikeRun(t[1..], u[1..]);
    }
  }

  lemma {:induction false} AlikeBehind(mark: Text, t: Text, u: Text)
    requires Alike(t, u)
    ensures AlikeAfter(DigitsBehind(mark, t), DigitsBehind(mark, u))
  {
    AlikeRun(t, u);
  }

  lemma {:induction false} AlikeFraction(t: Text, u: Text)
    requires Alike(t, u)
    ensures AlikeAfter(Fraction(t), Fraction(u))
  {
    if t != [] {
      AlikeFrom(t, u, 1);
      AlikeBehind([DOT], t[1..], u[1..]);
    }
  }

  lemma {:induction false} AlikeExponent(t: Text, u: Text)
    requires Alike(t, u)
    ensures AlikeAfter(Exponent(t), Exponent(u))
  {
    if t != [] && (t[0] == LOWER_E || t[0] == UPPER_E) {
      AlikeFrom(t, u, 1);
      AlikeBehind([t[0]], t[1..], u[1..]);
      if |t| > 1 {
        AlikeFrom(t, u, 2);
        AlikeBehind([t[0], t[1]], t[2..], u[2..]);
      }
    }
  }

  lemma {:induction false} AlikeUnsigned(t: Text, u: Text)
    requires Alike(t, u)
    ensures AlikeAfter(Unsigned(t), Unsigned(u))
  {
    AlikeWhole(t, u);
    if Whole(t).Good? {
      var t1, u1 := Whole(t).rest, Whole(u).rest;
      AlikeFraction(t1, u1);
      if Fraction(t1).Good? {
        AlikeExponent(Fraction(t1).rest, Fraction(u1).rest);
      }
    }
  }

  lemma {:induction false} AlikeNumber(t: Text, u: Text)
    requires Alike(t, u)
    ensures AlikeAfter(StrictNumber(t), StrictNumber(u))
  {
    if t != [] && t[0] == MINUS {
      AlikeFrom(t, u, 1);
      AlikeUnsigned(t[1..], u[1..]);
    } else {
      AlikeUnsigned(t, u);
    }
  }

  // ---- Strings and words ----

  lemma AlikeHex(s: Text, v: Text)
    requires |s| == 4 && Alike(s, v)
    ensures FourDigits(s).Some? == FourDigits(v).Some?
  {
  }

  lemma {:induction false} AlikeChars(t: Text, u: Text, builtT: Text, builtU: Text)
    requires Alike(t, u)
    ensures AlikeAfter(StrictChars(t, builtT), StrictChars(u, builtU))
    decreases |t|
  {
    if t == [] || t[0] == QUOTE || t[0] < SPACE {
      if t != [] {
        AlikeFrom(t, u, 1);
      }
    } else if t[0] != BACKSLASH {
      AlikeFrom(t, u, 1);
      AlikeChars(t[1..], u[1..], builtT + [t[0]], builtU + [u[0]]);
    } else if |t| > 1 && NamedEscape(t[1]) {
      AlikeFrom(t, u, 2);
      AlikeChars(t[2..], u[2..], builtT + [ESCAPES[t[1]]], builtU + [ESCAPES[u[1]]]);
    } else if |t| >= 6 && t[1] == LOWER_U {
      AlikeHex(t[2..6], u[2..6]);
      if FourDigits(t[2..6]).Some? {
        AlikeFrom(t, u, 6);
        AlikeChars(t[6..], u[6..], builtT + [FourDigits(t[2..6]).value], builtU + [FourDigits(u[2..6]).value]);
      }
    }
  }

  lemma {:induction false} AlikeString(t: Text, u: Text)
    requires Alike(t, u)
    ensures AlikeAfter(StrictString(t), StrictString(u))
  {
    AlikeExpect(t, u, QUOTE);
    if Expect(t, QUOTE).Some? {
      AlikeChars(Expect(t, QUOTE).value, Expect(u, QUOTE).value, [], []);
    }
  }

  lemma AlikePrefix(word: Text, t: Text, u: Text)
    requires Alike(t, u) && word <= t && forall i :: 0 <= i < |word| ==> !Inert(word[i])
    ensures word <= u
  {
    assert forall i :: 0 <= i < |word| ==> t[i] == word[i];
  }

  lemma AlikeSymmetric(t: Text, u: Text)
    requires Alike(t, u)
    ensures Alike(u, t)
  {
  }

  lemma {:induction false} AlikeWord(t: Text, u: Text, word: Text)
    requires Alike(t, u) && word in {NULL_TEXT, TRUE_TEXT, FALSE_TEXT}
    ensures word <= t <==> word <= u
  {
    AlikeSymmetric(t, u);
    if word <= t {
      AlikePrefix(word, t, u);
    }
    if word <= u {
      AlikePrefix(word, u, t);
    }
  }

  lemma {:induction false} AlikeWords(t: Text, u: Text)
    requires Alike(t, u)
    ensures AlikeAfter(StrictWord(t), StrictWord(u))
  {
    AlikeWord(t, u, NULL_TEXT);
    AlikeWord(t, u, TRUE_TEXT);
    AlikeWord(t, u, FALSE_TEXT);
    if |t| >= 4 {
      AlikeFrom(t, u, 4);
    }
    if |t| >= 5 {
      AlikeFrom(t, u, 5);
    }
  }

  // ---- Values ----

  lemma {:induction false} AlikeValue(t: Text, u: Text)
    requires Alike(t, u)
    ensures AlikeAfter(StrictValue(t), StrictValue(u))
    decreases |t|, 1
  {
    var s, v := SkipBlanks(t), SkipBlanks(u);
    AlikeBlanks(t, u);
    if s != [] && s[0] in {LBRACE, LBRACKET} {
      AlikeFrom(s, v, 1);
      AlikeBlanks(s[1..], v[1..]);
      var inner, innerU := SkipBlanks(s[1..]), SkipBlanks(v[1..]);
      if s[0] == LBRACE {
        AlikeMembers(inner, innerU, [], []);
      } else {
        AlikeItems(inner, innerU, [], []);
      }
    } else if s != [] && s[0] == QUOTE {
      AlikeString(s, v);
    } else if s != [] && s[0] in {LOWER_N, LOWER_T, LOWER_F} {
      AlikeWords(s, v);
    } else {
      AlikeNumber(s, v);
    }
  }

  lemma {:induction false} AlikeItems(t: Text, u: Text, itemsT: seq<Json>, itemsU: seq<Json>)
    requires Alike(t, u)
    ensures AlikeAfter(StrictItems(t, itemsT), StrictItems(u, itemsU))
    decreases |t|, 3
  {
    AlikeValue(t, u);
    if StrictValue(t).Good? {
      var t1, u1 := StrictValue(t).rest, StrictValue(u).rest;
      AlikeSeparator(t1, u1, RBRACKET);
      if NextSeparator(t1, RBRACKET).More? {
        AlikeItems(NextSeparator(t1, RBRACKET).rest, NextSeparator(u1, RBRACKET).rest,
                   itemsT + [StrictValue(t).value], itemsU + [StrictValue(u).value]);
      }
    }
  }

  lemma {:induction false} AlikeMember(t: Text, u: Text)
    requires Alike(t, u)
    ensures AlikeAfter(StrictMember(t), StrictMember(u))
    decreases |t|, 2
  {
    AlikeString(t, u);
    if StrictString(t).Good? {
      var t1, u1 := StrictString(t).rest, StrictString(u).rest;
      AlikeExpect(t1, u1, COLON);
      if Expect(t1, COLON).Some? {
        AlikeValue(Expect(t1, COLON).value, Expect(u1, COLON).value);
      }
    }
  }

  lemma {:induction false} AlikeMembers(t: Text, u: Text, entriesT: seq<Entry>, entriesU: seq<Entry>)
    requires Alike(t, u)
    ensures AlikeAfter(StrictMembers(t, entriesT), StrictMembers(u, entriesU))
    decreases |t|, 3
  {
    AlikeMember(t, u);
    if StrictMember(t).Good? {
      var t1, u1 := StrictMember(t).rest, StrictMember(u).rest;
      AlikeSeparator(t1, u1, RBRACE);
      if NextSeparator(t1, RBRACE).More? {
        AlikeMembers(NextSeparator(t1, RBRACE).rest, NextSeparator(u1, RBRACE).rest,
                     entriesT + [StrictMember(t).value], entriesU + [StrictMember(u).value]);
      }
    }
  }

  // ---- Main results ----

  lemma {:induction false} WellFormedIsAlike(t: Text)
    ensures Alike(t, Utf8.WellFormed(t))
  {
    if t != [] {
      if Utf8.High(t[0]) && |t| > 1 && Utf8.Low(t[1]) {
        WellFormedIsAlike(t[2..]);
      } else {
        WellFormedIsAlike(t[1..]);
      }
    }
  }

  lemma {:induction false} AlikeIsJson(t: Text, u: Text)
    requires Alike(t, u)
    ensures IsJson(t) <==> IsJson(u)
  {
    AlikeBlanks(t, u);
    AlikeTrailing(SkipBlanks(t), SkipBlanks(u));
    AlikeValue(DropBlanks(SkipBlanks(t)), DropBlanks(SkipBlanks(u)));
  }

  /** Main result: whether a text is JSON can be told from its UTF-8 bytes, by decoding them. */
  lemma {:induction false} BytesDecide(t: Text)
    ensures IsJson(Utf8.Decode(Utf8.Encode(t))) <==> IsJson(t)
  {
    Utf8.DecodeUndoesEncode(t);
    WellFormedIsAlike(t);
    AlikeIsJson(t, Utf8.WellFormed(t));
  }

  /** So texts with the same bytes are JSON together. */
  lemma {:induction false} SameBytesSameAnswer(t: Text, u: Text)
    requires Utf8.Encode(t) == Utf8.Encode(u)
    ensures IsJson(t) <==> IsJson(u)
  {
    BytesDecide(t);
    BytesDecide(u);
  }
}
