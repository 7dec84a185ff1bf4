/** Numbers as RFC 8259 spells them and as the client's parser reads them
    (clients/java/src/com/r0rpc/client/MiniJson.java). */
module JsonNumbers {
  import opened MiniJson
  import Sequences
  import opened StrictJson
  import opened Wrappers

  predicate InLong(n: int) {
    MIN_LONG <= n <= MAX_LONG
  }

  /** What may follow a number. */
  predicate Ends(post: Text) {
    post == [] || !NumberUnit(post[0])
  }

  predicate AllNumberUnits(s: Text) {
    forall i :: 0 <= i < |s| ==> NumberUnit(s[i])
  }

  lemma {:induction false} TokenIsMaximal(token: Text, post: Text)
    requires AllNumberUnits(token) && Ends(post)
    ensures NumberToken(token + post) == token
  {
    if token == [] {
      assert token + post == post;
    } else {
      assert (token + post)[1..] == token[1..] + post;
      TokenIsMaximal(token[1..], post);
    }
  }

  // ---- What a number consists of ----

  predicate HasMark(token: Text) {
    DOT in token || LOWER_E in token || UPPER_E in token
  }

  lemma DigitsAreUnits(digits: Text)
    requires AllDigits(digits)
    ensures AllNumberUnits(digits) && !HasMark(digits)
  {
  }

  lemma MarksOfConcat(a: Text, b: Text)
    ensures HasMark(a + b) <==> HasMark(a) || HasMark(b)
    ensures AllNumberUnits(a + b) <==> AllNumberUnits(a) && AllNumberUnits(b)
  {
    assert forall i :: 0 <= i < |a| ==> (a + b)[i] == a[i];
    assert forall i :: 0 <= i < |b| ==> (a + b)[|a| + i] == b[i];
  }

  lemma {:induction false} RunSplits(t: Text)
    ensures t == DigitRun(t) + AfterDigits(t)
  {
    if t != [] && Digit(t[0]) {
      RunSplits(t[1..]);
      HeadAndTail(t);
      Sequences.Regroup([t[0]], DigitRun(t[1..]), AfterDigits(t[1..]));
    }
  }

  lemma {:induction false} BehindSplits(mark: Text, t: Text)
    requires DigitsBehind(mark, t).Good? && AllNumberUnits(mark)
    ensures var r := DigitsBehind(mark, t); mark + t == r.value + r.rest && AllNumberUnits(r.value) && mark <= r.value
  {
    RunSplits(t);
    DigitsAreUnits(DigitRun(t));
    MarksOfConcat(mark, DigitRun(t));
    Sequences.Regroup(mark, DigitRun(t), AfterDigits(t));
  }

  lemma {:induction false} WholeSplits(t: Text)
    requires Whole(t).Good?
    ensures var r := Whole(t); t == r.value + r.rest && r.value != []
  {
    HeadAndTail(t);
    if t[0] != DIGIT0 {
      RunSplits(t[1..]);
      Sequences.Regroup([t[0]], DigitRun(t[1..]), AfterDigits(t[1..]));
    }
  }

  lemma HeadAndTail(t: Text)
    requires t != []
    ensures t == [t[0]] + t[1..]
  {
  }

  lemma {:induction false} FractionSplits(t: Text)
    requires Fraction(t).Good?
    ensures var r := Fraction(t);
      t == r.value + r.rest && AllNumberUnits(r.value) && (HasMark(r.value) <==> r.value != [])
  {
    if t != [] && t[0] == DOT {
      assert t == [DOT] + t[1..];
      BehindSplits([DOT], t[1..]);
      assert [DOT][0] in [DOT];
      assert Fraction(t).value[0] == DOT;
    } else {
      assert [] + t == t;
    }
  }

  lemma {:induction false} ExponentSplits(t: Text)
    requires Exponent(t).Good?
    ensures var r := Exponent(t);
      t == r.value + r.rest && AllNumberUnits(r.value) && (HasMark(r.value) <==> r.value != [])
  {
    if t == [] || (t[0] != LOWER_E && t[0] != UPPER_E) {
      assert [] + t == t;
    } else if |t| > 1 && (t[1] == PLUS || t[1] == MINUS) {
      assert t == [t[0], t[1]] + t[2..];
      BehindSplits([t[0], t[1]], t[2..]);
      assert Exponent(t).value[0] == t[0];
    } else {
      assert t == [t[0]] + t[1..];
      BehindSplits([t[0]], t[1..]);
      assert Exponent(t).value[0] == t[0];
    }
  }

  function SpellingText(s: Spelling): Text {
    s.whole + s.fraction + s.exponent
  }

  predicate WellSpelled(s: Spelling) {
    s.whole != [] && AllDigits(s.whole) && AllNumberUnits(SpellingText(s)) &&
    (HasMark(SpellingText(s)) <==> s.fraction != [] || s.exponent != [])
  }

  lemma FourPieces(a: Text, b: Text, c: Text, d: Text)
    ensures a + (b + (c + d)) == a + b + c + d
  {
  }

  lemma {:induction false} UnitsOfSpelling(s: Spelling)
    requires s.whole != [] && AllDigits(s.whole) && AllNumberUnits(s.fraction) && AllNumberUnits(s.exponent)
    requires (HasMark(s.fraction) <==> s.fraction != []) && (HasMark(s.exponent) <==> s.exponent != [])
    ensures WellSpelled(s)
  {
    DigitsAreUnits(s.whole);
    MarksOfConcat(s.whole, s.fraction);
    MarksOfConcat(s.whole + s.fraction, s.exponent);
  }

  lemma {:induction false} SpellingSplits(t: Text)
    requires Unsigned(t).Good?
    ensures var r := Unsigned(t); t == SpellingText(r.value) + r.rest && WellSpelled(r.value)
  {
    var t1 := Whole(t).rest;
    var t2 := Fraction(t1).rest;
    WholeSplits(t);
    FractionSplits(t1);
    ExponentSplits(t2);
    FourPieces(Whole(t).value, Fraction(t1).value, Exponent(t2).value, Exponent(t2).rest);
    UnitsOfSpelling(Unsigned(t).value);
  }

  function TokenOf(negative: bool, s: Spelling): Text {
    (if negative then [MINUS] else []) + SpellingText(s)
  }

  lemma {:induction false} ReadsWhole(negative: bool, s: Spelling)
    requires WellSpelled(s) && s.fraction == [] && s.exponent == []
    ensures ParseLong(TokenOf(negative, s)) ==
            var n := NumberOf(negative, s).n; if InLong(n) then Some(n) else None
  {
    var token := TokenOf(negative, s);
    if negative {
      assert token[0] == MINUS && token[1..] == s.whole;
    } else {
      assert token == s.whole;
    }
  }

  /** The whole spelling of a number, as the client's parser splits it off. */
  lemma {:induction false} TokenFacts(negative: bool, s: Spelling)
    requires WellSpelled(s)
    ensures var token, v := TokenOf(negative, s), NumberOf(negative, s);
      && token != [] && AllNumberUnits(token)
      && (v == Dbl(token) || v.Num?) && (HasMark(token) <==> v.Dbl?)
      && (v.Num? ==> ParseLong(token) == if InLong(v.n) then Some(v.n) else None)
  {
    var sign: Text := if negative then [MINUS] else [];
    MarksOfConcat(sign, SpellingText(s));
    FourPieces(sign, s.whole, s.fraction, s.exponent);
    assert s.whole + (s.fraction + s.exponent) == SpellingText(s);
    if s.fraction == [] && s.exponent == [] {
      ReadsWhole(negative, s);
    }
  }

  lemma {:induction false} NumberSplits(t: Text) returns (token: Text)
    requires StrictNumber(t).Good?
    ensures var r := StrictNumber(t);
      && t == token + r.rest && token != [] && AllNumberUnits(token)
      && (r.value == Dbl(token) || r.value.Num?) && (HasMark(token) <==> r.value.Dbl?)
      && (r.value.Num? ==> ParseLong(token) == if InLong(r.value.n) then Some(r.value.n) else None)
  {
    var negative := t[0] == MINUS;
    var unsigned := if negative then t[1..] else t;
    NumberBySign(negative, unsigned);
    assert negative ==> t == [MINUS] + unsigned;
    var s := Unsigned(unsigned).value;
    SpellingSplits(unsigned);
    TokenFacts(negative, s);
    token := TokenOf(negative, s);
    SignInFront(negative, s, StrictNumber(t).rest);
  }

  lemma {:induction false} SignInFront(negative: bool, s: Spelling, rest: Text)
    ensures (if negative then [MINUS] + (SpellingText(s) + rest) else SpellingText(s) + rest) ==
            TokenOf(negative, s) + rest
  {
  }

  lemma {:induction false} NumberBySign(negative: bool, unsigned: Text)
    requires !negative ==> unsigned == [] || unsigned[0] != MINUS
    ensures StrictNumber(if negative then [MINUS] + unsigned else unsigned) ==
            match Unsigned(unsigned)
            case Bad => Bad
            case Good(s, rest) => Good(NumberOf(negative, s), rest)
  {
    if negative {
      assert ([MINUS] + unsigned)[1..] == unsigned;
    }
  }

  /** The client reads each number of RFC 8259 with its value, provided that it is an integer of 64
      bits or that `Double.valueOf` takes it. */
  lemma {:induction false} NumberRead(t: Text, isDouble: Text -> bool)
    requires StrictNumber(t).Good? && Ends(StrictNumber(t).rest)
    ensures var r := StrictNumber(t);
      ParseNumber(t, isDouble) ==
      match r.value
      case Num(n) => if InLong(n) then r else Bad
      case Dbl(token) => if isDouble(token) then r else Bad
      case _ => Bad
  {
    var r := StrictNumber(t);
    var token := NumberSplits(t);
    TokenIsMaximal(token, r.rest);
    assert t[|token|..] == r.rest;
  }

  lemma {:induction false} NumberStart(t: Text)
    requires StrictNumber(t).Good?
    ensures t[0] == MINUS || Digit(t[0])
  {
  }

  /** A text that is one number. */
  predicate IsNumber(t: Text) {
    StrictNumber(t).Good? && StrictNumber(t).rest == []
  }

  lemma {:induction false} NumberUnits(t: Text)
    requires IsNumber(t)
    ensures t != [] && AllNumberUnits(t)
  {
    var token := NumberSplits(t);
    assert token + [] == token;
  }

  /** `Double.valueOf` takes every number with a fraction or an exponent. */
  ghost predicate TakesReals(isDouble: Text -> bool) {
    forall t: Text :: StrictNumber(t).Good? && StrictNumber(t).value.Dbl? ==> isDouble(StrictNumber(t).value.token)
  }

  // ---- A number in front of something else ----

  lemma {:induction false} RunEnds(t: Text, post: Text)
    requires Ends(post)
    ensures DigitRun(t + post) == DigitRun(t) && AfterDigits(t + post) == AfterDigits(t) + post
  {
    if t == [] {
      assert t + post == post;
    } else {
      assert (t + post)[1..] == t[1..] + post;
      if Digit(t[0]) {
        RunEnds(t[1..], post);
      }
    }
  }

  function Before<T>(r: Parsed<T>, post: Text): Parsed<T> {
    match r
    case Good(value, rest) => Good(value, rest + post)
    case Bad => Bad
  }

  lemma {:induction false} WholeEnds(t: Text, post: Text)
    requires Ends(post)
    ensures Whole(t + post) == Before(Whole(t), post)
  {
    if t == [] {
      assert t + post == post;
    } else {
      assert (t + post)[1..] == t[1..] + post;
      RunEnds(t[1..], post);
    }
  }

  lemma {:induction false} BehindEnds(mark: Text, t: Text, post: Text)
    requires Ends(post)
    ensures DigitsBehind(mark, t + post) == Before(DigitsBehind(mark, t), post)
  {
    RunEnds(t, post);
  }

  lemma {:induction false} FractionEnds(t: Text, post: Text)
    requires Ends(post)
    ensures Fraction(t + post) == Before(Fraction(t), post)
  {
    if t == [] {
      assert t + post == post;
    } else {
      assert (t + post)[1..] == t[1..] + post;
      BehindEnds([DOT], t[1..], post);
    }
  }

  lemma {:induction false} ExponentEnds(t: Text, post: Text)
    requires Ends(post)
    ensures Exponent(t + post) == Before(Exponent(t), post)
  {
    var u := t + post;
    if t == [] {
      assert u == post;
    } else if |t| > 1 {
      assert u[1] == t[1] && u[1..] == t[1..] + post && u[2..] == t[2..] + post;
      BehindEnds([t[0]], t[1..], post);
      BehindEnds([t[0], t[1]], t[2..], post);
    } else {
      assert u[1..] == t[1..] + post == post;
      BehindEnds([t[0]], t[1..], post);
    }
  }

  lemma {:induction false} SpellingEnds(t: Text, post: Text)
    requires Ends(post)
    ensures Unsigned(t + post) == Before(Unsigned(t), post)
  {
    WholeEnds(t, post);
    if Whole(t).Good? {
      var t1 := Whole(t).rest;
      FractionEnds(t1, post);
      if Fraction(t1).Good? {
        ExponentEnds(Fraction(t1).rest, post);
      }
    }
  }

  /** What is a number on its own is the same number in front of anything that ends one. */
  lemma {:induction false} NumberEnds(token: Text, post: Text)
    requires IsNumber(token) && Ends(post)
    ensures StrictNumber(token + post) == Good(StrictNumber(token).value, post)
  {
    var t := token + post;
    assert [] + post == post;
    if token[0] == MINUS {
      assert t[1..] == token[1..] + post;
      SpellingEnds(token[1..], post);
    } else {
      SpellingEnds(token, post);
    }
  }

  // ---- Decimal texts ----

  /** Digits with no zero in front. */
  lemma {:induction false} DigitsFacts(n: nat)
    ensures Digits(n) != [] && AllDigits(Digits(n)) && DigitsValue(Digits(n)) == n
    ensures Digits(n)[0] == DIGIT0 ==> |Digits(n)| == 1 && n == 0
  {
    if n >= 10 {
      DigitsFacts(n / 10);
      assert Digits(n)[..|Digits(n)| - 1] == Digits(n / 10);
      assert Digits(n)[0] == Digits(n / 10)[0];
    } else {
      assert Digits(n)[..0] == [];
    }
  }

  lemma {:induction false} AllRun(digits: Text)
    requires AllDigits(digits)
    ensures DigitRun(digits) == digits && AfterDigits(digits) == []
  {
    if digits != [] {
      AllRun(digits[1..]);
    }
  }

  lemma {:induction false} DigitsSpelled(digits: Text)
    requires digits != [] && AllDigits(digits) && (digits[0] == DIGIT0 ==> |digits| == 1)
    ensures Unsigned(digits) == Good(Spelling(digits, [], []), [])
  {
    AllRun(digits[1..]);
    assert Digit(digits[0]) && digits == [digits[0]] + digits[1..];
    if digits[0] == DIGIT0 {
      assert digits[1..] == [] && digits == [DIGIT0];
    }
    assert Whole(digits) == Good(digits, []);
  }

  /** Every integer is printed as RFC 8259 spells it. */
  lemma {:induction false} DecimalIsStrict(n: int)
    ensures StrictNumber(Decimal(n)) == Good(Num(n), [])
  {
    var m := if n < 0 then -n else n;
    DigitsFacts(m);
    DigitsSpelled(Digits(m));
    NumberBySign(n < 0, Digits(m));
  }
}
