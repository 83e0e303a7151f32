/**
 JSON values over UTF-16 strings and the canonical text that payload hashes are taken of.

 The main result is CanonicalIffEqual: two JSON values have the same canonical text exactly when
 they are equal up to the order of object members.
 */
module CanonicalJson {

  /** A UTF-16 code unit, the character of a JavaScript string. */
  type Unit = n: nat | n < 0x1_0000

  type Text = seq<Unit>

  type Digit = d: nat | d < 10

  /** A JavaScript number: its shortest decimal digits d1..dk and the exponent n with value 0.d1..dk * 10^n. */
  datatype Num =
    | NonFinite
    | Zero(negative: bool)
    | Finite(negative: bool, digits: seq<Digit>, point: int)
  {
    predicate Valid() {
      Finite? ==> |digits| > 0 && digits[0] != 0 && digits[|digits| - 1] != 0
    }
  }

  datatype Json =
    | Undefined
    | Null
    | Bool(value: bool)
    | Number(number: Num)
    | Str(text: Text)
    | Arr(items: seq<Json>)
    | Obj(members: seq<Member>)

  datatype Member = Member(key: Text, value: Json)

  const QUOTE: Unit := 34
  const COMMA: Unit := 44
  const PLUS: Unit := 43
  const MINUS: Unit := 45
  const DOT: Unit := 46
  const COLON: Unit := 58
  const OPEN_BRACKET: Unit := 91
  const BACKSLASH: Unit := 92
  const CLOSE_BRACKET: Unit := 93
  const LETTER_E: Unit := 101
  const LETTER_U: Unit := 117
  const OPEN_BRACE: Unit := 123
  const CLOSE_BRACE: Unit := 125
  const NULL_TEXT: Text := [110, 117, 108, 108]
  const TRUE_TEXT: Text := [116, 114, 117, 101]
  const FALSE_TEXT: Text := [102, 97, 108, 115, 101]

  /** Object members have distinct keys and numbers have their shortest digits, at every depth. */
  predicate WellFormed(j: Json) {
    match j
    case Number(number) => number.Valid()
    case Arr(items) => forall i | 0 <= i < |items| :: WellFormed(items[i])
    case Obj(members) =>
      && DistinctKeys(members)
      && forall i | 0 <= i < |members| :: WellFormed(members[i].value)
    case _ => true
  }

  predicate DistinctKeys(members: seq<Member>) {
    forall i, j | 0 <= i < j < |members| :: members[i].key != members[j].key
  }

  /** JSON has no undefined and no infinity: JSON.stringify writes them as null. */
  predicate WrittenAsNull(j: Json) {
    j.Undefined? || j.Null? || (j.Number? && j.number.NonFinite?)
  }

  predicate SameNumber(a: Num, b: Num) {
    if a.Zero? || b.Zero? then a.Zero? && b.Zero? else a == b
  }

  /** Equality up to the order of object members. */
  ghost predicate Equal(a: Json, b: Json) {
    if WrittenAsNull(a) || WrittenAsNull(b) then WrittenAsNull(a) && WrittenAsNull(b)
    else match a
      case Bool(value) => a == b
      case Number(number) => b.Number? && SameNumber(number, b.number)
      case Str(text) => a == b
      case Arr(items) => b.Arr? && |items| == |b.items| && forall i | 0 <= i < |items| :: Equal(items[i], b.items[i])
      case Obj(members) =>
        && b.Obj?
        && (forall k :: HasMember(members, k) <==> HasMember(b.members, k))
        && forall i, j | 0 <= i < |members| && 0 <= j < |b.members| ::
             members[i].key == b.members[j].key ==> Equal(members[i].value, b.members[j].value)
  }

  ghost predicate HasMember(members: seq<Member>, k: Text) {
    exists i :: 0 <= i < |members| && members[i].key == k
  }

  lemma {:induction false} EqualIsSymmetric(a: Json, b: Json)
    requires Equal(a, b)
    ensures Equal(b, a)
    decreases a
  {
    if !WrittenAsNull(a) {
      match a
      case Arr(items) =>
        forall i | 0 <= i < |items|
          ensures Equal(b.items[i], items[i])
        {
          EqualIsSymmetric(items[i], b.items[i]);
        }
      case Obj(members) =>
        forall j, i | 0 <= j < |b.members| && 0 <= i < |members| && b.members[j].key == members[i].key
          ensures Equal(b.members[j].value, members[i].value)
        {
          EqualIsSymmetric(members[i].value, b.members[j].value);
        }
      case _ =>
    }
  }

  // ---------------------------------------------------------------- string quoting

  predicate IsHigh(u: Unit) { 0xD800 <= u < 0xDC00 }

  predicate IsLow(u: Unit) { 0xDC00 <= u < 0xE000 }

  predicate StartsWithPair(s: Text) {
    |s| >= 2 && IsHigh(s[0]) && IsLow(s[1])
  }

  function Hex(d: nat): Unit
    requires d < 16
  {
    if d < 10 then 48 + d else 87 + d
  }

  function UnicodeEscape(u: Unit): Text {
    [BACKSLASH, LETTER_U, Hex(u / 16 / 16 / 16), Hex(u / 16 / 16 % 16), Hex(u / 16 % 16), Hex(u % 16)]
  }

  /** The text JSON.stringify writes for one code unit that is not half of a surrogate pair. */
  function Escape(u: Unit): Text {
    if u == 8 then [BACKSLASH, 98]
    else if u == 9 then [BACKSLASH, 116]
    else if u == 10 then [BACKSLASH, 110]
    else if u == 12 then [BACKSLASH, 102]
    else if u == 13 then [BACKSLASH, 114]
    else if u == QUOTE || u == BACKSLASH then [BACKSLASH, u]
    else if u < 32 || IsHigh(u) || IsLow(u) then UnicodeEscape(u)
    else [u]
  }

  /** The text written for the first character of s: a surrogate pair is one character. */
  function Chunk(s: Text): Text
    requires s != []
  {
    if StartsWithPair(s) then [s[0], s[1]] else Escape(s[0])
  }

  function Width(s: Text): nat
    requires s != []
  {
    if StartsWithPair(s) then 2 else 1
  }

  function QuoteBody(s: Text): Text {
    if s == [] then [] else Chunk(s) + QuoteBody(s[Width(s)..])
  }

  /** JSON.stringify of a string. */
  function Quote(s: Text): Text {
    [QUOTE] + QuoteBody(s) + [QUOTE]
  }

  lemma HexInjective(u: Unit, v: Unit)
    requires UnicodeEscape(u) == UnicodeEscape(v)
    ensures u == v
  {
    var a, b := UnicodeEscape(u), UnicodeEscape(v);
    assert a[2] == b[2] && a[3] == b[3] && a[4] == b[4] && a[5] == b[5];
  }

  lemma EscapeCancels(u: Unit, v: Unit, p: Text, q: Text)
    requires Escape(u) + p == Escape(v) + q
    ensures u == v && p == q
  {
    var a, b := Escape(u) + p, Escape(v) + q;
    assert a[0] == b[0];
    assert |Escape(u)| > 1 ==> a[1] == Escape(u)[1];
    assert |Escape(v)| > 1 ==> b[1] == Escape(v)[1];
    assert |Escape(u)| == |Escape(v)|;
    assert Escape(u) == a[..|Escape(u)|] == b[..|Escape(v)|] == Escape(v);
    assert p == a[|Escape(u)|..] == b[|Escape(v)|..] == q;
    if |Escape(u)| == 6 {
      HexInjective(u, v);
    }
  }

  /** The first unit tells a pair, an escape and a plain character apart. */
  lemma ChunkCancels(s: Text, t: Text, p: Text, q: Text)
    requires s != [] && t != []
    requires Chunk(s) + p == Chunk(t) + q
    ensures Width(s) == Width(t) && s[..Width(s)] == t[..Width(t)] && p == q
  {
    var a, b := Chunk(s) + p, Chunk(t) + q;
    assert a[0] == Chunk(s)[0] && b[0] == Chunk(t)[0];
    if StartsWithPair(s) {
      assert StartsWithPair(t);
      assert a[1] == s[1] && b[1] == t[1];
      assert p == a[2..] && q == b[2..];
    } else {
      assert !StartsWithPair(t);
      EscapeCancels(s[0], t[0], p, q);
    }
  }

  lemma NoChunkIsQuote(s: Text, p: Text, y: Text)
    requires s != []
    ensures Chunk(s) + p != [QUOTE] + y
  {
    assert (Chunk(s) + p)[0] == Chunk(s)[0];
    assert ([QUOTE] + y)[0] == QUOTE;
  }

  /** A quoted body up to its closing quote can be read back unambiguously from any longer text. */
  lemma {:induction false} QuoteBodyCancels(s: Text, t: Text, x: Text, y: Text)
    requires QuoteBody(s) + ([QUOTE] + x) == QuoteBody(t) + ([QUOTE] + y)
    ensures s == t && x == y
    decreases |s|
  {
    if s != [] {
      BodyStep(s, [QUOTE] + x);
    }
    if t != [] {
      BodyStep(t, [QUOTE] + y);
    }
    assert [] + ([QUOTE] + x) == [QUOTE] + x && [] + ([QUOTE] + y) == [QUOTE] + y;
    if s == [] && t == [] {
      SameLengthCancels([QUOTE], [QUOTE], x, y);
    } else if s == [] {
      NoChunkIsQuote(t, QuoteBody(t[Width(t)..]) + ([QUOTE] + y), x);
    } else if t == [] {
      NoChunkIsQuote(s, QuoteBody(s[Width(s)..]) + ([QUOTE] + x), y);
    } else {
      var s', t' := s[Width(s)..], t[Width(t)..];
      ChunkCancels(s, t, QuoteBody(s') + ([QUOTE] + x), QuoteBody(t') + ([QUOTE] + y));
      QuoteBodyCancels(s', t', x, y);
      assert s == s[..Width(s)] + s' && t == t[..Width(t)] + t';
    }
  }

  lemma BodyStep(s: Text, p: Text)
    requires s != []
    ensures QuoteBody(s) + p == Chunk(s) + (QuoteBody(s[Width(s)..]) + p)
  {
  }

  lemma SameLengthCancels(p: Text, q: Text, x: Text, y: Text)
    requires |p| == |q| && p + x == q + y
    ensures p == q && x == y
  {
    assert p == (p + x)[..|p|] && q == (q + y)[..|q|];
    assert x == (p + x)[|p|..] && y == (q + y)[|q|..];
  }

  lemma Regroup(s: Text, t: Text, u: Text, v: Text)
    ensures s + t + u + v == s + (t + (u + v))
  {
  }

  lemma QuoteCancels(s: Text, t: Text, x: Text, y: Text)
    requires Quote(s) + x == Quote(t) + y
    ensures s == t && x == y
  {
    Regroup([QUOTE], QuoteBody(s), [QUOTE], x);
    Regroup([QUOTE], QuoteBody(t), [QUOTE], y);
    SameLengthCancels([QUOTE], [QUOTE], QuoteBody(s) + ([QUOTE] + x), QuoteBody(t) + ([QUOTE] + y));
    QuoteBodyCancels(s, t, x, y);
  }

  // ---------------------------------------------------------------- numbers

  function DigitUnit(d: Digit): (u: Unit)
    ensures u == d + 48
  {
    var n: nat := d;
    n + 48
  }

  function DigitText(digits: seq<Digit>): (t: Text)
    ensures |t| == |digits| && forall i | 0 <= i < |t| :: t[i] == DigitUnit(digits[i])
  {
    seq(|digits|, i requires 0 <= i < |digits| => DigitUnit(digits[i]))
  }

  function Zeros(n: nat): (t: Text)
    ensures |t| == n && forall i | 0 <= i < n :: t[i] == 48
  {
    seq(n, _ => 48)
  }

  function Decimal(n: nat): (t: Text)
    ensures |t| > 0 && forall i | 0 <= i < |t| :: 48 <= t[i] < 58
  {
    if n < 10 then [48 + n] else Decimal(n / 10) + [48 + n % 10]
  }

  /** ECMAScript Number::toString of a positive number (section 6.1.6.1.20 of ECMA-262). */
  function Magnitude(digits: seq<Digit>, point: int): Text
    requires |digits| > 0
  {
    var k := |digits|;
    if -5 <= point <= 21 then
      if point >= k then DigitText(digits) + Zeros(point - k)
      else if point > 0 then DigitText(digits[..point]) + [DOT] + DigitText(digits[point..])
      else [48, DOT] + Zeros(-point) + DigitText(digits)
    else
      Mantissa(digits) + [LETTER_E] + Exponent(point)
  }

  function Mantissa(digits: seq<Digit>): Text
    requires |digits| > 0
  {
    if |digits| == 1 then DigitText(digits) else DigitText(digits[..1]) + [DOT] + DigitText(digits[1..])
  }

  function Exponent(point: int): Text {
    if point < 0 then [MINUS] + Decimal(1 - point)
    else if point == 0 then [PLUS] + Decimal(1)
    else [PLUS] + Decimal(point - 1)
  }

  /** JSON.stringify of a number. */
  function NumberText(n: Num): Text
    requires n.Valid()
  {
    match n
    case NonFinite => NULL_TEXT
    case Zero(_) => [48]
    case Finite(negative, digits, point) =>
      (if negative then [MINUS] else []) + Magnitude(digits, point)
  }

  /** The code units a finite number is written with. */
  predicate InNumber(u: Unit) {
    48 <= u < 58 || u == MINUS || u == PLUS || u == DOT || u == LETTER_E
  }

  lemma MagnitudeUnits(digits: seq<Digit>, point: int)
    requires |digits| > 0
    ensures |Magnitude(digits, point)| > 0
    ensures 48 <= Magnitude(digits, point)[0] < 58
    ensures forall u | u in Magnitude(digits, point) :: InNumber(u)
  {
    var k := |digits|;
    if !Plain(point) {
      assert forall u | u in Mantissa(digits) :: InNumber(u);
      assert forall u | u in Exponent(point) :: InNumber(u);
    } else if point >= k {
      assert Magnitude(digits, point) == DigitText(digits) + Zeros(point - k);
    } else if point > 0 {
      assert Magnitude(digits, point) == DigitText(digits[..point]) + [DOT] + DigitText(digits[point..]);
    } else {
      assert Magnitude(digits, point) == [48, DOT] + Zeros(-point) + DigitText(digits);
    }
  }

  lemma {:induction false} DecimalInjective(m: nat, n: nat)
    requires Decimal(m) == Decimal(n)
    ensures m == n
  {
    var a, b := Decimal(m), Decimal(n);
    assert a[|a| - 1] == b[|b| - 1];
    if m >= 10 && n >= 10 {
      assert Decimal(m / 10) == a[..|a| - 1] == b[..|b| - 1] == Decimal(n / 10);
      DecimalInjective(m / 10, n / 10);
    }
  }

  lemma DigitTextInjective(a: seq<Digit>, b: seq<Digit>)
    requires DigitText(a) == DigitText(b)
    ensures a == b
  {
    forall i | 0 <= i < |a|
      ensures a[i] == b[i]
    {
      assert DigitText(a)[i] == DigitText(b)[i];
    }
  }

  /** Text is cut at the first unit u, so equal texts are cut at the same place. */
  lemma CutAt(p: Text, q: Text, x: Text, y: Text, u: Unit)
    requires u !in p && u !in q
    requires p + [u] + x == q + [u] + y
    ensures p == q && x == y
  {
    var a, b := p + [u] + x, q + [u] + y;
    assert a[|p|] == u && b[|q|] == u;
    assert forall i | 0 <= i < |q| :: b[i] == q[i] && q[i] in q;
    assert forall i | 0 <= i < |p| :: a[i] == p[i] && p[i] in p;
    assert p == a[..|p|] && q == b[..|q|];
    assert x == a[|p| + 1..] && y == b[|q| + 1..];
  }

  lemma ExponentInjective(m: int, n: int)
    requires !(-5 <= m <= 21) && !(-5 <= n <= 21)
    requires Exponent(m) == Exponent(n)
    ensures m == n
  {
    var a, b := Exponent(m), Exponent(n);
    assert a[0] == b[0] && a[1..] == b[1..];
    if m < 0 {
      DecimalInjective(1 - m, 1 - n);
    } else {
      DecimalInjective(m - 1, n - 1);
    }
  }

  lemma MantissaInjective(a: seq<Digit>, b: seq<Digit>)
    requires |a| > 0 && |b| > 0
    requires Mantissa(a) == Mantissa(b)
    ensures a == b
  {
    var s, t := Mantissa(a), Mantissa(b);
    assert |s| == |t|;
    assert s[0] == DigitUnit(a[0]) && t[0] == DigitUnit(b[0]);
    forall i | 1 <= i < |a|
      ensures i < |b| && a[i] == b[i]
    {
      assert s[i + 1] == DigitUnit(a[i]);
      assert t[i + 1] == DigitUnit(b[i]);
    }
  }

  lemma WholeInjective(a: seq<Digit>, m: int, b: seq<Digit>, n: int)
    requires |a| > 0 && |b| > 0 && a[|a| - 1] != 0 && b[|b| - 1] != 0
    requires m >= |a| && n >= |b|
    requires DigitText(a) + Zeros(m - |a|) == DigitText(b) + Zeros(n - |b|)
    ensures a == b && m == n
  {
    var s, t := DigitText(a) + Zeros(m - |a|), DigitText(b) + Zeros(n - |b|);
    assert |s| == m && |t| == n;
    assert s[|a| - 1] != 48 && t[|b| - 1] != 48;
    assert forall i | |a| <= i < m :: s[i] == 48;
    assert forall i | |b| <= i < n :: t[i] == 48;
    assert DigitText(a) == s[..|a|] == t[..|b|] == DigitText(b);
    DigitTextInjective(a, b);
  }

  lemma FractionInjective(a: seq<Digit>, m: int, b: seq<Digit>, n: int)
    requires |a| > 0 && |b| > 0 && a[0] != 0 && b[0] != 0
    requires m <= 0 && n <= 0
    requires [48, DOT] + Zeros(-m) + DigitText(a) == [48, DOT] + Zeros(-n) + DigitText(b)
    ensures a == b && m == n
  {
    var s, t := [48, DOT] + Zeros(-m) + DigitText(a), [48, DOT] + Zeros(-n) + DigitText(b);
    assert s[2 - m] == DigitUnit(a[0]) && t[2 - n] == DigitUnit(b[0]);
    assert forall i | 2 <= i < 2 - m :: s[i] == 48;
    assert forall i | 2 <= i < 2 - n :: t[i] == 48;
    assert DigitText(a) == s[2 - m..] == t[2 - n..] == DigitText(b);
    DigitTextInjective(a, b);
  }

  lemma SplitInjective(a: seq<Digit>, m: int, b: seq<Digit>, n: int)
    requires 0 < m < |a| && 0 < n < |b|
    requires DigitText(a[..m]) + [DOT] + DigitText(a[m..]) == DigitText(b[..n]) + [DOT] + DigitText(b[n..])
    ensures a == b && m == n
  {
    CutAt(DigitText(a[..m]), DigitText(b[..n]), DigitText(a[m..]), DigitText(b[n..]), DOT);
    DigitTextInjective(a[..m], b[..n]);
    DigitTextInjective(a[m..], b[n..]);
    assert a == a[..m] + a[m..] && b == b[..n] + b[n..];
  }

  lemma ScientificInjective(a: seq<Digit>, m: int, b: seq<Digit>, n: int)
    requires |a| > 0 && |b| > 0 && !Plain(m) && !Plain(n)
    requires Mantissa(a) + [LETTER_E] + Exponent(m) == Mantissa(b) + [LETTER_E] + Exponent(n)
    ensures a == b && m == n
  {
    assert LETTER_E !in Mantissa(a) && LETTER_E !in Mantissa(b);
    CutAt(Mantissa(a), Mantissa(b), Exponent(m), Exponent(n), LETTER_E);
    MantissaInjective(a, b);
    ExponentInjective(m, n);
  }

  predicate Plain(point: int) { -5 <= point <= 21 }

  /** Which of the four layouts a number is written in can be read off its text. */
  lemma LayoutIsVisible(digits: seq<Digit>, point: int)
    requires |digits| > 0 && digits[0] != 0
    ensures LETTER_E in Magnitude(digits, point) <==> !Plain(point)
    ensures Plain(point) ==> (DOT in Magnitude(digits, point) <==> point < |digits|)
    ensures Plain(point) ==> (Magnitude(digits, point)[0] == 48 <==> point <= 0)
  {
    var t := Magnitude(digits, point);
    if !Plain(point) {
      assert t[|Mantissa(digits)|] == LETTER_E;
    } else if 0 < point < |digits| {
      assert t[point] == DOT;
    } else if point <= 0 {
      assert t[1] == DOT;
    }
  }

  lemma MagnitudeInjective(a: seq<Digit>, m: int, b: seq<Digit>, n: int)
    requires Finite(false, a, m).Valid() && Finite(false, b, n).Valid()
    requires Magnitude(a, m) == Magnitude(b, n)
    ensures a == b && m == n
  {
    LayoutIsVisible(a, m);
    LayoutIsVisible(b, n);
    if !Plain(m) {
      ScientificInjective(a, m, b, n);
    } else if m >= |a| {
      WholeInjective(a, m, b, n);
    } else if m > 0 {
      SplitInjective(a, m, b, n);
    } else {
      FractionInjective(a, m, b, n);
    }
  }

  lemma NumberTextUnits(n: Num)
    requires n.Valid() && !n.NonFinite?
    ensures |NumberText(n)| > 0
    ensures NumberText(n)[0] == MINUS || 48 <= NumberText(n)[0] < 58
    ensures forall u | u in NumberText(n) :: InNumber(u)
  {
    if n.Finite? {
      MagnitudeUnits(n.digits, n.point);
    }
  }

  lemma NumberTextInjective(a: Num, b: Num)
    requires a.Valid() && b.Valid() && !a.NonFinite? && !b.NonFinite?
    requires NumberText(a) == NumberText(b)
    ensures SameNumber(a, b)
  {
    if a.Finite? {
      NotZero(a);
      SignIsVisible(a);
    }
    if b.Finite? {
      NotZero(b);
      SignIsVisible(b);
    }
    if a.Finite? && b.Finite? {
      MagnitudeInjective(a.digits, a.point, b.digits, b.point);
    }
  }

  lemma SignIsVisible(n: Num)
    requires n.Valid() && n.Finite?
    ensures |NumberText(n)| > 0 && (n.negative <==> NumberText(n)[0] == MINUS)
    ensures Magnitude(n.digits, n.point) == if n.negative then NumberText(n)[1..] else NumberText(n)
  {
    MagnitudeUnits(n.digits, n.point);
  }

  lemma NotZero(n: Num)
    requires n.Valid() && n.Finite?
    ensures NumberText(n) != [48]
  {
    LayoutIsVisible(n.digits, n.point);
    MagnitudeUnits(n.digits, n.point);
    assert !n.negative ==> NumberText(n) == Magnitude(n.digits, n.point);
    assert DOT !in [48] && LETTER_E !in [48];
  }

  // ---------------------------------------------------------------- sorting by key

  /** String order by code unit, JavaScript's `<` on strings. */
  predicate Less(a: Text, b: Text) {
    if b == [] then false
    else if a == [] then true
    else if a[0] != b[0] then a[0] < b[0]
    else Less(a[1..], b[1..])
  }

  lemma {:induction false} LessIsAsymmetric(a: Text, b: Text)
    ensures !(Less(a, b) && Less(b, a))
    ensures Less(a, b) || Less(b, a) || a == b
    decreases |a|
  {
    if a != [] && b != [] && a[0] == b[0] {
      LessIsAsymmetric(a[1..], b[1..]);
      assert a == [a[0]] + a[1..] && b == [b[0]] + b[1..];
    }
  }

  lemma {:induction false} LessIsTransitive(a: Text, b: Text, c: Text)
    requires Less(a, b) && Less(b, c)
    ensures Less(a, c)
    decreases |a|
  {
    if a != [] && a[0] == b[0] == c[0] {
      LessIsTransitive(a[1..], b[1..], c[1..]);
    }
  }

  type Entry = (Text, Text)

  ghost predicate HasKey(entries: seq<Entry>, k: Text) {
    exists i :: 0 <= i < |entries| && entries[i].0 == k
  }

  function Insert(m: Entry, sorted: seq<Entry>): seq<Entry> {
    if sorted == [] || Less(m.0, sorted[0].0) then [m] + sorted
    else [sorted[0]] + Insert(m, sorted[1..])
  }

  /** Array.prototype.sort with the code-unit comparison of the keys. */
  function SortByKey(entries: seq<Entry>): seq<Entry> {
    if entries == [] then [] else Insert(entries[0], SortByKey(entries[1..]))
  }

  ghost predicate Sorted(entries: seq<Entry>) {
    forall i, j | 0 <= i < j < |entries| :: Less(entries[i].0, entries[j].0)
  }

  ghost predicate DistinctEntries(entries: seq<Entry>) {
    forall i, j | 0 <= i < j < |entries| :: entries[i].0 != entries[j].0
  }

  lemma {:induction false} InsertSorts(m: Entry, sorted: seq<Entry>)
    requires Sorted(sorted) && !HasKey(sorted, m.0)
    ensures Sorted(Insert(m, sorted))
    ensures forall e :: e in Insert(m, sorted) <==> e == m || e in sorted
  {
    if sorted == [] {
    } else if Less(m.0, sorted[0].0) {
      forall j | 0 < j < |sorted|
        ensures Less(m.0, sorted[j].0)
      {
        LessIsTransitive(m.0, sorted[0].0, sorted[j].0);
      }
    } else {
      var rest := sorted[1..];
      assert sorted[0].0 != m.0;
      LessIsAsymmetric(m.0, sorted[0].0);
      forall i | 0 <= i < |rest|
        ensures rest[i].0 != m.0 && Less(sorted[0].0, rest[i].0)
      {
        assert rest[i] == sorted[i + 1];
      }
      InsertSorts(m, rest);
      var r := Insert(m, rest);
      forall j | 0 <= j < |r|
        ensures Less(sorted[0].0, r[j].0)
      {
        assert r[j] in r;
      }
      assert sorted == [sorted[0]] + rest;
    }
  }

  /** Sorting orders the entries and neither loses nor invents one. */
  lemma {:induction false} SortSorts(entries: seq<Entry>)
    requires DistinctEntries(entries)
    ensures Sorted(SortByKey(entries))
    ensures forall e :: e in SortByKey(entries) <==> e in entries
  {
    if entries != [] {
      var rest := entries[1..];
      SortSorts(rest);
      var sorted := SortByKey(rest);
      forall i | 0 <= i < |sorted|
        ensures sorted[i].0 != entries[0].0
      {
        assert sorted[i] in rest;
        var j :| 0 <= j < |rest| && rest[j] == sorted[i];
        assert rest[j] == entries[j + 1];
      }
      InsertSorts(entries[0], sorted);
      assert entries == [entries[0]] + rest;
    }
  }

  /** There is only one sorted sequence of a given set of entries. */
  lemma {:induction false} SortedUnique(a: seq<Entry>, b: seq<Entry>)
    requires Sorted(a) && Sorted(b)
    requires forall e :: e in a <==> e in b
    ensures a == b
    decreases |a|
  {
    if a == [] {
      assert forall i | 0 <= i < |b| :: b[i] in b;
    } else {
      assert a[0] in b && b[0] in a;
      LessIsAsymmetric(a[0].0, b[0].0);
      assert a[0] == b[0];
      forall e
        ensures e in a[1..] <==> e in b[1..]
      {
        TailEntries(a, e);
        TailEntries(b, e);
      }
      SortedUnique(a[1..], b[1..]);
      assert a == [a[0]] + a[1..] && b == [b[0]] + b[1..];
    }
  }

  lemma TailEntries(a: seq<Entry>, e: Entry)
    requires Sorted(a) && a != []
    ensures e in a[1..] <==> e in a && e != a[0]
  {
    if e in a[1..] {
      var i :| 0 <= i < |a| - 1 && a[1..][i] == e;
      assert a[i + 1] == e;
      LessIsAsymmetric(a[0].0, e.0);
    }
  }

  // ---------------------------------------------------------------- canonical text

  /** The elements separated by commas. */
  function Join(texts: seq<Text>): Text {
    if texts == [] then []
    else if |texts| == 1 then texts[0]
    else texts[0] + [COMMA] + Join(texts[1..])
  }

  function EntryText(e: Entry): Text {
    Quote(e.0) + [COLON] + e.1
  }

  function EntryTexts(entries: seq<Entry>): (r: seq<Text>)
    ensures |r| == |entries| && forall i | 0 <= i < |r| :: r[i] == EntryText(entries[i])
  {
    seq(|entries|, i requires 0 <= i < |entries| => EntryText(entries[i]))
  }

  /** canonicalPayload without its legacy flag. Members are written before they are put in order. */
  function Canonical(j: Json): Text
    requires WellFormed(j)
    decreases j, 0
  {
    match j
    case Undefined => NULL_TEXT
    case Null => NULL_TEXT
    case Bool(value) => if value then TRUE_TEXT else FALSE_TEXT
    case Number(number) => NumberText(number)
    case Str(text) => Quote(text)
    case Arr(items) => [OPEN_BRACKET] + Join(ItemTexts(items)) + [CLOSE_BRACKET]
    case Obj(members) => [OPEN_BRACE] + Join(EntryTexts(SortByKey(MemberEntries(members)))) + [CLOSE_BRACE]
  }

  function ItemTexts(items: seq<Json>): (r: seq<Text>)
    requires forall i | 0 <= i < |items| :: WellFormed(items[i])
    ensures |r| == |items|
    ensures forall i | 0 <= i < |r| :: r[i] == Canonical(items[i])
    decreases items, 1
  {
    if items == [] then [] else [Canonical(items[0])] + ItemTexts(items[1..])
  }

  function MemberEntries(members: seq<Member>): (r: seq<Entry>)
    requires forall i | 0 <= i < |members| :: WellFormed(members[i].value)
    ensures |r| == |members|
    ensures forall i | 0 <= i < |r| :: r[i] == (members[i].key, Canonical(members[i].value))
    decreases members, 1
  {
    if members == [] then []
    else [(members[0].key, Canonical(members[0].value))] + MemberEntries(members[1..])
  }

  /** What may follow a value inside a larger text. */
  predicate Ends(x: Text) {
    x == [] || x[0] == COMMA || x[0] == CLOSE_BRACKET || x[0] == CLOSE_BRACE
  }

  /** A canonical text never starts like a separator or a closing bracket. */
  lemma StartOf(j: Json)
    requires WellFormed(j)
    ensures |Canonical(j)| > 0
    ensures match j
            case Bool(value) => Canonical(j)[0] == if value then 116 else 102
            case Str(_) => Canonical(j)[0] == QUOTE
            case Arr(_) => Canonical(j)[0] == OPEN_BRACKET
            case Obj(_) => Canonical(j)[0] == OPEN_BRACE
            case Number(n) => Canonical(j)[0] == 110 <==> n.NonFinite?
            case _ => Canonical(j)[0] == 110
    ensures j.Number? && !j.number.NonFinite? ==> InNumber(Canonical(j)[0])
  {
    if j.Number? && !j.number.NonFinite? {
      NumberTextUnits(j.number);
    }
  }

  /** Text t is a prefix that no other value's canonical text can be confused with. */
  ghost predicate SelfDelimiting(t: Text) {
    forall b, x, y :: Splits(t, b, x, y)
  }

  ghost predicate Splits(t: Text, b: Json, x: Text, y: Text) {
    WellFormed(b) && Ends(x) && Ends(y) && t + x == Canonical(b) + y ==> t == Canonical(b) && x == y
  }

  lemma SpanCancels(p: Text, q: Text, x: Text, y: Text)
    requires forall u | u in p :: InNumber(u)
    requires forall u | u in q :: InNumber(u)
    requires Ends(x) && Ends(y) && p + x == q + y
    ensures p == q && x == y
  {
    var a, b := p + x, q + y;
    assert x != [] ==> a[|p|] == x[0];
    assert y != [] ==> b[|q|] == y[0];
    assert forall i | 0 <= i < |p| :: a[i] == p[i] && p[i] in p;
    assert forall i | 0 <= i < |q| :: b[i] == q[i] && q[i] in q;
    assert |p| == |q|;
    assert p == a[..|p|] && q == b[..|q|] && x == a[|p|..] && y == b[|q|..];
  }

  ghost predicate IsCanonical(t: Text) {
    exists j :: WellFormed(j) && t == Canonical(j)
  }

  /** The text of the rest of a list behind its first element. */
  function Rest(texts: seq<Text>, close: Unit, x: Text): (r: Text)
    requires texts != [] && close in [CLOSE_BRACKET, CLOSE_BRACE]
    ensures |r| > 0 && Ends(r)
  {
    if |texts| == 1 then [close] + x else [COMMA] + (Join(texts[1..]) + [close] + x)
  }

  lemma FirstThenRest(texts: seq<Text>, close: Unit, x: Text)
    requires texts != [] && close in [CLOSE_BRACKET, CLOSE_BRACE]
    ensures Join(texts) + [close] + x == texts[0] + Rest(texts, close, x)
  {
    if |texts| == 1 {
      assert texts[0] + [close] + x == texts[0] + ([close] + x);
    } else {
      var tail := Join(texts[1..]);
      assert texts[0] + [COMMA] + tail + [close] + x == texts[0] + ([COMMA] + (tail + [close] + x));
    }
  }

  /** Equal rests are rests of equally long lists, so the argument continues behind the comma. */
  lemma RestCancels(a: seq<Text>, b: seq<Text>, close: Unit, x: Text, y: Text)
    requires a != [] && b != [] && close in [CLOSE_BRACKET, CLOSE_BRACE]
    requires Rest(a, close, x) == Rest(b, close, y)
    ensures |a| == 1 <==> |b| == 1
    ensures |a| == 1 ==> x == y
    ensures |a| > 1 ==> Join(a[1..]) + [close] + x == Join(b[1..]) + [close] + y
  {
    var p, q := Rest(a, close, x), Rest(b, close, y);
    assert p[0] == q[0] && p[1..] == q[1..];
    if |a| == 1 {
      assert x == p[1..];
    } else {
      assert Join(a[1..]) + [close] + x == p[1..];
    }
    if |b| == 1 {
      assert y == q[1..];
    } else {
      assert Join(b[1..]) + [close] + y == q[1..];
    }
  }

  /** A list whose elements start no separator is empty when its text is. */
  lemma EmptyCancels(b: seq<Text>, close: Unit, x: Text, y: Text)
    requires close in [CLOSE_BRACKET, CLOSE_BRACE]
    requires b != [] ==> |b[0]| > 0 && !Ends(b[0])
    requires [close] + x == Join(b) + [close] + y
    ensures b == [] && x == y
  {
    var s, t := [close] + x, Join(b) + [close] + y;
    assert s[0] == t[0] == close && s[1..] == x;
    if b == [] {
      assert t[1..] == y;
    } else {
      FirstThenRest(b, close, y);
    }
  }

  lemma CanonicalStartsNoSeparator(t: Text)
    requires IsCanonical(t)
    ensures |t| > 0 && !Ends(t)
  {
    var j :| WellFormed(j) && t == Canonical(j);
    StartOf(j);
  }

  /** A bracketed list of self-delimiting texts is read back element by element. */
  lemma {:induction false} JoinCancels(a: seq<Text>, b: seq<Text>, x: Text, y: Text)
    requires forall i | 0 <= i < |a| :: SelfDelimiting(a[i]) && IsCanonical(a[i])
    requires forall i | 0 <= i < |b| :: IsCanonical(b[i])
    requires Join(a) + [CLOSE_BRACKET] + x == Join(b) + [CLOSE_BRACKET] + y
    ensures a == b && x == y
    decreases |a|
  {
    if a == [] {
      if b != [] { CanonicalStartsNoSeparator(b[0]); }
      EmptyCancels(b, CLOSE_BRACKET, x, y);
    } else if b == [] {
      CanonicalStartsNoSeparator(a[0]);
      EmptyCancels(a, CLOSE_BRACKET, y, x);
    } else {
      FirstThenRest(a, CLOSE_BRACKET, x);
      FirstThenRest(b, CLOSE_BRACKET, y);
      HeadCancels(a[0], b[0], Rest(a, CLOSE_BRACKET, x), Rest(b, CLOSE_BRACKET, y));
      RestCancels(a, b, CLOSE_BRACKET, x, y);
      if |a| > 1 {
        JoinCancels(a[1..], b[1..], x, y);
      }
      assert a == [a[0]] + a[1..] && b == [b[0]] + b[1..];
    }
  }

  lemma HeadCancels(s: Text, t: Text, p: Text, q: Text)
    requires SelfDelimiting(s) && IsCanonical(t) && Ends(p) && Ends(q)
    requires s + p == t + q
    ensures s == t && p == q
  {
    var j :| WellFormed(j) && t == Canonical(j);
    assert Splits(s, j, p, q);
  }

  lemma NoEntriesCancel(b: seq<Entry>, x: Text, y: Text)
    requires [CLOSE_BRACE] + x == Join(EntryTexts(b)) + [CLOSE_BRACE] + y
    ensures b == [] && x == y
  {
    if b != [] {
      assert EntryTexts(b)[0] == EntryText(b[0]);
      assert EntryText(b[0])[0] == QUOTE;
    }
    EmptyCancels(EntryTexts(b), CLOSE_BRACE, x, y);
  }

  /** The same for the entries of an object. */
  lemma {:induction false} EntriesCancel(a: seq<Entry>, b: seq<Entry>, x: Text, y: Text)
    requires forall i | 0 <= i < |a| :: SelfDelimiting(a[i].1)
    requires forall i | 0 <= i < |b| :: IsCanonical(b[i].1)
    requires Join(EntryTexts(a)) + [CLOSE_BRACE] + x == Join(EntryTexts(b)) + [CLOSE_BRACE] + y
    ensures a == b && x == y
    decreases |a|
  {
    var s, t := EntryTexts(a), EntryTexts(b);
    if a == [] {
      NoEntriesCancel(b, x, y);
    } else if b == [] {
      NoEntriesCancel(a, y, x);
    } else {
      hide EntryText, SelfDelimiting, IsCanonical;
      FirstThenRest(s, CLOSE_BRACE, x);
      FirstThenRest(t, CLOSE_BRACE, y);
      EntryCancels(a[0], b[0], Rest(s, CLOSE_BRACE, x), Rest(t, CLOSE_BRACE, y));
      RestCancels(s, t, CLOSE_BRACE, x, y);
      if |a| > 1 {
        assert s[1..] == EntryTexts(a[1..]) && t[1..] == EntryTexts(b[1..]);
        EntriesCancel(a[1..], b[1..], x, y);
      }
      assert a == [a[0]] + a[1..] && b == [b[0]] + b[1..];
    }
  }

  lemma EntryCancels(a: Entry, b: Entry, p: Text, q: Text)
    requires SelfDelimiting(a.1) && IsCanonical(b.1) && Ends(p) && Ends(q)
    requires EntryText(a) + p == EntryText(b) + q
    ensures a == b && p == q
  {
    Regroup(Quote(a.0), [COLON], a.1, p);
    Regroup(Quote(b.0), [COLON], b.1, q);
    QuoteCancels(a.0, b.0, [COLON] + (a.1 + p), [COLON] + (b.1 + q));
    SameLengthCancels([COLON], [COLON], a.1 + p, b.1 + q);
    HeadCancels(a.1, b.1, p, q);
  }

  lemma SortedEntriesOf(members: seq<Member>)
    requires WellFormed(Obj(members))
    ensures Sorted(SortByKey(MemberEntries(members)))
    ensures forall e :: e in SortByKey(MemberEntries(members)) <==> e in MemberEntries(members)
  {
    SortSorts(MemberEntries(members));
  }

  /** Every canonical text can be cut off unambiguously from whatever follows it. */
  lemma {:induction false} CanonicalIsSelfDelimiting(a: Json)
    requires WellFormed(a)
    ensures SelfDelimiting(Canonical(a))
    decreases a
  {
    if a.Arr? {
      forall i | 0 <= i < |a.items| {
        CanonicalIsSelfDelimiting(a.items[i]);
      }
    } else if a.Obj? {
      forall i | 0 <= i < |a.members| {
        CanonicalIsSelfDelimiting(a.members[i].value);
      }
    }
    forall b, x, y | WellFormed(b) && Ends(x) && Ends(y) && Canonical(a) + x == Canonical(b) + y
      ensures Canonical(a) == Canonical(b) && x == y
    {
      StartOf(a);
      StartOf(b);
      assert Canonical(a)[0] == (Canonical(a) + x)[0] == (Canonical(b) + y)[0] == Canonical(b)[0];
      if a.Number? && !a.number.NonFinite? {
        NumberTextUnits(a.number);
        NumberTextUnits(b.number);
        SpanCancels(Canonical(a), Canonical(b), x, y);
      } else if a.Str? {
        QuoteCancels(a.text, b.text, x, y);
      } else if a.Arr? {
        ArraySplits(a, b, x, y);
      } else if a.Obj? {
        ObjectSplits(a, b, x, y);
      } else {
        SameLengthCancels(Canonical(a), Canonical(b), x, y);
      }
    }
  }

  lemma Unwrap(open: Unit, s: Text, t: Text, close: Unit, x: Text, y: Text)
    requires [open] + s + [close] + x == [open] + t + [close] + y
    ensures s + [close] + x == t + [close] + y
  {
    Regroup([open], s, [close], x);
    Regroup([open], t, [close], y);
    SameLengthCancels([open], [open], s + ([close] + x), t + ([close] + y));
    assert s + [close] + x == s + ([close] + x);
    assert t + [close] + y == t + ([close] + y);
  }

  lemma ArraySplits(a: Json, b: Json, x: Text, y: Text)
    requires WellFormed(a) && WellFormed(b) && a.Arr? && b.Arr?
    requires forall i | 0 <= i < |a.items| :: SelfDelimiting(Canonical(a.items[i]))
    requires Canonical(a) + x == Canonical(b) + y
    ensures ItemTexts(a.items) == ItemTexts(b.items) && x == y
  {
    var s, t := ItemTexts(a.items), ItemTexts(b.items);
    Unwrap(OPEN_BRACKET, Join(s), Join(t), CLOSE_BRACKET, x, y);
    JoinCancels(s, t, x, y);
  }

  lemma ObjectSplits(a: Json, b: Json, x: Text, y: Text)
    requires WellFormed(a) && WellFormed(b) && a.Obj? && b.Obj?
    requires forall i | 0 <= i < |a.members| :: SelfDelimiting(Canonical(a.members[i].value))
    requires Canonical(a) + x == Canonical(b) + y
    ensures SortByKey(MemberEntries(a.members)) == SortByKey(MemberEntries(b.members)) && x == y
  {
    var s, t := SortByKey(MemberEntries(a.members)), SortByKey(MemberEntries(b.members));
    SortedEntriesOf(a.members);
    SortedEntriesOf(b.members);
    forall i | 0 <= i < |s|
      ensures SelfDelimiting(s[i].1)
    {
      assert s[i] in MemberEntries(a.members);
    }
    forall i | 0 <= i < |t|
      ensures IsCanonical(t[i].1)
    {
      assert t[i] in MemberEntries(b.members);
    }
    Unwrap(OPEN_BRACE, Join(EntryTexts(s)), Join(EntryTexts(t)), CLOSE_BRACE, x, y);
    EntriesCancel(s, t, x, y);
  }

  /** Values with one canonical text are equal up to member order. */
  lemma {:induction false} CanonicalInjective(a: Json, b: Json)
    requires WellFormed(a) && WellFormed(b)
    requires Canonical(a) == Canonical(b)
    ensures Equal(a, b)
    decreases a
  {
    StartOf(a);
    StartOf(b);
    if WrittenAsNull(a) {
    } else if a.Number? {
      NumberTextInjective(a.number, b.number);
    } else if a.Str? {
      QuoteCancels(a.text, b.text, [], []);
    } else if a.Arr? {
      forall i | 0 <= i < |a.items| {
        CanonicalIsSelfDelimiting(a.items[i]);
      }
      ArraySplits(a, b, [], []);
      forall i | 0 <= i < |a.items|
        ensures Equal(a.items[i], b.items[i])
      {
        assert ItemTexts(a.items)[i] == ItemTexts(b.items)[i];
        CanonicalInjective(a.items[i], b.items[i]);
      }
    } else if a.Obj? {
      forall i | 0 <= i < |a.members| {
        CanonicalIsSelfDelimiting(a.members[i].value);
      }
      ObjectSplits(a, b, [], []);
      SameEntries(a.members, b.members);
      forall i, j | 0 <= i < |a.members| && 0 <= j < |b.members| && a.members[i].key == b.members[j].key
        ensures Equal(a.members[i].value, b.members[j].value)
      {
        CanonicalInjective(a.members[i].value, b.members[j].value);
      }
    }
  }

  /** Objects whose sorted entries agree have the same keys, bound to values with the same text. */
  lemma SameEntries(a: seq<Member>, b: seq<Member>)
    requires WellFormed(Obj(a)) && WellFormed(Obj(b))
    requires SortByKey(MemberEntries(a)) == SortByKey(MemberEntries(b))
    ensures forall k :: HasMember(a, k) <==> HasMember(b, k)
    ensures forall i, j | 0 <= i < |a| && 0 <= j < |b| && a[i].key == b[j].key ::
              Canonical(a[i].value) == Canonical(b[j].value)
  {
    SortedEntriesOf(a);
    SortedEntriesOf(b);
    hide WellFormed, SortByKey, HasMember, MemberEntries;
    Contained(a, b);
    Contained(b, a);
  }

  lemma Contained(a: seq<Member>, b: seq<Member>)
    requires WellFormed(Obj(a)) && WellFormed(Obj(b))
    requires forall e | e in MemberEntries(a) :: e in MemberEntries(b)
    ensures forall k | HasMember(a, k) :: HasMember(b, k)
    ensures forall i, j | 0 <= i < |a| && 0 <= j < |b| && a[i].key == b[j].key ::
              Canonical(a[i].value) == Canonical(b[j].value)
  {
    hide WellFormed, MemberEntries;
    forall i | 0 <= i < |a| {
      FoundIn(a, b, i);
    }
  }

  lemma FoundIn(a: seq<Member>, b: seq<Member>, i: nat)
    requires WellFormed(Obj(a)) && WellFormed(Obj(b)) && i < |a|
    requires forall e | e in MemberEntries(a) :: e in MemberEntries(b)
    ensures HasMember(b, a[i].key)
    ensures forall j | 0 <= j < |b| && a[i].key == b[j].key :: Canonical(a[i].value) == Canonical(b[j].value)
  {
    assert MemberEntries(a)[i] in MemberEntries(a);
    var n :| 0 <= n < |b| && MemberEntries(b)[n] == MemberEntries(a)[i];
    assert b[n].key == a[i].key && Canonical(b[n].value) == Canonical(a[i].value);
    assert forall j | 0 <= j < |b| && b[j].key == b[n].key :: j == n;
  }

  /** Values equal up to member order have one canonical text. */
  lemma {:induction false} CanonicalIgnoresOrder(a: Json, b: Json)
    requires WellFormed(a) && WellFormed(b) && Equal(a, b)
    ensures Canonical(a) == Canonical(b)
    decreases a
  {
    if WrittenAsNull(a) {
    } else if a.Arr? {
      forall i | 0 <= i < |a.items|
        ensures ItemTexts(a.items)[i] == ItemTexts(b.items)[i]
      {
        CanonicalIgnoresOrder(a.items[i], b.items[i]);
      }
      assert ItemTexts(a.items) == ItemTexts(b.items);
    } else if a.Obj? {
      forall i, j | 0 <= i < |a.members| && 0 <= j < |b.members| && a.members[i].key == b.members[j].key
        ensures Canonical(a.members[i].value) == Canonical(b.members[j].value)
      {
        CanonicalIgnoresOrder(a.members[i].value, b.members[j].value);
      }
      SortedEntriesOf(a.members);
      SortedEntriesOf(b.members);
      EntriesAgree(a.members, b.members);
      EntriesAgree(b.members, a.members);
      SortedUnique(SortByKey(MemberEntries(a.members)), SortByKey(MemberEntries(b.members)));
    }
  }

  lemma EntriesAgree(a: seq<Member>, b: seq<Member>)
    requires WellFormed(Obj(a)) && WellFormed(Obj(b))
    requires forall k | HasMember(a, k) :: HasMember(b, k)
    requires forall i, j | 0 <= i < |a| && 0 <= j < |b| && a[i].key == b[j].key ::
               Canonical(a[i].value) == Canonical(b[j].value)
    ensures forall e | e in MemberEntries(a) :: e in MemberEntries(b)
  {
    forall i | 0 <= i < |a|
      ensures MemberEntries(a)[i] in MemberEntries(b)
    {
      assert HasMember(a, a[i].key);
      var j :| 0 <= j < |b| && b[j].key == a[i].key;
      assert MemberEntries(b)[j] == MemberEntries(a)[i];
    }
  }

  /**
   The payload identity the worker relies on: the canonical text is a normal form of JSON values
   under equality up to member order.
   */
  lemma CanonicalIffEqual(a: Json, b: Json)
    requires WellFormed(a) && WellFormed(b)
    ensures Canonical(a) == Canonical(b) <==> Equal(a, b)
  {
    if Canonical(a) == Canonical(b) {
      CanonicalInjective(a, b);
    }
    if Equal(a, b) {
      CanonicalIgnoresOrder(a, b);
    }
  }
}
