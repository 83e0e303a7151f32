/**
 Reading the canonical text back: the strings and numbers in it are those of the JSON grammar (RFC 8259), and
 its members come in the order of their keys.
 */
module JsonText {
  import opened Common
  import opened CanonicalJson

  // ---------------------------------------------------------------- strings (section 7 of RFC 8259)

  function HexValue(u: Unit): Option<nat> {
    if 48 <= u < 58 then Some(u - 48) else if 97 <= u < 103 then Some(u - 87) else None
  }

  /** The unit behind a backslash and one character. */
  function Escaped(u: Unit): Option<Unit> {
    if u == QUOTE || u == BACKSLASH || u == 47 then Some(u)
    else if u == 98 then Some(8)
    else if u == 102 then Some(12)
    else if u == 110 then Some(10)
    else if u == 114 then Some(13)
    else if u == 116 then Some(9)
    else None
  }

  /** Four hexadecimal digits. */
  function HexUnit(t: Text): Option<Unit>
    requires |t| >= 4
  {
    var a, b, c, d := HexValue(t[0]), HexValue(t[1]), HexValue(t[2]), HexValue(t[3]);
    if a.None? || b.None? || c.None? || d.None? then None
    else
      var n := ((a.value * 16 + b.value) * 16 + c.value) * 16 + d.value;
      if n < 0x1_0000 then Some(n) else None
  }

  /** The first unit of a string's body and the number of units it is written with. */
  function ReadUnit(t: Text): (r: Option<(Unit, nat)>)
    requires t != []
    ensures r.Some? ==> 0 < r.value.1 <= |t|
  {
    if t[0] != BACKSLASH then (if t[0] < 32 || t[0] == QUOTE then None else Some((t[0], 1)))
    else if |t| < 2 then None
    else if t[1] != LETTER_U then
      (if Escaped(t[1]).Some? then Some((Escaped(t[1]).value, 2)) else None)
    else if |t| < 6 then None
    else if HexUnit(t[2..]).Some? then Some((HexUnit(t[2..]).value, 6))
    else None
  }

  /** A string's body up to its closing quote, and what follows. */
  function ReadBody(t: Text): Option<(Text, Text)> {
    if t == [] then None
    else if t[0] == QUOTE then Some(([], t[1..]))
    else
      var first := ReadUnit(t);
      if first.None? then None
      else
        var rest := ReadBody(t[first.value.1..]);
        if rest.None? then None else Some(([first.value.0] + rest.value.0, rest.value.1))
  }

  function ReadString(t: Text): Option<(Text, Text)> {
    if t == [] || t[0] != QUOTE then None else ReadBody(t[1..])
  }

  lemma HexReadsBack(u: Unit, x: Text)
    ensures ReadUnit(UnicodeEscape(u) + x) == Some((u, 6))
  {
    var t := UnicodeEscape(u) + x;
    assert t[..6] == UnicodeEscape(u);
    var h := t[2..];
    assert h[0] == Hex(u / 16 / 16 / 16) && h[1] == Hex(u / 16 / 16 % 16);
    assert h[2] == Hex(u / 16 % 16) && h[3] == Hex(u % 16);
  }

  /** Whatever unit is escaped is the unit read. */
  lemma EscapeReadsBack(u: Unit, x: Text)
    ensures ReadUnit(Escape(u) + x) == Some((u, |Escape(u)|))
    ensures Escape(u)[0] != QUOTE
  {
    if |Escape(u)| == 6 {
      HexReadsBack(u, x);
    }
  }

  lemma ReadOneMore(chunk: Text, rest: Text, u: Unit, v: Text, x: Text)
    requires chunk != [] && chunk[0] != QUOTE
    requires ReadUnit(chunk + rest) == Some((u, |chunk|)) && ReadBody(rest) == Some((v, x))
    ensures ReadBody(chunk + rest) == Some(([u] + v, x))
  {
    assert (chunk + rest)[|chunk|..] == rest;
  }

  lemma SurrogateReadsBack(u: Unit, rest: Text)
    requires IsHigh(u) || IsLow(u)
    ensures ReadUnit([u] + rest) == Some((u, 1))
  {
  }

  /** Surrogates stand for themselves. */
  lemma PairReadsBack(a: Unit, b: Unit, rest: Text, v: Text, x: Text)
    requires IsHigh(a) && IsLow(b) && ReadBody(rest) == Some((v, x))
    ensures ReadBody([a, b] + rest) == Some(([a, b] + v, x))
  {
    hide ReadBody, ReadUnit;
    SurrogateReadsBack(b, rest);
    SurrogateReadsBack(a, [b] + rest);
    ReadOneMore([b], rest, b, v, x);
    ReadOneMore([a], [b] + rest, a, [b] + v, x);
    assert [a] + ([b] + rest) == [a, b] + rest && [a] + ([b] + v) == [a, b] + v;
  }

  /** A quoted string reads back as the string, and nothing of what follows is taken. */
  lemma {:induction false} BodyReadsBack(s: Text, x: Text)
    ensures ReadBody(QuoteBody(s) + ([QUOTE] + x)) == Some((s, x))
    decreases |s|
  {
    hide ReadUnit, Escape;
    var end := [QUOTE] + x;
    if s == [] {
      assert [] + end == end && end[1..] == x;
    } else {
      hide ReadBody, QuoteBody;
      var s' := s[Width(s)..];
      var rest := QuoteBody(s') + end;
      BodyStep(s, end);
      BodyReadsBack(s', x);
      if StartsWithPair(s) {
        assert s == [s[0], s[1]] + s';
        PairReadsBack(s[0], s[1], rest, s', x);
      } else {
        assert s == [s[0]] + s';
        EscapeReadsBack(s[0], rest);
        ReadOneMore(Escape(s[0]), rest, s[0], s', x);
      }
    }
  }

  lemma QuoteReadsBack(s: Text, x: Text)
    ensures ReadString(Quote(s) + x) == Some((s, x))
  {
    hide QuoteBody, ReadBody;
    BodyReadsBack(s, x);
    assert (Quote(s) + x)[1..] == QuoteBody(s) + ([QUOTE] + x);
  }

  // ---------------------------------------------------------------- numbers (section 6 of RFC 8259)

  predicate IsDigits(t: Text) {
    forall i | 0 <= i < |t| :: 48 <= t[i] < 58
  }

  /** The number a text of digits denotes. */
  function NatOf(t: Text): nat
    requires IsDigits(t)
  {
    if t == [] then 0 else 10 * NatOf(t[..|t| - 1]) + (t[|t| - 1] - 48)
  }

  function DigitsValue(digits: seq<Digit>): nat {
    if digits == [] then 0 else 10 * DigitsValue(digits[..|digits| - 1]) + digits[|digits| - 1]
  }

  function TimesTen(n: nat, k: nat): nat {
    if k == 0 then n else 10 * TimesTen(n, k - 1)
  }

  /** The parts of a numeral: whole digits, digits after the point, and an exponent with its sign. */
  datatype Numeral = Numeral(whole: Text, fraction: Text, exponent: Option<(Unit, Text)>)

  predicate IsNumeral(n: Numeral) {
    && n.whole != [] && IsDigits(n.whole) && (n.whole[0] == 48 ==> |n.whole| == 1)
    && IsDigits(n.fraction)
    && (n.exponent.Some? ==>
          (n.exponent.value.0 == PLUS || n.exponent.value.0 == MINUS) && n.exponent.value.1 != [] &&
          IsDigits(n.exponent.value.1))
  }

  /** How the grammar writes it. */
  function NumeralText(n: Numeral): Text {
    n.whole + (if n.fraction == [] then [] else [DOT] + n.fraction) +
    (if n.exponent.None? then [] else [LETTER_E, n.exponent.value.0] + n.exponent.value.1)
  }

  /** The power of ten its digits, read as one number, are multiplied with. */
  function Scale(n: Numeral): int
    requires IsNumeral(n)
  {
    (if n.exponent.None? then 0
     else if n.exponent.value.0 == MINUS then -(NatOf(n.exponent.value.1) as int)
     else NatOf(n.exponent.value.1)) - |n.fraction|
  }

  /** The text is a numeral for value * 10^power. */
  ghost predicate Denotes(t: Text, value: nat, power: int) {
    exists n: Numeral, zeros: nat ::
      && IsNumeral(n) && t == NumeralText(n)
      && NatOf(n.whole + n.fraction) == TimesTen(value, zeros) && Scale(n) == power - zeros
  }

  lemma NumeralDenotes(n: Numeral, value: nat, zeros: nat, power: int)
    requires IsNumeral(n) && NatOf(n.whole + n.fraction) == TimesTen(value, zeros) && Scale(n) == power - zeros
    ensures Denotes(NumeralText(n), value, power)
  {
  }

  lemma {:induction false} DigitTextValue(digits: seq<Digit>)
    ensures IsDigits(DigitText(digits)) && NatOf(DigitText(digits)) == DigitsValue(digits)
  {
    if digits != [] {
      DigitTextValue(digits[..|digits| - 1]);
      assert DigitText(digits)[..|digits| - 1] == DigitText(digits[..|digits| - 1]);
    }
  }

  lemma {:induction false} DecimalValue(n: nat)
    ensures IsDigits(Decimal(n)) && NatOf(Decimal(n)) == n
  {
    if n >= 10 {
      DecimalValue(n / 10);
      assert Decimal(n)[..|Decimal(n)| - 1] == Decimal(n / 10);
    } else {
      assert NatOf([]) == 0 && [48 + n][..0] == [];
    }
  }

  lemma OneMoreDigit(t: Text, u: Unit)
    requires IsDigits(t) && 48 <= u < 58
    ensures IsDigits(t + [u]) && NatOf(t + [u]) == 10 * NatOf(t) + (u - 48)
  {
    assert (t + [u])[..|t|] == t;
  }

  lemma {:induction false} ZerosShift(t: Text, k: nat)
    requires IsDigits(t)
    ensures IsDigits(t + Zeros(k)) && NatOf(t + Zeros(k)) == TimesTen(NatOf(t), k)
  {
    hide NatOf, IsDigits;
    if k == 0 {
      assert t + Zeros(0) == t;
    } else {
      ZerosShift(t, k - 1);
      OneMoreDigit(t + Zeros(k - 1), 48);
      assert t + Zeros(k) == t + Zeros(k - 1) + [48];
    }
  }

  lemma {:induction false} LeadingZeros(k: nat, t: Text)
    requires IsDigits(t)
    ensures IsDigits(Zeros(k) + t) && NatOf(Zeros(k) + t) == NatOf(t)
  {
    if t == [] {
      AllZeros(k);
      assert Zeros(k) + t == Zeros(k);
    } else {
      LeadingZeros(k, t[..|t| - 1]);
      assert (Zeros(k) + t)[..k + |t| - 1] == Zeros(k) + t[..|t| - 1];
    }
  }

  lemma {:induction false} AllZeros(k: nat)
    ensures NatOf(Zeros(k)) == 0
  {
    if k > 0 {
      AllZeros(k - 1);
      assert Zeros(k)[..k - 1] == Zeros(k - 1);
    }
  }

  lemma WholeDenotes(digits: seq<Digit>, point: int)
    requires digits != [] && digits[0] != 0 && |digits| <= point <= 21
    ensures Denotes(Magnitude(digits, point), DigitsValue(digits), point - |digits|)
  {
    hide NatOf, TimesTen, DigitsValue, Denotes, IsDigits, NumeralText;
    var zeros: nat := point - |digits|;
    var n := Numeral(DigitText(digits) + Zeros(zeros), [], None);
    DigitTextValue(digits);
    ZerosShift(DigitText(digits), zeros);
    NoDigits();
    assert n.whole + [] == n.whole;
    WholeText(n.whole);
    NumeralDenotes(n, DigitsValue(digits), zeros, zeros);
  }

  lemma NoDigits()
    ensures IsDigits([])
  {
  }

  lemma WholeText(whole: Text)
    ensures NumeralText(Numeral(whole, [], None)) == whole
  {
    assert whole + [] + [] == whole;
  }

  lemma FractionDenotes(digits: seq<Digit>, point: int)
    requires digits != [] && digits[0] != 0 && 0 < point < |digits| && point <= 21
    ensures Denotes(Magnitude(digits, point), DigitsValue(digits), point - |digits|)
  {
    hide NatOf, TimesTen, DigitsValue, Denotes, IsDigits, NumeralText;
    var n := Numeral(DigitText(digits[..point]), DigitText(digits[point..]), None);
    DigitTextValue(digits);
    DigitTextValue(digits[..point]);
    DigitTextValue(digits[point..]);
    DigitTextCuts(digits, point);
    FractionText(n.whole, n.fraction);
    NoZeros(DigitsValue(digits));
    NumeralDenotes(n, DigitsValue(digits), 0, point - |digits|);
  }

  lemma DigitTextCuts(digits: seq<Digit>, i: nat)
    requires i <= |digits|
    ensures DigitText(digits[..i]) + DigitText(digits[i..]) == DigitText(digits)
  {
  }

  lemma FractionText(whole: Text, fraction: Text)
    requires fraction != []
    ensures NumeralText(Numeral(whole, fraction, None)) == whole + [DOT] + fraction
  {
    assert whole + ([DOT] + fraction) + [] == whole + [DOT] + fraction;
  }

  lemma NoZeros(n: nat)
    ensures TimesTen(n, 0) == n
  {
  }

  lemma SmallDenotes(digits: seq<Digit>, point: int)
    requires digits != [] && -5 <= point <= 0
    ensures Denotes(Magnitude(digits, point), DigitsValue(digits), point - |digits|)
  {
    hide NatOf, TimesTen, DigitsValue, Denotes, IsDigits, NumeralText, Magnitude;
    var zeros: nat := -point;
    var text := DigitText(digits);
    var n := Numeral([48], Zeros(zeros) + text, None);
    DigitTextValue(digits);
    LeadingZeros(zeros, text);
    LeadingZeros(zeros + 1, text);
    ZeroIsDigit();
    SmallText(zeros, text);
    SmallMagnitude(digits, point);
    NoZeros(DigitsValue(digits));
    NumeralDenotes(n, DigitsValue(digits), 0, point - |digits|);
  }

  lemma SmallMagnitude(digits: seq<Digit>, point: int)
    requires digits != [] && -5 <= point <= 0
    ensures Magnitude(digits, point) == [48, DOT] + Zeros(-point) + DigitText(digits)
  {
  }

  lemma ZeroIsDigit()
    ensures IsDigits([48])
  {
  }

  lemma SmallText(zeros: nat, text: Text)
    requires text != []
    ensures [48] + (Zeros(zeros) + text) == Zeros(zeros + 1) + text
    ensures NumeralText(Numeral([48], Zeros(zeros) + text, None)) == [48, DOT] + Zeros(zeros) + text
  {
    hide NumeralText;
    FractionText([48], Zeros(zeros) + text);
    assert [48] + [DOT] + (Zeros(zeros) + text) == [48, DOT] + Zeros(zeros) + text;
  }

  lemma ScientificDenotes(digits: seq<Digit>, point: int)
    requires digits != [] && digits[0] != 0 && !Plain(point)
    ensures Denotes(Magnitude(digits, point), DigitsValue(digits), point - |digits|)
  {
    hide NatOf, TimesTen, DigitsValue, Denotes, IsDigits, NumeralText, Decimal, Magnitude, DigitText;
    var size: nat := if point < 0 then 1 - point else point - 1;
    var sign := if point < 0 then MINUS else PLUS;
    var n := Numeral(DigitText(digits[..1]), DigitText(digits[1..]), Some((sign, Decimal(size))));
    DecimalValue(size);
    DigitTextValue(digits);
    DigitTextValue(digits[..1]);
    DigitTextValue(digits[1..]);
    DigitTextCuts(digits, 1);
    ScientificText(digits, point, sign, size);
    assert Magnitude(digits, point) == NumeralText(n);
    NoZeros(DigitsValue(digits));
    NumeralDenotes(n, DigitsValue(digits), 0, point - |digits|);
  }

  lemma ScientificText(digits: seq<Digit>, point: int, sign: Unit, size: nat)
    requires digits != [] && !Plain(point)
    requires sign == (if point < 0 then MINUS else PLUS) && size == if point < 0 then 1 - point else point - 1
    ensures Magnitude(digits, point) ==
              NumeralText(Numeral(DigitText(digits[..1]), DigitText(digits[1..]), Some((sign, Decimal(size)))))
  {
    hide Decimal, DigitText, Mantissa;
    MantissaText(digits);
    ExponentText(Mantissa(digits), sign, Decimal(size));
  }

  lemma MantissaText(digits: seq<Digit>)
    requires digits != []
    ensures Mantissa(digits) ==
            DigitText(digits[..1]) + if digits[1..] == [] then [] else [DOT] + DigitText(digits[1..])
    ensures DigitText(digits[1..]) == [] <==> digits[1..] == []
  {
    var whole, fraction := DigitText(digits[..1]), DigitText(digits[1..]);
    if |digits| == 1 {
      assert digits[..1] == digits;
      assert whole + [] == whole;
    } else {
      assert whole + ([DOT] + fraction) == whole + [DOT] + fraction;
    }
  }

  lemma ExponentText(mantissa: Text, sign: Unit, size: Text)
    ensures mantissa + [LETTER_E] + ([sign] + size) == mantissa + ([LETTER_E, sign] + size)
  {
  }

  /** A positive number 0.d1..dk * 10^point is written as a numeral for d1..dk * 10^(point - k). */
  lemma MagnitudeDenotes(digits: seq<Digit>, point: int)
    requires digits != [] && digits[0] != 0
    ensures Denotes(Magnitude(digits, point), DigitsValue(digits), point - |digits|)
  {
    hide Denotes, Magnitude;
    if !Plain(point) {
      ScientificDenotes(digits, point);
    } else if point >= |digits| {
      WholeDenotes(digits, point);
    } else if point > 0 {
      FractionDenotes(digits, point);
    } else {
      SmallDenotes(digits, point);
    }
  }

  // ---------------------------------------------------------------- values

  /** Each place of the permutation names a different member, in the order of their keys. */
  ghost predicate InKeyOrder(members: seq<Member>, order: seq<nat>) {
    && |order| == |members|
    && (forall i | 0 <= i < |order| :: order[i] < |members|)
    && forall i, j | 0 <= i < j < |order| :: Less(members[order[i]].key, members[order[j]].key)
  }

  /** The text is a JSON text of this value, without white space and with its members in key order. */
  ghost predicate Writes(t: Text, j: Json)
    decreases j
  {
    if WrittenAsNull(j) then t == NULL_TEXT
    else match j
      case Bool(value) => t == if value then TRUE_TEXT else FALSE_TEXT
      case Number(number) =>
        if number.Zero? then t == [48]
        else
          var value, power := DigitsValue(number.digits), number.point - |number.digits|;
          if number.negative then t != [] && t[0] == MINUS && Denotes(t[1..], value, power)
          else Denotes(t, value, power)
      case Str(text) => ReadString(t) == Some((text, []))
      case Arr(items) => exists parts: seq<Text> ::
        && |parts| == |items|
        && t == [OPEN_BRACKET] + Join(parts) + [CLOSE_BRACKET]
        && forall i | 0 <= i < |parts| :: Writes(parts[i], items[i])
      case Obj(members) => exists parts: seq<Entry>, order: seq<nat> ::
        && |parts| == |members| && InKeyOrder(members, order)
        && t == [OPEN_BRACE] + Join(EntryTexts(parts)) + [CLOSE_BRACE]
        && forall i | 0 <= i < |parts| ::
             parts[i].0 == members[order[i]].key && Writes(parts[i].1, members[order[i]].value)
  }

  lemma {:induction false} SortKeepsLength(entries: seq<Entry>)
    ensures |SortByKey(entries)| == |entries|
  {
    if entries != [] {
      SortKeepsLength(entries[1..]);
      InsertAddsOne(entries[0], SortByKey(entries[1..]));
    }
  }

  lemma {:induction false} InsertAddsOne(m: Entry, sorted: seq<Entry>)
    ensures |Insert(m, sorted)| == |sorted| + 1
  {
    if sorted != [] {
      InsertAddsOne(m, sorted[1..]);
    }
  }

  function Position(entries: seq<Entry>, e: Entry): (i: nat)
    requires e in entries
    ensures i < |entries| && entries[i] == e
  {
    if entries[0] == e then 0 else Position(entries[1..], e) + 1
  }

  lemma NumberParts(n: Num)
    requires n.Valid() && n.Finite?
    ensures var t, m := NumberText(n), Magnitude(n.digits, n.point);
            if n.negative then t != [] && t[0] == MINUS && t[1..] == m else t == m
  {
    hide Magnitude;
    var m := Magnitude(n.digits, n.point);
    assert ([MINUS] + m)[1..] == m && [] + m == m;
  }

  /** The canonical text is a JSON text of the value it is taken of. */
  lemma {:induction false} CanonicalWrites(j: Json)
    requires WellFormed(j)
    ensures Writes(Canonical(j), j)
    decreases j
  {
    hide Denotes, Magnitude;
    match j
    case Number(number) =>
      if number.Finite? {
        MagnitudeDenotes(number.digits, number.point);
        NumberParts(number);
      }
    case Str(text) =>
      QuoteReadsBack(text, []);
      assert Quote(text) + [] == Quote(text);
    case Arr(items) =>
      forall i | 0 <= i < |items|
        ensures Writes(ItemTexts(items)[i], items[i])
      {
        CanonicalWrites(items[i]);
      }
    case Obj(members) =>
      forall i | 0 <= i < |members|
        ensures Writes(Canonical(members[i].value), members[i].value)
      {
        CanonicalWrites(members[i].value);
      }
      ObjectWrites(members);
    case _ =>
  }

  lemma ObjectWrites(members: seq<Member>)
    requires WellFormed(Obj(members))
    requires forall i | 0 <= i < |members| :: Writes(Canonical(members[i].value), members[i].value)
    ensures Writes(Canonical(Obj(members)), Obj(members))
  {
    var entries := MemberEntries(members);
    var parts := SortByKey(entries);
    SortKeepsLength(entries);
    SortedEntriesOf(members);
    var order := seq(|parts|, i requires 0 <= i < |parts| => Position(entries, parts[i]));
    assert InKeyOrder(members, order);
    forall i | 0 <= i < |parts|
      ensures parts[i].0 == members[order[i]].key && Writes(parts[i].1, members[order[i]].value)
    {
      assert parts[i] == entries[order[i]];
    }
  }
}
