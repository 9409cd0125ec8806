/** Conservative counts for the README ("17,000+") and their escaped form for badge paths. */
module ReadmeClaims {
  import opened Options
  import opened Decimal

  // ---- thousands separators ----

  /** A run of digits with a comma before every third one from the right. */
  function Group(s: string): string
    decreases |s|
  {
    if |s| <= 3 then s else Group(s[..|s| - 3]) + "," + s[|s| - 3..]
  }

  function WithoutCommas(s: string): string {
    if s == "" then "" else (if s[0] == ',' then "" else [s[0]]) + WithoutCommas(s[1..])
  }

  lemma {:induction false} WithoutCommasAppends(a: string, b: string)
    ensures WithoutCommas(a + b) == WithoutCommas(a) + WithoutCommas(b)
    decreases |a|
  {
    if a == "" {
      assert a + b == b;
    } else {
      assert (a + b)[1..] == a[1..] + b;
      WithoutCommasAppends(a[1..], b);
    }
  }

  predicate AllDigits(s: string) {
    forall i | 0 <= i < |s| :: IsDigit(s[i])
  }

  lemma {:induction false} DigitsHaveNoCommas(s: string)
    requires AllDigits(s)
    ensures WithoutCommas(s) == s
    decreases |s|
  {
    if s != "" { DigitsHaveNoCommas(s[1..]); }
  }

  /** Removing the commas gives the digits back. */
  lemma {:induction false} GroupIsLossless(s: string)
    requires AllDigits(s)
    ensures WithoutCommas(Group(s)) == s
    decreases |s|
  {
    if |s| <= 3 {
      DigitsHaveNoCommas(s);
    } else {
      var front, tail := s[..|s| - 3], s[|s| - 3..];
      GroupIsLossless(front);
      DigitsHaveNoCommas(tail);
      CommaVanishes(Group(front), tail);
      assert front + tail == s;
    }
  }

  lemma CommaVanishes(a: string, b: string)
    ensures WithoutCommas(a + "," + b) == WithoutCommas(a) + WithoutCommas(b)
  {
    WithoutCommasAppends(a + ",", b);
    WithoutCommasAppends(a, ",");
    OneComma();
    assert WithoutCommas(a) + "" == WithoutCommas(a);
  }

  lemma OneComma()
    ensures WithoutCommas(",") == ""
  {
    assert ","[1..] == "";
  }

  /** Counted from the right, every fourth character is a comma and no other is. */
  lemma {:induction false} CommasEveryFourth(s: string, k: nat)
    requires AllDigits(s) && k < |Group(s)|
    ensures Group(s)[|Group(s)| - 1 - k] == ',' <==> k % 4 == 3
    ensures k % 4 != 3 ==> IsDigit(Group(s)[|Group(s)| - 1 - k])
    decreases |s|
  {
    if |s| > 3 && k >= 4 {
      CommasEveryFourth(s[..|s| - 3], k - 4);
      var front := Group(s[..|s| - 3]);
      assert Group(s)[|Group(s)| - 1 - k] == front[|front| - 1 - (k - 4)];
    }
  }

  lemma {:induction false} GroupStartsWithItsFirstDigit(s: string)
    requires s != ""
    ensures Group(s) != "" && Group(s)[0] == s[0]
    decreases |s|
  {
    if |s| > 3 { GroupStartsWithItsFirstDigit(s[..|s| - 3]); }
  }

  // ---- claims ----

  /** A signed integer with thousands separators. */
  function Signed(n: int): string {
    if n < 0 then "-" + Group(Digits(-n)) else Group(Digits(n))
  }

  /** The claim for `value` rounded down to `step`; a step that is not positive is refused. */
  function Floored(value: int, step: int): Option<string> {
    if step <= 0 then None else Some(Signed(value / step * step) + "+")
  }

  /** What a reader takes a claim to promise: the number before the plus. */
  function ReadClaim(claim: string): Option<int> {
    if claim == "" || claim[|claim| - 1] != '+' then None
    else ReadSigned(claim[..|claim| - 1])
  }

  function Negated(n: int): Option<int> { Some(-n) }

  function ReadSigned(s: string): Option<int> {
    if s != "" && s[0] == '-' then
      var n := Parse(WithoutCommas(s[1..]));
      if n.None? then None else Negated(n.value)
    else
      var n := Parse(WithoutCommas(s));
      if n.None? then None else Some(n.value)
  }

  lemma GroupedReadsBack(n: nat)
    ensures Parse(WithoutCommas(Group(Digits(n)))) == Some(n)
    ensures Group(Digits(n)) != "" && IsDigit(Group(Digits(n))[0])
  {
    ParseDigits(n);
    GroupIsLossless(Digits(n));
    GroupStartsWithItsFirstDigit(Digits(n));
  }

  lemma MinusReadsBack(s: string)
    ensures ReadSigned("-" + s) == var n := Parse(WithoutCommas(s)); if n.None? then None else Negated(n.value)
  {
    assert ("-" + s)[1..] == s;
  }

  lemma SignedReadsBack(n: int)
    ensures ReadSigned(Signed(n)) == Some(n)
  {
    if n < 0 {
      GroupedReadsBack(-n);
      MinusReadsBack(Group(Digits(-n)));
    } else {
      GroupedReadsBack(n);
    }
  }

  lemma ClaimReadsBack(value: int, step: int)
    requires step > 0
    ensures Floored(value, step).Some? && ReadClaim(Floored(value, step).value) == Some(value / step * step)
  {
    var claim := Floored(value, step).value;
    assert claim[..|claim| - 1] == Signed(value / step * step);
    SignedReadsBack(value / step * step);
  }

  lemma FloorBounds(value: int, step: int)
    requires step > 0
    ensures value / step * step % step == 0
    ensures value / step * step <= value < value / step * step + step
  {
    var q := value / step;
    assert value == q * step + value % step;
    MultipleModulo(q, step);
  }

  lemma {:induction false} MultipleModulo(q: int, step: int)
    requires step > 0
    ensures q * step % step == 0
    decreases if q >= 0 then q else -q
  {
    if q > 0 {
      MultipleModulo(q - 1, step);
      assert q * step == (q - 1) * step + step;
      ShiftModulo((q - 1) * step, step);
    } else if q < 0 {
      MultipleModulo(q + 1, step);
      assert q * step == (q + 1) * step - step;
      ShiftModulo(q * step, step);
    }
  }

  lemma ShiftModulo(x: int, step: int)
    requires step > 0
    ensures (x + step) % step == x % step
  {
    var q, r := x / step, x % step;
    assert x == q * step + r;
    assert x + step == (q + 1) * step + r;
    QuotientIsUnique(x + step, step, q + 1, r);
  }

  lemma QuotientIsUnique(x: int, step: int, q: int, r: int)
    requires step > 0 && 0 <= r < step && x == q * step + r
    ensures x / step == q && x % step == r
  {
    var q', r' := x / step, x % step;
    assert x == q' * step + r';
    ProductIsMonotone(q' + 1, q, step);
    ProductIsMonotone(q + 1, q', step);
    NextMultiple(q, step);
    NextMultiple(q', step);
  }

  lemma NextMultiple(q: int, step: int)
    ensures (q + 1) * step == q * step + step
  {
  }

  /** A claim never overstates and understates by less than a step; there is none exactly for a bad step. */
  lemma ClaimNeverOverstates(value: int, step: int)
    ensures Floored(value, step).None? <==> step <= 0
    ensures step > 0 ==>
              var n := ReadClaim(Floored(value, step).value);
              n.Some? && n.value % step == 0 && n.value <= value < n.value + step
  {
    if step > 0 {
      ClaimReadsBack(value, step);
      FloorBounds(value, step);
    }
  }

  /** The text changes exactly when the count crosses a multiple of the step, and a larger count never claims less. */
  lemma ClaimChangesWithTheFloor(v: int, w: int, step: int)
    requires step > 0
    ensures Floored(v, step) == Floored(w, step) <==> v / step == w / step
    ensures v <= w ==> v / step <= w / step
    ensures var a, b := ReadClaim(Floored(v, step).value), ReadClaim(Floored(w, step).value);
            a.Some? && b.Some? && (v <= w ==> a.value <= b.value)
  {
    ClaimReadsBack(v, step);
    ClaimReadsBack(w, step);
    FloorIsMonotone(v, w, step);
    FloorIsMonotone(w, v, step);
    ProductIsMonotone(v / step, w / step, step);
    ProductIsMonotone(w / step, v / step, step);
  }

  lemma FloorIsMonotone(v: int, w: int, step: int)
    requires step > 0
    ensures v <= w ==> v / step <= w / step
  {
    FloorBounds(v, step);
    FloorBounds(w, step);
    ProductIsMonotone(w / step + 1, v / step, step);
    assert (w / step + 1) * step == w / step * step + step;
  }

  lemma {:induction false} ProductIsMonotone(a: int, b: int, step: int)
    requires step > 0
    ensures a <= b ==> a * step <= b * step
    ensures a < b ==> a * step < b * step
    decreases b - a
  {
    if a < b {
      ProductIsMonotone(a + 1, b, step);
      NextMultiple(a, step);
    }
  }

  // ---- escaping ----

  /** Every occurrence of one character replaced by a string. */
  function Replace(s: string, c: char, sub: string): string {
    if s == "" then "" else (if s[0] == c then sub else [s[0]]) + Replace(s[1..], c, sub)
  }

  /** The three replacements in the order the badge code makes them. */
  function ShieldEscape(claim: string): string {
    Replace(Replace(Replace(claim, '%', "%25"), ',', "%2C"), '+', "%2B")
  }

  function EscapeChar(c: char): string {
    if c == '%' then "%25" else if c == ',' then "%2C" else if c == '+' then "%2B" else [c]
  }

  function EscapeEach(s: string): string {
    if s == "" then "" else EscapeChar(s[0]) + EscapeEach(s[1..])
  }

  lemma {:induction false} ReplaceAppends(a: string, b: string, c: char, sub: string)
    ensures Replace(a + b, c, sub) == Replace(a, c, sub) + Replace(b, c, sub)
    decreases |a|
  {
    if a == "" {
      assert a + b == b;
    } else {
      assert (a + b)[1..] == a[1..] + b;
      ReplaceAppends(a[1..], b, c, sub);
    }
  }

  lemma {:induction false} ReplaceAbsent(s: string, c: char, sub: string)
    requires forall i | 0 <= i < |s| :: s[i] != c
    ensures Replace(s, c, sub) == s
    decreases |s|
  {
    if s != "" { ReplaceAbsent(s[1..], c, sub); }
  }

  lemma ReplaceOne(x: char, c: char, sub: string)
    ensures Replace([x], c, sub) == if x == c then sub else [x]
  {
    assert [x][1..] == "";
  }

  /** On one character the three passes do what the map does: no pass touches what an earlier one wrote. */
  lemma EscapeOne(c: char)
    ensures ShieldEscape([c]) == EscapeChar(c)
  {
    ReplaceOne(c, '%', "%25");
    ReplaceOne(c, ',', "%2C");
    ReplaceOne(c, '+', "%2B");
    ReplaceAbsent("%25", ',', "%2C");
    ReplaceAbsent("%25", '+', "%2B");
    ReplaceAbsent("%2C", '+', "%2B");
  }

  lemma EscapeAppends(a: string, b: string)
    ensures ShieldEscape(a + b) == ShieldEscape(a) + ShieldEscape(b)
  {
    ReplaceAppends(a, b, '%', "%25");
    ReplaceAppends(Replace(a, '%', "%25"), Replace(b, '%', "%25"), ',', "%2C");
    var a', b' := Replace(Replace(a, '%', "%25"), ',', "%2C"), Replace(Replace(b, '%', "%25"), ',', "%2C");
    ReplaceAppends(a', b', '+', "%2B");
  }

  /** The three sequential passes are one pass of a per-character map. */
  lemma {:induction false} PassesAreOneMap(s: string)
    ensures ShieldEscape(s) == EscapeEach(s)
    decreases |s|
  {
    if s != "" {
      assert s == [s[0]] + s[1..];
      EscapeAppends([s[0]], s[1..]);
      EscapeOne(s[0]);
      PassesAreOneMap(s[1..]);
    }
  }

  /** An upper- or lower-case hexadecimal digit's value (RFC 3986, section 2.1). */
  function HexValue(c: char): Option<nat> {
    if '0' <= c <= '9' then Some((c - '0') as nat)
    else if 'A' <= c <= 'F' then Some((c - 'A') as nat + 10)
    else if 'a' <= c <= 'f' then Some((c - 'a') as nat + 10)
    else None
  }

  predicate IsTriplet(s: string) {
    |s| >= 3 && s[0] == '%' && HexValue(s[1]).Some? && HexValue(s[2]).Some?
  }

  /** Percent-decoding over single-octet characters; a percent sign that starts no triplet stands for itself. */
  function PercentDecode(s: string): string
    decreases |s|
  {
    if s == "" then ""
    else if IsTriplet(s) then
      [(16 * HexValue(s[1]).value + HexValue(s[2]).value) as char] + PercentDecode(s[3..])
    else [s[0]] + PercentDecode(s[1..])
  }

  lemma DecodeOne(c: char, rest: string)
    ensures PercentDecode(EscapeChar(c) + rest) == [c] + PercentDecode(rest)
  {
    var s := EscapeChar(c) + rest;
    if c == '%' || c == ',' || c == '+' {
      assert s[3..] == rest;
    } else {
      assert s[1..] == rest;
    }
  }

  /** Decoding an escaped string gives the string back, whatever characters it holds. */
  lemma {:induction false} DecodeInvertsEscape(s: string)
    ensures PercentDecode(ShieldEscape(s)) == s
    decreases |s|
  {
    PassesAreOneMap(s);
    if s != "" {
      PassesAreOneMap(s[1..]);
      DecodeOne(s[0], EscapeEach(s[1..]));
      DecodeInvertsEscape(s[1..]);
    }
  }

  predicate Has(s: string, c: char) {
    exists i | 0 <= i < |s| :: s[i] == c
  }

  /** The escaped text holds no comma or plus, and holds a dash exactly where the text did. */
  lemma {:induction false} EscapedAlphabet(s: string)
    ensures !Has(ShieldEscape(s), ',') && !Has(ShieldEscape(s), '+')
    ensures Has(ShieldEscape(s), '-') <==> Has(s, '-')
    decreases |s|
  {
    PassesAreOneMap(s);
    if s != "" {
      PassesAreOneMap(s[1..]);
      EscapedAlphabet(s[1..]);
      HasAppends(EscapeChar(s[0]), EscapeEach(s[1..]), ',');
      HasAppends(EscapeChar(s[0]), EscapeEach(s[1..]), '+');
      HasAppends(EscapeChar(s[0]), EscapeEach(s[1..]), '-');
      HasAppends([s[0]], s[1..], '-');
      assert s == [s[0]] + s[1..];
      EscapeCharHas(s[0]);
    }
  }

  lemma EscapeCharHas(c: char)
    ensures !Has(EscapeChar(c), ',') && !Has(EscapeChar(c), '+')
    ensures Has(EscapeChar(c), '-') <==> c == '-'
    ensures Has([c], '-') <==> c == '-'
  {
    if c == '-' { assert EscapeChar(c)[0] == '-' && [c][0] == '-'; }
  }

  lemma HasAppends(a: string, b: string, c: char)
    ensures Has(a + b, c) <==> Has(a, c) || Has(b, c)
  {
    if Has(a, c) {
      var i :| 0 <= i < |a| && a[i] == c;
      assert (a + b)[i] == c;
    }
    if Has(b, c) {
      var i :| 0 <= i < |b| && b[i] == c;
      assert (a + b)[|a| + i] == c;
    }
  }

  lemma {:induction false} GroupHasNoDash(s: string)
    requires AllDigits(s)
    ensures !Has(Group(s), '-')
  {
    forall i | 0 <= i < |Group(s)| ensures Group(s)[i] != '-' {
      CommasEveryFourth(s, |Group(s)| - 1 - i);
    }
  }

  /** A badge path's field separator survives escaping exactly for a negative count. */
  lemma BadgeSeparator(value: int, step: int)
    requires step > 0
    ensures Has(ShieldEscape(Floored(value, step).value), '-') <==> value < 0
  {
    var n := value / step * step;
    EscapedAlphabet(Floored(value, step).value);
    HasAppends(Signed(n), "+", '-');
    FloorBounds(value, step);
    FloorIsMonotone(0, value, step);
    FloorIsMonotone(value, 0, step);
    ProductIsMonotone(0, value / step, step);
    ParseDigits(if n < 0 then -n else n);
    GroupHasNoDash(Digits(if n < 0 then -n else n));
    if n < 0 { assert Signed(n)[0] == '-'; }
  }
}
