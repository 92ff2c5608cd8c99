/** The COBOL copybook field formatter: fitting a string to a field width,
    the text and numeric field formatters, and the memoising entry point
    FormatData with its cache of earlier results. */
module Cobol {
  import opened Wrappers
  import Strconv
  import GoStrings

  // ---------------------------------------------------------------------
  // pad

  /** Fits `input` to `length`: too long, it keeps the leftmost `length`
      characters; otherwise `paddingString` is repeated once per missing
      character and appended (direction "right") or prepended (any other
      direction). A negative length makes the Go code's slice expression
      panic, hence the precondition. */
  function Pad(input: string, paddingString: string, length: int, direction: string): (r: string)
    requires length >= 0
    ensures |input| > length ==> r == input[..length]
    ensures |input| <= length ==> |r| == |input| + |paddingString| * (length - |input|)
    ensures |input| <= length && direction == "right" ==> r[..|input|] == input
    ensures |input| <= length && direction != "right" ==> r[|r| - |input|..] == input
  {
    if |input| > length then input[..length]
    else
      var padding := GoStrings.Repeat(paddingString, length - |input|);
      if direction == "right" then input + padding else padding + input
  }

  /** With a one-character fill every position outside the copy of the
      input holds the fill character: after it for "right", before it for
      any other direction. */
  lemma PadFill(input: string, c: char, length: nat, direction: string)
    ensures var r := Pad(input, [c], length, direction);
      |r| == length &&
      (|input| > length ==> r == input[..length]) &&
      (|input| <= length ==> 
      (direction == "right" ==>
        r[..|input|] == input && forall i :: |input| <= i < length ==> r[i] == c) &&
      (direction != "right" ==>
        r[length - |input|..] == input && forall i :: 0 <= i < length - |input| ==> r[i] == c))
  {
    if |input| > length { return; }
    var k := length - |input|;
    GoStrings.RepeatChar(c, k);
    var padding := GoStrings.Repeat([c], k);
    if direction == "right" {
      assert Pad(input, [c], length, direction) == input + padding;
    } else {
      assert Pad(input, [c], length, direction) == padding + input;
    }
  }

  /** When the input is too long, fill and direction do not matter. */
  lemma PadTruncation(input: string, fill1: string, fill2: string, length: nat, dir1: string, dir2: string)
    requires |input| > length
    ensures Pad(input, fill1, length, dir1) == Pad(input, fill2, length, dir2) == input[..length]
    ensures Pad(input, fill1, length, dir1) <= input
  {
  }

  // ---------------------------------------------------------------------
  // Field formatters

  /** formatTextData: the input followed by spaces up to `length`, or its
      first `length` characters. (The format argument of the Go code is
      unused and not taken.) */
  function FormatText(input: string, length: int): (r: string)
    requires length >= 0
    ensures |r| == length
    ensures |input| >= length ==> r == input[..length]
    ensures |input| < length ==>
      r[..|input|] == input && forall i :: |input| <= i < length ==> r[i] == ' '
  {
    PadFill(input, ' ', length, "right");
    Pad(input, " ", length, "right")
  }

  /** The plain-integer path of formatNumericalData: the canonical decimal
      `d` of the parsed input (0 when it does not parse), zero-filled on the
      left, or its first `length` characters when `d` is too long, so the
      low-order digits are the ones dropped. A '-' stays where Itoa put it,
      behind the zeros. */
  function FormatInteger(input: string, length: int): (r: string)
    requires length >= 0
    ensures var d := Strconv.Itoa(Strconv.Atoi(input));
      |r| == length &&
      (|d| > length ==> r == d[..length]) &&
      (|d| <= length ==>
        r[length - |d|..] == d && forall i :: 0 <= i < length - |d| ==> r[i] == '0')
  {
    var d := Strconv.Itoa(Strconv.Atoi(input));
    PadFill(d, '0', length, "left");
    Pad(d, "0", length, "left")
  }

  /** Digit counts of an implied-decimal picture clause. */
  datatype Layout = Layout(integralDigits: nat, fractionalDigits: nat)

  /** The three presets the formatter recognises by exact match; any other
      format gets no digits at all. Note that "9(3)V9(6)" is given six
      integral and three fractional digits. */
  function DecimalLayout(format: string): (layout: Layout)
    ensures layout != Layout(0, 0) ==> |format| > 0 && format[0] == '9' && 'V' in format
  {
    if format == "9(12)V9(5)" then Layout(12, 5)
    else if format == "9(15)V99" then Layout(15, 2)
    else if format == "9(3)V9(6)" then Layout(6, 3)
    else Layout(0, 0)
  }

  lemma DecimalPresets(format: string)
    ensures DecimalLayout("9(12)V9(5)") == Layout(12, 5)
    ensures DecimalLayout("9(15)V99") == Layout(15, 2)
    ensures DecimalLayout("9(3)V9(6)") == Layout(6, 3)
    ensures format !in {"9(12)V9(5)", "9(15)V99", "9(3)V9(6)"} ==> DecimalLayout(format) == Layout(0, 0)
  {
  }

  /** The implied-decimal path from the split rendering onward: the
      integral part zero-filled on the left to the integral digit count
      (first characters kept when too long), then the fractional part
      zero-filled on the right to the fractional digit count (first
      characters kept when too long). No point is written. */
  function FormatDecimal(integral: string, fractional: string, format: string): (r: string)
    ensures var n := DecimalLayout(format).integralDigits;
      var m := DecimalLayout(format).fractionalDigits;
      |r| == n + m &&
      (|integral| > n ==> r[..n] == integral[..n]) &&
      (|integral| <= n ==>
        r[n - |integral|..n] == integral && forall i :: 0 <= i < n - |integral| ==> r[i] == '0') &&
      (|fractional| > m ==> r[n..] == fractional[..m]) &&
      (|fractional| <= m ==>
        r[n..n + |fractional|] == fractional && forall i :: n + |fractional| <= i < n + m ==> r[i] == '0')
  {
    var layout := DecimalLayout(format);
    var n, m := layout.integralDigits, layout.fractionalDigits;
    var left := Pad(integral, "0", n, "left");
    var right := Pad(fractional, "0", m, "right");
    PadFill(integral, '0', n, "left");
    PadFill(fractional, '0', m, "right");
    assert (left + right)[..n] == left && (left + right)[n..] == right;
    left + right
  }

  /** formatNumericalData. A format containing 'V' goes the implied-decimal
      way: `render(input)` stands for the big.Float rendering of the
      absolute value of the input, and its first two '.'-separated pieces
      are used, the second piece being missing (an index panic) when the
      rendering has no '.'; `length` is not used. Any other format goes the
      plain-integer way. */
  function FormatNumerical(render: string -> string, input: string, format: string, length: int): (r: Result<string>)
    ensures 'V' in format ==>
      (r.Ok? <==> '.' in render(input)) &&
      (r.Err? ==> r.error == IndexOutOfRange) &&
      (r.Ok? ==> |r.value| == DecimalLayout(format).integralDigits + DecimalLayout(format).fractionalDigits)
    ensures 'V' !in format ==>
      (r.Ok? <==> length >= 0) &&
      (r.Err? ==> r.error == SliceOutOfRange) &&
      (r.Ok? ==> r.value == FormatInteger(input, length) && |r.value| == length)
  {
    if 'V' in format then
      var pieces := GoStrings.Split(render(input), '.');
      if |pieces| < 2 then Err(IndexOutOfRange) else Ok(FormatDecimal(pieces[0], pieces[1], format))
    else if length < 0 then Err(SliceOutOfRange)
    else Ok(FormatInteger(input, length))
  }

  /** What FormatData computes on a cache miss: dispatch on the first
      character of the format. An empty format is an index panic, a first
      character other than 'X' or '9' is the fatal log, and a negative
      width on the text path is a slice panic. */
  function FormatField(render: string -> string, input: string, format: string, length: int): (r: Result<string>)
    ensures |format| == 0 ==> r == Err(IndexOutOfRange)
    ensures |format| > 0 && format[0] != 'X' && format[0] != '9' ==> r == Err(InvalidFormat(format))
    ensures |format| > 0 && format[0] == 'X' ==> (r.Ok? <==> length >= 0)
    ensures r.Ok? && format[0] == 'X' ==> r.value == FormatText(input, length)
    ensures |format| > 0 && format[0] == '9' ==> r == FormatNumerical(render, input, format, length)
    ensures r.Ok? && (format[0] == 'X' || 'V' !in format) ==> |r.value| == length
  {
    if |format| == 0 then Err(IndexOutOfRange)
    else if format[0] == 'X' then (if length < 0 then Err(SliceOutOfRange) else Ok(FormatText(input, length)))
    else if format[0] == '9' then FormatNumerical(render, input, format, length)
    else Err(InvalidFormat(format))
  }

  // ---------------------------------------------------------------------
  // Properties of the formatters

  /** The text format pads "AB" to "AB   " at width 5. */
  lemma TextExample()
    ensures FormatText("AB", 5) == "AB   "
  {
    assert GoStrings.Repeat(" ", 3) == "   ";
  }

  /** A value the integer path renders itself comes back zero-filled. */
  lemma IntegerCanonical(n: int, length: nat)
    requires |Strconv.Itoa(n)| <= length
    ensures FormatInteger(Strconv.Itoa(n), length)
      == GoStrings.Repeat("0", length - |Strconv.Itoa(n)|) + Strconv.Itoa(n)
  {
    var d := Strconv.Itoa(n);
    Strconv.AtoiItoa(n);
    assert Strconv.Itoa(Strconv.Atoi(d)) == d;
    assert FormatInteger(d, length) == Pad(d, "0", length, "left");
    assert Pad(d, "0", length, "left") == GoStrings.Repeat("0", length - |d|) + d;
  }

  lemma {:induction false} ZerosValue(z: string)
    requires forall i :: 0 <= i < |z| ==> z[i] == '0'
    ensures Strconv.AllDigits(z) && Strconv.DigitsValue(z) == 0
  {
    if z != [] {
      ZerosValue(z[..|z| - 1]);
    }
  }

  lemma {:induction false} LeadingZerosValue(z: string, d: string)
    requires Strconv.AllDigits(z) && Strconv.DigitsValue(z) == 0 && Strconv.AllDigits(d)
    ensures Strconv.AllDigits(z + d) && Strconv.DigitsValue(z + d) == Strconv.DigitsValue(d)
  {
    if d != [] {
      var d' := d[..|d| - 1];
      LeadingZerosValue(z, d');
      assert (z + d)[..|z + d| - 1] == z + d';
    } else {
      assert z + d == z;
    }
  }

  /** A non-negative number written into an integer field that is wide
      enough parses back to itself: the leading zeros do not change it. */
  lemma IntegerFieldRoundTrip(n: nat, length: nat)
    requires |Strconv.Itoa(n)| <= length
    ensures Strconv.Atoi(FormatInteger(Strconv.Itoa(n), length)) == n
  {
    var d := Strconv.Itoa(n);
    var z := GoStrings.Repeat("0", length - |d|);
    IntegerCanonical(n, length);
    GoStrings.RepeatChar('0', length - |d|);
    ZerosValue(z);
    LeadingZerosValue(z, d);
    Strconv.DigitsValueOfNatToDigits(n);
    var r := z + d;
    assert r[0] != '+' && r[0] != '-' by {
      GoStrings.RepeatChar('0', length - |d|);
      assert |z| > 0 ==> r[0] == z[0];
      assert |z| == 0 ==> r[0] == d[0];
    }
  }

  /** A negative number written into a field with room to spare does not
      parse back: the '-' ends up behind the zeros. */
  lemma NegativeIntegerField(n: int, length: nat)
    requires n < 0 && |Strconv.Itoa(n)| < length
    ensures Strconv.Atoi(FormatInteger(Strconv.Itoa(n), length)) == 0
  {
    var d := Strconv.Itoa(n);
    var r := FormatInteger(d, length);
    Strconv.AtoiItoa(n);
    assert r[length - |d|] == '-';
    assert r[0] == '0';
    assert !Strconv.IsDigit(r[1..][length - |d| - 1]);
  }

  lemma IntegerExample()
    ensures FormatInteger("42", 5) == "00042"
  {
    assert Strconv.Itoa(42) == "42";
    IntegerCanonical(42, 5);
    assert GoStrings.Repeat("0", 3) == "000";
  }

  /** Input that is not an optional sign followed by digits parses as 0,
      so the field is all zeros. */
  lemma UnparsableInteger(input: string, length: int)
    requires !Strconv.Numeral(input) && length >= 1
    ensures forall i :: 0 <= i < length ==> FormatInteger(input, length)[i] == '0'
  {
    Strconv.AtoiNonNumeral(input);
    assert Strconv.Itoa(0) == "0";
  }

  lemma UnparsableIntegerExample()
    ensures FormatInteger("abc", 5) == "00000"
  {
    assert !Strconv.IsDigit('a');
    assert Strconv.Atoi("abc") == 0;
    assert GoStrings.Repeat("0", 4) == "0000";
  }

  lemma NegativeIntegerExample()
    ensures FormatInteger("-42", 5) == "00-42"
  {
    assert Strconv.Itoa(-42) == "-42";
    IntegerCanonical(-42, 5);
    assert GoStrings.Repeat("0", 2) == "00";
  }

  lemma TruncatedIntegerExample()
    ensures FormatInteger("4217", 2) == "42"
  {
    assert Strconv.NatToDigits(4) == "4";
    assert Strconv.NatToDigits(42) == "42";
    assert Strconv.NatToDigits(421) == "421";
    assert Strconv.NatToDigits(4217) == "4217";
    Strconv.AtoiItoa(4217);
  }

  /** Integral and fractional parts that fit the layout come out as zeros,
      the integral part, the fractional part, zeros: the digits keep their
      place value with the point implied after the integral digits. */
  lemma DecimalFits(integral: string, fractional: string, format: string)
    requires |integral| <= DecimalLayout(format).integralDigits
    requires |fractional| <= DecimalLayout(format).fractionalDigits
    ensures var n := DecimalLayout(format).integralDigits;
      var m := DecimalLayout(format).fractionalDigits;
      FormatDecimal(integral, fractional, format) ==
        GoStrings.Repeat("0", n - |integral|) + integral + fractional + GoStrings.Repeat("0", m - |fractional|)
  {
    var n := DecimalLayout(format).integralDigits;
    var m := DecimalLayout(format).fractionalDigits;
    var left := Pad(integral, "0", n, "left");
    var right := Pad(fractional, "0", m, "right");
    assert FormatDecimal(integral, fractional, format) == left + right;
    assert left == GoStrings.Repeat("0", n - |integral|) + integral;
    assert right == fractional + GoStrings.Repeat("0", m - |fractional|);
  }

  /** A rendering "I.F" (one point) reaches FormatDecimal as the two parts
      I and F. */
  lemma DecimalSplit(render: string -> string, input: string, format: string, length: int, integral: string, fractional: string)
    requires 'V' in format
    requires render(input) == integral + "." + fractional
    requires '.' !in integral && '.' !in fractional
    ensures FormatNumerical(render, input, format, length) == Ok(FormatDecimal(integral, fractional, format))
  {
    GoStrings.SplitTwo(integral, '.', fractional);
  }

  /** The width argument plays no part on the implied-decimal path. */
  lemma DecimalIgnoresLength(render: string -> string, input: string, format: string, length1: int, length2: int)
    requires 'V' in format
    ensures FormatNumerical(render, input, format, length1) == FormatNumerical(render, input, format, length2)
  {
  }

  /** A 'V' format that is not one of the presets yields an empty string. */
  lemma UnknownDecimalFormat(render: string -> string, input: string, format: string, length: int)
    requires 'V' in format && format !in {"9(12)V9(5)", "9(15)V99", "9(3)V9(6)"}
    requires '.' in render(input)
    ensures FormatNumerical(render, input, format, length) == Ok("")
  {
  }

  /** The pieces are those of the renderings "123.45" and "1234567.891"
      (big.Float renders ten significant digits). In the second the
      integral part is one digit too long and loses its last digit. */
  lemma DecimalExamples()
    ensures FormatDecimal("123", "45", "9(15)V99") == "00000000000012345"
    ensures FormatDecimal("1234567", "891", "9(3)V9(6)") == "123456891"
  {
    assert GoStrings.Repeat("0", 12) == "000000000000";
    assert "1234567"[..6] == "123456";
  }

  // ---------------------------------------------------------------------
  // FormatData and its cache

  /** The cache key: the three arguments joined with ':' after a fixed
      prefix. */
  function CacheKey(input: string, format: string, length: int): (k: string)
    ensures "formatData:" <= k
  {
    "formatData:" + input + ":" + format + ":" + Strconv.Itoa(length)
  }

  /** When neither format contains ':', equal keys mean equal arguments. */
  lemma CacheKeyInjective(input1: string, format1: string, length1: int, input2: string, format2: string, length2: int)
    requires ':' !in format1 && ':' !in format2
    requires CacheKey(input1, format1, length1) == CacheKey(input2, format2, length2)
    ensures input1 == input2 && format1 == format2 && length1 == length2
  {
    var p := "formatData:";
    GoStrings.SplitAtLast(p + input1 + ":" + format1, Strconv.Itoa(length1),
                          p + input2 + ":" + format2, Strconv.Itoa(length2), ':');
    Strconv.ItoaInjective(length1, length2);
    GoStrings.SplitAtLast(p + input1, format1, p + input2, format2, ':');
    assert input1 == (p + input1)[|p|..];
    assert input2 == (p + input2)[|p|..];
  }

  /** Two different calls that share a key: the text field "a:X" and the
      field "a" with format "X:X" format differently. */
  lemma CacheKeyCollision(render: string -> string)
    ensures CacheKey("a:X", "X", 5) == CacheKey("a", "X:X", 5)
    ensures FormatField(render, "a:X", "X", 5) == Ok("a:X  ")
    ensures FormatField(render, "a", "X:X", 5) == Ok("a    ")
  {
    assert Strconv.Itoa(5) == "5";
    assert GoStrings.Repeat(" ", 2) == "  ";
    assert Pad("a:X", " ", 5, "right") == "a:X  ";
    assert GoStrings.Repeat(" ", 4) == "    ";
    assert Pad("a", " ", 5, "right") == "a    ";
  }

  /** Every value in `cache` is what FormatField gives for some arguments
      with that key. */
  ghost predicate Consistent(render: string -> string, cache: map<string, string>) {
    forall k :: k in cache ==>
      exists input, format, length ::
        CacheKey(input, format, length) == k && FormatField(render, input, format, length) == Ok(cache[k])
  }

  /** Every value in `cache` was stored for arguments whose format has no
      ':', so no key is shared by two such calls. */
  ghost predicate ColonFree(render: string -> string, cache: map<string, string>) {
    forall k :: k in cache ==>
      exists input, format, length ::
        ':' !in format && CacheKey(input, format, length) == k &&
        FormatField(render, input, format, length) == Ok(cache[k])
  }

  /** Storing a freshly formatted value under its own key keeps both
      properties. */
  lemma StoreKeeps(render: string -> string, cache: map<string, string>, input: string, format: string, length: int, v: string)
    requires FormatField(render, input, format, length) == Ok(v)
    ensures Consistent(render, cache) ==> Consistent(render, cache[CacheKey(input, format, length) := v])
    ensures ':' !in format && ColonFree(render, cache) ==> ColonFree(render, cache[CacheKey(input, format, length) := v])
  {
    var key := CacheKey(input, format, length);
    var after := cache[key := v];
    assert after[key] == v;
    assert forall k :: k in after && k != key ==> k in cache && after[k] == cache[k];
  }

  /** A stored value found under the key of colon-free arguments is the one
      those arguments format to. */
  lemma ColonFreeHit(render: string -> string, cache: map<string, string>, input: string, format: string, length: int)
    requires ColonFree(render, cache) && ':' !in format
    requires CacheKey(input, format, length) in cache
    ensures FormatField(render, input, format, length) == Ok(cache[CacheKey(input, format, length)])
  {
    var key := CacheKey(input, format, length);
    var i, f, l :| ':' !in f && CacheKey(i, f, l) == key && FormatField(render, i, f, l) == Ok(cache[key]);
    CacheKeyInjective(i, f, l, input, format, length);
  }

  /** The package-level cache together with the FormatData entry point.
      `render` stands for the big.Float rendering used on the
      implied-decimal path; it is fixed for the life of the formatter. */
  class Formatter {
    var cacheMap: map<string, string>
    const render: string -> string

    ghost predicate Valid()
      reads this
    {
      Consistent(render, cacheMap)
    }

    ghost predicate Transparent()
      reads this
    {
      ColonFree(render, cacheMap)
    }

    constructor (render: string -> string)
      ensures this.render == render && cacheMap == map[]
      ensures Valid() && Transparent()
    {
      this.render := render;
      cacheMap := map[];
    }

    /** FormatData: a stored value is returned unchanged; otherwise the
        field is formatted, stored under its key and returned. On an error
        (the Go code's fatal log or panic) nothing is stored. The body
        follows the Go code's steps (lookup, format[0] tests, fatal
        check, dispatch, store) rather than calling FormatField, and
        asserts that the two agree. */
    method FormatData(input: string, format: string, length: int) returns (r: Result<string>)
      requires Valid()
      modifies this
      ensures Valid()
      ensures var key := CacheKey(input, format, length);
        if key in old(cacheMap) then
          r == Ok(old(cacheMap)[key]) && cacheMap == old(cacheMap) &&
          exists i, f, l :: CacheKey(i, f, l) == key && FormatField(render, i, f, l) == r
        else
          r == FormatField(render, input, format, length) &&
          cacheMap == (if r.Ok? then old(cacheMap)[key := r.value] else old(cacheMap))
      ensures old(Transparent()) && ':' !in format ==>
        Transparent() && r == FormatField(render, input, format, length)
    {
      var key := CacheKey(input, format, length);
      if key in cacheMap {
        if Transparent() && ':' !in format {
          ColonFreeHit(render, cacheMap, input, format, length);
        }
        return Ok(cacheMap[key]);
      }
      if |format| == 0 {
        return Err(IndexOutOfRange);
      }
      var isText := format[0] == 'X';
      var isNumeric := format[0] == '9';
      if !isText && !isNumeric {
        return Err(InvalidFormat(format));
      }
      var value: Result<string>;
      if isText {
        if length < 0 {
          return Err(SliceOutOfRange);
        }
        value := Ok(FormatText(input, length));
      } else {
        value := FormatNumerical(render, input, format, length);
      }
      if value.Err? {
        return value;
      }
      assert value == FormatField(render, input, format, length);
      StoreKeeps(render, cacheMap, input, format, length, value.value);
      cacheMap := cacheMap[key := value.value];
      r := Ok(cacheMap[key]);
    }
  }

  /** Two calls whose keys collide: the second returns the first's value
      instead of its own formatting. */
  method CollidingCalls(render: string -> string) returns (first: Result<string>, second: Result<string>)
    ensures first == Ok("a:X  ") && second == Ok("a:X  ")
    ensures FormatField(render, "a", "X:X", 5) == Ok("a    ")
  {
    CacheKeyCollision(render);
    var formatter := new Formatter(render);
    first := formatter.FormatData("a:X", "X", 5);
    second := formatter.FormatData("a", "X:X", 5);
  }

  /** A call with an invalid format that collides with a cached text field
      returns the cached value instead of stopping. */
  method MaskedInvalidFormat(render: string -> string) returns (first: Result<string>, second: Result<string>)
    ensures first == Ok("a:Z  ") && second == Ok("a:Z  ")
    ensures FormatField(render, "a", "Z:X", 5) == Err(InvalidFormat("Z:X"))
  {
    assert CacheKey("a:Z", "X", 5) == CacheKey("a", "Z:X", 5) by {
      assert Strconv.Itoa(5) == "5";
    }
    assert FormatText("a:Z", 5) == "a:Z  " by {
      assert GoStrings.Repeat(" ", 2) == "  ";
      assert Pad("a:Z", " ", 5, "right") == "a:Z  ";
    }
    var formatter := new Formatter(render);
    first := formatter.FormatData("a:Z", "X", 5);
    second := formatter.FormatData("a", "Z:X", 5);
  }
}
