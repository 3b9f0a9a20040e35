/**
 * `DataProcessor._clean_currency`: Brazilian money text such as "R$ 1.234,56"
 * becomes a number; a missing cell, a blank or "-" cell and any text that is
 * not a decimal numeral after the rewriting become 0.
 */
module Currency {
  import opened Wrappers
  import opened PyStr

  predicate IsDigit(c: char) {
    '0' <= c <= '9'
  }

  predicate AllDigits(s: string) {
    forall i :: 0 <= i < |s| ==> IsDigit(s[i])
  }

  /** The natural number a string of decimal digits denotes (0 for the empty string). */
  function DigitsValue(s: string): nat
    requires AllDigits(s)
    decreases |s|
  {
    if s == [] then 0 else DigitsValue(s[..|s| - 1]) * 10 + (s[|s| - 1] as int - '0' as int)
  }

  function Pow10(n: nat): (r: nat)
    ensures r >= 1
  {
    if n == 0 then 1 else 10 * Pow10(n - 1)
  }

  /** The value of the numeral `whole.frac`. */
  function DecimalValue(whole: string, frac: string): real
    requires AllDigits(whole) && AllDigits(frac)
  {
    DigitsValue(whole) as real + DigitsValue(frac) as real / Pow10(|frac|) as real
  }

  /**
   * Python's `float(t)` on an unsigned plain decimal numeral: digits, at most
   * one '.', more digits, and at least one digit in all ("12", "12.5", "12.", ".5").
   */
  function ParseUnsigned(t: string): Option<real> {
    match Find(t, '.')
    case None =>
      if t != [] && AllDigits(t) then Some(DigitsValue(t) as real) else None
    case Some(i) =>
      var whole, frac := t[..i], t[i + 1..];
      if AllDigits(whole) && AllDigits(frac) && |whole| + |frac| > 0
      then Some(DecimalValue(whole, frac))
      else None
  }

  /** Python's `float(t)` on an optionally signed plain decimal numeral; `None` where Python raises. */
  function ParseFloat(t: string): Option<real> {
    if t != [] && (t[0] == '+' || t[0] == '-') then
      match ParseUnsigned(t[1..])
      case None => None
      case Some(v) => Some(if t[0] == '-' then -v else v)
    else ParseUnsigned(t)
  }

  /** The rewriting of `_clean_currency`: drop "R$", delete '.', turn ',' into '.', delete ' ', strip. */
  function Rewrite(s: string): string {
    Strip(Replace(Replace(Replace(Replace(s, "R$", ""), ".", ""), ",", "."), " ", ""))
  }

  /** The text `_clean_currency` treats as no amount at all: blank, or a lone "-". */
  predicate IsBlank(s: string) {
    var t := Strip(s);
    t == "" || t == "-"
  }

  /** `_clean_currency(value)`, where `None` stands for a missing (NaN) cell. */
  function CleanCurrency(cell: Option<string>): (r: real)
    ensures cell.None? ==> r == 0.0
    ensures cell.Some? && IsBlank(cell.value) ==> r == 0.0
    ensures r != 0.0 ==> cell.Some? && ParseFloat(Rewrite(cell.value)) == Some(r)
    ensures cell.Some? && !IsBlank(cell.value) && ParseFloat(Rewrite(cell.value)).Some?
            ==> r == ParseFloat(Rewrite(cell.value)).value
  {
    if cell.None? then 0.0
    else if IsBlank(cell.value) then 0.0
    else match ParseFloat(Rewrite(cell.value))
      case Some(v) => v
      case None => 0.0
  }

  // ---------------------------------------------------------------------
  // A reference formatter for Brazilian money, and the round trip through
  // CleanCurrency.

  function DigitChar(d: nat): (c: char)
    requires d < 10
    ensures IsDigit(c) && c as int - '0' as int == d
  {
    ('0' as int + d) as char
  }

  /** The decimal numeral of `n`, without leading zeros. */
  function Decimal(n: nat): (s: string)
    ensures s != [] && AllDigits(s) && DigitsValue(s) == n
  {
    if n < 10 then [DigitChar(n)]
    else
      var s := Decimal(n / 10) + [DigitChar(n % 10)];
      assert s[..|s| - 1] == Decimal(n / 10);
      s
  }

  /** A digit string with '.' between each group of three digits, counted from the right. */
  function Grouped(ds: string): (g: string)
    requires AllDigits(ds)
    ensures forall i :: 0 <= i < |g| ==> IsDigit(g[i]) || g[i] == '.'
    ensures Replace(g, ".", "") == ds
    decreases |ds|
  {
    if |ds| <= 3 then
      ReplaceAbsent(ds, ".", "");
      ds
    else
      var head, tail := ds[..|ds| - 3], ds[|ds| - 3..];
      var gh := Grouped(head);
      GroupStep(gh, head, tail);
      assert head + tail == ds;
      gh + "." + tail
  }

  /** Deleting the dots of one more group separator and digit group. */
  lemma GroupStep(gh: string, head: string, tail: string)
    requires Replace(gh, ".", "") == head
    requires AllDigits(tail)
    ensures Replace(gh + "." + tail, ".", "") == head + tail
  {
    ReplaceCharConcat(gh + ".", tail, '.', "");
    ReplaceCharConcat(gh, ".", '.', "");
    ReplaceAbsent(tail, ".", "");
  }

  /** "R$ " followed by the grouped whole part, a decimal comma and two cent digits. */
  function Brl(cents: nat): string {
    "R$ " + Grouped(Decimal(cents / 100)) + "," + Cents(cents)
  }

  lemma ReplaceCharAbsent(s: string, c: char, rep: string)
    requires forall i :: 0 <= i < |s| ==> s[i] != c
    ensures Replace(s, [c], rep) == s
  {
    ReplaceAbsent(s, [c], rep);
  }

  /** A two-digit string denotes its tens digit times ten plus its units digit. */
  lemma TwoDigitsValue(cents: nat)
    ensures DigitsValue([DigitChar(cents % 100 / 10), DigitChar(cents % 10)]) == cents % 100
  {
    var two := [DigitChar(cents % 100 / 10), DigitChar(cents % 10)];
    assert two[..1][..0] == [];
    assert two[..1] == [DigitChar(cents % 100 / 10)];
    assert DigitsValue(two[..1]) == cents % 100 / 10;
    var m := cents % 100;
    assert m == m / 10 * 10 + m % 10;
    assert m % 10 == cents % 10 by {
      assert cents == cents / 100 * 100 + m;
      assert cents / 100 * 100 == (cents / 100 * 10) * 10;
    }
  }

  /** The first '.' of `ds + rest` is the one that starts `rest` when `ds` is all digits. */
  lemma {:induction false} FindAfterDigits(ds: string, rest: string)
    requires AllDigits(ds) && rest != [] && rest[0] == '.'
    ensures Find(ds + rest, '.') == Some(|ds|)
    decreases |ds|
  {
    if ds != [] {
      assert (ds + rest)[1..] == ds[1..] + rest;
      FindAfterDigits(ds[1..], rest);
    }
  }

  /** The numeral `whole.frac` parses to the whole part plus the fraction. */
  lemma ParseUnsignedWithDot(whole: string, frac: string)
    requires AllDigits(whole) && AllDigits(frac) && |whole| + |frac| > 0
    ensures ParseUnsigned(whole + "." + frac)
            == Some(DecimalValue(whole, frac))
  {
    var t := whole + ("." + frac);
    assert t == whole + "." + frac;
    FindAfterDigits(whole, "." + frac);
    assert t[..|whole|] == whole;
    assert t[|whole| + 1..] == frac;
  }

  /** A numeral that starts with a digit carries no sign. */
  lemma ParseFloatUnsigned(t: string)
    requires t != [] && IsDigit(t[0])
    ensures ParseFloat(t) == ParseUnsigned(t)
  {
  }

  lemma Pow10Two()
    ensures Pow10(2) == 100
  {
    assert Pow10(1) == 10;
  }

  /** The numeral `ds.dd` parses to the whole part plus the cents. */
  lemma ParseWithCents(ds: string, two: string)
    requires ds != [] && AllDigits(ds) && |two| == 2 && AllDigits(two)
    ensures ParseFloat(ds + "." + two) == Some(DigitsValue(ds) as real + DigitsValue(two) as real / 100.0)
  {
    var t := ds + "." + two;
    assert t[0] == ds[0];
    ParseFloatUnsigned(t);
    ParseUnsignedWithDot(ds, two);
    CentsFraction(ds, two);
  }

  /** With two fraction digits the fraction is hundredths. */
  lemma CentsFraction(ds: string, two: string)
    requires AllDigits(ds) && |two| == 2 && AllDigits(two)
    ensures DecimalValue(ds, two) == DigitsValue(ds) as real + DigitsValue(two) as real / 100.0
  {
    Pow10Two();
    assert Pow10(|two|) as real == 100.0;
  }

  /** What `_clean_currency`'s rewriting does to "R$ " + grouped digits + "," + cents. */
  lemma RewriteOfBrl(ds: string, g: string, two: string, s: string, t: string)
    requires ds != [] && AllDigits(ds) && AllDigits(two) && two != []
    requires forall i :: 0 <= i < |g| ==> IsDigit(g[i]) || g[i] == '.'
    requires Replace(g, ".", "") == ds
    requires s == "R$ " + g + "," + two && t == ds + "." + two
    ensures Rewrite(s) == t
  {
    var s2 := " " + ds + "," + two;
    DropSymbolAndDots(ds, g, two, s, s2);
    CommaAndSpace(ds, two, s2, t);
  }

  lemma DropSymbolAndDots(ds: string, g: string, two: string, s: string, s2: string)
    requires AllDigits(ds) && AllDigits(two)
    requires forall i :: 0 <= i < |g| ==> IsDigit(g[i]) || g[i] == '.'
    requires Replace(g, ".", "") == ds
    requires s == "R$ " + g + "," + two && s2 == " " + ds + "," + two
    ensures Replace(Replace(s, "R$", ""), ".", "") == s2
  {
    var s1 := " " + g + "," + two;
    DropSymbol(g, two, s, s1);
    DropDots(ds, g, two, s1, s2);
  }

  lemma CommaAndSpace(ds: string, two: string, s2: string, t: string)
    requires ds != [] && AllDigits(ds) && AllDigits(two) && two != []
    requires s2 == " " + ds + "," + two && t == ds + "." + two
    ensures Strip(Replace(Replace(s2, ",", "."), " ", "")) == t
  {
    var s3 := " " + ds + "." + two;
    CommaToDot(ds, two, s2, s3);
    DropSpace(ds, two, s3, t);
    StripUnchanged(t);
  }

  lemma DropSymbol(g: string, two: string, s: string, s1: string)
    requires AllDigits(two)
    requires forall i :: 0 <= i < |g| ==> IsDigit(g[i]) || g[i] == '.'
    requires s == "R$ " + g + "," + two && s1 == " " + g + "," + two
    ensures Replace(s, "R$", "") == s1
  {
    assert s == "R$" + s1;
    forall i | 0 <= i < |s1| ensures s1[i] != 'R' {
      if 0 < i <= |g| { assert s1[i] == g[i - 1]; }
      else if i > |g| + 1 { assert s1[i] == two[i - |g| - 2]; }
    }
    assert s[..2] == "R$" && s[2..] == s1;
    ReplaceAbsent(s1, "R$", "");
  }

  lemma DropDots(ds: string, g: string, two: string, s1: string, s2: string)
    requires AllDigits(ds) && AllDigits(two)
    requires Replace(g, ".", "") == ds
    requires s1 == " " + g + "," + two && s2 == " " + ds + "," + two
    ensures Replace(s1, ".", "") == s2
  {
    ReplaceCharConcat(" " + g + ",", two, '.', "");
    ReplaceCharConcat(" " + g, ",", '.', "");
    ReplaceCharConcat(" ", g, '.', "");
    ReplaceCharAbsent(" ", '.', "");
    ReplaceCharAbsent(",", '.', "");
    ReplaceCharAbsent(two, '.', "");
  }

  lemma CommaToDot(ds: string, two: string, s2: string, s3: string)
    requires AllDigits(ds) && AllDigits(two)
    requires s2 == " " + ds + "," + two && s3 == " " + ds + "." + two
    ensures Replace(s2, ",", ".") == s3
  {
    ReplaceCharConcat(" " + ds + ",", two, ',', ".");
    ReplaceCharConcat(" " + ds, ",", ',', ".");
    ReplaceCharConcat(" ", ds, ',', ".");
    ReplaceCharAbsent(" ", ',', ".");
    ReplaceCharAbsent(ds, ',', ".");
    ReplaceCharAbsent(two, ',', ".");
    assert Replace(",", ",", ".") == ".";
  }

  lemma DropSpace(ds: string, two: string, s3: string, t: string)
    requires AllDigits(ds) && AllDigits(two)
    requires s3 == " " + ds + "." + two && t == ds + "." + two
    ensures Replace(s3, " ", "") == t
  {
    ReplaceCharConcat(" " + ds + ".", two, ' ', "");
    ReplaceCharConcat(" " + ds, ".", ' ', "");
    ReplaceCharConcat(" ", ds, ' ', "");
    ReplaceCharAbsent(ds, ' ', "");
    ReplaceCharAbsent(".", ' ', "");
    ReplaceCharAbsent(two, ' ', "");
    assert Replace(" ", " ", "") == "";
  }

  /** Whole part plus cents over one hundred is the amount in cents over one hundred. */
  lemma CentsSplit(cents: nat)
    ensures (cents / 100) as real + (cents % 100) as real / 100.0 == cents as real / 100.0
  {
    assert cents == cents / 100 * 100 + cents % 100;
  }

  /** Cleaning text that is not blank and rewrites to a numeral gives that numeral's value. */
  lemma CleanCurrencyOfNumeral(s: string, t: string, v: real)
    requires !IsBlank(s) && Rewrite(s) == t && ParseFloat(t) == Some(v)
    ensures CleanCurrency(Some(s)) == v
  {
  }

  /** The two cent digits of `Brl`. */
  function Cents(cents: nat): (two: string)
    ensures |two| == 2 && AllDigits(two)
  {
    [DigitChar(cents % 100 / 10), DigitChar(cents % 10)]
  }

  /** The numeral that `Brl(cents)` rewrites to denotes `cents / 100`. */
  lemma ParseOfCents(cents: nat)
    ensures ParseFloat(Decimal(cents / 100) + "." + Cents(cents)) == Some(cents as real / 100.0)
  {
    ParseWithCents(Decimal(cents / 100), Cents(cents));
    TwoDigitsValue(cents);
    CentsSplit(cents);
  }

  /**
   * Formatting an amount of cents as Brazilian money and cleaning it gives the
   * amount back: `_clean_currency(Brl(c)) == c / 100`.
   */
  lemma CleanCurrencyOfBrl(cents: nat)
    ensures CleanCurrency(Some(Brl(cents))) == cents as real / 100.0
  {
    var ds := Decimal(cents / 100);
    var two := Cents(cents);
    ParseOfCents(cents);
    CleanCurrencyOfRendering(ds, Grouped(ds), two, Brl(cents), cents as real / 100.0);
  }

  /** Cleaning "R$ " + grouped digits + "," + cents gives the value of the plain numeral. */
  lemma CleanCurrencyOfRendering(ds: string, g: string, two: string, s: string, v: real)
    requires ds != [] && AllDigits(ds) && |two| == 2 && AllDigits(two)
    requires forall i :: 0 <= i < |g| ==> IsDigit(g[i]) || g[i] == '.'
    requires Replace(g, ".", "") == ds
    requires s == "R$ " + g + "," + two
    requires ParseFloat(ds + "." + two) == Some(v)
    ensures CleanCurrency(Some(s)) == v
  {
    var t := ds + "." + two;
    BrlNotBlank(s, g, two);
    RewriteOfBrl(ds, g, two, s, t);
    CleanCurrencyOfNumeral(s, t, v);
  }

  /** A `Brl` rendering is not blank: it starts with 'R' and ends with a digit. */
  lemma BrlNotBlank(s: string, g: string, two: string)
    requires s == "R$ " + g + "," + two
    requires |two| == 2 && AllDigits(two)
    ensures !IsBlank(s)
  {
    assert s[0] == 'R' && s[|s| - 1] == two[1];
    StripUnchanged(s);
  }

  /** A typical cell: "R$ 1.234,56" is 1234.56. */
  lemma CleanCurrencyExample(s: string)
    requires s == "R$ 1.234,56"
    ensures CleanCurrency(Some(s)) == 1234.56
  {
    var t := ExampleRewrite(s);
    ExampleParse(t);
    assert !IsBlank(s) by { StripUnchanged(s); }
    CleanCurrencyOfNumeral(s, t, 1234.56);
  }

  lemma ExampleRewrite(s: string) returns (t: string)
    requires s == "R$ 1.234,56"
    ensures t == "1234.56" && Rewrite(s) == t
  {
    t := "1234.56";
    var ds, g, two := "1234", "1.234", "56";
    ExampleDropDot(g, ds);
    assert s == "R$ " + g + "," + two && t == ds + "." + two;
    RewriteOfBrl(ds, g, two, s, t);
  }

  lemma ExampleDropDot(g: string, ds: string)
    requires g == "1.234" && ds == "1234"
    ensures Replace(g, ".", "") == ds
  {
    assert g == "1" + ".234" && ".234"[1..] == "234";
    ReplaceCharConcat("1", ".234", '.', "");
    ReplaceCharAbsent("1", '.', "");
    ReplaceCharAbsent("234", '.', "");
  }

  lemma ExampleParse(t: string)
    requires t == "1234.56"
    ensures ParseFloat(t) == Some(1234.56)
  {
    var ds, two := "1234", "56";
    WholeDigits(ds);
    CentDigits(two);
    assert t == ds + "." + two;
    ParseWithCents(ds, two);
  }

  lemma WholeDigits(ds: string)
    requires ds == "1234"
    ensures AllDigits(ds) && DigitsValue(ds) == 1234
  {
    DigitsAppend("", '1', "1");
    DigitsAppend("1", '2', "12");
    DigitsAppend("12", '3', "123");
    DigitsAppend("123", '4', "1234");
  }

  lemma CentDigits(two: string)
    requires two == "56"
    ensures AllDigits(two) && DigitsValue(two) == 56
  {
    DigitsAppend("", '5', "5");
    DigitsAppend("5", '6', "56");
  }

  /**
   * A cell that pandas rendered as the number "1000.5" is read as 10005: every
   * '.' is taken for a thousands separator.
   */
  lemma CleanCurrencyOfDottedNumber(s: string)
    requires s == "1000.5"
    ensures CleanCurrency(Some(s)) == 10005.0
  {
    var t := DottedRewrite(s);
    DottedParse(t);
    assert !IsBlank(s) by { StripUnchanged(s); }
    CleanCurrencyOfNumeral(s, t, 10005.0);
  }

  lemma DottedRewrite(s: string) returns (t: string)
    requires s == "1000.5"
    ensures t == "10005" && Rewrite(s) == t
  {
    t := "10005";
    DottedDropDots(s, t);
    NumeralTail(t);
  }

  lemma DottedDropDots(s: string, t: string)
    requires s == "1000.5" && t == "10005"
    ensures Replace(Replace(s, "R$", ""), ".", "") == t
  {
    ReplaceAbsent(s, "R$", "");
    assert s == "1000" + ".5";
    ReplaceCharConcat("1000", ".5", '.', "");
    ReplaceCharAbsent("1000", '.', "");
    ReplaceCharAbsent("5", '.', "");
    assert Replace(".5", ".", "") == "5";
  }

  /** The last two rewriting steps and the strip leave a plain digit string alone. */
  lemma NumeralTail(t: string)
    requires t != [] && AllDigits(t)
    ensures Strip(Replace(Replace(t, ",", "."), " ", "")) == t
  {
    ReplaceCharAbsent(t, ',', ".");
    ReplaceCharAbsent(t, ' ', "");
    StripUnchanged(t);
  }

  lemma DottedParse(t: string)
    requires t == "10005"
    ensures ParseFloat(t) == Some(10005.0)
  {
    DigitsAppend("", '1', "1");
    DigitsAppend("1", '0', "10");
    DigitsAppend("10", '0', "100");
    DigitsAppend("100", '0', "1000");
    DigitsAppend("1000", '5', "10005");
    assert Find(t, '.') == None;
  }

  /** Appending a digit shifts the value one place and adds the digit. */
  lemma DigitsAppend(s: string, c: char, sc: string)
    requires AllDigits(s) && IsDigit(c) && sc == s + [c]
    ensures AllDigits(sc)
    ensures DigitsValue(sc) == DigitsValue(s) * 10 + (c as int - '0' as int)
  {
    assert sc[..|s|] == s;
  }
}
