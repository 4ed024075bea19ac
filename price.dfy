/** `extract_price`: the price normaliser applied to every extracted price text. */
module Price {

  import opened Wrappers
  import opened Text

  /** The digits of `s`, in order: what is left after removing every
      character other than a digit or a comma, and then the commas. */
  function Digits(s: string): (d: string)
    ensures |d| <= |s|
    ensures forall i :: 0 <= i < |d| ==> IsDigit(d[i])
  {
    if s == [] then [] else (if IsDigit(s[0]) then [s[0]] else []) + Digits(s[1..])
  }

  function DigitValue(c: char): nat
    requires IsDigit(c)
  {
    c as int - '0' as int
  }

  /** `int(d)` for a string of decimal digits (leading zeros allowed). */
  function DecimalValue(d: string): nat
    requires forall i :: 0 <= i < |d| ==> IsDigit(d[i])
  {
    if d == [] then 0 else 10 * DecimalValue(d[..|d| - 1]) + DigitValue(d[|d| - 1])
  }

  /** BACKEND/app.py `extract_price`: None for the empty text, for the
      "N/A" sentinel and for text without a digit; otherwise the integer
      spelled by all of the text's digits in order. The price is absent
      exactly when the text holds no digit: "" and "N/A" need no case of their own. */
  function ExtractPrice(text: string): (r: Option<nat>)
    ensures r.None? <==> !HasDigit(text)
  {
    DigitsPresent(text);
    assert text == "N/A" ==> !IsDigit(text[0]) && !IsDigit(text[1]) && !IsDigit(text[2]);
    if text == "" || text == "N/A" then None
    else
      var d := Digits(text);
      if d == "" then None else Some(DecimalValue(d))
  }

  /** `str(n)`: the decimal spelling of `n`, without leading zeros. */
  function DecimalString(n: nat): (s: string)
    ensures s != [] && forall i :: 0 <= i < |s| ==> IsDigit(s[i])
  {
    if n < 10 then ['0' + n as char] else DecimalString(n / 10) + ['0' + (n % 10) as char]
  }

  lemma {:induction false} DigitsPresent(s: string)
    ensures Digits(s) != [] <==> HasDigit(s)
  {
    if s != [] {
      DigitsPresent(s[1..]);
      if HasDigit(s) && !IsDigit(s[0]) {
        var i :| 0 <= i < |s| && IsDigit(s[i]);
        assert IsDigit(s[1..][i - 1]);
      }
      if HasDigit(s[1..]) {
        var i :| 0 <= i < |s[1..]| && IsDigit(s[1..][i]);
        assert IsDigit(s[i + 1]);
      }
    }
  }

  lemma DigitsOfDigits(d: string)
    requires forall i :: 0 <= i < |d| ==> IsDigit(d[i])
    ensures Digits(d) == d
  {
  }

  lemma {:induction false} DecimalStringValue(n: nat)
    ensures DecimalValue(DecimalString(n)) == n
  {
    if n >= 10 {
      DecimalStringValue(n / 10);
      var s := DecimalString(n / 10) + ['0' + (n % 10) as char];
      assert s[..|s| - 1] == DecimalString(n / 10);
    }
  }

  /** Otherwise it is the number all the digits of the text spell, in order. */
  lemma ExtractPriceValue(text: string)
    requires HasDigit(text)
    ensures ExtractPrice(text) == Some(DecimalValue(Digits(text)))
  {
  }

  /** Printing a whole number and normalising it again gives the number back. */
  lemma ExtractPriceRoundTrip(n: nat)
    ensures ExtractPrice(DecimalString(n)) == Some(n)
  {
    var s := DecimalString(n);
    DigitsOfDigits(s);
    DecimalStringValue(n);
    assert s != "N/A" by { assert !IsDigit('N'); }
  }

  lemma DigitsAppend(a: string, b: string)
    ensures Digits(a + b) == Digits(a) + Digits(b)
  {
    if a == [] {
      assert a + b == b;
    } else {
      assert (a + b)[1..] == a[1..] + b;
      DigitsAppend(a[1..], b);
    }
  }

  /** Inserting a character that is not a digit (a comma, a rupee sign,
      a space) anywhere in a price text leaves its normalised value unchanged. */
  lemma ExtractPriceIgnoresNonDigits(text: string, i: nat, c: char)
    requires i <= |text| && !IsDigit(c)
    ensures ExtractPrice(text[..i] + [c] + text[i..]) == ExtractPrice(text)
  {
    var t := text[..i] + [c] + text[i..];
    assert text == text[..i] + text[i..];
    DigitsAppend(text[..i] + [c], text[i..]);
    DigitsAppend(text[..i], [c]);
    DigitsAppend(text[..i], text[i..]);
    assert Digits([c]) == [];
    assert Digits(t) == Digits(text);
    DigitsPresent(t);
    DigitsPresent(text);
    if HasDigit(text) {
      ExtractPriceValue(text);
      ExtractPriceValue(t);
    }
  }

  lemma DigitsCons(c: char, s: string)
    ensures Digits([c] + s) == (if IsDigit(c) then [c] else []) + Digits(s)
  {
    assert ([c] + s)[1..] == s;
  }

  lemma DigitsOfSampleTail()
    ensures Digits(",456") == "456"
  {
    DigitsCons('6', "");
    DigitsCons('5', "6");
    DigitsCons('4', "56");
    DigitsCons(',', "456");
  }

  lemma DigitsOfSample()
    ensures Digits("₹1,23,456") == "123456"
  {
    DigitsOfSampleTail();
    DigitsCons('3', ",456");
    DigitsCons('2', "3,456");
    DigitsCons(',', "23,456");
    DigitsCons('1', ",23,456");
    DigitsCons('₹', "1,23,456");
    assert "₹1,23,456" == ['₹'] + "1,23,456";
  }

  lemma DecimalValueOfSample()
    ensures DecimalValue("123456") == 123456
  {
    assert "123456"[..5] == "12345";
    assert "12345"[..4] == "1234";
    assert "1234"[..3] == "123";
    assert "123"[..2] == "12";
    assert "12"[..1] == "1";
  }

  lemma DigitsOfShortSample()
    ensures Digits("₹999") == "999"
  {
    DigitsCons('9', "");
    DigitsCons('9', "9");
    DigitsCons('9', "99");
    DigitsCons('₹', "999");
    assert "₹999" == ['₹'] + "999";
  }

  /** The worked examples: digit-grouped rupee prices and the sentinels. */
  lemma Examples()
    ensures ExtractPrice("₹1,23,456") == Some(123456)
    ensures ExtractPrice("₹999") == Some(999)
    ensures ExtractPrice("N/A") == None
    ensures ExtractPrice("") == None
  {
    DigitsOfSample();
    DecimalValueOfSample();
    DigitsOfShortSample();
    assert "999"[..2] == "99";
    assert "99"[..1] == "9";
    assert DecimalValue("999") == 999;
  }
}
