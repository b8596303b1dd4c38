/**
 * The handlers of the calculator's text inputs: the change handler strips the thousands commas,
 * parses what is left and passes the number (0 when parsing fails) to a state setter; the blur
 * handler rewrites the field in locale format when that number is positive.
 * `Number.parseFloat` and `toLocaleString` are parameters: their grammar and locale rules are not
 * part of this model.
 */
module InputUtils {
  import opened Wrappers

  /** `text.replace(/,/g, '')`: every comma removed, every other character kept in order. */
  function StripCommas(text: string): (r: string)
    ensures ',' !in r
    ensures |r| <= |text|
    ensures forall c :: c != ',' ==> multiset(r)[c] == multiset(text)[c]
  {
    if |text| == 0 then []
    else
      assert text == [text[0]] + text[1..];
      (if text[0] == ',' then [] else [text[0]]) + StripCommas(text[1..])
  }

  /** Stripping distributes over concatenation, so the surviving characters keep their order. */
  lemma {:induction false} StripCommasConcat(a: string, b: string)
    ensures StripCommas(a + b) == StripCommas(a) + StripCommas(b)
  {
    if |a| > 0 {
      assert (a + b)[1..] == a[1..] + b;
      StripCommasConcat(a[1..], b);
    } else {
      assert a + b == b;
    }
  }

  /** Text without commas is left as it is. */
  lemma {:induction false} NoCommaIdentity(text: string)
    requires ',' !in text
    ensures StripCommas(text) == text
  {
    if |text| > 0 {
      assert text[0] in text;
      assert forall i :: 0 <= i < |text[1..]| ==> text[1..][i] == text[i + 1];
      NoCommaIdentity(text[1..]);
      assert [text[0]] + text[1..] == text;
    }
  }

  /** Stripping twice is stripping once. */
  lemma StripCommasIdempotent(text: string)
    ensures StripCommas(StripCommas(text)) == StripCommas(text)
  {
    NoCommaIdentity(StripCommas(text));
  }

  /**
   * `Number.parseFloat(text without commas) || 0`: a failed parse (NaN) gives 0, and so does a
   * parsed 0; any other parsed number is kept, negative ones included.
   */
  function NumericValue(text: string, parseFloat: string -> Option<real>): (v: real)
    ensures parseFloat(StripCommas(text)).Some? ==> v == parseFloat(StripCommas(text)).value
    ensures parseFloat(StripCommas(text)).None? ==> v == 0.0
  {
    parseFloat(StripCommas(text)).GetOr(0.0)
  }

  /** Every number other than 0 reaches the setter as parsed, negative ones unclamped. */
  lemma NonZeroPassesThrough(text: string, parseFloat: string -> Option<real>, x: real)
    requires parseFloat(StripCommas(text)) == Some(x) && x != 0.0
    ensures NumericValue(text, parseFloat) == x
    ensures x < 0.0 ==> NumericValue(text, parseFloat) < 0.0
  {
  }

  /** A comma anywhere in the text does not change the number it stands for. */
  lemma CommaIgnored(a: string, b: string, parseFloat: string -> Option<real>)
    ensures NumericValue(a + [','] + b, parseFloat) == NumericValue(a + b, parseFloat)
  {
    StripCommasConcat(a, [','] + b);
    StripCommasConcat([','], b);
    StripCommasConcat(a, b);
    assert a + [','] + b == a + ([','] + b);
    assert StripCommas([',']) == [];
    assert StripCommas([','] + b) == StripCommas(b);
    assert StripCommas(a + [','] + b) == StripCommas(a + b);
  }

  /** `handleInputChange`: the number the setter receives for the field's text. */
  method HandleInputChange(text: string, parseFloat: string -> Option<real>) returns (numericValue: real)
    ensures numericValue == NumericValue(text, parseFloat)
  {
    var value := StripCommas(text);
    numericValue := parseFloat(value).GetOr(0.0);
  }

  /** The text a field holds after a blur: its number in locale format when positive, unchanged otherwise. */
  function BlurredText(text: string, parseFloat: string -> Option<real>, toLocaleString: real -> string): (r: string)
    ensures NumericValue(text, parseFloat) > 0.0 ==> r == toLocaleString(NumericValue(text, parseFloat))
    ensures NumericValue(text, parseFloat) <= 0.0 ==> r == text
  {
    var numericValue := NumericValue(text, parseFloat);
    if numericValue > 0.0 then toLocaleString(numericValue) else text
  }

  /**
   * When the locale format of the number parses back to it once commas are stripped, a blur never
   * changes the number a field stands for, and a second blur changes nothing.
   */
  lemma BlurIsStable(text: string, parseFloat: string -> Option<real>, toLocaleString: real -> string)
    requires var v := NumericValue(text, parseFloat);
      v > 0.0 ==> parseFloat(StripCommas(toLocaleString(v))) == Some(v)
    ensures NumericValue(BlurredText(text, parseFloat, toLocaleString), parseFloat) == NumericValue(text, parseFloat)
    ensures BlurredText(BlurredText(text, parseFloat, toLocaleString), parseFloat, toLocaleString)
         == BlurredText(text, parseFloat, toLocaleString)
  {
  }

  /** The input element whose text the blur handler rewrites in place. */
  class InputElement {
    var value: string

    constructor (text: string)
      ensures value == text
    {
      value := text;
    }
  }

  /** `handleInputBlur`: rewrites the element's text only when its number is positive. */
  method HandleInputBlur(e: InputElement, parseFloat: string -> Option<real>, toLocaleString: real -> string)
    modifies e
    ensures e.value == BlurredText(old(e.value), parseFloat, toLocaleString)
  {
    var value := StripCommas(e.value);
    var numericValue := parseFloat(value).GetOr(0.0);
    if numericValue > 0.0 {
      e.value := toLocaleString(numericValue);
    }
  }
}
