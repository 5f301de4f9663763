/**
 * The text a stats panel shows above its graph (src/panel.rs): the bare label
 * after `create`, and `format!("{} {}", value, label)` after each `update`.
 */
module PanelCaption {

  datatype Option<T> = None | Some(value: T)

  /** What the text strip was last asked to show. */
  datatype Caption = Title(name: string) | Reading(value: real, name: string)

  predicate IsDigit(c: char) { '0' <= c <= '9' }

  function DigitChar(d: nat): (c: char)
    requires d < 10
    ensures IsDigit(c)
  {
    "0123456789"[d]
  }

  function DigitValue(c: char): nat
  {
    if IsDigit(c) then c as int - '0' as int else 0
  }

  /** Decimal digits of `n`, most significant first, with no leading zero. */
  function Digits(n: nat): (s: string)
    ensures 1 <= |s|
    ensures forall k :: 0 <= k < |s| ==> IsDigit(s[k])
    ensures n > 0 <==> s[0] != '0'
    ensures s[0] == '0' ==> s == "0"
    decreases n
  {
    if n < 10 then [DigitChar(n)] else Digits(n / 10) + [DigitChar(n % 10)]
  }

  /** Reads a run of decimal digits back as a number. */
  function ParseDigits(s: string): nat
    decreases |s|
  {
    if s == [] then 0 else ParseDigits(s[..|s| - 1]) * 10 + DigitValue(s[|s| - 1])
  }

  lemma {:induction false} ParseDigitsInvertsDigits(n: nat)
    ensures ParseDigits(Digits(n)) == n
    decreases n
  {
    if n >= 10 {
      var d := Digits(n / 10);
      var s := d + [DigitChar(n % 10)];
      assert s[..|s| - 1] == d;
      ParseDigitsInvertsDigits(n / 10);
    }
  }

  /** Rust's `{}` for a whole-valued `f64`: the integer in decimal, no fraction, no exponent. */
  function WholeText(n: int): (t: string)
    ensures |t| >= 1
    ensures n >= 0 ==> ParseDigits(t) == n && t[0] != '-'
    ensures n < 0 ==> t[0] == '-' && ParseDigits(t[1..]) == -n
    ensures forall k :: 0 < k < |t| ==> IsDigit(t[k])
    ensures n >= 0 ==> IsDigit(t[0]) && (t[0] == '0' ==> t == "0")
    ensures n < 0 ==> |t| >= 2 && t[1] != '0'
  {
    if n < 0 then
      ParseDigitsInvertsDigits(-n);
      assert ("-" + Digits(-n))[1..] == Digits(-n);
      "-" + Digits(-n)
    else
      ParseDigitsInvertsDigits(n);
      Digits(n)
  }

  /** The caption as text; None for a fractional reading, whose float formatting is not modelled. */
  function Text(c: Caption): (t: Option<string>)
    ensures c.Title? ==> t == Some(c.name)
    ensures c.Reading? ==> (t.Some? <==> c.value == c.value.Floor as real)
  {
    match c
    case Title(name) => Some(name)
    case Reading(value, name) =>
      if value == value.Floor as real then Some(WholeText(value.Floor) + " " + name) else None
  }

  /** The text before the first space and the text after it (all of `t` and nothing when there is none). */
  function SplitAtSpace(t: string): (parts: (string, string))
    ensures |parts.0| <= |t|
    ensures forall k :: 0 <= k < |parts.0| ==> parts.0[k] != ' '
    decreases |t|
  {
    if t == [] then ([], [])
    else if t[0] == ' ' then ([], t[1..])
    else
      var rest := SplitAtSpace(t[1..]);
      ([t[0]] + rest.0, rest.1)
  }

  lemma {:induction false} SplitAfterWord(word: string, rest: string)
    requires forall k :: 0 <= k < |word| ==> word[k] != ' '
    ensures SplitAtSpace(word + " " + rest) == (word, rest)
    decreases |word|
  {
    var t := word + " " + rest;
    if word == [] {
      assert t == " " + rest;
      assert t[1..] == rest;
    } else {
      assert t[0] == word[0];
      assert t[1..] == word[1..] + " " + rest;
      SplitAfterWord(word[1..], rest);
      assert [word[0]] + word[1..] == word;
    }
  }

  /**
   * The reading `update` draws for a whole, non-negative value is its decimal
   * digits, one space and the label; reading the number back from the text
   * before the first space gives the value, and the rest is the label.
   */
  lemma ReadingRoundTrip(n: nat, name: string)
    ensures Text(Reading(n as real, name)) == Some(Digits(n) + " " + name)
    ensures var parts := SplitAtSpace(Digits(n) + " " + name);
            ParseDigits(parts.0) == n && parts.1 == name
  {
    assert (n as real).Floor == n;
    var d := Digits(n);
    assert forall k :: 0 <= k < |d| ==> d[k] != ' ' by {
      forall k | 0 <= k < |d| ensures d[k] != ' ' { assert IsDigit(d[k]); }
    }
    SplitAfterWord(d, name);
    ParseDigitsInvertsDigits(n);
  }
}
