/** Numbers in decimal notation, and what `std::stoul` makes of words. */
module Numbers {
  import opened Asio
  import opened HttpClient

  const DIGITS: string := "0123456789"

  function Power10(width: nat): nat {
    if width == 0 then 1 else 10 * Power10(width - 1)
  }

  /** `k` printed with `width` digits. */
  function Printed(k: nat, width: nat): (s: string)
    ensures |s| == width
  {
    if width == 0 then "" else Printed(k / 10, width - 1) + [DIGITS[k % 10]]
  }

  predicate AreDigits(s: string) {
    forall i | 0 <= i < |s| :: IsDigit(s[i])
  }

  lemma DigitIsRead(d: nat)
    requires d < 10
    ensures IsDigit(DIGITS[d]) && Digit(DIGITS[d]) == d
  {
  }

  lemma DigitIsPrinted(c: char)
    ensures IsDigit(c) <==> c in DIGITS
    ensures IsDigit(c) ==> Digit(c) < 10 && DIGITS[Digit(c)] == c
  {
    if IsDigit(c) { assert DIGITS[Digit(c)] == c; }
  }

  /** What is printed is read back. */
  lemma {:induction false} PrintedIsRead(k: nat, width: nat)
    requires k < Power10(width)
    ensures AreDigits(Printed(k, width)) && Decimal(Printed(k, width)) == k
  {
    if width > 0 {
      PrintedIsRead(k / 10, width - 1);
      DigitIsRead(k % 10);
      assert Printed(k, width)[..width - 1] == Printed(k / 10, width - 1);
    }
  }

  /** What is read is what was printed: every string of digits is some number. */
  lemma {:induction false} DigitsArePrinted(s: string)
    requires AreDigits(s)
    ensures Decimal(s) < Power10(|s|) && Printed(Decimal(s), |s|) == s
  {
    if s != "" {
      var front, c := s[..|s| - 1], s[|s| - 1];
      DigitsArePrinted(front);
      DigitIsPrinted(c);
      assert Decimal(s) / 10 == Decimal(front) && Decimal(s) % 10 == Digit(c);
      assert s == front + [c];
    }
  }

  lemma {:induction false} DigitCountIs(digits: string, rest: string)
    requires AreDigits(digits) && (rest == "" || !IsDigit(rest[0]))
    ensures DigitCount(digits + rest) == |digits|
  {
    if digits == "" {
      assert digits + rest == rest;
    } else {
      assert (digits + rest)[1..] == digits[1..] + rest;
      DigitCountIs(digits[1..], rest);
    }
  }

  /** The text is the number `k`, with something other than a digit behind it or nothing. */
  predicate Number(text: string, k: nat, width: nat, rest: string) {
    text == Printed(k, width) + rest && width > 0 && k < Power10(width) && (rest == "" || rest[0] !in DIGITS)
  }

  /** What is behind a sign, or everything if there is none. */
  function Unsign(word: string): string {
    if word != "" && word[0] in "+-" then word[1..] else word
  }

  /** There is no digit behind the sign, or at the beginning if there is none. */
  predicate NoNumber(text: string) {
    text == "" || text[0] !in DIGITS
  }

  lemma {:induction false} NumberIsRead(text: string, k: nat, width: nat, rest: string)
    requires Number(text, k, width, rest)
    ensures Unsigned(text) == if k >= 4294967296 then None else Some(k)
  {
    var digits := Printed(k, width);
    PrintedIsRead(k, width);
    if rest != "" { DigitIsPrinted(rest[0]); }
    DigitCountIs(digits, rest);
    assert text[..width] == digits;
  }

  lemma NoNumberIsRead(text: string)
    requires NoNumber(text)
    ensures Unsigned(text) == None
  {
    if text != "" { DigitIsPrinted(text[0]); }
  }

  /** Every text that begins with a digit begins with a number. */
  lemma {:induction false} NumberOf(text: string) returns (k: nat, width: nat, rest: string)
    requires !NoNumber(text)
    ensures Number(text, k, width, rest)
  {
    DigitIsPrinted(text[0]);
    width := DigitCount(text);
    DigitsAreDigits(text);
    DigitsArePrinted(text[..width]);
    k, rest := Decimal(text[..width]), text[width..];
    DigitsEnd(text);
    if rest != "" { DigitIsPrinted(rest[0]); }
  }

  lemma {:induction false} DigitsEnd(s: string)
    ensures DigitCount(s) < |s| ==> !IsDigit(s[DigitCount(s)])
  {
    if s != "" && IsDigit(s[0]) { DigitsEnd(s[1..]); }
  }

  /** `std::stoul` of a word with a number behind a sign or none: a minus sign counts from 2 to the power of 32. */
  lemma {:induction false} StoulOfNumber(word: string, k: nat, width: nat, rest: string)
    requires Number(Unsign(word), k, width, rest)
    ensures Stoul(word) == if k >= 4294967296 then None
                           else Some(if word[0] == '-' then (4294967296 - k) % 4294967296 else k)
  {
    NumberIsRead(Unsign(word), k, width, rest);
  }

  lemma StoulOfOthers(word: string)
    requires NoNumber(Unsign(word))
    ensures Stoul(word) == None
  {
    NoNumberIsRead(Unsign(word));
  }
}
