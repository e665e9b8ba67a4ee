/** Decimal numerals and spreadsheet column letters, as the report writer and loader use them. */
module Numerals {
  import opened Options
  import opened Text

  function DigitOf(d: nat): (ch: char)
    requires d < 10
    ensures IsDigit(ch)
  {
    '0' + d as char
  }

  function Digits(n: nat): string {
    if n < 10 then [DigitOf(n)] else Digits(n / 10) + [DigitOf(n % 10)]
  }

  function Itoa(n: int): string {
    if n < 0 then "-" + Digits(-n) else Digits(n)
  }

  /** Value of a run of digits. */
  function Value(s: string): Option<nat> {
    if s == "" || !IsDigit(s[|s| - 1]) then None
    else
      var last := (s[|s| - 1] - '0') as nat;
      if |s| == 1 then Some(last)
      else
        match Value(s[..|s| - 1])
        case None => None
        case Some(v) => Some(10 * v + last)
  }

  function Atoi(s: string): Option<int> {
    if s == "" then None
    else
      var signed := s[0] == '-' || s[0] == '+';
      match Value(if signed then s[1..] else s)
      case None => None
      case Some(v) =>
        var n: int := v;
        Some(if s[0] == '-' then -n else n)
  }

  lemma {:induction false} DigitsOnly(n: nat)
    ensures Digits(n) != "" && forall i :: 0 <= i < |Digits(n)| ==> IsDigit(Digits(n)[i])
  {
    if n >= 10 {
      DigitsOnly(n / 10);
    }
  }

  lemma {:induction false} ValueOfDigits(n: nat)
    ensures Value(Digits(n)) == Some(n)
  {
    if n >= 10 {
      ValueOfDigits(n / 10);
      DigitsOnly(n / 10);
      var s := Digits(n);
      assert s[..|s| - 1] == Digits(n / 10);
    }
  }

  /** Reading back what was written gives the number. */
  lemma AtoiItoa(n: int)
    ensures Atoi(Itoa(n)) == Some(n)
  {
    if n < 0 {
      ValueOfDigits(-n);
      assert Itoa(n)[1..] == Digits(-n);
    } else {
      ValueOfDigits(n);
      DigitsOnly(n);
    }
  }

  /** Numerals hold digits and a leading minus only. */
  lemma ItoaShape(n: int)
    ensures Itoa(n) != "" && IsDigit(Itoa(n)[|Itoa(n)| - 1])
    ensures forall i :: 0 <= i < |Itoa(n)| ==> IsDigit(Itoa(n)[i]) || Itoa(n)[i] == '-'
  {
    DigitsOnly(if n < 0 then -n else n);
  }

  // ---------------------------------------------------------------- columns

  predicate IsLetter(ch: char) {
    'A' <= ch <= 'Z'
  }

  predicate AllLetters(s: string) {
    forall i :: 0 <= i < |s| ==> IsLetter(s[i])
  }

  /** Letters of a 1-based column; no letters for column zero. */
  function ColLetters(i: nat): (s: string)
    ensures AllLetters(s)
  {
    if i == 0 then "" else ColLetters((i - 1) / 26) + ['A' + ((i - 1) % 26) as char]
  }

  /** Column of some letters, read as a numeral with digits one to twenty-six. */
  function ColIndex(s: string): nat
    requires AllLetters(s)
  {
    if s == "" then 0 else 26 * ColIndex(s[..|s| - 1]) + ((s[|s| - 1] - 'A') as nat + 1)
  }

  method RenderColumn(col: nat) returns (letters: string)
    ensures letters == ColLetters(col)
  {
    letters := "";
    var i := col;
    while i > 0
      invariant ColLetters(col) == ColLetters(i) + letters
    {
      i := i - 1;
      var letter := 'A' + (i % 26) as char;
      assert ColLetters(i + 1) + letters == ColLetters(i / 26) + ([letter] + letters);
      letters := [letter] + letters;
      i := i / 26;
    }
  }

  /** Letters name their column. */
  lemma {:induction false} ColumnOfLetters(i: nat)
    ensures ColIndex(ColLetters(i)) == i
  {
    if i > 0 {
      ColumnOfLetters((i - 1) / 26);
      var s := ColLetters(i);
      assert s[..|s| - 1] == ColLetters((i - 1) / 26);
    }
  }

  /** Every string of capital letters is the name of exactly one column. */
  lemma {:induction false} LettersOfColumn(s: string)
    requires AllLetters(s)
    ensures ColLetters(ColIndex(s)) == s
  {
    if s != "" {
      var init, d := s[..|s| - 1], (s[|s| - 1] - 'A') as nat;
      LettersOfColumn(init);
      var i := ColIndex(s);
      assert i - 1 == 26 * ColIndex(init) + d && d < 26;
      assert (i - 1) / 26 == ColIndex(init) && (i - 1) % 26 == d;
      assert s == init + [s[|s| - 1]];
    }
  }

  lemma ColLettersInjective(i: nat, j: nat)
    requires ColLetters(i) == ColLetters(j)
    ensures i == j
  {
    ColumnOfLetters(i);
    ColumnOfLetters(j);
  }
}
