/** The string operations the services share. Letters change case for ASCII only. */
module Text {
  /** What `str.strip()` removes. */
  predicate IsSpace(c: char) {
    var n := c as int;
    9 <= n <= 13 || 28 <= n <= 32 || n == 0x85 || n == 0xA0 || n == 0x1680 || 0x2000 <= n <= 0x200A
    || n == 0x2028 || n == 0x2029 || n == 0x202F || n == 0x205F || n == 0x3000
  }

  function Strip(s: string): string {
    if s != [] && IsSpace(s[0]) then Strip(s[1..])
    else if s != [] && IsSpace(s[|s| - 1]) then Strip(s[..|s| - 1])
    else s
  }

  /** `s[i..j]` is `s` without the white space around it. */
  ghost predicate Trims(s: string, i: nat, j: nat) {
    && i <= j <= |s|
    && (forall k :: 0 <= k < i || j <= k < |s| ==> IsSpace(s[k]))
    && (i < j ==> !IsSpace(s[i]) && !IsSpace(s[j - 1]))
  }

  /** Stripping takes away exactly the white space around a text. */
  lemma {:induction false} StripTrims(s: string, i: nat, j: nat)
    requires Trims(s, i, j)
    ensures Strip(s) == s[i..j]
    decreases |s|
  {
    if s != [] && IsSpace(s[0]) {
      if i > 0 {
        StripTrims(s[1..], i - 1, j - 1);
      } else {
        assert i == j;
        StripTrims(s[1..], 0, 0);
      }
    } else if s != [] && IsSpace(s[|s| - 1]) {
      StripTrims(s[..|s| - 1], i, j);
    }
  }

  function LowerChar(c: char): char {
    if 'A' <= c <= 'Z' then ((c as int) + 32) as char else c
  }

  function Lower(s: string): (r: string)
    ensures |r| == |s|
  {
    seq(|s|, i requires 0 <= i < |s| => LowerChar(s[i]))
  }

  /** The same character, or the two cases of a letter. */
  predicate SameLetter(c: char, d: char) {
    || c == d
    || ('A' <= c <= 'Z' && d as int == c as int + 32)
    || ('A' <= d <= 'Z' && c as int == d as int + 32)
  }

  /** Lower case forgets the case of letters and nothing else. */
  lemma LowerForgetsCase(s: string, t: string)
    ensures Lower(s) == Lower(t) <==> |s| == |t| && forall i :: 0 <= i < |s| ==> SameLetter(s[i], t[i])
  {
    if Lower(s) == Lower(t) {
      assert |s| == |t|;
      forall i | 0 <= i < |s| ensures SameLetter(s[i], t[i]) {
        assert Lower(s)[i] == Lower(t)[i];
      }
    }
  }

  function DigitText(n: nat): string {
    if n < 10 then [((n as int) + 48) as char] else DigitText(n / 10) + [((n % 10) + 48) as char]
  }

  /** `str` of an integer. */
  function IntText(n: int): string {
    if n < 0 then "-" + DigitText(-n) else DigitText(n)
  }

  /** The number a text of digits stands for. */
  function Value(digits: string): nat
    requires forall i :: 0 <= i < |digits| ==> '0' <= digits[i] <= '9'
  {
    if digits == [] then 0 else 10 * Value(digits[..|digits| - 1]) + (digits[|digits| - 1] as int - 48)
  }

  /** A number's text has digits only, no needless zero in front, and stands for the number. */
  lemma {:induction false} DigitTextReads(n: nat)
    ensures var s := DigitText(n);
            && s != [] && (forall i :: 0 <= i < |s| ==> '0' <= s[i] <= '9') && (s[0] == '0' ==> n == 0)
            && Value(s) == n
  {
    if n >= 10 {
      DigitTextReads(n / 10);
      assert DigitText(n)[..|DigitText(n)| - 1] == DigitText(n / 10);
    }
  }

  /** And a negative number's has a minus sign in front. */
  lemma IntTextReads(n: int)
    ensures IntText(n) != []
    ensures var s := IntText(n);
            var digits := if n < 0 then s[1..] else s;
            && (s[0] == '-' <==> n < 0)
            && (forall i :: 0 <= i < |digits| ==> '0' <= digits[i] <= '9')
            && Value(digits) == if n < 0 then -n else n
  {
    DigitTextReads(if n < 0 then -n else n);
  }

  predicate Blank(s: string) {
    Strip(s) == []
  }
}
