/** The larger and the smaller of two whole numbers, and numbers written in decimal. */
module Numbers {

  function Max(a: int, b: int): (r: int)
    ensures r >= a && r >= b && (r == a || r == b)
  {
    if a < b then b else a
  }

  function Min(a: int, b: int): (r: int)
    ensures r <= a && r <= b && (r == a || r == b)
  {
    if a < b then a else b
  }

  function Digits(n: nat): string {
    if n < 10 then [('0' as int + n) as char] else Digits(n / 10) + [('0' as int + n % 10) as char]
  }

  function Worth(s: string): int {
    if s == "" then 0 else 10 * Worth(s[..|s| - 1]) + (s[|s| - 1] as int - '0' as int)
  }

  predicate IsDigits(s: string) {
    s != "" && forall i :: 0 <= i < |s| ==> '0' <= s[i] <= '9'
  }

  /** A number is written without leading zeros and reads back. */
  lemma {:induction false} DigitsRead(n: nat)
    ensures Worth(Digits(n)) == n && IsDigits(Digits(n)) && (|Digits(n)| > 1 ==> Digits(n)[0] != '0')
  {
    if n >= 10 {
      DigitsRead(n / 10);
      var front := Digits(n / 10);
      assert Digits(n)[..|Digits(n)| - 1] == front;
      assert n / 10 < 10 ==> front == [('0' as int + n / 10) as char];
    } else {
      assert Digits(n)[..0] == "";
    }
  }

  /** Digits without leading zeros are how their number is written. */
  lemma {:induction false} DigitsWritten(s: string)
    requires IsDigits(s) && (|s| > 1 ==> s[0] != '0')
    ensures Worth(s) >= 0 && Digits(Worth(s)) == s && (s[0] != '0' ==> Worth(s) > 0)
  {
    var front, last := s[..|s| - 1], s[|s| - 1];
    assert s == front + [last];
    if front == "" {
      assert Worth(front) == 0;
    } else {
      DigitsWritten(front);
      assert front[0] == s[0];
      assert Worth(s) / 10 == Worth(front);
    }
  }
}
