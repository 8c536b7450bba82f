/** Small text helpers shared by the emitters. */
module Text {
  function Digit(d: nat): char
    requires d < 10
  {
    '0' + d as char
  }

  predicate IsDigit(ch: char) {
    '0' <= ch <= '9'
  }

  function NatText(n: nat): string {
    if n < 10 then [Digit(n)] else NatText(n / 10) + [Digit(n % 10)]
  }

  lemma {:induction false} NatTextInjective(m: nat, n: nat)
    requires NatText(m) == NatText(n)
    ensures m == n
  {
    NatTextLonger(m);
    NatTextLonger(n);
    var s := NatText(m);
    if m >= 10 && n >= 10 {
      assert s[..|s| - 1] == NatText(m / 10) && s[..|s| - 1] == NatText(n / 10);
      NatTextInjective(m / 10, n / 10);
      assert s[|s| - 1] == Digit(m % 10) && s[|s| - 1] == Digit(n % 10);
    } else if m < 10 && n < 10 {
      assert s[0] == Digit(m) && s[0] == Digit(n);
    }
  }

  lemma {:induction false} NatTextLonger(n: nat)
    ensures |NatText(n)| >= if n < 10 then 1 else 2
    ensures n < 10 ==> |NatText(n)| == 1
  {
    if n >= 10 {
      NatTextLonger(n / 10);
    }
  }
}
