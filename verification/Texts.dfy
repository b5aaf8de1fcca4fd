/** Splitting text at a separator, as Python's `str.split` does, and decimal printing. */
module Texts {

  function Split(text: string, sep: char): (parts: seq<string>)
    ensures parts != []
  {
    if text == "" then [""]
    else
      var rest := Split(text[1..], sep);
      if text[0] == sep then [""] + rest else [[text[0]] + rest[0]] + rest[1..]
  }

  function Joined(parts: seq<string>, sep: char): string {
    if parts == [] then ""
    else if |parts| == 1 then parts[0]
    else parts[0] + [sep] + Joined(parts[1..], sep)
  }

  /** Text without the separator is one part. */
  lemma {:induction false} SplitWhole(a: string, sep: char)
    requires sep !in a
    ensures Split(a, sep) == [a]
  {
    if a != "" {
      SplitWhole(a[1..], sep);
      assert a == [a[0]] + a[1..];
    }
  }

  lemma {:induction false} SplitFirst(a: string, b: string, sep: char)
    requires sep !in a
    ensures Split(a + [sep] + b, sep) == [a] + Split(b, sep)
  {
    var text := a + [sep] + b;
    if a == "" {
      assert text[1..] == b;
    } else {
      assert text[1..] == a[1..] + [sep] + b;
      SplitFirst(a[1..], b, sep);
      assert a == [a[0]] + a[1..];
    }
  }

  /** Joining undoes splitting, and no part holds the separator. */
  lemma {:induction false} JoinedSplit(text: string, sep: char)
    ensures Joined(Split(text, sep), sep) == text
    ensures forall k | 0 <= k < |Split(text, sep)| :: sep !in Split(text, sep)[k]
  {
    if text != "" {
      var rest := Split(text[1..], sep);
      JoinedSplit(text[1..], sep);
      assert text == [text[0]] + text[1..];
      if text[0] != sep && |rest| > 1 {
        assert Split(text, sep)[1..] == rest[1..];
        assert [text[0]] + rest[0] + [sep] + Joined(rest[1..], sep)
            == [text[0]] + (rest[0] + [sep] + Joined(rest[1..], sep));
      }
    }
  }

  lemma {:induction false} SplitJoined(parts: seq<string>, sep: char)
    requires parts != [] && forall k | 0 <= k < |parts| :: sep !in parts[k]
    ensures Split(Joined(parts, sep), sep) == parts
  {
    if |parts| == 1 {
      SplitWhole(parts[0], sep);
    } else {
      SplitFirst(parts[0], Joined(parts[1..], sep), sep);
      SplitJoined(parts[1..], sep);
    }
  }

  lemma {:induction false} JoinedBoth(a: seq<string>, b: seq<string>, sep: char)
    requires a != [] && b != []
    ensures Joined(a + b, sep) == Joined(a, sep) + [sep] + Joined(b, sep)
  {
    if |a| == 1 {
      assert (a + b)[1..] == b;
    } else {
      assert (a + b)[1..] == a[1..] + b;
      JoinedBoth(a[1..], b, sep);
      assert a[0] + [sep] + (Joined(a[1..], sep) + [sep] + Joined(b, sep))
          == a[0] + [sep] + Joined(a[1..], sep) + [sep] + Joined(b, sep);
    }
  }

  /** Text is split at a separator into what it is split into on either side. */
  lemma SplitBoth(a: string, b: string, sep: char)
    ensures Split(a + [sep] + b, sep) == Split(a, sep) + Split(b, sep)
  {
    hide Split;
    JoinedSplit(a, sep);
    JoinedSplit(b, sep);
    JoinedBoth(Split(a, sep), Split(b, sep), sep);
    SplitJoined(Split(a, sep) + Split(b, sep), sep);
  }

  lemma SplitInjective(a: string, b: string, sep: char)
    requires Split(a, sep) == Split(b, sep)
    ensures a == b
  {
    JoinedSplit(a, sep);
    JoinedSplit(b, sep);
  }

  // ---------------------------------------------------------------- numbers

  function Digits(n: nat): (text: string)
    ensures text != "" && forall c <- text :: '0' <= c <= '9'
  {
    if n < 10 then [('0' as int + n) as char] else Digits(n / 10) + [('0' as int + n % 10) as char]
  }

  /** `str(n)`. */
  function Decimal(n: int): string {
    if n < 0 then "-" + Digits(-n) else Digits(n)
  }

  /** The number a decimal numeral stands for. */
  function Number(text: string): int {
    if text == "" then 0 else 10 * Number(text[..|text| - 1]) + (text[|text| - 1] as int - '0' as int)
  }

  /** Digits stand for their number, and no numeral but zero's own begins with a zero. */
  lemma {:induction false} DigitsRead(n: nat)
    ensures Number(Digits(n)) == n && (Digits(n)[0] == '0' ==> n == 0)
  {
    if n < 10 {
      assert Digits(n)[..0] == "";
    } else {
      DigitsRead(n / 10);
      assert Digits(n)[..|Digits(n)| - 1] == Digits(n / 10);
    }
  }

  lemma {:induction false} DigitsInjective(m: nat, n: nat)
    requires Digits(m) == Digits(n)
    ensures m == n
  {
    var a, b := Digits(m), Digits(n);
    assert a[|a| - 1] == b[|b| - 1];
    if m >= 10 && n >= 10 {
      assert a[..|a| - 1] == Digits(m / 10) && b[..|b| - 1] == Digits(n / 10);
      DigitsInjective(m / 10, n / 10);
    }
  }

  lemma DecimalSign(n: int)
    ensures Decimal(n)[0] == '-' <==> n < 0
  {
    assert n >= 0 ==> Digits(n)[0] in Digits(n);
  }

  lemma DecimalInjective(m: int, n: int)
    requires Decimal(m) == Decimal(n)
    ensures m == n
  {
    DecimalSign(m);
    DecimalSign(n);
    if m < 0 {
      assert Decimal(m)[1..] == Digits(-m) && Decimal(n)[1..] == Digits(-n);
      DigitsInjective(-m, -n);
    } else {
      DigitsInjective(m, n);
    }
  }

  lemma DecimalPlain(n: int, c: char)
    requires c != '-' && !('0' <= c <= '9')
    ensures c !in Decimal(n)
  {
  }
}
