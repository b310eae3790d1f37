/**
 std::to_string and atoi.
 */
module Decimal {
  function Digit(d: nat): char
    requires d < 10
  {
    '0' + d as char
  }

  /** std::to_string */
  function Digits(n: nat): (s: seq<char>)
    ensures s != [] && forall i :: 0 <= i < |s| ==> IsDigit(s[i])
  {
    if n < 10 then [Digit(n)] else Digits(n / 10) + [Digit(n % 10)]
  }

  predicate IsDigit(c: char) {
    '0' <= c <= '9'
  }

  predicate IsSpace(c: char) {
    c == ' ' || 9 as char <= c <= 13 as char
  }

  function SkipSpace(s: seq<char>): seq<char> {
    if s != [] && IsSpace(s[0]) then SkipSpace(s[1..]) else s
  }

  function LeadingDigits(s: seq<char>, acc: nat): nat {
    if s != [] && IsDigit(s[0]) then LeadingDigits(s[1..], 10 * acc + (s[0] as int - '0' as int)) else acc
  }

  /** atoi: white space, a sign, digits; the rest is ignored. */
  function Atoi(s: seq<char>): int {
    var t := SkipSpace(s);
    if t != [] && t[0] == '-' then -(LeadingDigits(t[1..], 0) as int)
    else if t != [] && t[0] == '+' then LeadingDigits(t[1..], 0)
    else LeadingDigits(t, 0)
  }

  lemma {:induction false} DigitsReadBack(n: nat, rest: seq<char>)
    ensures LeadingDigits(Digits(n) + rest, 0) == LeadingDigits(rest, n)
    decreases n
  {
    if n < 10 {
      assert ([Digit(n)] + rest)[1..] == rest;
    } else {
      var d := Digit(n % 10);
      assert Digits(n) + rest == Digits(n / 10) + ([d] + rest);
      DigitsReadBack(n / 10, [d] + rest);
      assert ([d] + rest)[1..] == rest;
    }
  }

  lemma {:induction false} SpaceIsSkipped(space: seq<char>, s: seq<char>)
    requires forall c :: c in space ==> c == ' ' || 9 as char <= c <= 13 as char
    requires s == [] || !(s[0] == ' ' || 9 as char <= s[0] <= 13 as char)
    ensures SkipSpace(space + s) == s
  {
    if space == [] {
      assert space + s == s;
    } else {
      assert (space + s)[1..] == space[1..] + s;
      assert space[0] in space && forall c :: c in space[1..] ==> c in space;
      SpaceIsSkipped(space[1..], s);
    }
  }

  /** atoi reads a number behind white space and a sign, up to the first character that is not a digit. */
  lemma AtoiReads(space: seq<char>, sign: seq<char>, n: nat, rest: seq<char>)
    requires forall c :: c in space ==> c == ' ' || 9 as char <= c <= 13 as char
    requires sign == "" || sign == "+" || sign == "-"
    requires rest == [] || !('0' <= rest[0] <= '9')
    ensures Atoi(space + (sign + (Digits(n) + rest))) == if sign == "-" then -(n as int) else n
  {
    var number := Digits(n) + rest;
    SpaceIsSkipped(space, sign + number);
    DigitsReadBack(n, rest);
    assert IsDigit(Digits(n)[0]) && number[0] == Digits(n)[0];
    if sign == "" {
      assert sign + number == number;
    } else {
      assert (sign + number)[1..] == number;
    }
  }

  /** Without a digit there the number is 0. */
  lemma AtoiOfNoNumber(space: seq<char>, sign: seq<char>, rest: seq<char>)
    requires forall c :: c in space ==> c == ' ' || 9 as char <= c <= 13 as char
    requires sign == "" || sign == "+" || sign == "-"
    requires rest == [] || !('0' <= rest[0] <= '9')
    requires sign == "" && rest != [] ==> rest[0] !in "+- " && !(9 as char <= rest[0] <= 13 as char)
    ensures Atoi(space + (sign + rest)) == 0
  {
    SpaceIsSkipped(space, sign + rest);
    if sign == "" {
      assert sign + rest == rest;
    } else {
      assert (sign + rest)[1..] == rest;
    }
  }

  /** to_string writes no leading zero, and 0 as "0". */
  lemma {:induction false} DigitsAreShortest(n: nat)
    ensures n == 0 ==> Digits(n) == "0"
    ensures n > 0 ==> Digits(n)[0] != '0'
    decreases n
  {
    if n >= 10 {
      DigitsAreShortest(n / 10);
    }
  }

  /** atoi reads back what to_string wrote. */
  lemma AtoiOfDigits(n: nat)
    ensures Atoi(Digits(n)) == n
  {
    DigitsReadBack(n, []);
    assert Digits(n) + [] == Digits(n);
    assert IsDigit(Digits(n)[0]);
  }

  lemma DigitsInjective(m: nat, n: nat)
    requires Digits(m) == Digits(n)
    ensures m == n
  {
    AtoiOfDigits(m);
    AtoiOfDigits(n);
  }
}
