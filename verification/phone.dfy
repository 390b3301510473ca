/**
 * The phone-number field of the contact forms: `formatPhoneNumber` keeps the
 * ASCII digits of what was typed and lays the first ten out as `(ddd) ddd-dddd`.
 */
module Phone {

  predicate IsDigit(c: char) {
    '0' <= c <= '9'
  }

  predicate AllDigits(s: string) {
    forall i | 0 <= i < |s| :: IsDigit(s[i])
  }

  function Min(a: int, b: int): int {
    if a <= b then a else b
  }

  /** `value.replace(/\D/g, '')`: the digits of `s`, in order. */
  function Digits(s: string): (d: string)
    ensures AllDigits(d)
    ensures |d| <= |s|
  {
    if s == [] then []
    else (if IsDigit(s[0]) then [s[0]] else []) + Digits(s[1..])
  }

  /** `formatPhoneNumber(value)`: nothing without digits, and otherwise a
      parenthesised area code followed by as much of the number as was typed. */
  function Format(value: string): (r: string)
    ensures r == [] <==> Digits(value) == []
    ensures r != [] ==> r[0] == '('
    ensures |r| <= 14
  {
    var n := Digits(value);
    if |n| == 0 then ""
    else if |n| <= 3 then "(" + n
    else if |n| <= 6 then "(" + n[..3] + ") " + n[3..]
    else "(" + n[..3] + ") " + n[3..6] + "-" + n[6..Min(10, |n|)]
  }

  lemma {:induction false} DigitsConcat(a: string, b: string)
    ensures Digits(a + b) == Digits(a) + Digits(b)
  {
    if a == [] {
      assert a + b == b;
    } else {
      assert (a + b)[1..] == a[1..] + b;
      DigitsConcat(a[1..], b);
    }
  }

  lemma {:induction false} DigitsOfDigits(d: string)
    requires AllDigits(d)
    ensures Digits(d) == d
  {
    if d != [] {
      DigitsOfDigits(d[1..]);
    }
  }

  /** Digits survive verbatim after a digit-free separator. */
  lemma Tagged(sep: string, d: string)
    requires Digits(sep) == [] && AllDigits(d)
    ensures Digits(sep + d) == d
  {
    DigitsConcat(sep, d);
    DigitsOfDigits(d);
  }

  lemma FormatDigitsShort(n: string)
    requires 0 < |n| <= 3 && AllDigits(n)
    ensures Digits("(" + n) == n
  {
    assert Digits("(") == [];
    Tagged("(", n);
  }

  lemma FormatDigitsMedium(n: string)
    requires 3 < |n| <= 6 && AllDigits(n)
    ensures Digits("(" + n[..3] + ") " + n[3..]) == n
  {
    var a, b := n[..3], n[3..];
    assert Digits("(") == [] && Digits(") ") == [];
    var p1 := "(" + a;
    Tagged("(", a);
    var p2 := p1 + ") ";
    DigitsConcat(p1, ") ");
    DigitsConcat(p2, b);
    DigitsOfDigits(b);
    assert a + [] + b == n;
  }

  lemma FormatDigitsLong(n: string)
    requires 6 < |n| && AllDigits(n)
    ensures Digits("(" + n[..3] + ") " + n[3..6] + "-" + n[6..Min(10, |n|)]) == n[..Min(10, |n|)]
  {
    var a, b, c := n[..3], n[3..6], n[6..Min(10, |n|)];
    assert Digits("(") == [] && Digits(") ") == [] && Digits("-") == [];
    var p1 := "(" + a;
    Tagged("(", a);
    var p2 := p1 + ") ";
    DigitsConcat(p1, ") ");
    var p3 := p2 + b;
    DigitsConcat(p2, b);
    DigitsOfDigits(b);
    var p4 := p3 + "-";
    DigitsConcat(p3, "-");
    DigitsConcat(p4, c);
    DigitsOfDigits(c);
    assert a + [] + b + [] + c == n[..Min(10, |n|)];
  }

  /** The formatted number shows exactly the first (at most ten) digits that
      were typed: nothing is reordered, invented or dropped before the tenth. */
  lemma FormatDigits(value: string)
    ensures Digits(Format(value)) == Digits(value)[..Min(10, |Digits(value)|)]
  {
    var n := Digits(value);
    if |n| == 0 {
    } else if |n| <= 3 {
      FormatDigitsShort(n);
    } else if |n| <= 6 {
      FormatDigitsMedium(n);
    } else {
      FormatDigitsLong(n);
    }
  }

  /** The field displays `Format(phone)` and stores whatever the input then
      reports, so re-formatting a formatted number must change nothing. */
  lemma FormatIdempotent(value: string)
    ensures Format(Format(value)) == Format(value)
  {
    var n := Digits(value);
    FormatDigits(value);
    var m := Digits(Format(value));
    assert m == n[..Min(10, |n|)];
    if |n| >= 7 {
      assert m[..3] == n[..3];
      assert m[3..6] == n[3..6];
      assert m[6..Min(10, |m|)] == n[6..Min(10, |n|)];
    } else {
      assert m == n;
    }
  }
}
