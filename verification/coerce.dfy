/** Python's `int(...)` and `float(...)` as the kiosk applies them to a form
    value: a number is converted directly, a piece of text is parsed as a
    decimal literal, and a value that cannot be read gives `None` (where
    Python raises `ValueError`). */
module Coerce {
  import opened Participants

  /** The ASCII white space that `int` and `float` ignore around a literal:
      space, tab, line feed, vertical tab, form feed, carriage return. */
  predicate IsSpace(c: char)
  {
    c == ' ' || 9 <= c as int <= 13
  }

  predicate IsDigit(c: char)
  {
    '0' <= c <= '9'
  }

  predicate AllDigits(s: string)
  {
    forall i :: 0 <= i < |s| ==> IsDigit(s[i])
  }

  function TrimStart(s: string): (r: string)
    ensures r == [] || !IsSpace(r[0])
    ensures |r| <= |s|
  {
    if s != [] && IsSpace(s[0]) then TrimStart(s[1..]) else s
  }

  function TrimEnd(s: string): (r: string)
    ensures r == [] || !IsSpace(r[|r| - 1])
    ensures |r| <= |s| && forall i :: 0 <= i < |r| ==> r[i] == s[i]
  {
    if s != [] && IsSpace(s[|s| - 1]) then TrimEnd(s[..|s| - 1]) else s
  }

  /** The literal with the surrounding white space removed. */
  function Trim(s: string): (r: string)
    ensures r == [] || (!IsSpace(r[0]) && !IsSpace(r[|r| - 1]))
  {
    TrimEnd(TrimStart(s))
  }

  /** `TrimStart` drops the leading white space and nothing else. */
  lemma {:induction false} TrimStartDropsSpace(s: string)
    ensures forall j :: 0 <= j < |TrimStart(s)| ==> TrimStart(s)[j] == s[|s| - |TrimStart(s)| + j]
    ensures forall k :: 0 <= k < |s| - |TrimStart(s)| ==> IsSpace(s[k])
  {
    if s != [] && IsSpace(s[0]) {
      var u, r := s[1..], TrimStart(s);
      TrimStartDropsSpace(u);
      assert r == TrimStart(u);
      forall j | 0 <= j < |r|
        ensures r[j] == s[|s| - |r| + j]
      {
        assert r[j] == u[|u| - |r| + j];
      }
      forall k | 0 <= k < |s| - |r|
        ensures IsSpace(s[k])
      {
        if k > 0 {
          assert s[k] == u[k - 1];
        }
      }
    }
  }

  /** `TrimEnd` drops the trailing white space and nothing else. */
  lemma {:induction false} TrimEndDropsSpace(s: string)
    ensures forall k :: |TrimEnd(s)| <= k < |s| ==> IsSpace(s[k])
  {
    if s != [] && IsSpace(s[|s| - 1]) {
      TrimEndDropsSpace(s[..|s| - 1]);
    }
  }

  /** White space in front of a literal is stripped, and nothing more. */
  lemma {:induction false} TrimStartPadded(p: string, x: string)
    requires forall k :: 0 <= k < |p| ==> IsSpace(p[k])
    requires x == [] || !IsSpace(x[0])
    ensures TrimStart(p + x) == x
  {
    if p == [] {
      assert p + x == x;
    } else {
      assert (p + x)[0] == p[0] && (p + x)[1..] == p[1..] + x;
      TrimStartPadded(p[1..], x);
    }
  }

  /** White space after a literal is stripped, and nothing more. */
  lemma {:induction false} TrimEndPadded(x: string, q: string)
    requires forall k :: 0 <= k < |q| ==> IsSpace(q[k])
    requires x == [] || !IsSpace(x[|x| - 1])
    ensures TrimEnd(x + q) == x
  {
    if q == [] {
      assert x + q == x;
    } else {
      var s := x + q;
      assert s[|s| - 1] == q[|q| - 1] && s[..|s| - 1] == x + q[..|q| - 1];
      TrimEndPadded(x, q[..|q| - 1]);
    }
  }

  /** A literal padded with white space on either side strips back to
      itself; white space alone strips to nothing. */
  lemma TrimPadded(p: string, t: string, q: string)
    requires forall k :: 0 <= k < |p| ==> IsSpace(p[k])
    requires forall k :: 0 <= k < |q| ==> IsSpace(q[k])
    requires t == [] || (!IsSpace(t[0]) && !IsSpace(t[|t| - 1]))
    ensures Trim(p + t + q) == t
  {
    if t == [] {
      assert p + t + q == (p + q) + [];
      forall k | 0 <= k < |p + q|
        ensures IsSpace((p + q)[k])
      {
        if k >= |p| { assert (p + q)[k] == q[k - |p|]; }
      }
      TrimStartPadded(p + q, []);
      TrimEndPadded([], []);
    } else {
      assert p + t + q == p + (t + q);
      assert (t + q)[0] == t[0];
      TrimStartPadded(p, t + q);
      TrimEndPadded(t, q);
    }
  }

  lemma TrimOfTrimmed(s: string)
    requires s != [] && !IsSpace(s[0]) && !IsSpace(s[|s| - 1])
    ensures Trim(s) == s
  {
  }

  /** The value of a run of decimal digits, most significant first. */
  function DigitsValue(ds: string): nat
    requires AllDigits(ds)
  {
    if ds == [] then 0 else 10 * DigitsValue(ds[..|ds| - 1]) + (ds[|ds| - 1] as int - '0' as int)
  }

  function Pow10(n: nat): (r: nat)
    ensures r >= 1
  {
    if n == 0 then 1 else 10 * Pow10(n - 1)
  }

  /** An optional leading sign: whether it was `-`, and what follows it. */
  function SplitSign(t: string): (bool, string)
  {
    if t != [] && (t[0] == '-' || t[0] == '+') then (t[0] == '-', t[1..]) else (false, t)
  }

  /** `int(text)`: optional sign followed by at least one digit. */
  function ParseInt(s: string): Option<int>
  {
    SignedInt(Trim(s))
  }

  /** An integer literal with no surrounding white space. */
  function SignedInt(t: string): Option<int>
  {
    var (negative, body) := SplitSign(t);
    if body != [] && AllDigits(body) then
      Some(if negative then -(DigitsValue(body) as int) else DigitsValue(body))
    else None
  }

  /** Index of the first '.' in `s`, or `|s|` when there is none. */
  function FirstDot(s: string): (k: nat)
    ensures k <= |s|
    ensures k < |s| ==> s[k] == '.'
    ensures forall i :: 0 <= i < k ==> s[i] != '.'
  {
    if s == [] then 0 else if s[0] == '.' then 0 else 1 + FirstDot(s[1..])
  }

  /** An unsigned decimal `ddd`, `ddd.ddd`, `ddd.` or `.ddd` with at least one digit. */
  function DecimalValue(body: string): Option<real>
  {
    var k := FirstDot(body);
    if k == |body| then DecimalParts(body, []) else DecimalParts(body[..k], body[k + 1..])
  }

  /** The value of the digits before and after the point, if both are digit runs. */
  function DecimalParts(whole: string, frac: string): Option<real>
  {
    if AllDigits(whole) && AllDigits(frac) && |whole| + |frac| > 0 then
      Some(DigitsValue(whole) as real + DigitsValue(frac) as real / Pow10(|frac|) as real)
    else None
  }

  /** `float(text)`: optional sign followed by an unsigned decimal. */
  function ParseReal(s: string): Option<real>
  {
    SignedReal(Trim(s))
  }

  /** A decimal literal with no surrounding white space. */
  function SignedReal(t: string): Option<real>
  {
    var (negative, body) := SplitSign(t);
    match DecimalValue(body)
    case None => None
    case Some(m) => Some(if negative then -m else m)
  }

  /** `int(x)` for a number: truncation toward zero. */
  function Trunc(x: real): (r: int)
    ensures 0.0 <= x ==> 0 <= r && r as real <= x < r as real + 1.0
    ensures x < 0.0 ==> r <= 0 && r as real - 1.0 < x <= r as real
  {
    if x >= 0.0 then x.Floor else -((-x).Floor)
  }

  lemma {:induction false} FirstDotOfDigits(s: string)
    requires AllDigits(s)
    ensures FirstDot(s) == |s|
  {
    if s != [] {
      FirstDotOfDigits(s[1..]);
    }
  }

  /** Every text `int` accepts, `float` accepts too, with the same value. */
  lemma IntTextIsRealText(s: string, n: int)
    requires ParseInt(s) == Some(n)
    ensures ParseReal(s) == Some(n as real)
  {
    var (negative, body) := SplitSign(Trim(s));
    assert SignedInt(Trim(s)) == Some(n);
    assert body != [] && AllDigits(body);
    FirstDotOfDigits(body);
    assert body[..FirstDot(body)] == body;
    assert DecimalValue(body) == Some(DigitsValue(body) as real);
  }

  /** The decimal text of a natural number; `ParseShowInt` shows `ParseInt` reads it back. */
  function ShowNat(n: nat): (r: string)
    ensures r != [] && AllDigits(r)
  {
    if n < 10 then [('0' as int + n) as char]
    else ShowNat(n / 10) + [('0' as int + n % 10) as char]
  }

  function ShowInt(n: int): (r: string)
  {
    if n < 0 then "-" + ShowNat(-n) else ShowNat(n)
  }

  lemma {:induction false} ShowNatValue(n: nat)
    ensures DigitsValue(ShowNat(n)) == n
  {
    if n >= 10 {
      ShowNatValue(n / 10);
      var s := ShowNat(n);
      assert s[..|s| - 1] == ShowNat(n / 10);
    }
  }

  /** An integer's decimal text is a bare signed literal of that integer. */
  lemma SignedShowInt(n: int)
    ensures var s := ShowInt(n); s != [] && !IsSpace(s[0]) && !IsSpace(s[|s| - 1])
    ensures SignedInt(ShowInt(n)) == Some(n)
  {
    var body := if n < 0 then ShowNat(-n) else ShowNat(n);
    ShowNatValue(if n < 0 then -n else n);
    var s := ShowInt(n);
    assert s[|s| - 1] == body[|body| - 1] && IsDigit(body[|body| - 1]);
    if n < 0 {
      assert s[0] == '-' && s[1..] == body;
    } else {
      assert s == body && IsDigit(s[0]);
    }
    assert SplitSign(s) == (n < 0, body);
  }

  /** `int` reads back every integer's decimal text. */
  lemma ParseShowInt(n: int)
    ensures ParseInt(ShowInt(n)) == Some(n)
  {
    SignedShowInt(n);
    TrimOfTrimmed(ShowInt(n));
  }

  /** `int` and `float` ignore white space around an integer's decimal text:
      `int(" 12 ")` is 12. */
  lemma ParsePaddedInt(p: string, n: int, q: string)
    requires forall k :: 0 <= k < |p| ==> IsSpace(p[k])
    requires forall k :: 0 <= k < |q| ==> IsSpace(q[k])
    ensures ParseInt(p + ShowInt(n) + q) == Some(n)
    ensures ParseReal(p + ShowInt(n) + q) == Some(n as real)
  {
    SignedShowInt(n);
    TrimPadded(p, ShowInt(n), q);
    IntTextIsRealText(p + ShowInt(n) + q, n);
  }

  /** `int` refuses a literal with a decimal point, which `float` reads as
      its whole part plus its fraction. */
  lemma DecimalText(w: string, f: string)
    requires AllDigits(w) && AllDigits(f) && |w| + |f| > 0
    ensures ParseInt(w + "." + f) == None
    ensures ParseReal(w + "." + f) == DecimalParts(w, f)
    ensures DecimalParts(w, f).Some?
  {
    var t := w + "." + f;
    assert !IsSpace(t[0]) by { if w != [] { assert t[0] == w[0]; } }
    assert !IsSpace(t[|t| - 1]) by { if f != [] { assert t[|t| - 1] == f[|f| - 1]; } }
    assert t[|w|] == '.';
    TrimOfTrimmed(t);
    assert !IsDigit(t[|w|]);
    assert SplitSign(t) == (false, t) by { if w != [] { assert t[0] == w[0]; } }
    DecimalTextSplits(w, f);
  }

  lemma DecimalTextSplits(w: string, f: string)
    requires AllDigits(w)
    ensures DecimalValue(w + "." + f) == DecimalParts(w, f)
  {
    var t := w + "." + f;
    FirstDotOfDigits(w);
    FirstDotAfter(w, "." + f);
    assert t == w + ("." + f);
    assert t[..|w|] == w && t[|w| + 1..] == f;
  }

  lemma {:induction false} FirstDotAfter(w: string, rest: string)
    requires forall i :: 0 <= i < |w| ==> w[i] != '.'
    requires rest != [] && rest[0] == '.'
    ensures FirstDot(w + rest) == |w|
  {
    if w != [] {
      assert (w + rest)[1..] == w[1..] + rest;
      FirstDotAfter(w[1..], rest);
    }
  }
}
