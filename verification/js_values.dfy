/**
 * JavaScript values as the request handlers see them, and the few pieces of
 * JavaScript string semantics the handlers rely on: truthiness, `trim`, and the
 * conversion of a numeric string into a number.
 */
module JsValues {
  import opened Wrappers

  /**
   * A JSON request-body value. `Undefined` is a key that is absent from the
   * body. Numbers are modelled as integers.
   */
  datatype Value = Undefined | Null | Bool(b: bool) | Num(n: int) | Str(s: string)

  /** JavaScript truthiness: `undefined`, `null`, `false`, `0` and `""` are falsy. */
  predicate Truthy(v: Value)
  {
    match v
    case Undefined => false
    case Null => false
    case Bool(b) => b
    case Num(n) => n != 0
    case Str(s) => s != ""
  }

  /**
   * The white space and line terminators of ECMAScript: the characters that
   * `\s` matches in a regular expression and that `String.prototype.trim` removes.
   */
  predicate IsSpace(c: char)
  {
    || c == '\t' || c == '\n' || c == '\U{B}' || c == '\U{C}' || c == '\r' || c == ' '
    || c == '\U{A0}' || c == '\U{1680}' || ('\U{2000}' <= c <= '\U{200A}')
    || c == '\U{2028}' || c == '\U{2029}' || c == '\U{202F}' || c == '\U{205F}'
    || c == '\U{3000}' || c == '\U{FEFF}'
  }

  predicate AllSpace(s: string)
  {
    forall i :: 0 <= i < |s| ==> IsSpace(s[i])
  }

  /** `s` neither starts nor ends with white space. */
  predicate Tight(s: string)
  {
    s == [] || (!IsSpace(s[0]) && !IsSpace(s[|s| - 1]))
  }

  /** The number of white-space characters `s` starts with. */
  function LeadingSpace(s: string): (n: nat)
    ensures n <= |s|
    ensures forall i :: 0 <= i < n ==> IsSpace(s[i])
    ensures n < |s| ==> !IsSpace(s[n])
  {
    if s != [] && IsSpace(s[0]) then 1 + LeadingSpace(s[1..]) else 0
  }

  /** The number of white-space characters `s` ends with. */
  function TrailingSpace(s: string): (n: nat)
    ensures n <= |s|
    ensures forall i :: |s| - n <= i < |s| ==> IsSpace(s[i])
    ensures n < |s| ==> !IsSpace(s[|s| - n - 1])
  {
    if s != [] && IsSpace(s[|s| - 1]) then 1 + TrailingSpace(s[..|s| - 1]) else 0
  }

  /**
   * `String.prototype.trim`: drops the leading, then the trailing, white space.
   */
  function Trim(s: string): (r: string)
  {
    var t := s[LeadingSpace(s)..];
    t[..|t| - TrailingSpace(t)]
  }

  /**
   * What `trim` returns: a slice of `s` with no white space at either end,
   * surrounded in `s` by white space only.
   */
  lemma TrimShape(s: string) returns (i: nat)
    ensures i + |Trim(s)| <= |s| && Trim(s) == s[i..i + |Trim(s)|]
    ensures AllSpace(s[..i]) && AllSpace(s[i + |Trim(s)|..])
    ensures Tight(Trim(s))
  {
    i := LeadingSpace(s);
    var t := s[i..];
    var n := TrailingSpace(t);
    var r := t[..|t| - n];
    assert r == Trim(s);
    assert s[i + |r|..] == t[|t| - n..];
    if r != [] {
      assert r[0] == s[i];
      assert r[|r| - 1] == t[|t| - n - 1];
    }
  }

  lemma {:induction false} LeadingSpaceOfPadded(p: string, u: string)
    requires AllSpace(p) && (u == [] || !IsSpace(u[0]))
    ensures LeadingSpace(p + u) == |p|
    decreases |p|
  {
    if p != [] {
      assert (p + u)[1..] == p[1..] + u;
      LeadingSpaceOfPadded(p[1..], u);
    } else {
      assert p + u == u;
    }
  }

  lemma {:induction false} TrailingSpaceOfPadded(u: string, q: string)
    requires AllSpace(q) && (u == [] || !IsSpace(u[|u| - 1]))
    ensures TrailingSpace(u + q) == |q|
    decreases |q|
  {
    if q != [] {
      assert (u + q)[..|u + q| - 1] == u + q[..|q| - 1];
      TrailingSpaceOfPadded(u, q[..|q| - 1]);
    } else {
      assert u + q == u;
    }
  }

  /**
   * Trimming recovers any tight string from the white space around it: the
   * uniqueness half of `TrimShape`.
   */
  lemma TrimOfPadded(p: string, t: string, q: string)
    requires AllSpace(p) && AllSpace(q) && Tight(t)
    ensures Trim(p + t + q) == t
  {
    var s := p + t + q;
    if t == [] {
      assert s == p + q;
      if q == [] {
        assert s == p + [];
        LeadingSpaceOfPadded(p, []);
      } else {
        assert AllSpace(s);
        LeadingSpaceOfPadded(s, []);
        assert s + [] == s;
      }
      assert s[LeadingSpace(s)..] == [];
    } else {
      assert s == p + (t + q);
      LeadingSpaceOfPadded(p, t + q);
      assert s[|p|..] == t + q;
      TrailingSpaceOfPadded(t, q);
    }
  }

  /** Trimming twice is trimming once. */
  lemma TrimIdempotent(s: string)
    ensures Trim(Trim(s)) == Trim(s)
  {
  }

  /** White space added around a string does not change what `trim` returns. */
  lemma TrimIgnoresPadding(p: string, s: string, q: string)
    requires AllSpace(p) && AllSpace(q)
    ensures Trim(p + s + q) == Trim(s)
  {
    var a, c := TrimSplit(s);
    var t := Trim(s);
    Regroup(p, a, t, c, q);
    AllSpaceAppend(p, a);
    AllSpaceAppend(c, q);
    TrimOfPadded(p + a, t, c + q);
  }

  /** A string is its trim with white space before and after. */
  lemma TrimSplit(s: string) returns (a: string, c: string)
    ensures AllSpace(a) && AllSpace(c) && s == a + Trim(s) + c
  {
    var i := TrimShape(s);
    a, c := s[..i], s[i + |Trim(s)|..];
    assert s == a + s[i..i + |Trim(s)|] + c;
  }

  lemma Regroup(p: string, a: string, t: string, c: string, q: string)
    ensures p + (a + t + c) + q == (p + a) + t + (c + q)
  {
  }

  lemma AllSpaceAppend(a: string, b: string)
    requires AllSpace(a) && AllSpace(b)
    ensures AllSpace(a + b)
  {
    forall i | 0 <= i < |a + b| ensures IsSpace((a + b)[i]) {
      if i >= |a| {
        assert (a + b)[i] == b[i - |a|];
      }
    }
  }

  /** A string without white space at its ends is its own trim. */
  lemma TrimTight(s: string)
    requires Tight(s)
    ensures Trim(s) == s
  {
    assert [] + s + [] == s;
    TrimOfPadded([], s, []);
  }

  predicate IsDigit(c: char)
  {
    '0' <= c <= '9'
  }

  predicate AllDigits(s: string)
  {
    forall i :: 0 <= i < |s| ==> IsDigit(s[i])
  }

  /** The number a string of decimal digits denotes (most significant digit first). */
  function DigitsValue(ds: string): nat
    requires AllDigits(ds)
  {
    if ds == [] then 0
    else 10 * DigitsValue(ds[..|ds| - 1]) + ((ds[|ds| - 1] as int) - ('0' as int))
  }

  /**
   * The conversion Joi applies to a string offered for a number field (with
   * `convert` on, Joi's default), restricted to integers: white space, an
   * optional sign, one or more decimal digits, white space.
   */
  function ParseInteger(s: string): Option<int>
  {
    var t := Trim(s);
    if |t| >= 2 && (t[0] == '+' || t[0] == '-') && AllDigits(t[1..]) then
      var magnitude: int := DigitsValue(t[1..]);
      Some(if t[0] == '-' then -magnitude else magnitude)
    else if |t| >= 1 && AllDigits(t) then
      Some(DigitsValue(t))
    else
      None
  }

  /** The decimal rendering of a natural number, without leading zeros. */
  function Decimal(n: nat): (r: string)
    ensures |r| >= 1 && AllDigits(r)
  {
    if n < 10 then [('0' as int + n) as char]
    else Decimal(n / 10) + [('0' as int + n % 10) as char]
  }

  /** JavaScript's `String(n)` for an integer. */
  function ShowInt(n: int): string
  {
    if n < 0 then "-" + Decimal(-n) else Decimal(n)
  }

  lemma {:induction false} DecimalValue(n: nat)
    ensures DigitsValue(Decimal(n)) == n
  {
    if n >= 10 {
      var d := Decimal(n);
      assert d[..|d| - 1] == Decimal(n / 10);
      DecimalValue(n / 10);
    }
  }

  /** Reading back the decimal rendering of an integer gives the integer. */
  lemma ParseShowInt(n: int)
    ensures ParseInteger(ShowInt(n)) == Some(n)
  {
    var m: nat := if n < 0 then -n else n;
    DecimalValue(m);
    if n < 0 {
      ParseNegative(Decimal(m));
    } else {
      ParseUnsigned(Decimal(m));
    }
  }

  /** A run of digits converts to the number it denotes. */
  lemma ParseUnsigned(d: string)
    requires |d| >= 1 && AllDigits(d)
    ensures ParseInteger(d) == Some(DigitsValue(d))
  {
    DigitsAreTight(d);
    TrimTight(d);
    assert IsDigit(d[0]);
  }

  /** A minus sign before a run of digits negates the number. */
  lemma ParseNegative(d: string)
    requires |d| >= 1 && AllDigits(d)
    ensures ParseInteger("-" + d) == Some(-(DigitsValue(d) as int))
  {
    var s := "-" + d;
    DigitsAreTight(d);
    assert s[1..] == d;
    assert Tight(s) by {
      assert s[0] == '-' && s[|s| - 1] == d[|d| - 1];
    }
    TrimTight(s);
  }

  /** A non-empty run of digits has no white space at its ends. */
  lemma DigitsAreTight(d: string)
    requires |d| >= 1 && AllDigits(d)
    ensures Tight(d) && !IsSpace(d[|d| - 1])
  {
    assert IsDigit(d[0]) && IsDigit(d[|d| - 1]);
  }
}
