/** JavaScript strings as the browser sees them: sequences of UTF-16 code
    units. `charAt`, `length` and string indexing all walk code units, so a
    character outside the Basic Multilingual Plane is two units (a surrogate
    pair) everywhere in this model. This module also holds the two runtime
    string services the script relies on: the decimal rendering of a number
    in a template literal and `String.prototype.trim`. */
module JsString {

  newtype CodeUnit = x: int | 0 <= x < 0x1_0000

  type Text = seq<CodeUnit>

  /** The code unit of the ASCII digit `d`. */
  function DigitUnit(d: nat): (u: CodeUnit)
    requires d < 10
    ensures 0x30 <= u <= 0x39
  {
    (0x30 + d) as CodeUnit
  }

  predicate IsDigitUnit(u: CodeUnit) {
    0x30 <= u <= 0x39
  }

  /** `${n}` for a non-negative integer: its decimal digits, most
      significant first, with no leading zero. */
  function Decimal(n: nat): (r: Text)
    ensures 1 <= |r|
    ensures n < 10 <==> |r| == 1
    ensures forall i :: 0 <= i < |r| ==> IsDigitUnit(r[i])
    ensures |r| > 1 ==> r[0] != 0x30
  {
    if n < 10 then [DigitUnit(n)] else Decimal(n / 10) + [DigitUnit(n % 10)]
  }

  /** Distinct numbers render to distinct digit strings. */
  lemma {:induction false} DecimalInjective(a: nat, b: nat)
    requires Decimal(a) == Decimal(b)
    ensures a == b
  {
    if a >= 10 && b >= 10 {
      var ra, rb := Decimal(a), Decimal(b);
      assert ra[|ra| - 1] == rb[|rb| - 1];
      assert a % 10 == b % 10;
      assert Decimal(a / 10) == ra[..|ra| - 1] == rb[..|rb| - 1] == Decimal(b / 10);
      DecimalInjective(a / 10, b / 10);
    }
  }

  /** The code units ECMAScript counts as white space or line terminators,
      which `trim` removes from both ends. */
  predicate IsWhiteSpace(u: CodeUnit) {
    || u == 0x09 || u == 0x0A || u == 0x0B || u == 0x0C || u == 0x0D
    || u == 0x20 || u == 0xA0 || u == 0x1680
    || (0x2000 <= u <= 0x200A)
    || u == 0x2028 || u == 0x2029 || u == 0x202F || u == 0x205F
    || u == 0x3000 || u == 0xFEFF
  }

  predicate AllWhiteSpace(s: Text) {
    forall i :: 0 <= i < |s| ==> IsWhiteSpace(s[i])
  }

  /** Two white-space strings joined are white space. */
  lemma WhiteSpaceConcat(a: Text, b: Text)
    requires AllWhiteSpace(a) && AllWhiteSpace(b)
    ensures AllWhiteSpace(a + b)
  {
    forall i | 0 <= i < |a + b|
      ensures IsWhiteSpace((a + b)[i])
    {
      if i < |a| {
        assert (a + b)[i] == a[i];
      } else {
        assert (a + b)[i] == b[i - |a|];
      }
    }
  }

  /** A suffix of `s[1..]` cut off at white space only is one of `s` when
      `s[0]` is white space too. */
  lemma SuffixStep(s: Text, r: Text)
    requires s != [] && IsWhiteSpace(s[0])
    requires |r| <= |s| - 1 && r == s[1..][|s| - 1 - |r|..] && AllWhiteSpace(s[1..][..|s| - 1 - |r|])
    ensures |r| <= |s| && r == s[|s| - |r|..] && AllWhiteSpace(s[..|s| - |r|])
  {
    var n := |s| - 1 - |r|;
    assert s[..n + 1] == [s[0]] + s[1..][..n];
    WhiteSpaceConcat([s[0]], s[1..][..n]);
  }

  /** A prefix of `s[..|s| - 1]` cut off at white space only is one of `s`
      when the last unit of `s` is white space too. */
  lemma PrefixStep(s: Text, r: Text)
    requires s != [] && IsWhiteSpace(s[|s| - 1])
    requires |r| <= |s| - 1 && r == s[..|s| - 1][..|r|] && AllWhiteSpace(s[..|s| - 1][|r|..])
    ensures |r| <= |s| && r == s[..|r|] && AllWhiteSpace(s[|r|..])
  {
    assert s[|r|..] == s[..|s| - 1][|r|..] + [s[|s| - 1]];
    WhiteSpaceConcat(s[..|s| - 1][|r|..], [s[|s| - 1]]);
  }

  /** `s` without its leading white space. */
  function TrimStart(s: Text): (r: Text)
    ensures |r| <= |s| && r == s[|s| - |r|..]
    ensures AllWhiteSpace(s[..|s| - |r|])
    ensures r != [] ==> !IsWhiteSpace(r[0])
  {
    if s != [] && IsWhiteSpace(s[0]) then
      var r := TrimStart(s[1..]);
      SuffixStep(s, r);
      r
    else
      assert s[..0] == [];
      s
  }

  /** `s` without its trailing white space. */
  function TrimEnd(s: Text): (r: Text)
    ensures |r| <= |s| && r == s[..|r|]
    ensures AllWhiteSpace(s[|r|..])
    ensures r != [] ==> !IsWhiteSpace(r[|r| - 1])
  {
    if s != [] && IsWhiteSpace(s[|s| - 1]) then
      var r := TrimEnd(s[..|s| - 1]);
      PrefixStep(s, r);
      r
    else
      assert s[|s|..] == [];
      s
  }

  /** `String.prototype.trim`: the longest infix of `s` that neither starts
      nor ends with white space, once the white space around it is removed. */
  function Trim(s: Text): (r: Text)
    ensures |r| <= |s|
    ensures r != [] ==> !IsWhiteSpace(r[0]) && !IsWhiteSpace(r[|r| - 1])
    ensures r == [] <==> AllWhiteSpace(s)
  {
    var t := TrimStart(s);
    assert t == [] ==> AllWhiteSpace(s) by {
      assert t == [] ==> s[..|s| - |t|] == s;
    }
    assert AllWhiteSpace(s) ==> t == [];
    TrimEnd(t)
  }

  /** `s[a..b]` is surrounded by white space only. */
  predicate WhiteSpaceAround(s: Text, a: int, b: int) {
    0 <= a <= b <= |s| && AllWhiteSpace(s[..a]) && AllWhiteSpace(s[b..])
  }

  /** A prefix `r` of a suffix `t` of `s`, each cut off at white space only,
      sits in `s` surrounded by white space. */
  lemma PrefixOfSuffix(s: Text, t: Text, r: Text)
    requires |t| <= |s| && t == s[|s| - |t|..] && AllWhiteSpace(s[..|s| - |t|])
    requires |r| <= |t| && r == t[..|r|] && AllWhiteSpace(t[|r|..])
    ensures exists a, b :: WhiteSpaceAround(s, a, b) && r == s[a..b]
  {
    var a := |s| - |t|;
    assert s[a + |r|..] == t[|r|..];
    assert WhiteSpaceAround(s, a, a + |r|) && r == s[a..a + |r|];
  }

  /** `trim` removes white space from the two ends and nothing else: its
      result is the infix `s[a..b]` with only white space before `a` and
      after `b`. */
  lemma TrimIsInfix(s: Text)
    ensures exists a, b :: WhiteSpaceAround(s, a, b) && Trim(s) == s[a..b]
  {
    PrefixOfSuffix(s, TrimStart(s), TrimEnd(TrimStart(s)));
  }

  /** Leading white space does not survive `TrimStart`. */
  lemma {:induction false} TrimStartPadded(pad: Text, s: Text)
    requires AllWhiteSpace(pad)
    ensures TrimStart(pad + s) == TrimStart(s)
  {
    if pad != [] {
      assert (pad + s)[1..] == pad[1..] + s;
      TrimStartPadded(pad[1..], s);
    } else {
      assert pad + s == s;
    }
  }

  /** Trailing white space does not survive `TrimEnd`. */
  lemma {:induction false} TrimEndPadded(s: Text, pad: Text)
    requires AllWhiteSpace(pad)
    ensures TrimEnd(s + pad) == TrimEnd(s)
  {
    if pad != [] {
      assert (s + pad)[..|s + pad| - 1] == s + pad[..|pad| - 1];
      TrimEndPadded(s, pad[..|pad| - 1]);
    } else {
      assert s + pad == s;
    }
  }

  /** Text appended after a string that does not start with white space is
      carried through `TrimStart` unchanged. */
  lemma TrimStartAppend(s: Text, tail: Text)
    requires TrimStart(s) != []
    ensures TrimStart(s + tail) == TrimStart(s) + tail
  {
    var t := TrimStart(s);
    var k := |s| - |t|;
    SplitAppend(s, k, tail);
    TrimStartPadded(s[..k], t + tail);
    TrimStartKeeps(t + tail);
  }

  /** `s + tail` split at `k`. */
  lemma SplitAppend(s: Text, k: nat, tail: Text)
    requires k <= |s|
    ensures s + tail == s[..k] + (s[k..] + tail)
  {
  }

  /** A string that does not start with white space is its own `TrimStart`. */
  lemma TrimStartKeeps(s: Text)
    requires s != [] && !IsWhiteSpace(s[0])
    ensures TrimStart(s) == s
  {
  }

  /** Trimming ignores white-space padding on either side. */
  lemma TrimPadded(before: Text, s: Text, after: Text)
    requires AllWhiteSpace(before) && AllWhiteSpace(after)
    ensures Trim(before + s + after) == Trim(s)
  {
    assert before + s + after == before + (s + after);
    TrimStartPadded(before, s + after);
    if TrimStart(s) == [] {
      assert AllWhiteSpace(s);
      assert AllWhiteSpace(s + after);
    } else {
      TrimStartAppend(s, after);
      TrimEndPadded(TrimStart(s), after);
    }
  }

  /** Trimming twice is trimming once. */
  lemma TrimIdempotent(s: Text)
    ensures Trim(Trim(s)) == Trim(s)
  {
    var r := Trim(s);
    if r != [] {
      assert TrimStart(r) == r;
      assert TrimEnd(r) == r;
    }
  }
}
