/** The Python `str` operations the modelled code relies on, on `seq<char>`. */
module Text {
  import opened Common

  /** `s.startswith(p)` */
  predicate StartsWith(s: string, p: string)
  {
    p <= s
  }

  /** `s.endswith(p)` */
  predicate EndsWith(s: string, p: string)
  {
    |p| <= |s| && s[|s| - |p|..] == p
  }

  /** `sub in s` */
  predicate Contains(s: string, sub: string)
  {
    exists i :: 0 <= i <= |s| && OccursAt(s, sub, i)
  }

  /** `sub` occurs in `s` starting at index `i`. */
  predicate OccursAt(s: string, sub: string, i: nat)
  {
    i + |sub| <= |s| && s[i..i + |sub|] == sub
  }

  lemma OccursAtTail(s: string, sub: string)
    requires |s| > 0
    ensures forall i: nat :: i >= 1 ==> (OccursAt(s, sub, i) <==> OccursAt(s[1..], sub, i - 1))
    ensures OccursAt(s, sub, 0) <==> |sub| <= |s| && s[..|sub|] == sub
  {
    forall i: nat | i >= 1
      ensures OccursAt(s, sub, i) <==> OccursAt(s[1..], sub, i - 1)
    {
      if i + |sub| <= |s| {
        var tail := s[1..];
        var here := s[i..i + |sub|];
        var there := tail[i - 1..i - 1 + |sub|];
        forall k | 0 <= k < |sub| ensures here[k] == there[k] {
          assert here[k] == s[i + k] && there[k] == tail[i - 1 + k];
        }
        assert here == there;
      }
    }
  }

  predicate IsDigitChar(c: char)
  {
    '0' <= c <= '9'
  }

  /** `s.isdigit()`, restricted to the ASCII digits: false on the empty string. */
  predicate IsDigits(s: string)
  {
    |s| > 0 && forall i :: 0 <= i < |s| ==> IsDigitChar(s[i])
  }

  /** The characters for which Python's `str.isspace()` holds. */
  const Whitespace: set<char> :=
    {'\U{9}', '\U{A}', '\U{B}', '\U{C}', '\U{D}', '\U{1C}', '\U{1D}', '\U{1E}',
     '\U{1F}', '\U{20}', '\U{85}', '\U{A0}', '\U{1680}', '\U{2000}', '\U{2001}', '\U{2002}',
     '\U{2003}', '\U{2004}', '\U{2005}', '\U{2006}', '\U{2007}', '\U{2008}', '\U{2009}', '\U{200A}',
     '\U{2028}', '\U{2029}', '\U{202F}', '\U{205F}', '\U{3000}'}

  /** No ASCII letter is whitespace. */
  lemma LetterNotWhitespace(c: char)
    requires 'A' <= c <= 'Z' || 'a' <= c <= 'z'
    ensures c !in Whitespace
  {
  }

  /** The end of the run of `cs` characters in `s` that starts at `i`. */
  function RunEnd(s: string, cs: set<char>, i: nat): (r: nat)
    requires i <= |s|
    ensures i <= r <= |s|
    ensures forall k :: i <= k < r ==> s[k] in cs
    ensures r < |s| ==> s[r] !in cs
    decreases |s| - i
  {
    if i < |s| && s[i] in cs then RunEnd(s, cs, i + 1) else i
  }

  /** The start of the run of `cs` characters in `s` that ends at `j`, going back no
      further than `lo`. */
  function RunStart(s: string, cs: set<char>, lo: nat, j: nat): (r: nat)
    requires lo <= j <= |s|
    ensures lo <= r <= j
    ensures forall k :: r <= k < j ==> s[k] in cs
    ensures r > lo ==> s[r - 1] !in cs
    decreases j - lo
  {
    if j > lo && s[j - 1] in cs then RunStart(s, cs, lo, j - 1) else j
  }

  /** `s.strip(chars)`: drops the leading run of `cs` characters, then the trailing run of
      what is left. */
  function StripSet(s: string, cs: set<char>): string
  {
    var i := RunEnd(s, cs, 0);
    s[i..RunStart(s, cs, i, |s|)]
  }

  /** `s.strip()` */
  function Strip(s: string): string
  {
    StripSet(s, Whitespace)
  }

  /** What strip removes and what it keeps: the result is the infix of `s` that starts
      after the leading run of `cs` characters, every character outside it is in `cs`,
      and the result neither starts nor ends with one. */
  lemma StripSetSpec(s: string, cs: set<char>)
    ensures var r := StripSet(s, cs);
      var i := RunEnd(s, cs, 0);
      && i + |r| <= |s| && r == s[i..i + |r|]
      && (forall k :: 0 <= k < i ==> s[k] in cs)
      && (forall k :: i + |r| <= k < |s| ==> s[k] in cs)
      && (|r| > 0 ==> r[0] !in cs && r[|r| - 1] !in cs)
  {
    var i := RunEnd(s, cs, 0);
    var j := RunStart(s, cs, i, |s|);
    if i < j {
      assert StripSet(s, cs)[0] == s[i];
    }
  }

  /** A string that neither starts nor ends with a character of `cs` is left as it is. */
  lemma StripSetUnchanged(s: string, cs: set<char>)
    requires |s| > 0 ==> s[0] !in cs && s[|s| - 1] !in cs
    ensures StripSet(s, cs) == s
  {
    if |s| > 0 {
      assert RunEnd(s, cs, 0) == 0;
      assert RunStart(s, cs, 0, |s|) == |s|;
    }
  }

  lemma StripSetIdempotent(s: string, cs: set<char>)
    ensures StripSet(StripSet(s, cs), cs) == StripSet(s, cs)
  {
    StripSetSpec(s, cs);
    StripSetUnchanged(StripSet(s, cs), cs);
  }

  /** Any cut of `s` into a `cs` prefix, a middle that neither starts nor ends with a `cs`
      character, and a `cs` suffix gives the middle as the stripped text. */
  lemma StripSetUnique(s: string, cs: set<char>, i: nat, j: nat)
    requires i <= j <= |s|
    requires forall k :: 0 <= k < i ==> s[k] in cs
    requires forall k :: j <= k < |s| ==> s[k] in cs
    requires i < j ==> s[i] !in cs && s[j - 1] !in cs
    ensures StripSet(s, cs) == s[i..j]
  {
    var i0 := RunEnd(s, cs, 0);
    if i < j {
      assert i0 == i;
      var j0 := RunStart(s, cs, i, |s|);
      assert j0 == j;
    } else {
      StripSetSpec(s, cs);
      var r := StripSet(s, cs);
      if |r| > 0 {
        assert false;
      }
    }
  }

  /** A slice of the middle part of a three-part concatenation. */
  lemma SliceOfMiddle(pre: string, s: string, post: string, i: nat, j: nat)
    requires i <= j <= |s|
    ensures (pre + s + post)[|pre| + i..|pre| + j] == s[i..j]
  {
    var v := (pre + s + post)[|pre| + i..|pre| + j];
    assert forall k :: 0 <= k < |v| ==> v[k] == s[i..j][k];
  }

  /** Stripping ignores `cs` characters added around a text. */
  lemma StripSetPadded(pre: string, s: string, post: string, cs: set<char>)
    requires forall k :: 0 <= k < |pre| ==> pre[k] in cs
    requires forall k :: 0 <= k < |post| ==> post[k] in cs
    ensures StripSet(pre + s + post, cs) == StripSet(s, cs)
  {
    var u := pre + s + post;
    StripSetSpec(s, cs);
    var r := StripSet(s, cs);
    var i := RunEnd(s, cs, 0);
    var j := i + |r|;
    forall k | 0 <= k < |pre| + i ensures u[k] in cs {
      if k >= |pre| {
        assert u[k] == s[k - |pre|];
      }
    }
    forall k | |pre| + j <= k < |u| ensures u[k] in cs {
      if k < |pre| + |s| {
        assert u[k] == s[k - |pre|];
      } else {
        assert u[k] == post[k - |pre| - |s|];
      }
    }
    if i < j {
      assert u[|pre| + i] == r[0];
      assert u[|pre| + j - 1] == r[|r| - 1];
    }
    StripSetUnique(u, cs, |pre| + i, |pre| + j);
    SliceOfMiddle(pre, s, post, i, j);
  }

  /** The index of the leftmost occurrence of `sep` in `s`. */
  function IndexOf(s: string, sep: string): (r: Option<nat>)
    requires |sep| > 0
    ensures r.Some? ==> OccursAt(s, sep, r.value)
    ensures r.Some? ==> forall i: nat :: i < r.value ==> !OccursAt(s, sep, i)
    ensures r.None? ==> forall i: nat :: !OccursAt(s, sep, i)
    decreases |s|
  {
    if |s| < |sep| then None
    else
      OccursAtTail(s, sep);
      if s[..|sep|] == sep then Some(0)
      else match IndexOf(s[1..], sep)
      case None => None
      case Some(i) => Some(i + 1)
  }

  /** `s.split(sep)` with an explicit, non-empty separator. */
  function Split(s: string, sep: string): (parts: seq<string>)
    requires |sep| > 0
    ensures |parts| >= 1
    decreases |s|
  {
    match IndexOf(s, sep)
    case None => [s]
    case Some(i) => [s[..i]] + Split(s[i + |sep|..], sep)
  }

  /** `sep.join(parts)` */
  function Join(parts: seq<string>, sep: string): string
  {
    if |parts| == 0 then ""
    else if |parts| == 1 then parts[0]
    else parts[0] + sep + Join(parts[1..], sep)
  }

  lemma JoinCons(head: string, tail: seq<string>, sep: string)
    requires |tail| >= 1
    ensures Join([head] + tail, sep) == head + sep + Join(tail, sep)
  {
    assert ([head] + tail)[1..] == tail;
  }

  /** Splitting loses nothing: joining the pieces with the separator gives the string back. */
  lemma {:induction false} SplitJoin(s: string, sep: string)
    requires |sep| > 0
    ensures Join(Split(s, sep), sep) == s
    decreases |s|
  {
    match IndexOf(s, sep)
    case None =>
    case Some(i) =>
      var head := s[..i];
      var rest := s[i + |sep|..];
      assert Split(s, sep) == [head] + Split(rest, sep);
      SplitJoin(rest, sep);
      JoinCons(head, Split(rest, sep), sep);
      SplitAround(s, sep, i);
  }

  /** A string is the text before an occurrence, the occurrence, and the text after it. */
  lemma SplitAround(s: string, sep: string, i: nat)
    requires OccursAt(s, sep, i)
    ensures s == s[..i] + sep + s[i + |sep|..]
  {
    assert s[i..] == s[i..i + |sep|] + s[i + |sep|..];
    assert s == s[..i] + s[i..];
  }

  /** No piece of a split contains the separator: each piece ends where the leftmost
      remaining occurrence begins. */
  lemma {:induction false} SplitPiecesFree(s: string, sep: string)
    requires |sep| > 0
    ensures forall k :: 0 <= k < |Split(s, sep)| ==> !Contains(Split(s, sep)[k], sep)
    decreases |s|
  {
    match IndexOf(s, sep)
    case None =>
    case Some(i) =>
      var rest := s[i + |sep|..];
      SplitPiecesFree(rest, sep);
      var head := s[..i];
      forall j: nat | j <= |head| && OccursAt(head, sep, j) ensures false {
        assert head[j..j + |sep|] == s[j..j + |sep|];
        assert OccursAt(s, sep, j);
      }
      assert Split(s, sep) == [head] + Split(rest, sep);
  }

  /** A one-character string occurs exactly where that character is. */
  lemma OccursAtChar(s: string, c: char)
    ensures forall j: nat :: OccursAt(s, [c], j) <==> j < |s| && s[j] == c
  {
    forall j: nat | j < |s| ensures s[j..j + 1] == [s[j]] {
    }
  }

  /** Splitting on a one-character separator at its first occurrence. */
  lemma SplitAtFirst(t: string, c: char, u: string)
    requires c !in t
    ensures Split(t + [c] + u, [c]) == [t] + Split(u, [c])
  {
    var s := t + [c] + u;
    assert OccursAt(s, [c], |t|) by {
      assert s[|t|..|t| + 1] == [c];
    }
    forall j: nat | j < |t| ensures !OccursAt(s, [c], j) {
      assert s[j..j + 1] == [t[j]];
    }
    assert IndexOf(s, [c]) == Some(|t|);
    assert s[..|t|] == t;
    assert s[|t| + 1..] == u;
  }

  /** Text without the separator character splits into itself. */
  lemma SplitFree(u: string, c: char)
    requires c !in u
    ensures Split(u, [c]) == [u]
  {
    OccursAtChar(u, c);
    if IndexOf(u, [c]).Some? {
      assert false;
    }
  }

  /** Decimal text of a natural number, without leading zeros. */
  function NatToString(n: nat): (r: string)
    ensures |r| >= 1 && IsDigits(r)
  {
    if n < 10 then [DigitChar(n)] else NatToString(n / 10) + [DigitChar(n % 10)]
  }

  function DigitChar(d: nat): (c: char)
    requires d < 10
    ensures IsDigitChar(c)
  {
    '0' + d as char
  }

  function DigitValue(c: char): (d: nat)
    requires IsDigitChar(c)
    ensures d < 10
  {
    (c - '0') as nat
  }

  /** The value of a string of decimal digits. */
  function DigitsValue(s: string): nat
    requires forall i :: 0 <= i < |s| ==> IsDigitChar(s[i])
  {
    if |s| == 0 then 0 else DigitsValue(s[..|s| - 1]) * 10 + DigitValue(s[|s| - 1])
  }

  lemma {:induction false} DigitsValueOfNatToString(n: nat)
    ensures DigitsValue(NatToString(n)) == n
  {
    var r := NatToString(n);
    if n >= 10 {
      DigitsValueOfNatToString(n / 10);
      assert r[..|r| - 1] == NatToString(n / 10);
    }
  }

  /** `n` in decimal, left-padded with zeros to at least `width` characters. */
  function PadNat(n: nat, width: nat): (r: string)
    ensures |r| >= width
    decreases width
  {
    var digits := NatToString(n);
    if |digits| >= width then digits else "0" + PadNat(n, width - 1)
  }

  function Pow10(k: nat): (p: nat)
    ensures p >= 1
  {
    if k == 0 then 1 else 10 * Pow10(k - 1)
  }

  /** The numeral `float` accepts once surrounding whitespace is gone: the form
      `[+|-]digits[.digits]` with at least one digit; any other text is the `ValueError`
      `float` raises. */
  function ParseNumeral(s: string): Option<real>
  {
    var negative := |s| > 0 && s[0] == '-';
    var body := if |s| > 0 && (s[0] == '-' || s[0] == '+') then s[1..] else s;
    var magnitude :=
      match IndexOf(body, ".")
      case None =>
        if IsDigits(body) then Some(DigitsValue(body) as real) else None
      case Some(i) =>
        var whole := body[..i];
        var frac := body[i + 1..];
        if (whole == [] || IsDigits(whole)) && (frac == [] || IsDigits(frac)) && |whole| + |frac| > 0
        then Some(DigitsValue(whole) as real + DigitsValue(frac) as real / Pow10(|frac|) as real)
        else None;
    match magnitude
    case None => None
    case Some(m) => Some(if negative then -m else m)
  }

  /** `float(s)`: whitespace is dropped from either end, and what is left must be a
      numeral. */
  function ParseReal(s: string): Option<real>
    decreases |s|
  {
    if |s| > 0 && s[0] in Whitespace then ParseReal(s[1..])
    else if |s| > 0 && s[|s| - 1] in Whitespace then ParseReal(s[..|s| - 1])
    else ParseNumeral(s)
  }

  /** `float` reads the stripped text: dropping whitespace end by end is `strip`. */
  lemma {:induction false} ParseRealStrip(s: string)
    ensures ParseReal(s) == ParseNumeral(Strip(s))
    decreases |s|
  {
    if |s| > 0 && s[0] in Whitespace {
      ParseRealStrip(s[1..]);
      assert s == [s[0]] + s[1..] + [];
      StripSetPadded([s[0]], s[1..], [], Whitespace);
    } else if |s| > 0 && s[|s| - 1] in Whitespace {
      ParseRealStrip(s[..|s| - 1]);
      assert s == [] + s[..|s| - 1] + [s[|s| - 1]];
      StripSetPadded([], s[..|s| - 1], [s[|s| - 1]], Whitespace);
    } else {
      StripSetUnchanged(s, Whitespace);
    }
  }

  /** No digit and no sign is whitespace. */
  lemma NumeralCharNotWhitespace(c: char)
    requires IsDigitChar(c) || c == '-' || c == '+'
    ensures c !in Whitespace
  {
  }

  /** The decimal text of a natural number, signed or not, has no whitespace to strip. */
  lemma StripNatText(n: nat)
    ensures Strip(NatToString(n)) == NatToString(n)
    ensures Strip("-" + NatToString(n)) == "-" + NatToString(n)
  {
    var t := NatToString(n);
    var m := "-" + t;
    NumeralCharNotWhitespace(t[0]);
    NumeralCharNotWhitespace(t[|t| - 1]);
    StripSetUnchanged(t, Whitespace);
    assert m[|m| - 1] == t[|t| - 1];
    NumeralCharNotWhitespace(m[0]);
    StripSetUnchanged(m, Whitespace);
  }

  /** Decimal text of a natural number is the numeral of that number. */
  lemma ParseNumeralOfNat(n: nat)
    ensures ParseNumeral(NatToString(n)) == Some(n as real)
    ensures ParseNumeral("-" + NatToString(n)) == Some(-(n as real))
  {
    var t := NatToString(n);
    DigitsValueOfNatToString(n);
    assert forall i :: 0 <= i < |t| ==> t[i] != '.';
    assert IndexOf(t, ".") == None;
    assert ("-" + t)[1..] == t;
  }

  /** Decimal text of a natural number reads back as that number. */
  lemma ParseRealOfNat(n: nat)
    ensures ParseReal(NatToString(n)) == Some(n as real)
    ensures ParseReal("-" + NatToString(n)) == Some(-(n as real))
  {
    StripNatText(n);
    ParseNumeralOfNat(n);
    ParseRealStrip(NatToString(n));
    ParseRealStrip("-" + NatToString(n));
  }

  /** Whitespace around a text does not change how `float` reads it. */
  lemma ParseRealPadded(pre: string, s: string, post: string)
    requires forall k :: 0 <= k < |pre| ==> pre[k] in Whitespace
    requires forall k :: 0 <= k < |post| ==> post[k] in Whitespace
    ensures ParseReal(pre + s + post) == ParseReal(s)
  {
    StripSetPadded(pre, s, post, Whitespace);
    ParseRealStrip(pre + s + post);
    ParseRealStrip(s);
  }
}
