/**
 * Decimal integers as text: `str(n)` as `str.format` prints an integer attribute,
 * and `int(s)` as the predicate compiler applies it to the right-hand side of
 * `@uid=` and `@changeset=`.
 */
module Decimal {
  import opened Wrappers

  predicate IsDigit(c: char) { '0' <= c <= '9' }

  predicate AllDigits(s: string) { forall i :: 0 <= i < |s| ==> IsDigit(s[i]) }

  /**
   * The whitespace Python 2's `int()` skips in a unicode string: every
   * character its Unicode database calls a space (turned into ' ' before the
   * digits are read), which includes the ASCII whitespace \t \n \v \f \r.
   */
  predicate IsSpace(c: char) {
    ('\t' <= c <= '\r') || ('\U{1C}' <= c <= ' ') ||
    c == '\U{85}' || c == '\U{A0}' || c == '\U{1680}' || c == '\U{180E}' ||
    ('\U{2000}' <= c <= '\U{200A}') || c == '\U{2028}' || c == '\U{2029}' ||
    c == '\U{202F}' || c == '\U{205F}' || c == '\U{3000}'
  }

  function DigitChar(d: nat): (c: char)
    requires d < 10
    ensures IsDigit(c) && (c as int) - ('0' as int) == d
  {
    (('0' as int) + d) as char
  }

  /** The decimal digits of `n`, most significant first, without leading zeros. */
  function ShowNat(n: nat): (s: string)
    decreases n
  {
    if n < 10 then [DigitChar(n)] else ShowNat(n / 10) + [DigitChar(n % 10)]
  }

  /** `str(n)`: an optional minus sign followed by the digits of |n|. */
  function ShowInt(n: int): string {
    if n < 0 then "-" + ShowNat(-n) else ShowNat(n)
  }

  /** The value of a string of digits, read most significant first. */
  function DigitsValue(s: string): nat
    requires AllDigits(s)
  {
    if s == [] then 0
    else DigitsValue(s[..|s| - 1]) * 10 + ((s[|s| - 1] as int) - ('0' as int))
  }

  function StripLeft(s: string): (r: string)
    ensures |r| <= |s|
    ensures r == [] || !IsSpace(r[0])
  {
    if s != [] && IsSpace(s[0]) then StripLeft(s[1..]) else s
  }

  function StripRight(s: string): (r: string)
    ensures |r| <= |s| && r == s[..|r|]
    ensures r == [] || !IsSpace(r[|r| - 1])
  {
    if s != [] && IsSpace(s[|s| - 1]) then StripRight(s[..|s| - 1]) else s
  }

  function Strip(s: string): string {
    StripRight(StripLeft(s))
  }

  /**
   * Python 2's `int(s)` on a decimal string: surrounding whitespace, then an
   * optional sign, which may be followed by more whitespace, then one or more
   * ASCII digits; anything else is a `ValueError`, written `None` here.
   */
  function ParseInt(s: string): (r: Option<int>)
    ensures r.Some? ==> exists i :: 0 <= i < |s| && IsDigit(s[i])
  {
    StripDigitsFromInside(s);
    ReadSigned(Strip(s))
  }

  /** The stripped text: an optional sign, optional whitespace, then the digits. */
  function ReadSigned(t: string): (r: Option<int>)
    ensures r.Some? ==> exists i :: 0 <= i < |t| && IsDigit(t[i])
  {
    var digits := AfterSign(t);
    if digits != [] && AllDigits(digits) then
      AfterSignIsSuffix(t);
      assert IsDigit(digits[0]) && digits[0] == t[|t| - |digits|];
      Some(if |t| > 0 && t[0] == '-' then 0 - DigitsValue(digits) else DigitsValue(digits))
    else None
  }

  /** The text after a leading sign and the whitespace that follows it. */
  function AfterSign(t: string): (r: string)
    ensures |r| <= |t|
  {
    if |t| > 0 && (t[0] == '-' || t[0] == '+') then StripLeft(t[1..]) else t
  }

  lemma AfterSignIsSuffix(t: string)
    ensures AfterSign(t) == t[|t| - |AfterSign(t)|..]
  {
    if |t| > 0 && (t[0] == '-' || t[0] == '+') {
      StripLeftIsSuffix(t[1..]);
    }
  }

  /** A digit of the stripped text is a digit of the original text. */
  lemma StripDigitsFromInside(s: string)
    ensures forall i :: 0 <= i < |Strip(s)| ==> exists j :: 0 <= j < |s| && s[j] == Strip(s)[i]
  {
    StripLeftIsSuffix(s);
    var l := StripLeft(s);
    var t := Strip(s);
    assert t == StripRight(l) == l[..|t|];
    forall i | 0 <= i < |t|
      ensures exists j :: 0 <= j < |s| && s[j] == t[i]
    {
      var j := |s| - |l| + i;
      assert t[i] == l[i] == s[j];
    }
  }

  lemma {:induction false} StripLeftIsSuffix(s: string)
    ensures StripLeft(s) == s[|s| - |StripLeft(s)|..]
  {
    if s != [] && IsSpace(s[0]) {
      StripLeftIsSuffix(s[1..]);
      assert s[1..][|s[1..]| - |StripLeft(s[1..])|..] == s[|s| - |StripLeft(s)|..];
    }
  }

  lemma {:induction false} ShowNatDigits(n: nat)
    ensures |ShowNat(n)| > 0 && AllDigits(ShowNat(n))
    ensures DigitsValue(ShowNat(n)) == n
    decreases n
  {
    if n >= 10 {
      ShowNatDigits(n / 10);
      var s := ShowNat(n);
      assert s[..|s| - 1] == ShowNat(n / 10);
    }
  }

  /** What `ShowInt` prints, `ParseInt` reads back: the two are inverse. */
  lemma ParseShowInt(n: int)
    ensures ParseInt(ShowInt(n)) == Some(n)
  {
    var m: nat := if n < 0 then -n else n;
    assert Strip(ShowInt(n)) == ShowInt(n) by {
      StripShown(n);
    }
    assert ReadSigned(ShowInt(n)) == Some(n) by {
      ShowNatDigits(m);
      if n < 0 {
        ReadSpacedSign('-', "", ShowNat(m));
        assert ['-'] + "" + ShowNat(m) == ShowInt(n);
      } else {
        ReadDigits(ShowNat(m));
      }
    }
  }

  predicate AllSpaces(s: string) { forall i :: 0 <= i < |s| ==> IsSpace(s[i]) }

  /** Left-stripping removes exactly a leading run of whitespace. */
  lemma {:induction false} StripLeftSpaces(pre: string, x: string)
    requires AllSpaces(pre)
    requires x == [] || !IsSpace(x[0])
    ensures StripLeft(pre + x) == x
    decreases |pre|
  {
    if pre == [] {
      assert pre + x == x;
    } else {
      assert (pre + x)[1..] == pre[1..] + x;
      StripLeftSpaces(pre[1..], x);
    }
  }

  /** Right-stripping removes exactly a trailing run of whitespace. */
  lemma {:induction false} StripRightSpaces(x: string, post: string)
    requires AllSpaces(post)
    requires x == [] || !IsSpace(x[|x| - 1])
    ensures StripRight(x + post) == x
    decreases |post|
  {
    if post == [] {
      assert x + post == x;
    } else {
      var xp := x + post;
      assert xp[..|xp| - 1] == x + post[..|post| - 1];
      StripRightSpaces(x, post[..|post| - 1]);
    }
  }

  /** Stripping removes exactly the whitespace around a text with non-space ends. */
  lemma StripAround(pre: string, x: string, post: string)
    requires AllSpaces(pre) && AllSpaces(post)
    requires x != [] && !IsSpace(x[0]) && !IsSpace(x[|x| - 1])
    ensures Strip(pre + x + post) == x
  {
    assert pre + x + post == pre + (x + post);
    assert StripLeft(pre + x + post) == x + post by {
      StripLeftSpaces(pre, x + post);
    }
    StripRightSpaces(x, post);
  }

  lemma ReadDigits(d: string)
    requires d != [] && AllDigits(d)
    ensures ReadSigned(d) == Some(DigitsValue(d))
  {
    assert AfterSign(d) == d;
  }

  /** After a sign, the whitespace that follows it is skipped. */
  lemma AfterSpacedSign(sign: char, mid: string, d: string)
    requires sign == '-' || sign == '+'
    requires AllSpaces(mid) && d != [] && !IsSpace(d[0])
    ensures AfterSign([sign] + mid + d) == d
  {
    var t := [sign] + mid + d;
    assert t[0] == sign && t[1..] == mid + d;
    StripLeftSpaces(mid, d);
  }

  lemma ReadSpacedSign(sign: char, mid: string, d: string)
    requires sign == '-' || sign == '+'
    requires AllSpaces(mid) && d != [] && AllDigits(d)
    ensures ReadSigned([sign] + mid + d) == Some(if sign == '-' then 0 - DigitsValue(d) else DigitsValue(d))
  {
    var t := [sign] + mid + d;
    assert !IsSpace(d[0]);
    AfterSpacedSign(sign, mid, d);
    assert t[0] == sign;
  }

  /** Whitespace on either side of the digits does not change the value. */
  lemma SurroundingSpaces(pre: string, d: string, post: string)
    requires AllSpaces(pre) && AllSpaces(post)
    requires d != [] && AllDigits(d)
    ensures ParseInt(pre + d + post) == Some(DigitsValue(d))
  {
    assert Strip(pre + d + post) == d by {
      assert !IsSpace(d[0]) && !IsSpace(d[|d| - 1]);
      StripAround(pre, d, post);
    }
    assert ReadSigned(d) == Some(DigitsValue(d)) by {
      ReadDigits(d);
    }
  }

  /** The stripped text of a signed number with whitespace around it. */
  lemma StripSigned(pre: string, sign: char, mid: string, d: string, post: string)
    requires AllSpaces(pre) && AllSpaces(post)
    requires sign == '-' || sign == '+'
    requires d != [] && AllDigits(d)
    ensures Strip(pre + ([sign] + mid + d) + post) == [sign] + mid + d
  {
    var t := [sign] + mid + d;
    assert !IsSpace(t[0]) && t[|t| - 1] == d[|d| - 1] && !IsSpace(d[|d| - 1]);
    StripAround(pre, t, post);
  }

  /**
   * Python 2 reads a sign followed by whitespace and then the digits, with
   * whitespace around it all: `int(" - 5 ") == -5`.
   */
  lemma SignThenSpaces(pre: string, sign: char, mid: string, d: string, post: string)
    requires AllSpaces(pre) && AllSpaces(mid) && AllSpaces(post)
    requires sign == '-' || sign == '+'
    requires d != [] && AllDigits(d)
    ensures ParseInt(pre + ([sign] + mid + d) + post) ==
      Some(if sign == '-' then 0 - DigitsValue(d) else DigitsValue(d))
  {
    StripSigned(pre, sign, mid, d, post);
    ReadSpacedSign(sign, mid, d);
  }

  /** A text with no whitespace at its ends is read as it stands. */
  lemma Unstripped(s: string)
    requires s != [] && !IsSpace(s[0]) && !IsSpace(s[|s| - 1])
    ensures Strip(s) == s
  {
    StripAround("", s, "");
    assert "" + s + "" == s;
  }

  /** Example: `int("- " + d)` is the negated number, as `int("- 5") == -5`. */
  lemma SpacedMinus(d: string)
    requires d != [] && AllDigits(d)
    ensures ParseInt(['-', ' '] + d) == Some(0 - DigitsValue(d))
  {
    assert ['-', ' '] + d == [] + (['-'] + [' '] + d) + [];
    SignThenSpaces([], '-', [' '], d, []);
  }

  /** Example: a leading no-break space counts as whitespace. */
  lemma NoBreakSpace(d: string)
    requires d != [] && AllDigits(d)
    ensures ParseInt(['\U{A0}'] + d) == Some(DigitsValue(d))
  {
    assert ['\U{A0}'] + d == ['\U{A0}'] + d + [];
    SurroundingSpaces(['\U{A0}'], d, []);
  }

  /** Example: so does a trailing ideographic space. */
  lemma IdeographicSpace(d: string)
    requires d != [] && AllDigits(d)
    ensures ParseInt(d + ['\U{3000}']) == Some(DigitsValue(d))
  {
    assert d + ['\U{3000}'] == [] + d + ['\U{3000}'];
    SurroundingSpaces([], d, ['\U{3000}']);
  }

  /** Example: a trailing sign makes the text invalid, as in `int("5 -")`. */
  lemma TrailingSign(d: string)
    requires d != [] && AllDigits(d)
    ensures ParseInt(d + [' ', '-']).None?
  {
    var s := d + [' ', '-'];
    assert s[0] == d[0] && s[|s| - 1] == '-' && s[|s| - 2] == ' ';
    Unstripped(s);
    assert AfterSign(s) == s;
    assert !IsDigit(s[|s| - 2]);
  }

  /** Example: a zero-width space is no whitespace in Python 2, so the text is invalid. */
  lemma ZeroWidthSpace(d: string)
    requires d != [] && AllDigits(d)
    ensures ParseInt(['\U{200B}'] + d).None?
  {
    var s := ['\U{200B}'] + d;
    assert s[0] == '\U{200B}' && s[|s| - 1] == d[|d| - 1];
    Unstripped(s);
    assert AfterSign(s) == s;
    assert !IsDigit(s[0]);
  }

  /** A printed integer has no surrounding whitespace. */
  lemma StripShown(n: int)
    ensures Strip(ShowInt(n)) == ShowInt(n)
  {
    var m: nat := if n < 0 then -n else n;
    ShowNatDigits(m);
    var s := ShowInt(n);
    assert !IsSpace(s[0]) && !IsSpace(s[|s| - 1]);
    Unstripped(s);
  }
}
