/**
 The JavaScript string operations the screens rely on, restated over
 `seq<char>`: the `/\D/g` digit filter, `toLowerCase`, `includes`, `trim`,
 decimal rendering of a small count, and `String.length` in UTF-16 units.
 */
module Text {

  /** A character matched by `\d` in a JavaScript regular expression
      (without the `u` flag this is exactly the ASCII digits). */
  predicate IsDigit(c: char) {
    '0' <= c <= '9'
  }

  predicate AllDigits(s: string) {
    forall i :: 0 <= i < |s| ==> IsDigit(s[i])
  }

  /** `s.replace(/\D/g, '')`: the digits of `s`, in their original order. */
  function Digits(s: string): (r: string)
    ensures |r| <= |s|
    ensures AllDigits(r)
  {
    if |s| == 0 then ""
    else (if IsDigit(s[0]) then [s[0]] else "") + Digits(s[1..])
  }

  /** Removing non-digits distributes over concatenation. */
  lemma {:induction false} DigitsAppend(a: string, b: string)
    ensures Digits(a + b) == Digits(a) + Digits(b)
  {
    if |a| == 0 {
      assert a + b == b;
    } else {
      assert (a + b)[1..] == a[1..] + b;
      DigitsAppend(a[1..], b);
    }
  }

  /** A string made of digits only is left as it is. */
  lemma {:induction false} DigitsOfDigits(s: string)
    requires AllDigits(s)
    ensures Digits(s) == s
  {
    if |s| > 0 {
      DigitsOfDigits(s[1..]);
    }
  }

  /** A string without any digit loses all its characters. */
  lemma {:induction false} DigitsOfNonDigits(s: string)
    requires forall i :: 0 <= i < |s| ==> !IsDigit(s[i])
    ensures Digits(s) == ""
  {
    if |s| > 0 {
      DigitsOfNonDigits(s[1..]);
    }
  }

  // ---------------------------------------------------------------------
  // Case folding

  /** An upper-case letter that `toLowerCase` maps one-to-one to the letter
      32 code points above it: ASCII A-Z and the Latin-1 capitals
      U+00C0..U+00DE except the multiplication sign U+00D7. */
  predicate IsFoldedUpper(c: char) {
    ('A' <= c <= 'Z') || ('\U{00C0}' <= c <= '\U{00DE}' && c != '\U{00D7}')
  }

  function LowerChar(c: char): (r: char)
    ensures !IsFoldedUpper(r)
    ensures !IsFoldedUpper(c) ==> r == c
  {
    if IsFoldedUpper(c) then (c as int + 32) as char else c
  }

  /** `s.toLowerCase()` on the letters `IsFoldedUpper` covers. */
  function Lower(s: string): (r: string)
    ensures |r| == |s|
    ensures forall i :: 0 <= i < |s| ==> r[i] == LowerChar(s[i])
  {
    if |s| == 0 then "" else [LowerChar(s[0])] + Lower(s[1..])
  }

  /** Lower-casing twice is lower-casing once. */
  lemma LowerIdempotent(s: string)
    ensures Lower(Lower(s)) == Lower(s)
  {
    var l := Lower(s);
    var ll := Lower(l);
    assert |ll| == |l|;
    forall i | 0 <= i < |l|
      ensures ll[i] == l[i]
    {
      assert ll[i] == LowerChar(l[i]);
    }
  }

  // ---------------------------------------------------------------------
  // Substring search

  /** `s.includes(sub)`: `sub` occurs somewhere in `s`. */
  predicate Contains(s: string, sub: string)
    ensures Contains(s, sub) ==> |sub| <= |s|
    decreases |s|
  {
    sub <= s || (|s| > 0 && Contains(s[1..], sub))
  }

  /** `sub` occurs in `s` starting at position `i`. */
  predicate OccursAt(s: string, sub: string, i: int) {
    0 <= i && i + |sub| <= |s| && s[i..i + |sub|] == sub
  }

  /** `includes` agrees with the positional definition of an occurrence. */
  lemma ContainsIff(s: string, sub: string)
    ensures Contains(s, sub) <==> exists i :: OccursAt(s, sub, i)
  {
    if Contains(s, sub) {
      ContainsOccurs(s, sub);
    }
    if exists i :: OccursAt(s, sub, i) {
      var i :| OccursAt(s, sub, i);
      OccursContains(s, sub, i);
    }
  }

  lemma {:induction false} ContainsOccurs(s: string, sub: string)
    requires Contains(s, sub)
    ensures exists i :: OccursAt(s, sub, i)
    decreases |s|
  {
    if sub <= s {
      assert OccursAt(s, sub, 0);
    } else {
      ContainsOccurs(s[1..], sub);
      var i :| OccursAt(s[1..], sub, i);
      assert s[i + 1..i + 1 + |sub|] == s[1..][i..i + |sub|];
      assert OccursAt(s, sub, i + 1);
    }
  }

  lemma {:induction false} OccursContains(s: string, sub: string, i: int)
    requires OccursAt(s, sub, i)
    ensures Contains(s, sub)
    decreases i
  {
    if i == 0 {
      assert sub <= s;
    } else {
      assert s[1..][i - 1..i - 1 + |sub|] == s[i..i + |sub|];
      OccursContains(s[1..], sub, i - 1);
    }
  }

  /** Every string includes the empty string. */
  lemma ContainsEmpty(s: string)
    ensures Contains(s, "")
  {
  }

  // ---------------------------------------------------------------------
  // Trimming

  /** ECMAScript WhiteSpace and LineTerminator code points, the set that
      `String.prototype.trim` removes. */
  predicate IsWhiteSpace(c: char) {
    c == '\t' || c == '\n' || c == '\U{000B}' || c == '\U{000C}' || c == '\r'
    || c == ' ' || c == '\U{00A0}' || c == '\U{1680}'
    || ('\U{2000}' <= c <= '\U{200A}')
    || c == '\U{2028}' || c == '\U{2029}' || c == '\U{202F}' || c == '\U{205F}'
    || c == '\U{3000}' || c == '\U{FEFF}'
  }

  predicate AllWhiteSpace(s: string) {
    forall i :: 0 <= i < |s| ==> IsWhiteSpace(s[i])
  }

  /** Drops the leading white space: the result is a suffix of `s`, what was
      dropped is all white space, and the result does not start with any. */
  function TrimStart(s: string): (r: string)
    ensures |r| <= |s| && r == s[|s| - |r|..]
    ensures AllWhiteSpace(s[..|s| - |r|])
    ensures |r| == 0 || !IsWhiteSpace(r[0])
  {
    if |s| > 0 && IsWhiteSpace(s[0]) then TrimStart(s[1..]) else s
  }

  /** Drops the trailing white space: the result is a prefix of `s`, what was
      dropped is all white space, and the result does not end with any. */
  function TrimEnd(s: string): (r: string)
    ensures |r| <= |s| && r == s[..|r|]
    ensures AllWhiteSpace(s[|r|..])
    ensures |r| == 0 || !IsWhiteSpace(r[|r| - 1])
  {
    if |s| > 0 && IsWhiteSpace(s[|s| - 1]) then TrimEnd(s[..|s| - 1]) else s
  }

  /** `s.trim()`: a stretch of `s` with only white space on either side of
      it, and none at either of its own ends. */
  function Trim(s: string): (r: string)
    ensures exists i :: OccursAt(s, r, i) && AllWhiteSpace(s[..i]) && AllWhiteSpace(s[i + |r|..])
    ensures |r| == 0 || (!IsWhiteSpace(r[0]) && !IsWhiteSpace(r[|r| - 1]))
  {
    var t := TrimStart(s);
    var r := TrimEnd(t);
    WhiteSpaceAround(s, |s| - |t|, r);
    r
  }

  /** Cutting a white-space prefix and then a white-space suffix leaves a
      stretch of `s` with white space alone on either side. */
  lemma WhiteSpaceAround(s: string, i: nat, r: string)
    requires i <= |s| && AllWhiteSpace(s[..i])
    requires |r| <= |s| - i && r == s[i..][..|r|] && AllWhiteSpace(s[i..][|r|..])
    ensures exists j :: OccursAt(s, r, j) && AllWhiteSpace(s[..j]) && AllWhiteSpace(s[j + |r|..])
  {
    assert s[i..i + |r|] == r;
    assert s[i + |r|..] == s[i..][|r|..];
    assert OccursAt(s, r, i);
  }

  /** A string of white space alone trims away completely from the left. */
  lemma {:induction false} TrimStartAllWhiteSpace(s: string)
    requires AllWhiteSpace(s)
    ensures TrimStart(s) == ""
  {
    if |s| > 0 {
      TrimStartAllWhiteSpace(s[1..]);
    }
  }

  /** `!s.trim()` holds exactly for strings made of white space alone. */
  lemma TrimEmptyIff(s: string)
    ensures Trim(s) == "" <==> AllWhiteSpace(s)
  {
    var t := TrimStart(s);
    if Trim(s) == "" {
      assert AllWhiteSpace(t[0..]);
      assert t == "";
      assert s[..|s|] == s;
    }
    if AllWhiteSpace(s) {
      TrimStartAllWhiteSpace(s);
    }
  }

  // ---------------------------------------------------------------------
  // Decimal rendering

  function DigitChar(d: nat): (c: char)
    requires d < 10
    ensures IsDigit(c)
  {
    ('0' as int + d) as char
  }

  /** The value of a string of decimal digits. */
  function DecimalValue(s: string): nat
    requires AllDigits(s)
  {
    if |s| == 0 then 0
    else 10 * DecimalValue(s[..|s| - 1]) + (s[|s| - 1] as int - '0' as int)
  }

  /** `${n}` for a natural number: decimal digits without a leading zero
      that read back as `n`. */
  function NatToString(n: nat): (r: string)
    ensures 1 <= |r|
    ensures AllDigits(r)
    ensures |r| > 1 ==> r[0] != '0'
    ensures DecimalValue(r) == n
  {
    if n < 10 then [DigitChar(n)]
    else
      var prefix := NatToString(n / 10);
      var r := prefix + [DigitChar(n % 10)];
      assert r[..|r| - 1] == prefix;
      r
  }

  /** `${n} ${n === 1 ? one : many}`: a count with the noun in the
      singular or the plural. */
  function CountPhrase(n: nat, one: string, many: string): (t: string)
    ensures t == NatToString(n) + " " + one || t == NatToString(n) + " " + many
  {
    NatToString(n) + " " + (if n == 1 then one else many)
  }

  /** With distinct singular and plural forms, the singular is shown
      exactly for a count of one. */
  lemma CountPhraseSingularIff(n: nat, one: string, many: string)
    requires one != many
    ensures CountPhrase(n, one, many) == NatToString(n) + " " + one <==> n == 1
  {
    var head := NatToString(n) + " ";
    assert (head + many)[|head|..] == many;
    assert (head + one)[|head|..] == one;
  }

  // ---------------------------------------------------------------------
  // Length

  /** `s.length` in JavaScript counts UTF-16 code units: a code point above
      U+FFFF is a surrogate pair and counts twice. */
  function Utf16Length(s: string): (n: nat)
    ensures |s| <= n <= 2 * |s|
    ensures n == |s| <==> forall i :: 0 <= i < |s| ==> s[i] as int < 0x1_0000
  {
    if |s| == 0 then 0
    else (if s[0] as int < 0x1_0000 then 1 else 2) + Utf16Length(s[1..])
  }

  /** One code point counts one unit, or two when it is astral. */
  lemma Utf16LengthOne(c: char)
    ensures Utf16Length([c]) == if c as int < 0x1_0000 then 1 else 2
  {
    assert [c][1..] == [];
  }

  /** The length of a concatenation is the sum of the lengths; with
      `Utf16LengthOne` this fixes `length` as the code-point count plus the
      number of astral code points. */
  lemma {:induction false} Utf16LengthAppend(a: string, b: string)
    ensures Utf16Length(a + b) == Utf16Length(a) + Utf16Length(b)
    decreases |a|
  {
    if |a| > 0 {
      assert (a + b)[0] == a[0];
      assert (a + b)[1..] == a[1..] + b;
      Utf16LengthAppend(a[1..], b);
    } else {
      assert a + b == b;
    }
  }
}
