/**
 The Brazilian phone mask of `handlePhoneChange`, which Volunteer,
 TemporaryHome and Register carry as three identical copies: keep the
 digits of the typed text, cut them to eleven, lay them out as
 `(DD) DDDDD-DDDD` as far as they go, and report progress towards eleven.
 */
module Phone {
  import opened Text

  /** Area code (2) plus subscriber number (9). */
  const MaxDigits: nat := 11

  /** The `maxLength` of every phone text field. */
  const FieldMaxLength: nat := 15

  /** `s.substring(start, end)` for `start <= end`, the only order the mask
      calls it with (JavaScript swaps the arguments when `start > end`):
      both ends are clamped to the length of `s`. */
  function Substring(s: string, start: nat, end: nat): (r: string)
    requires start <= end
    ensures |r| <= end - start
    ensures end <= |s| ==> r == s[start..end]
    ensures start <= |s| <= end ==> r == s[start..]
    ensures |s| < start ==> r == ""
  {
    var e := if end <= |s| then end else |s|;
    var b := if start <= e then start else e;
    s[b..e]
  }

  /** `s.substring(start)`. */
  function SubstringFrom(s: string, start: nat): (r: string)
    ensures start <= |s| ==> r == s[start..]
    ensures |s| < start ==> r == ""
  {
    if start <= |s| then s[start..] else ""
  }

  /** The `cleaned` digits: `value.replace(/\D/g, '').substring(0, 11)`.
      They are digits only, at most eleven, and the leading digits of the
      input. */
  function Clean(value: string): (d: string)
    ensures AllDigits(d)
    ensures |d| <= MaxDigits
    ensures d <= Digits(value)
    ensures |Digits(value)| <= MaxDigits ==> d == Digits(value)
    ensures |Digits(value)| > MaxDigits ==> d == Digits(value)[..MaxDigits]
  {
    Substring(Digits(value), 0, MaxDigits)
  }

  /** The `formatted` text built from the cleaned digits. */
  function Mask(d: string): string
  {
    if |d| > 0 then
      "(" + Substring(d, 0, 2)
      + (if |d| > 2 then
           ") " + Substring(d, 2, 7)
           + (if |d| > 7 then "-" + SubstringFrom(d, 7) else "")
         else "")
    else d
  }

  /** The live `phoneError`: empty with no digits or with all eleven,
      otherwise the count typed so far out of eleven. */
  function Progress(n: nat): (r: string)
    ensures r == "" <==> n == 0 || n == MaxDigits
  {
    if n == MaxDigits then ""
    else if n > 0 then
      var m := "Digite 11 dígitos (" + NatToString(n) + "/11)";
      assert m[0] == 'D';
      m
    else ""
  }

  /** What one `handlePhoneChange(value)` call writes: the phone field and
      the phone error. */
  datatype Masked = Masked(formatted: string, error: string)

  /** The field keeps exactly the cleaned digits within its `maxLength`,
      and the error is empty exactly when no digit or all eleven remain. */
  function Change(value: string): (r: Masked)
    ensures Digits(r.formatted) == Clean(value)
    ensures |r.formatted| <= FieldMaxLength
    ensures r.error == "" <==> |Clean(value)| == 0 || |Clean(value)| == MaxDigits
  {
    var cleaned := Clean(value);
    MaskDigits(cleaned);
    MaskFitsField(cleaned);
    Masked(Mask(cleaned), Progress(|cleaned|))
  }

  // ---------------------------------------------------------------------
  // Properties

  /** The mask has one shape per digit count: nothing, an opened area code,
      area code and first block, or the complete `(DD) DDDDD-DDDD`. */
  lemma MaskShape(d: string)
    ensures |d| == 0 ==> Mask(d) == ""
    ensures 1 <= |d| <= 2 ==> Mask(d) == "(" + d
    ensures 3 <= |d| <= 7 ==> Mask(d) == ("(" + d[..2]) + (") " + d[2..])
    ensures 8 <= |d| ==> Mask(d) == (("(" + d[..2]) + (") " + d[2..7])) + ("-" + d[7..])
  {
    if 1 <= |d| <= 2 {
      assert Substring(d, 0, 2) == d;
    } else if 3 <= |d| <= 7 {
      MaskShapeFirstBlock(d);
    } else if 8 <= |d| {
      MaskShapeComplete(d);
    }
  }

  lemma MaskShapeFirstBlock(d: string)
    requires 3 <= |d| <= 7
    ensures Mask(d) == ("(" + d[..2]) + (") " + d[2..])
  {
    assert Substring(d, 0, 2) == d[..2];
    assert Substring(d, 2, 7) == d[2..];
    assert Mask(d) == "(" + d[..2] + (") " + d[2..] + "");
  }

  lemma MaskShapeComplete(d: string)
    requires 8 <= |d|
    ensures Mask(d) == (("(" + d[..2]) + (") " + d[2..7])) + ("-" + d[7..])
  {
    assert Substring(d, 0, 2) == d[..2];
    assert Substring(d, 2, 7) == d[2..7];
    assert SubstringFrom(d, 7) == d[7..];
    assert Mask(d) == "(" + d[..2] + (") " + d[2..7] + ("-" + d[7..]));
  }

  /** The mask never outgrows the text field's `maxLength` of 15. */
  lemma MaskFitsField(d: string)
    requires |d| <= MaxDigits
    ensures |Mask(d)| <= FieldMaxLength
  {
    MaskShape(d);
  }

  /** Digits after a run of punctuation are all that survive. */
  lemma DigitsAfterPunctuation(p: string, s: string)
    requires forall i :: 0 <= i < |p| ==> !IsDigit(p[i])
    requires AllDigits(s)
    ensures Digits(p + s) == s
  {
    DigitsAppend(p, s);
    DigitsOfNonDigits(p);
    DigitsOfDigits(s);
  }

  /** Digits of `p + a + q + b` for punctuation `p`, `q` and digits `a`, `b`. */
  lemma DigitsOfTwoGroups(p: string, a: string, q: string, b: string)
    requires forall i :: 0 <= i < |p| ==> !IsDigit(p[i])
    requires forall i :: 0 <= i < |q| ==> !IsDigit(q[i])
    requires AllDigits(a) && AllDigits(b)
    ensures Digits((p + a) + (q + b)) == a + b
  {
    DigitsAppend(p + a, q + b);
    DigitsAfterPunctuation(p, a);
    DigitsAfterPunctuation(q, b);
  }

  lemma MaskDigitsAreaCode(d: string)
    requires AllDigits(d) && 1 <= |d| <= 2
    ensures Digits(Mask(d)) == d
  {
    MaskShape(d);
    DigitsAfterPunctuation("(", d);
  }

  lemma MaskDigitsFirstBlock(d: string)
    requires AllDigits(d) && 3 <= |d| <= 7
    ensures Digits(Mask(d)) == d
  {
    var a, b := d[..2], d[2..];
    MaskShape(d);
    DigitsOfTwoGroups("(", a, ") ", b);
    assert a + b == d;
  }

  lemma MaskDigitsComplete(d: string)
    requires AllDigits(d) && 8 <= |d|
    ensures Digits(Mask(d)) == d
  {
    var a, b, c := d[..2], d[2..7], d[7..];
    var head := ("(" + a) + (") " + b);
    MaskShape(d);
    DigitsOfTwoGroups("(", a, ") ", b);
    DigitsAppend(head, "-" + c);
    DigitsAfterPunctuation("-", c);
    assert a + b + c == d;
  }

  /** The mask only adds punctuation: removing non-digits from it gives back
      the digits it was built from. */
  lemma MaskDigits(d: string)
    requires AllDigits(d)
    ensures Digits(Mask(d)) == d
  {
    if |d| == 0 {
    } else if |d| <= 2 {
      MaskDigitsAreaCode(d);
    } else if |d| <= 7 {
      MaskDigitsFirstBlock(d);
    } else {
      MaskDigitsComplete(d);
    }
  }

  /** Feeding the field's own text back through the handler changes
      nothing: the mask is idempotent. */
  lemma ChangeIdempotent(value: string)
    ensures Change(Change(value).formatted) == Change(value)
  {
  }

  /** A non-empty error names the digit count in decimal. */
  lemma ProgressNamesCount(n: nat)
    requires 0 < n < MaxDigits
    ensures exists k :: Progress(n) == "Digite 11 dígitos (" + k + "/11)"
                        && AllDigits(k) && DecimalValue(k) == n
  {
    var k := NatToString(n);
    assert Progress(n) == "Digite 11 dígitos (" + k + "/11)";
  }

  /** Submit re-derives the digits from the field; after a change they
      number eleven exactly when the live error is empty and some digit was
      typed. */
  lemma SubmitDigitsAgree(value: string)
    ensures |Digits(Change(value).formatted)| == MaxDigits
            <==> Change(value).error == "" && Change(value).formatted != ""
  {
  }

  /** A string of at most eleven digits is already clean. */
  lemma CleanOfDigits(d: string)
    requires AllDigits(d) && |d| <= MaxDigits
    ensures Clean(d) == d
  {
    DigitsOfDigits(d);
  }

  lemma MaskFullNumber()
    ensures Mask("41999998888") == "(41) 99999-8888"
  {
    var d := "41999998888";
    MaskShape(d);
    assert d[..2] == "41" && d[2..7] == "99999" && d[7..] == "8888";
  }

  lemma MaskPartialNumber()
    ensures Mask("419999") == "(41) 9999"
  {
    var d := "419999";
    MaskShape(d);
    assert d[..2] == "41" && d[2..] == "9999";
  }

  /** A full number typed without punctuation is masked completely. */
  lemma ExampleFullNumber()
    ensures Change("41999998888") == Masked("(41) 99999-8888", "")
  {
    CleanOfDigits("41999998888");
    MaskFullNumber();
  }

  lemma ProgressSix()
    ensures Progress(6) == "Digite 11 dígitos (6/11)"
  {
    assert NatToString(6) == "6";
  }

  /** Six digits are masked up to the first block and reported as 6/11. */
  lemma ExamplePartialNumber()
    ensures Change("419999") == Masked("(41) 9999", "Digite 11 dígitos (6/11)")
  {
    CleanOfDigits("419999");
    MaskPartialNumber();
    ProgressSix();
    assert |Clean("419999")| == 6;
  }

  /** An empty field stays empty and shows no error. */
  lemma ExampleEmpty()
    ensures Change("") == Masked("", "")
  {
  }

  /** Once the field holds eleven digits, whatever is typed after them is
      ignored. */
  lemma TypingPastElevenIgnored(f: string, extra: string)
    requires |Digits(f)| >= MaxDigits
    ensures Change(f + extra) == Change(f)
  {
    DigitsAppend(f, extra);
    assert (Digits(f) + Digits(extra))[..MaxDigits] == Digits(f)[..MaxDigits];
  }

  /** Pasting four more digits after a complete number leaves the field as
      it was. */
  lemma ExampleOverlong()
    ensures Change("(41) 99999-8888" + "1234") == Masked("(41) 99999-8888", "")
  {
    ExampleFullNumber();
    TypingPastElevenIgnored("(41) 99999-8888", "1234");
    ChangeIdempotent("41999998888");
  }
}
