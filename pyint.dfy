/** Python's `int(text)` on a string in base 10, as the editor applies it to
    the threshold field: surrounding whitespace is ignored, one optional sign
    is allowed, and the digits may be grouped by single underscores. Any
    other text is rejected (Python raises ValueError). */
module PyInt {
  import opened Buffers

  /** The characters `int` skips around a number: the ASCII whitespace of the
      C locale (tab, line feed, vertical tab, form feed, carriage return and
      space), and the non-ASCII characters `str.isspace` accepts, which `int`
      first maps to a space. The ASCII separators U+001C to U+001F count as
      whitespace for `str.isspace` but are not skipped. */
  predicate IsSpace(c: char)
  {
    var k := c as int;
    (0x09 <= k <= 0x0D) || k == 0x20 || k == 0x85 || k == 0xA0 ||
    k == 0x1680 || (0x2000 <= k <= 0x200A) || k == 0x2028 || k == 0x2029 ||
    k == 0x202F || k == 0x205F || k == 0x3000
  }

  predicate IsDigit(c: char)
  {
    '0' <= c <= '9'
  }

  function DigitValue(c: char): nat
    requires IsDigit(c)
  {
    (c as int) - ('0' as int)
  }

  function TrimStart(s: string): string
  {
    if |s| > 0 && IsSpace(s[0]) then TrimStart(s[1..]) else s
  }

  function TrimEnd(s: string): string
  {
    if |s| > 0 && IsSpace(s[|s| - 1]) then TrimEnd(s[..|s| - 1]) else s
  }

  /** Decimal digits, starting with a digit, where each underscore is followed
      by a digit: "1_000" is accepted, "_1", "1_" and "1__0" are not. */
  predicate IsDigitRun(s: string)
  {
    |s| > 0 && IsDigit(s[0]) &&
    forall i | 0 <= i < |s| :: IsDigit(s[i]) || (s[i] == '_' && i + 1 < |s| && IsDigit(s[i + 1]))
  }

  /** The number the digits of `s` spell, underscores skipped. */
  function DigitsValue(s: string): nat
  {
    if |s| == 0 then 0
    else if IsDigit(s[|s| - 1]) then DigitsValue(s[..|s| - 1]) * 10 + DigitValue(s[|s| - 1])
    else DigitsValue(s[..|s| - 1])
  }

  /** `int(text)`: the value, or None where Python raises ValueError. Text
      without a digit is rejected, a negative value needs a minus sign in the
      text, and text made of digits alone reads as the number they spell. */
  function ParseInt(text: string): (r: Option<int>)
    ensures r.Some? ==> exists c :: c in text && IsDigit(c)
    ensures r.Some? && r.value < 0 ==> '-' in text
    ensures |text| > 0 && (forall k | 0 <= k < |text| :: IsDigit(text[k])) ==>
      r == Some(DigitsValue(text))
  {
    TrimKeepsChars(text);
    DigitsAreTheirOwnText(text);
    var s := TrimEnd(TrimStart(text));
    if |s| > 0 && (s[0] == '-' || s[0] == '+') then
      if IsDigitRun(s[1..]) then
        var n: int := DigitsValue(s[1..]);
        Some(if s[0] == '-' then -n else n)
      else None
    else if IsDigitRun(s) then Some(DigitsValue(s))
    else None
  }

  /** Text of digits alone has nothing to trim and is a digit run. */
  lemma DigitsAreTheirOwnText(text: string)
    ensures |text| > 0 && (forall k | 0 <= k < |text| :: IsDigit(text[k])) ==>
      TrimEnd(TrimStart(text)) == text && IsDigitRun(text)
  {
    if |text| > 0 && forall k | 0 <= k < |text| :: IsDigit(text[k]) {
      TrimNoSpace(text);
      AllDigitsIsRun(text);
    }
  }

  /** Trimming only removes characters. */
  lemma {:induction false} TrimKeepsChars(text: string)
    ensures forall c :: c in TrimEnd(TrimStart(text)) ==> c in text
  {
    TrimStartKeepsChars(text);
    TrimEndKeepsChars(TrimStart(text));
  }

  lemma {:induction false} TrimStartKeepsChars(s: string)
    ensures forall c :: c in TrimStart(s) ==> c in s
  {
    if |s| > 0 && IsSpace(s[0]) {
      TrimStartKeepsChars(s[1..]);
    }
  }

  lemma {:induction false} TrimEndKeepsChars(s: string)
    ensures forall c :: c in TrimEnd(s) ==> c in s
  {
    if |s| > 0 && IsSpace(s[|s| - 1]) {
      TrimEndKeepsChars(s[..|s| - 1]);
    }
  }

  function DigitChar(d: nat): (c: char)
    requires d < 10
    ensures IsDigit(c) && DigitValue(c) == d
  {
    ('0' as int + d) as char
  }

  /** The decimal digits of `n`, most significant first, without leading zeros. */
  function Decimal(n: nat): string
  {
    if n < 10 then [DigitChar(n)] else Decimal(n / 10) + [DigitChar(n % 10)]
  }

  /** `str(i)` for an integer. */
  function Show(i: int): string
  {
    if i < 0 then "-" + Decimal(-i) else Decimal(i)
  }

  lemma {:induction false} DecimalIsDigits(n: nat)
    ensures |Decimal(n)| > 0
    ensures forall k | 0 <= k < |Decimal(n)| :: IsDigit(Decimal(n)[k])
  {
    if n >= 10 {
      DecimalIsDigits(n / 10);
    }
  }

  lemma {:induction false} DecimalValue(n: nat)
    ensures DigitsValue(Decimal(n)) == n
  {
    if n >= 10 {
      var s := Decimal(n);
      assert s[..|s| - 1] == Decimal(n / 10);
      DecimalValue(n / 10);
    }
  }

  lemma {:induction false} TrimNoSpace(s: string)
    requires forall k | 0 <= k < |s| :: !IsSpace(s[k])
    ensures TrimEnd(TrimStart(s)) == s
  {
  }

  lemma AllDigitsIsRun(d: string)
    requires |d| > 0 && forall k | 0 <= k < |d| :: IsDigit(d[k])
    ensures IsDigitRun(d)
  {
  }

  /** Reading back what `str` writes gives the same integer. */
  lemma {:induction false} ParseShow(i: int)
    ensures ParseInt(Show(i)) == Some(i)
  {
    var n: nat := if i < 0 then -i else i;
    var d := Decimal(n);
    DecimalIsDigits(n);
    DecimalValue(n);
    AllDigitsIsRun(d);
    if i < 0 {
      var s := "-" + d;
      forall k | 0 <= k < |s|
        ensures !IsSpace(s[k])
      {
        if k > 0 {
          assert s[k] == d[k - 1];
        }
      }
      TrimNoSpace(s);
      assert s[1..] == d;
    } else {
      TrimNoSpace(d);
    }
  }

  lemma {:induction false} TrimStartSpaces(pre: string, s: string)
    requires forall k | 0 <= k < |pre| :: IsSpace(pre[k])
    ensures TrimStart(pre + s) == TrimStart(s)
  {
    if |pre| > 0 {
      assert (pre + s)[0] == pre[0] && IsSpace(pre[0]);
      assert (pre + s)[1..] == pre[1..] + s;
      assert TrimStart(pre + s) == TrimStart(pre[1..] + s);
      TrimStartSpaces(pre[1..], s);
    } else {
      assert pre + s == s;
    }
  }

  lemma {:induction false} TrimEndSpaces(s: string, post: string)
    requires forall k | 0 <= k < |post| :: IsSpace(post[k])
    ensures TrimEnd(s + post) == TrimEnd(s)
  {
    if |post| > 0 {
      var t := s + post;
      assert t[..|t| - 1] == s + post[..|post| - 1];
      TrimEndSpaces(s, post[..|post| - 1]);
    } else {
      assert s + post == s;
    }
  }

  /** Once leading whitespace is gone, appending whitespace only appends it. */
  lemma {:induction false} TrimStartAppend(s: string, post: string)
    requires forall k | 0 <= k < |post| :: IsSpace(post[k])
    ensures TrimEnd(TrimStart(s + post)) == TrimEnd(TrimStart(s))
  {
    if |s| == 0 {
      assert s + post == post;
      TrimStartSpaces(post, "");
      assert post + "" == post;
      TrimEndSpaces("", post);
      assert "" + post == post;
    } else if IsSpace(s[0]) {
      assert (s + post)[1..] == s[1..] + post;
      TrimStartAppend(s[1..], post);
    } else {
      assert TrimStart(s + post) == s + post;
      TrimEndSpaces(s, post);
    }
  }

  /** Whitespace around the text does not change what `int` reads. */
  lemma ParseIgnoresSurroundingSpace(pre: string, s: string, post: string)
    requires forall k | 0 <= k < |pre| :: IsSpace(pre[k])
    requires forall k | 0 <= k < |post| :: IsSpace(post[k])
    ensures ParseInt(pre + s + post) == ParseInt(s)
  {
    SurroundingSpaceTrims(pre, s, post);
    ParseReadsTrimmed(pre + s + post, s);
  }

  lemma SurroundingSpaceTrims(pre: string, s: string, post: string)
    requires forall k | 0 <= k < |pre| :: IsSpace(pre[k])
    requires forall k | 0 <= k < |post| :: IsSpace(post[k])
    ensures TrimEnd(TrimStart(pre + s + post)) == TrimEnd(TrimStart(s))
  {
    assert pre + s + post == pre + (s + post);
    TrimStartSpaces(pre, s + post);
    TrimStartAppend(s, post);
  }

  /** `int` reads only the trimmed text. */
  lemma ParseReadsTrimmed(a: string, b: string)
    requires TrimEnd(TrimStart(a)) == TrimEnd(TrimStart(b))
    ensures ParseInt(a) == ParseInt(b)
  {
  }

  /** The editor's default threshold text reads as 128. */
  lemma ParseDefaultThreshold()
    ensures ParseInt("128") == Some(128)
  {
    var plain := "128";
    assert TrimStart(plain) == plain && TrimEnd(plain) == plain;
    assert IsDigitRun(plain);
    assert plain[..2] == "12" && "12"[..1] == "1";
    assert DigitsValue(plain) == 128;
  }

  /** A sign, underscores between digits and surrounding whitespace are accepted. */
  lemma ParseSignedGrouped()
    ensures ParseInt("-1_000") == Some(-1000)
  {
    var text := "-1_000";
    var grouped := "1_000";
    assert TrimStart(text) == text && TrimEnd(text) == text;
    assert text[1..] == grouped;
    assert IsDigitRun(grouped);
    assert grouped[..4] == "1_00" && "1_00"[..3] == "1_0" && "1_0"[..2] == "1_" && "1_"[..1] == "1";
    assert DigitsValue(grouped) == 1000;
  }

  /** Empty text, a fraction and a doubled underscore are rejected. */
  lemma ParseRejects()
    ensures ParseInt("") == None
    ensures ParseInt("12.5") == None
    ensures ParseInt("1__0") == None
    ensures ParseInt("\U{1C}128") == None
  {
    var fraction := "12.5";
    assert TrimStart(fraction) == fraction && TrimEnd(fraction) == fraction;
    assert !IsDigit(fraction[2]) && fraction[2] != '_';
    var doubled := "1__0";
    assert TrimStart(doubled) == doubled && TrimEnd(doubled) == doubled;
    assert doubled[1] == '_' && !IsDigit(doubled[2]);
    var separated := "\U{1C}128";
    assert !IsSpace(separated[0]) && !IsSpace(separated[|separated| - 1]);
    assert TrimStart(separated) == separated && TrimEnd(separated) == separated;
    assert !IsDigit(separated[0]);
  }
}
