/** Fixed-width text: padding, its removal, decimal numbers, and the groups of a dictionary file
    (compression/Encoder.cpp, cmdline_loggrep/SearchAlgorithm.cpp, cmdline_loggrep/LogStore_API.cpp). */
module Capsule {
  const MAX_DICENTY_LEN := 10

  function Spaces(n: nat): (s: string)
    ensures |s| == n && forall k :: 0 <= k < n ==> s[k] == ' '
  {
    if n == 0 then "" else [' '] + Spaces(n - 1)
  }

  /** padding: spaces in front. */
  function Pad(t: string, width: nat): (s: string)
    ensures |t| <= width ==> |s| == width
  {
    if |t| <= width then Spaces(width - |t|) + t else t
  }

  /** What RemovePadding keeps: everything from the first character that is not a space. */
  function Strip(s: string): string {
    if s != "" && s[0] == ' ' then Strip(s[1..]) else s
  }

  /** The padding is removed, and the leading spaces of the text with it. */
  lemma {:induction false} StripSpaces(n: nat, t: string)
    ensures Strip(Spaces(n) + t) == Strip(t)
  {
    if n == 0 {
      assert Spaces(0) + t == t;
    } else {
      var s := Spaces(n) + t;
      assert s[0] == ' ' && s[1..] == Spaces(n - 1) + t;
      StripSpaces(n - 1, t);
    }
  }

  /** Padding and removing it gives a text back exactly when the text does not begin with a space. */
  lemma PadRoundTrip(t: string, width: nat)
    requires |t| <= width
    ensures Strip(Pad(t, width)) == Strip(t)
    ensures Strip(Pad(t, width)) == t <==> t == "" || t[0] != ' '
  {
    hide Spaces, Strip;
    StripSpaces(width - |t|, t);
    StripShorter(t);
  }

  lemma {:induction false} StripShorter(t: string)
    ensures |Strip(t)| <= |t| && (t != "" && t[0] == ' ' ==> |Strip(t)| < |t|)
    ensures t == "" || t[0] != ' ' ==> Strip(t) == t
  {
    if t != "" && t[0] == ' ' { StripShorter(t[1..]); }
  }

  /** RemovePadding. */
  method RemovePadding(paddingedData: string) returns (oriData: string)
    ensures oriData == Strip(paddingedData)
  {
    var i := 0;
    while i < |paddingedData| && paddingedData[i] == ' '
      invariant i <= |paddingedData| && Strip(paddingedData[i..]) == Strip(paddingedData)
    {
      assert paddingedData[i..][1..] == paddingedData[i + 1..];
      i := i + 1;
    }
    oriData := paddingedData[i..];
  }

  function DigitChar(d: nat): (c: char)
    requires d < 10
    ensures '0' <= c <= '9' && c as int - '0' as int == d
  {
    ('0' as int + d) as char
  }

  /** to_string of a number that is not negative. */
  function Decimal(n: nat): (s: string)
    ensures |s| > 0
  {
    if n < 10 then [DigitChar(n)] else Decimal(n / 10) + [DigitChar(n % 10)]
  }

  predicate IsDigit(c: char) { '0' <= c <= '9' }

  /** atoi(buf, len): the digits, whatever stands between them. */
  function Number(s: string): nat {
    if s == "" then 0 else
    var before := Number(s[..|s| - 1]);
    var c := s[|s| - 1];
    if IsDigit(c) then before * 10 + (c as int - '0' as int) else before
  }

  lemma NumberAppend(s: string, c: char)
    ensures Number(s + [c]) == if IsDigit(c) then Number(s) * 10 + (c as int - '0' as int) else Number(s)
  {
    assert (s + [c])[..|s|] == s;
  }

  method Atoi(buf: string) returns (ret: nat)
    ensures ret == Number(buf)
  {
    ret := 0;
    for i := 0 to |buf|
      invariant ret == Number(buf[..i])
    {
      NumberAppend(buf[..i], buf[i]);
      assert buf[..i + 1] == buf[..i] + [buf[i]];
      var temp := buf[i] as int - '0' as int;
      if temp >= 0 && temp <= 9 {
        ret := ret * 10 + temp;
      }
    }
    assert buf[..|buf|] == buf;
  }

  lemma {:induction false} NumberSpaces(n: nat)
    ensures Number(Spaces(n)) == 0
    decreases n
  {
    if n > 0 {
      assert Spaces(n)[..n - 1] == Spaces(n - 1) by {
        SpacesPrefix(n, n - 1);
      }
      NumberSpaces(n - 1);
    }
  }

  lemma SpacesPrefix(n: nat, m: nat)
    requires m <= n
    ensures Spaces(n)[..m] == Spaces(m)
  {}

  /** Reading back a padded number. */
  lemma {:induction false} NumberRoundTrip(n: nat, k: nat)
    ensures Number(Spaces(k) + Decimal(n)) == n
    decreases n
  {
    if n < 10 {
      NumberSpaces(k);
      NumberAppend(Spaces(k), DigitChar(n));
    } else {
      NumberRoundTrip(n / 10, k);
      NumberAppend(Spaces(k) + Decimal(n / 10), DigitChar(n % 10));
      assert Spaces(k) + Decimal(n) == (Spaces(k) + Decimal(n / 10)) + [DigitChar(n % 10)];
    }
  }

  lemma {:induction false} DecimalLonger(m: nat, n: nat)
    requires m <= n
    ensures |Decimal(m)| <= |Decimal(n)|
    decreases n
  {
    if n >= 10 && m >= 10 { DecimalLonger(m / 10, n / 10); }
  }

  /** What IntPadding leaves: the padded number, or the last digits of one that is too long. */
  function Fitted(n: nat, width: nat): (s: string)
    ensures |s| == width
  {
    var d := Decimal(n);
    if |d| <= width then Spaces(width - |d|) + d else d[|d| - width..]
  }

  lemma FittedStep(n: nat, width: nat)
    requires width > 0
    ensures n < 10 ==> Fitted(n, width) == Spaces(width - 1) + [DigitChar(n)]
    ensures n >= 10 ==> Fitted(n, width) == Fitted(n / 10, width - 1) + [DigitChar(n % 10)]
  {
    if n >= 10 {
      var d := Decimal(n / 10);
      assert Decimal(n) == d + [DigitChar(n % 10)];
    }
  }

  lemma LastSpace(i: nat, c: char, tail: string)
    requires i > 0
    ensures (Spaces(i) + tail)[i - 1 := c] == Spaces(i - 1) + ([c] + tail)
  {}

  /** memset(retStr, ' ', maxLen) */
  method Blank(retStr: array<char>, maxLen: nat)
    requires maxLen <= retStr.Length
    modifies retStr
    ensures retStr[..] == Spaces(maxLen) + old(retStr[maxLen..])
  {
    var k := 0;
    while k < maxLen
      invariant k <= maxLen && retStr[..k] == Spaces(k) && retStr[k..] == old(retStr[k..])
    {
      retStr[k] := ' ';
      SpacesAre(retStr[..k + 1]);
      k := k + 1;
    }
    assert retStr[..] == retStr[..maxLen] + retStr[maxLen..];
  }

  /** IntPadding: right to left, up to the highest digit. */
  method IntPadding(target: nat, maxLen: nat, retStr: array<char>) returns (ok: bool)
    requires maxLen <= retStr.Length
    modifies retStr
    ensures ok <==> maxLen <= MAX_DICENTY_LEN
    ensures retStr[..] == if ok then Fitted(target, maxLen) + old(retStr[maxLen..]) else old(retStr[..])
  {
    hide Spaces, Fitted, Decimal, DigitChar;
    if maxLen > MAX_DICENTY_LEN { return false; }
    ghost var behind := retStr[maxLen..];
    Blank(retStr, maxLen);
    var rest, i: nat := target, maxLen;
    ghost var tail: string := behind;
    FittedNone(rest);
    assert Fitted(target, maxLen) + behind == Fitted(rest, i) + tail;
    while i > 0
      invariant i <= maxLen && retStr[..] == Spaces(i) + tail
      invariant Fitted(target, maxLen) + behind == Fitted(rest, i) + tail
    {
      FittedStep(rest, i);
      LastSpace(i, DigitChar(rest % 10), tail);
      i := i - 1;
      ghost var before := retStr[..];
      retStr[i] := DigitChar(rest % 10);
      assert retStr[..] == before[i := DigitChar(rest % 10)];
      Regroup(Spaces(i), [DigitChar(rest % 10)], tail);
      Regroup(Fitted(rest / 10, i), [DigitChar(rest % 10)], tail);
      tail := [DigitChar(rest % 10)] + tail;
      rest := rest / 10;
      if rest == 0 { return true; }
    }
    FittedNone(rest);
    ok := true;
  }

  lemma FittedNone(n: nat)
    ensures Fitted(n, 0) == "" == Spaces(0)
  {}

  lemma Regroup(a: string, b: string, c: string)
    ensures (a + b) + c == a + (b + c)
  {}

  lemma SpacesAre(s: string)
    requires forall k :: 0 <= k < |s| ==> s[k] == ' '
    ensures s == Spaces(|s|)
  {}

  /** IntPadding gives the stored form of an entry number that fits. */
  lemma FittedIsPadded(n: nat, width: nat)
    requires |Decimal(n)| <= width
    ensures Fitted(n, width) == Pad(Decimal(n), width)
  {}
}
