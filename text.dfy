/** The Python string built-ins the converter relies on, over `seq<char>`:
    `str.split()`, `sep.join`, slicing with clamped bounds, `int()`, `str()`
    of an integer and `str.zfill`. */
module Text {
  import opened Outcomes

  /** Python's `str.isspace` for one character, which is also what `\s` in a
      `re` pattern and the separator of `str.split()` mean. */
  predicate IsSpace(c: char) {
    || c == ' '
    || '\t' <= c <= '\r'
    || '\U{1C}' <= c <= '\U{1F}'
    || c == '\U{85}' || c == '\U{A0}' || c == '\U{1680}'
    || '\U{2000}' <= c <= '\U{200A}'
    || c == '\U{2028}' || c == '\U{2029}' || c == '\U{202F}' || c == '\U{205F}' || c == '\U{3000}'
  }

  predicate IsDigit(c: char) { '0' <= c <= '9' }

  predicate IsLetter(c: char) { 'A' <= c <= 'Z' || 'a' <= c <= 'z' }

  predicate NoSpace(s: string) { forall i :: 0 <= i < |s| ==> !IsSpace(s[i]) }

  predicate AllSpace(s: string) { forall i :: 0 <= i < |s| ==> IsSpace(s[i]) }

  predicate AllDigits(s: string) { forall i :: 0 <= i < |s| ==> IsDigit(s[i]) }

  /** `w` occurs in `s` at position `p`. */
  predicate PrefixAt(s: string, p: nat, w: string) {
    p + |w| <= |s| && s[p..p + |w|] == w
  }

  /** A spelling of `a + b` at `p` is a spelling of `a` at `p` followed by one of `b`. */
  lemma PrefixAtSplit(s: string, p: nat, a: string, b: string)
    requires PrefixAt(s, p, a + b)
    ensures PrefixAt(s, p, a) && PrefixAt(s, p + |a|, b)
  {
    assert s[p..p + |a|] == s[p..p + |a + b|][..|a|];
    assert s[p + |a|..p + |a| + |b|] == s[p..p + |a + b|][|a|..];
  }

  lemma PrefixAtSplit3(s: string, p: nat, a: string, b: string, c: string)
    requires PrefixAt(s, p, a + (b + c))
    ensures PrefixAt(s, p, a) && PrefixAt(s, p + |a|, b) && PrefixAt(s, p + |a| + |b|, c)
  {
    PrefixAtSplit(s, p, a, b + c);
    PrefixAtSplit(s, p + |a|, b, c);
  }

  lemma PrefixAtChar(s: string, p: nat, w: string, k: nat)
    requires PrefixAt(s, p, w) && k < |w|
    ensures s[p + k] == w[k]
  {
    assert s[p + k] == s[p..p + |w|][k];
  }

  // ---------------------------------------------------------------- join

  /** Python's `sep.join(parts)`. */
  function Join(parts: seq<string>, sep: string): string
    decreases |parts|
  {
    if |parts| == 0 then ""
    else if |parts| == 1 then parts[0]
    else parts[0] + sep + Join(parts[1..], sep)
  }

  // ---------------------------------------------------------------- split

  /** The end of the run of non-whitespace characters that starts at `i`. */
  function RunEnd(s: string, i: nat): (j: nat)
    requires i <= |s|
    ensures i <= j <= |s| && NoSpace(s[i..j]) && (j < |s| ==> IsSpace(s[j]))
    decreases |s| - i
  {
    if i == |s| || IsSpace(s[i]) then i else RunEnd(s, i + 1)
  }

  /** Python's `s.split()` with no separator: the maximal runs of
      non-whitespace characters, in order. */
  function Words(s: string): (ws: seq<string>)
    ensures forall k :: 0 <= k < |ws| ==> ws[k] != "" && NoSpace(ws[k])
    decreases |s|
  {
    if s == "" then []
    else if IsSpace(s[0]) then Words(s[1..])
    else
      var j := RunEnd(s, 0);
      [s[..j]] + Words(s[j..])
  }

  lemma {:induction false} RunEndOfWord(w: string, t: string, i: nat)
    requires i <= |w| && NoSpace(w) && (t == "" || IsSpace(t[0]))
    ensures RunEnd(w + t, i) == |w|
    decreases |w| - i
  {
    if i < |w| {
      assert (w + t)[i] == w[i];
      RunEndOfWord(w, t, i + 1);
    } else if t != "" {
      assert (w + t)[i] == t[0];
    }
  }

  lemma WordsOfWord(w: string)
    requires w != "" && NoSpace(w)
    ensures Words(w) == [w]
  {
    RunEndOfWord(w, "", 0);
    assert w + "" == w;
  }

  /** Splitting a space-joined list of words gives the words back. */
  lemma {:induction false} WordsOfJoin(ws: seq<string>)
    requires forall k :: 0 <= k < |ws| ==> ws[k] != "" && NoSpace(ws[k])
    ensures Words(Join(ws, " ")) == ws
    decreases |ws|
  {
    if |ws| == 1 {
      WordsOfWord(ws[0]);
    } else if |ws| > 1 {
      var rest := Join(ws[1..], " ");
      var s := ws[0] + (" " + rest);
      assert s == Join(ws, " ");
      RunEndOfWord(ws[0], " " + rest, 0);
      assert s[..|ws[0]|] == ws[0];
      assert s[|ws[0]|..] == " " + rest;
      assert (" " + rest)[1..] == rest;
      WordsOfJoin(ws[1..]);
    }
  }

  // ---------------------------------------------------------------- slicing

  /** Python's `s[i:j]` for non-negative bounds: bounds past the end are
      clamped and an empty range gives the empty string. */
  function Slice(s: string, i: nat, j: nat): (r: string)
    ensures i <= j <= |s| ==> r == s[i..j]
    ensures |s| < j ==> r == Slice(s, i, |s|)
  {
    var hi := if j <= |s| then j else |s|;
    if i < hi then s[i..hi] else ""
  }

  // ---------------------------------------------------------------- str(int)

  function DigitChar(d: nat): (c: char)
    requires d < 10
    ensures IsDigit(c)
  {
    ('0' as int + d) as char
  }

  function DigitValue(c: char): (d: nat)
    requires IsDigit(c)
    ensures d < 10 && DigitChar(d) == c
  {
    c as int - '0' as int
  }

  /** The decimal value of a string of digits. */
  function DigitsValue(s: string): nat
    requires AllDigits(s)
    decreases |s|
  {
    if s == "" then 0 else DigitsValue(s[..|s| - 1]) * 10 + DigitValue(s[|s| - 1])
  }

  /** Python's `str(n)` for a natural number: no leading zero. */
  function NatToString(n: nat): (s: string)
    ensures s != "" && AllDigits(s)
    ensures s[0] == '0' ==> n == 0
    decreases n
  {
    if n < 10 then [DigitChar(n)] else NatToString(n / 10) + [DigitChar(n % 10)]
  }

  /** Python's `str(n)`. */
  function IntToString(n: int): string {
    if n < 0 then "-" + NatToString(-n) else NatToString(n)
  }

  lemma {:induction false} NatToStringValue(n: nat)
    ensures DigitsValue(NatToString(n)) == n
    decreases n
  {
    if n >= 10 {
      NatToStringValue(n / 10);
      var s := NatToString(n);
      assert s[..|s| - 1] == NatToString(n / 10);
    }
  }

  // ---------------------------------------------------------------- int(str)

  function StripStart(s: string): (r: string)
    decreases |s|
  {
    if s != "" && IsSpace(s[0]) then StripStart(s[1..]) else s
  }

  function StripEnd(s: string): (r: string)
    decreases |s|
  {
    if s != "" && IsSpace(s[|s| - 1]) then StripEnd(s[..|s| - 1]) else s
  }

  /** Python's `s.strip()`. */
  function Strip(s: string): string {
    StripEnd(StripStart(s))
  }

  /** Digits with single underscores between them, which is what `int()`
      accepts after the sign. */
  predicate IsDigitGroup(s: string) {
    && s != ""
    && IsDigit(s[0])
    && IsDigit(s[|s| - 1])
    && (forall i :: 0 <= i < |s| ==> IsDigit(s[i]) || s[i] == '_')
    && (forall i :: 0 <= i < |s| - 1 ==> s[i] == '_' ==> IsDigit(s[i + 1]))
  }

  function DropUnderscores(s: string): (r: string)
    requires forall i :: 0 <= i < |s| ==> IsDigit(s[i]) || s[i] == '_'
    ensures AllDigits(r)
    decreases |s|
  {
    if s == "" then ""
    else if s[0] == '_' then DropUnderscores(s[1..])
    else [s[0]] + DropUnderscores(s[1..])
  }

  /** Python's `int(s)` on a string: surrounding whitespace is ignored, one
      optional sign, then a digit group; anything else is a `ValueError`. */
  function ParseInt(s: string): (r: Result<int>)
    ensures r.Err? ==> r.error == ValueError(s)
  {
    var t := Strip(s);
    var signed := t != "" && (t[0] == '-' || t[0] == '+');
    var body := if signed then t[1..] else t;
    if IsDigitGroup(body) then
      var v: int := DigitsValue(DropUnderscores(body));
      Ok(if signed && t[0] == '-' then -v else v)
    else Err(ValueError(s))
  }

  lemma StripNoSpaceEnds(s: string)
    requires s != "" && !IsSpace(s[0]) && !IsSpace(s[|s| - 1])
    ensures Strip(s) == s
  {
  }

  lemma {:induction false} DropUnderscoresOfDigits(s: string)
    requires AllDigits(s)
    ensures DropUnderscores(s) == s
    decreases |s|
  {
    if s != "" {
      DropUnderscoresOfDigits(s[1..]);
      assert [s[0]] + s[1..] == s;
    }
  }

  lemma DigitGroupOfDigits(s: string)
    requires s != "" && AllDigits(s)
    ensures IsDigitGroup(s)
  {
  }

  /** `int()` of a string of digits is their value. */
  lemma ParseDigits(ds: string)
    requires ds != "" && AllDigits(ds)
    ensures ParseInt(ds) == Ok(DigitsValue(ds))
  {
    assert IsDigit(ds[0]) && IsDigit(ds[|ds| - 1]);
    StripNoSpaceEnds(ds);
    DigitGroupOfDigits(ds);
    DropUnderscoresOfDigits(ds);
  }

  /** `int()` of a minus sign and a string of digits is minus their value. */
  lemma ParseNegativeDigits(s: string, ds: string, v: nat)
    requires ds != "" && AllDigits(ds) && s == "-" + ds && DigitsValue(ds) == v
    ensures ParseInt(s) == Ok(-(v as int))
  {
    assert s[0] == '-';
    assert s[|s| - 1] == ds[|ds| - 1];
    assert IsDigit(ds[|ds| - 1]);
    StripNoSpaceEnds(s);
    assert s[1..] == ds;
    DigitGroupOfDigits(ds);
    DropUnderscoresOfDigits(ds);
    assert IsDigitGroup(Strip(s)[1..]);
    assert DigitsValue(DropUnderscores(Strip(s)[1..])) == DigitsValue(ds);
  }

  /** `int(str(n)) == n`. */
  lemma ParseIntToString(n: int)
    ensures ParseInt(IntToString(n)) == Ok(n)
  {
    if n < 0 {
      ParseNegativeToString(n);
    } else {
      ParseNaturalToString(n);
    }
  }

  lemma ParseNegativeToString(n: int)
    requires n < 0
    ensures ParseInt(IntToString(n)) == Ok(n)
  {
    var ds := NatToString(-n);
    NatToStringValue(-n);
    assert IntToString(n) == "-" + ds;
    ParseNegativeDigits(IntToString(n), ds, -n);
  }

  lemma ParseNaturalToString(n: nat)
    ensures ParseInt(IntToString(n)) == Ok(n)
  {
    var ds := NatToString(n);
    NatToStringValue(n);
    ParseDigits(ds);
  }

  // ---------------------------------------------------------------- zfill

  function Zeros(n: nat): (z: string)
    ensures |z| == n && forall i :: 0 <= i < n ==> z[i] == '0'
  {
    seq(n, _ => '0')
  }

  /** Python's `s.zfill(width)`: zeros are inserted after a leading sign,
      and a string already `width` long is returned as it is. */
  function ZFill(s: string, width: nat): (r: string)
    ensures |r| == if |s| < width then width else |s|
    ensures |s| >= width ==> r == s
    ensures |s| < width && s != "" && (s[0] == '+' || s[0] == '-') ==>
      && r[0] == s[0] && r[width - |s| + 1..] == s[1..]
      && forall i :: 1 <= i <= width - |s| ==> r[i] == '0'
    ensures |s| < width && !(s != "" && (s[0] == '+' || s[0] == '-')) ==>
      && r[width - |s|..] == s
      && forall i :: 0 <= i < width - |s| ==> r[i] == '0'
  {
    if |s| >= width then s
    else if s != "" && (s[0] == '+' || s[0] == '-') then [s[0]] + Zeros(width - |s|) + s[1..]
    else Zeros(width - |s|) + s
  }

  /** Leading zeros do not change the value of a string of digits. */
  lemma {:induction false} LeadingZeros(k: nat, ds: string)
    requires AllDigits(ds)
    ensures AllDigits(Zeros(k) + ds) && DigitsValue(Zeros(k) + ds) == DigitsValue(ds)
    decreases |ds|
  {
    var z := Zeros(k) + ds;
    if ds == "" {
      assert z == Zeros(k);
      ZerosValue(k);
    } else {
      var init := ds[..|ds| - 1];
      LeadingZeros(k, init);
      assert z[..|z| - 1] == Zeros(k) + init;
      assert z[|z| - 1] == ds[|ds| - 1];
    }
  }

  lemma {:induction false} ZerosValue(k: nat)
    ensures AllDigits(Zeros(k)) && DigitsValue(Zeros(k)) == 0
  {
    if k > 0 {
      ZerosValue(k - 1);
      assert Zeros(k)[..k - 1] == Zeros(k - 1);
    }
  }

  /** `int(str(n).zfill(width)) == n`: padding never changes the number. */
  lemma ZFillRoundTrip(n: int, width: nat)
    ensures ParseInt(ZFill(IntToString(n), width)) == Ok(n)
  {
    if n < 0 {
      var ds := NatToString(-n);
      NatToStringValue(-n);
      assert IntToString(n) == "-" + ds;
      ZFillNegative(ds, width, -n);
    } else {
      var ds := NatToString(n);
      NatToStringValue(n);
      ZFillNatural(ds, width);
    }
  }

  /** A padded string of digits reads as the digits. */
  lemma ZFillNatural(ds: string, width: nat)
    requires ds != "" && AllDigits(ds)
    ensures ParseInt(ZFill(ds, width)) == Ok(DigitsValue(ds))
  {
    var k: nat := if |ds| < width then width - |ds| else 0;
    assert IsDigit(ds[0]);
    assert ZFill(ds, width) == Zeros(k) + ds;
    LeadingZeros(k, ds);
    ParseDigits(Zeros(k) + ds);
  }

  /** A padded minus sign and digits reads as minus the digits' value `v`. */
  lemma ZFillNegative(ds: string, width: nat, v: nat)
    requires ds != "" && AllDigits(ds) && DigitsValue(ds) == v
    ensures ParseInt(ZFill("-" + ds, width)) == Ok(-(v as int))
  {
    var k: nat := if 1 + |ds| < width then width - 1 - |ds| else 0;
    ZFillSigned(ds, width);
    LeadingZeros(k, ds);
    ParseNegativeDigits(ZFill("-" + ds, width), Zeros(k) + ds, v);
  }

  /** A negative number is padded after its sign. */
  lemma ZFillSigned(ds: string, width: nat)
    requires ds != ""
    ensures ZFill("-" + ds, width) == "-" + (Zeros(if 1 + |ds| < width then width - 1 - |ds| else 0) + ds)
  {
    if 1 + |ds| < width {
      ZFillSignedShort(ds, width);
    } else {
      assert Zeros(0) + ds == ds;
    }
  }

  lemma ZFillSignedShort(ds: string, width: nat)
    requires ds != "" && 1 + |ds| < width
    ensures ZFill("-" + ds, width) == "-" + (Zeros(width - 1 - |ds|) + ds)
  {
    var s := "-" + ds;
    var z := Zeros(width - |s|);
    assert s[0] == '-' && s[1..] == ds;
    assert ZFill(s, width) == [s[0]] + z + s[1..];
    assert [s[0]] + z + ds == "-" + (z + ds);
  }
}
