/** The six regular expressions of the world-row parser, written as explicit
    scanners.  Three of them are searched for all through the Remarks text
    (`finditer`), three are matched at the start of a sub-code field (`match`).

    Each scanner is specified by the token shape its pattern describes
    (`Shaped`) and by how a token is spelled (`Spelling`): a scanner result is
    a well-shaped token spelled at the position, and it is the longest such
    token there, which for these patterns is the one the regular expression
    engine's left-to-right, greedy-first choice produces. */
module Patterns {
  import opened Outcomes
  import opened Text

  predicate IsOpener(c: char) { c == '(' || c == '[' }

  predicate IsCloser(c: char) { c == ')' || c == ']' }

  /** `[0-9W]`: a population tenths digit, or `W` for the whole world. */
  predicate IsTenth(c: char) { IsDigit(c) || c == 'W' }

  /** `[A-Za-z']` */
  predicate IsCodeChar(c: char) { IsLetter(c) || c == '\'' }

  predicate AllCodeChars(s: string) { forall i :: 0 <= i < |s| ==> IsCodeChar(s[i]) }

  predicate AllLetters(s: string) { forall i :: 0 <= i < |s| ==> IsLetter(s[i]) }

  /** A match of one of the three patterns searched for in the Remarks. */
  datatype Token =
      /** `(Di)?[(\[]([^)\]]+)[)\]]([0-9W]?)`: a homeworld race, possibly
          extinct ("Di" prefix), in either kind of bracket; the two brackets
          need not be of the same kind. */
    | Homeworld(extinct: bool, open: char, race: string, close: char, suffix: string)
      /** `([A-Za-z']{3,4})([0-9W])`: a sophont code and its population tenths. */
    | RaceCount(code: string, tenth: char)
      /** `O:(([A-Za-z]{3,4})-)?(\d{4})`: an owning world, possibly in another sector. */
    | Owner(prefix: Option<string>, hex: string)

  datatype Pattern = HomeworldPattern | RacePattern | OwnerPattern

  function Kind(t: Token): Pattern {
    match t
    case Homeworld(_, _, _, _, _) => HomeworldPattern
    case RaceCount(_, _) => RacePattern
    case Owner(_, _) => OwnerPattern
  }

  /** The text a token stands for. */
  function Spelling(t: Token): (w: string)
    ensures |w| > 0
  {
    match t
    case Homeworld(extinct, open, race, close, suffix) =>
      (if extinct then "Di" else "") + [open] + race + [close] + suffix
    case RaceCount(code, tenth) => code + [tenth]
    case Owner(prefix, hex) => "O:" + (if prefix.Some? then prefix.value + "-" else "") + hex
  }

  /** The tokens each pattern describes. */
  predicate Shaped(pat: Pattern, t: Token) {
    match pat
    case HomeworldPattern =>
      && t.Homeworld?
      && IsOpener(t.open) && IsCloser(t.close)
      && t.race != "" && (forall i :: 0 <= i < |t.race| ==> !IsCloser(t.race[i]))
      && (t.suffix == "" || (|t.suffix| == 1 && IsTenth(t.suffix[0])))
    case RacePattern =>
      t.RaceCount? && 3 <= |t.code| <= 4 && AllCodeChars(t.code) && IsTenth(t.tenth)
    case OwnerPattern =>
      && t.Owner?
      && (t.prefix.Some? ==> 3 <= |t.prefix.value| <= 4 && AllLetters(t.prefix.value))
      && |t.hex| == 4 && AllDigits(t.hex)
  }

  // ---------------------------------------------------------------- homeworld

  /** The first closing bracket at or after `i`, or `|s|` if there is none. */
  function CloserFrom(s: string, i: nat): (c: nat)
    requires i <= |s|
    ensures i <= c <= |s|
    ensures forall k :: i <= k < c ==> !IsCloser(s[k])
    ensures c < |s| ==> IsCloser(s[c])
    decreases |s| - i
  {
    if i == |s| || IsCloser(s[i]) then i else CloserFrom(s, i + 1)
  }

  /** The bracketed part of the homeworld pattern, with its opening bracket at `q`. */
  function BracketAt(s: string, q: nat, extinct: bool): Option<Token> {
    if q < |s| && IsOpener(s[q]) then
      var c := CloserFrom(s, q + 1);
      if q + 1 < c < |s| then
        var suffix := if c + 1 < |s| && IsTenth(s[c + 1]) then [s[c + 1]] else "";
        Some(Homeworld(extinct, s[q], s[q + 1..c], s[c], suffix))
      else None
    else None
  }

  /** The optional "Di" is tried first; without it the bracket must start at `p`. */
  function HomeworldAt(s: string, p: nat): Option<Token> {
    if PrefixAt(s, p, "Di") && BracketAt(s, p + 2, true).Some? then BracketAt(s, p + 2, true)
    else BracketAt(s, p, false)
  }

  lemma BracketAtSound(s: string, q: nat, extinct: bool)
    requires BracketAt(s, q, extinct).Some?
    ensures var t := BracketAt(s, q, extinct).value;
      Shaped(HomeworldPattern, t) && t.extinct == extinct
      && PrefixAt(s, q, Spelling(t)[if extinct then 2 else 0..])
  {
    var t := BracketAt(s, q, extinct).value;
    var c := CloserFrom(s, q + 1);
    var e := c + 1 + |t.suffix|;
    var w := [t.open] + t.race + [t.close] + t.suffix;
    assert s[c + 1..e] == t.suffix;
    assert s[q..e] == [s[q]] + s[q + 1..c] + [s[c]] + s[c + 1..e];
    if extinct {
      assert Spelling(t) == "Di" + w;
      assert ("Di" + w)[2..] == w;
    } else {
      assert Spelling(t) == w;
    }
  }

  // ---------------------------------------------------------------- race code

  function RaceAt(s: string, p: nat): Option<Token> {
    if p + 5 <= |s| && AllCodeChars(s[p..p + 4]) && IsTenth(s[p + 4]) then
      Some(RaceCount(s[p..p + 4], s[p + 4]))
    else if p + 4 <= |s| && AllCodeChars(s[p..p + 3]) && IsTenth(s[p + 3]) then
      Some(RaceCount(s[p..p + 3], s[p + 3]))
    else None
  }

  // ---------------------------------------------------------------- ownership

  function OwnerAt(s: string, p: nat): Option<Token> {
    if !PrefixAt(s, p, "O:") then None
    else
      var q := p + 2;
      var prefix :=
        if q + 5 <= |s| && AllLetters(s[q..q + 4]) && s[q + 4] == '-' then Some(s[q..q + 4])
        else if q + 4 <= |s| && AllLetters(s[q..q + 3]) && s[q + 3] == '-' then Some(s[q..q + 3])
        else None;
      var h := if prefix.Some? then q + |prefix.value| + 1 else q;
      if h + 4 <= |s| && AllDigits(s[h..h + 4]) then Some(Owner(prefix, s[h..h + 4])) else None
  }

  // ---------------------------------------------------------------- matching

  lemma HomeworldAtSound(s: string, p: nat)
    requires HomeworldAt(s, p).Some?
    ensures Shaped(HomeworldPattern, HomeworldAt(s, p).value)
    ensures PrefixAt(s, p, Spelling(HomeworldAt(s, p).value))
  {
    var t := HomeworldAt(s, p).value;
    if PrefixAt(s, p, "Di") && BracketAt(s, p + 2, true).Some? {
      BracketAtSound(s, p + 2, true);
      var w := Spelling(t);
      assert w == "Di" + w[2..];
      assert s[p..p + |w|] == s[p..p + 2] + s[p + 2..p + |w|];
    } else {
      BracketAtSound(s, p, false);
    }
  }

  lemma RaceAtSound(s: string, p: nat)
    requires RaceAt(s, p).Some?
    ensures Shaped(RacePattern, RaceAt(s, p).value)
    ensures PrefixAt(s, p, Spelling(RaceAt(s, p).value))
  {
    var t := RaceAt(s, p).value;
    assert s[p..p + |Spelling(t)|] == t.code + [t.tenth];
  }

  lemma OwnerAtSound(s: string, p: nat)
    requires OwnerAt(s, p).Some?
    ensures Shaped(OwnerPattern, OwnerAt(s, p).value)
    ensures PrefixAt(s, p, Spelling(OwnerAt(s, p).value))
  {
    var t := OwnerAt(s, p).value;
    var q := p + 2;
    var h := if t.prefix.Some? then q + |t.prefix.value| + 1 else q;
    assert s[p..q] == "O:";
    assert s[h..h + 4] == t.hex;
    if t.prefix.Some? {
      assert s[q..h] == t.prefix.value + "-";
      assert s[p..h + 4] == s[p..q] + s[q..h] + s[h..h + 4];
      assert Spelling(t) == "O:" + (t.prefix.value + "-") + t.hex;
    } else {
      assert s[p..h + 4] == s[p..q] + s[h..h + 4];
      assert Spelling(t) == "O:" + t.hex;
    }
  }

  /** The match of `pat` that starts at `p`, if any. */
  function MatchAt(pat: Pattern, s: string, p: nat): (r: Option<Token>)
    ensures r.Some? ==> Shaped(pat, r.value) && PrefixAt(s, p, Spelling(r.value))
  {
    match pat
    case HomeworldPattern =>
      var r := HomeworldAt(s, p);
      if r.Some? then HomeworldAtSound(s, p); r else r
    case RacePattern =>
      var r := RaceAt(s, p);
      if r.Some? then RaceAtSound(s, p); r else r
    case OwnerPattern =>
      var r := OwnerAt(s, p);
      if r.Some? then OwnerAtSound(s, p); r else r
  }

  lemma CloserFromIs(s: string, i: nat, c: nat)
    requires i <= c < |s| && IsCloser(s[c])
    requires forall k :: i <= k < c ==> !IsCloser(s[k])
    ensures CloserFrom(s, i) == c
  {
  }

  /** An opening bracket at `q` whose first closer is at `c`, with text in between. */
  lemma BracketAtFrom(s: string, q: nat, c: nat, extinct: bool)
    requires q < |s| && IsOpener(s[q]) && q + 1 < c < |s| && CloserFrom(s, q + 1) == c
    ensures var b := BracketAt(s, q, extinct);
      && b.Some? && b.value.extinct == extinct && |b.value.race| == c - q - 1
      && (c + 1 < |s| && IsTenth(s[c + 1]) ==> |b.value.suffix| == 1)
  {
  }

  /** A run without closers spelled at `i` and followed by a closer ends at that closer. */
  lemma CloserAfter(s: string, i: nat, w: string)
    requires PrefixAt(s, i, w) && i + |w| < |s| && IsCloser(s[i + |w|])
    requires forall k :: 0 <= k < |w| ==> !IsCloser(w[k])
    ensures CloserFrom(s, i) == i + |w|
  {
    forall k | i <= k < i + |w|
      ensures !IsCloser(s[k])
    {
      PrefixAtChar(s, i, w, k - i);
    }
    CloserFromIs(s, i, i + |w|);
  }

  /** Where the parts of a bracketed race name sit in a text that spells it at `q`. */
  lemma BracketParts(s: string, q: nat, open: char, race: string, close: char, suffix: string)
    requires PrefixAt(s, q, [open] + race + [close] + suffix)
    ensures s[q] == open && PrefixAt(s, q + 1, race) && s[q + 1 + |race|] == close
    ensures suffix != "" ==> s[q + 2 + |race|] == suffix[0]
  {
    var n := |race|;
    assert PrefixAt(s, q, [open]) && PrefixAt(s, q + 1, race) && PrefixAt(s, q + 1 + n, [close] + suffix) by {
      assert [open] + race + [close] + suffix == [open] + (race + ([close] + suffix));
      PrefixAtSplit3(s, q, [open], race, [close] + suffix);
    }
    PrefixAtChar(s, q, [open], 0);
    PrefixAtSplit(s, q + 1 + n, [close], suffix);
    PrefixAtChar(s, q + 1 + n, [close], 0);
    if suffix != "" {
      PrefixAtChar(s, q + 2 + n, suffix, 0);
    }
  }

  /** The bracketed part of a homeworld token, spelled at `q`, is found by `BracketAt`. */
  lemma BracketAtFinds(s: string, q: nat, t: Token)
    requires Shaped(HomeworldPattern, t)
    requires PrefixAt(s, q, [t.open] + t.race + [t.close] + t.suffix)
    ensures var b := BracketAt(s, q, t.extinct);
      b.Some? && b.value.extinct == t.extinct && |b.value.race| == |t.race| && |b.value.suffix| >= |t.suffix|
  {
    var n := |t.race|;
    BracketParts(s, q, t.open, t.race, t.close, t.suffix);
    CloserAfter(s, q + 1, t.race);
    BracketAtFrom(s, q, q + 1 + n, t.extinct);
  }

  lemma HomeworldLongest(s: string, p: nat, t: Token)
    requires Shaped(HomeworldPattern, t) && PrefixAt(s, p, Spelling(t))
    ensures HomeworldAt(s, p).Some? && |Spelling(t)| <= |Spelling(HomeworldAt(s, p).value)|
  {
    var di := if t.extinct then "Di" else "";
    var inner := [t.open] + t.race + [t.close] + t.suffix;
    var q := p + |di|;
    assert PrefixAt(s, p, di) && PrefixAt(s, q, inner) by {
      assert Spelling(t) == di + inner;
      PrefixAtSplit(s, p, di, inner);
    }
    BracketAtFinds(s, q, t);
    var b := BracketAt(s, q, t.extinct);
    assert |Spelling(b.value)| == |di| + 2 + |b.value.race| + |b.value.suffix|;
    if !t.extinct {
      PrefixAtChar(s, p, inner, 0);
      NoDiAtOpener(s, p);
    }
    assert HomeworldAt(s, p) == b;
  }

  /** A bracket where the match starts rules out the "Di" alternative. */
  lemma NoDiAtOpener(s: string, p: nat)
    requires p < |s| && IsOpener(s[p])
    ensures !PrefixAt(s, p, "Di")
  {
    if p + 2 <= |s| {
      assert s[p..p + 2][0] == s[p];
    }
  }

  lemma RaceLongest(s: string, p: nat, t: Token)
    requires Shaped(RacePattern, t) && PrefixAt(s, p, Spelling(t))
    ensures RaceAt(s, p).Some? && |Spelling(t)| <= |Spelling(RaceAt(s, p).value)|
  {
    var n := |t.code|;
    PrefixAtSplit(s, p, t.code, [t.tenth]);
    PrefixAtChar(s, p + n, [t.tenth], 0);
  }

  /** The optional sector prefix of an ownership token is read back exactly. */
  lemma OwnerPrefixFinds(s: string, q: nat, t: Token)
    requires Shaped(OwnerPattern, t)
    requires PrefixAt(s, q, (if t.prefix.Some? then t.prefix.value + "-" else "") + t.hex)
    ensures var prefix :=
        if q + 5 <= |s| && AllLetters(s[q..q + 4]) && s[q + 4] == '-' then Some(s[q..q + 4])
        else if q + 4 <= |s| && AllLetters(s[q..q + 3]) && s[q + 3] == '-' then Some(s[q..q + 3])
        else None;
      prefix == t.prefix
  {
    var mid := if t.prefix.Some? then t.prefix.value + "-" else "";
    PrefixAtSplit(s, q, mid, t.hex);
    if t.prefix.Some? {
      OwnerPrefixPresent(s, q, t.prefix.value);
    } else {
      OwnerPrefixAbsent(s, q, t.hex);
    }
  }

  lemma OwnerPrefixPresent(s: string, q: nat, x: string)
    requires (|x| == 3 || |x| == 4) && AllLetters(x) && PrefixAt(s, q, x + "-")
    ensures var prefix :=
        if q + 5 <= |s| && AllLetters(s[q..q + 4]) && s[q + 4] == '-' then Some(s[q..q + 4])
        else if q + 4 <= |s| && AllLetters(s[q..q + 3]) && s[q + 3] == '-' then Some(s[q..q + 3])
        else None;
      prefix == Some(x)
  {
    PrefixAtSplit(s, q, x, "-");
    PrefixAtChar(s, q + |x|, "-", 0);
    assert s[q..q + |x|] == x;
    if |x| == 3 {
      assert !AllLetters(s[q..q + 4]) by { assert s[q..q + 4][3] == s[q + 3]; }
    }
  }

  lemma OwnerPrefixAbsent(s: string, q: nat, hex: string)
    requires |hex| == 4 && AllDigits(hex) && PrefixAt(s, q, hex)
    ensures var prefix :=
        if q + 5 <= |s| && AllLetters(s[q..q + 4]) && s[q + 4] == '-' then Some(s[q..q + 4])
        else if q + 4 <= |s| && AllLetters(s[q..q + 3]) && s[q + 3] == '-' then Some(s[q..q + 3])
        else None;
      prefix == None
  {
    PrefixAtChar(s, q, hex, 0);
    assert !AllLetters(s[q..q + 3]) by { assert s[q..q + 3][0] == s[q]; }
    if q + 5 <= |s| {
      assert !AllLetters(s[q..q + 4]) by { assert s[q..q + 4][0] == s[q]; }
    }
  }

  lemma OwnerLongest(s: string, p: nat, t: Token)
    requires Shaped(OwnerPattern, t) && PrefixAt(s, p, Spelling(t))
    ensures OwnerAt(s, p) == Some(t)
  {
    var q := p + 2;
    var mid := if t.prefix.Some? then t.prefix.value + "-" else "";
    assert PrefixAt(s, p, "O:") && PrefixAt(s, q, mid + t.hex) by {
      assert Spelling(t) == "O:" + (mid + t.hex);
      PrefixAtSplit(s, p, "O:", mid + t.hex);
    }
    OwnerPrefixFinds(s, q, t);
    var h := q + |mid|;
    assert s[h..h + 4] == t.hex by {
      PrefixAtSplit(s, q, mid, t.hex);
    }
  }

  /** A well-shaped token spelled at `p` means the scanner matches there, and
      its match is at least as long: the scanner returns the longest token. */
  lemma MatchAtLongest(pat: Pattern, s: string, p: nat, t: Token)
    requires Shaped(pat, t) && PrefixAt(s, p, Spelling(t))
    ensures MatchAt(pat, s, p).Some?
    ensures |Spelling(t)| <= |Spelling(MatchAt(pat, s, p).value)|
  {
    match pat
    case HomeworldPattern => HomeworldLongest(s, p, t);
    case RacePattern => RaceLongest(s, p, t);
    case OwnerPattern => OwnerLongest(s, p, t);
  }

  // ---------------------------------------------------------------- finditer

  datatype Found = Found(pos: nat, token: Token)

  function End(f: Found): nat {
    f.pos + |Spelling(f.token)|
  }

  /** The match at every position of a text, and one past its end. */
  function MatchTable(pat: Pattern, s: string): (ms: seq<Option<Token>>)
    ensures |ms| == |s| + 1 && Fits(ms)
    ensures forall q :: 0 <= q < |ms| ==> ms[q] == MatchAt(pat, s, q)
  {
    seq(|s| + 1, q requires 0 <= q <= |s| => MatchAt(pat, s, q))
  }

  /** Every match in the table ends within the text. */
  predicate Fits(ms: seq<Option<Token>>) {
    forall q :: 0 <= q < |ms| && ms[q].Some? ==> q + |Spelling(ms[q].value)| < |ms|
  }

  /** `pattern.finditer(s)` from position `p`, over the table of matches of
      the pattern: at each position the match there is taken and the search
      resumes at its end; where there is no match the search moves on by one
      character. */
  function FindIter(ms: seq<Option<Token>>, p: nat): (fs: seq<Found>)
    requires Fits(ms) && p < |ms|
    ensures forall k :: 0 <= k < |fs| ==>
      p <= fs[k].pos && End(fs[k]) < |ms| && ms[fs[k].pos] == Some(fs[k].token)
    ensures forall i, j :: 0 <= i < j < |fs| ==> End(fs[i]) <= fs[j].pos
    decreases |ms| - p
  {
    match ms[p]
    case Some(t) => [Found(p, t)] + FindIter(ms, p + |Spelling(t)|)
    case None => if p == |ms| - 1 then [] else FindIter(ms, p + 1)
  }

  /** No match starts in `[lo, hi)`. */
  predicate NoMatchIn(ms: seq<Option<Token>>, lo: nat, hi: nat) {
    forall q :: lo <= q < hi && q < |ms| ==> ms[q].None?
  }

  /** The found matches are the leftmost ones from `p` on: no match starts
      before the first one, nor between the end of one and the start of the
      next, nor after the last one. */
  predicate Leftmost(ms: seq<Option<Token>>, p: nat, fs: seq<Found>)
    decreases |fs|
  {
    if fs == [] then NoMatchIn(ms, p, |ms|)
    else NoMatchIn(ms, p, fs[0].pos) && Leftmost(ms, End(fs[0]), fs[1..])
  }

  /** `FindIter` lists every non-overlapping match, leftmost first. */
  lemma {:induction false} FindIterLeftmost(ms: seq<Option<Token>>, p: nat)
    requires Fits(ms) && p < |ms|
    ensures Leftmost(ms, p, FindIter(ms, p))
    decreases |ms| - p
  {
    match ms[p]
    case Some(t) =>
      var q := p + |Spelling(t)|;
      var rest := FindIter(ms, q);
      assert FindIter(ms, p) == [Found(p, t)] + rest;
      FindIterLeftmost(ms, q);
      LeftmostTaken(ms, Found(p, t), rest);
    case None =>
      if p < |ms| - 1 {
        var rest := FindIter(ms, p + 1);
        assert FindIter(ms, p) == rest;
        FindIterLeftmost(ms, p + 1);
        LeftmostSkipped(ms, p, rest);
      }
  }

  /** A match taken at the search position, then the leftmost ones after it. */
  lemma LeftmostTaken(ms: seq<Option<Token>>, f: Found, rest: seq<Found>)
    requires Leftmost(ms, End(f), rest)
    ensures Leftmost(ms, f.pos, [f] + rest)
  {
    assert ([f] + rest)[1..] == rest;
  }

  /** A position without a match, then the leftmost matches after it. */
  lemma LeftmostSkipped(ms: seq<Option<Token>>, p: nat, rest: seq<Found>)
    requires p < |ms| && ms[p].None? && Leftmost(ms, p + 1, rest)
    ensures Leftmost(ms, p, rest)
  {
  }

  /** The tokens `finditer` yields on the whole text. */
  function Scan(pat: Pattern, s: string): (ts: seq<Token>)
    ensures forall k :: 0 <= k < |ts| ==> Shaped(pat, ts[k])
  {
    var fs := FindIter(MatchTable(pat, s), 0);
    seq(|fs|, k requires 0 <= k < |fs| => fs[k].token)
  }

  // ---------------------------------------------------------------- anchored sub-codes

  /** `\{\s*(-?\d)\s*\}` at the start of the Importance field. */
  datatype Importance = Importance(lead: string, value: string, trail: string)

  predicate ImportanceShaped(x: Importance) {
    && AllSpace(x.lead) && AllSpace(x.trail)
    && ((|x.value| == 1 && IsDigit(x.value[0])) || (|x.value| == 2 && x.value[0] == '-' && IsDigit(x.value[1])))
  }

  function ImportanceSpelling(x: Importance): string {
    "{" + (x.lead + (x.value + (x.trail + "}")))
  }

  /** The first index at or after `i` that is not whitespace, or `|s|`. */
  function SpaceEnd(s: string, i: nat): (j: nat)
    requires i <= |s|
    ensures i <= j <= |s| && AllSpace(s[i..j]) && (j < |s| ==> !IsSpace(s[j]))
    decreases |s| - i
  {
    if i == |s| || !IsSpace(s[i]) then i else SpaceEnd(s, i + 1)
  }

  lemma ImportanceSlices(s: string, a: nat, b: nat, c: nat)
    requires 1 <= a <= b <= c < |s| && s[0] == '{' && s[c] == '}'
    ensures s[..c + 1] == "{" + (s[1..a] + (s[a..b] + (s[b..c] + "}")))
  {
    assert s[b..c + 1] == s[b..c] + "}";
    assert s[a..c + 1] == s[a..b] + s[b..c + 1];
    assert s[1..c + 1] == s[1..a] + s[a..c + 1];
    assert s[..c + 1] == "{" + s[1..c + 1];
  }

  function ImportanceOf(s: string): (r: Option<Importance>)
    ensures r.Some? ==> ImportanceShaped(r.value) && PrefixAt(s, 0, ImportanceSpelling(r.value))
  {
    if s != "" && s[0] == '{' then
      var a := SpaceEnd(s, 1);
      var b := if a < |s| && s[a] == '-' then a + 1 else a;
      if b < |s| && IsDigit(s[b]) then
        var c := SpaceEnd(s, b + 1);
        if c < |s| && s[c] == '}' then
          var x := Importance(s[1..a], s[a..b + 1], s[b + 1..c]);
          ImportanceSlices(s, a, b + 1, c);
          Some(x)
        else None
      else None
    else None
  }

  lemma SpaceEndIs(s: string, i: nat, j: nat)
    requires i <= j < |s| && !IsSpace(s[j])
    requires forall k :: i <= k < j ==> IsSpace(s[k])
    ensures SpaceEnd(s, i) == j
  {
  }

  /** Where the parts of an importance token sit in a text that starts with it. */
  lemma ImportanceParts(s: string, lead: string, value: string, trail: string)
    requires PrefixAt(s, 0, ImportanceSpelling(Importance(lead, value, trail)))
    ensures s[0] == '{' && PrefixAt(s, 1, lead) && PrefixAt(s, 1 + |lead|, value)
    ensures PrefixAt(s, 1 + |lead| + |value|, trail) && s[1 + |lead| + |value| + |trail|] == '}'
  {
    PrefixAtSplit(s, 0, "{", lead + (value + (trail + "}")));
    PrefixAtChar(s, 0, "{", 0);
    PrefixAtSplit3(s, 1, lead, value, trail + "}");
    var b := 1 + |lead| + |value|;
    PrefixAtSplit(s, b, trail, "}");
    PrefixAtChar(s, b + |trail|, "}", 0);
  }

  /** A run of whitespace spelled at `i` and followed by a non-space ends where it should. */
  lemma SpaceRunEnd(s: string, i: nat, w: string)
    requires PrefixAt(s, i, w) && AllSpace(w) && i + |w| < |s| && !IsSpace(s[i + |w|])
    ensures SpaceEnd(s, i) == i + |w|
  {
    forall k | i <= k < i + |w| ensures IsSpace(s[k]) { PrefixAtChar(s, i, w, k - i); }
    SpaceEndIs(s, i, i + |w|);
  }

  /** What `ImportanceOf` reads once the ends of the whitespace runs are known. */
  lemma ImportanceFrom(s: string, a: nat, b: nat, c: nat)
    requires 0 < |s| && s[0] == '{' && 1 <= a < |s| && SpaceEnd(s, 1) == a
    requires b == (if s[a] == '-' then a + 1 else a) && b < |s| && IsDigit(s[b])
    requires b < c < |s| && SpaceEnd(s, b + 1) == c && s[c] == '}'
    ensures ImportanceOf(s) == Some(Importance(s[1..a], s[a..b + 1], s[b + 1..c]))
  {
  }

  /** The Importance field starts with exactly one importance token, and
      `ImportanceOf` finds it. */
  lemma ImportanceOfUnique(s: string, x: Importance)
    requires ImportanceShaped(x) && PrefixAt(s, 0, ImportanceSpelling(x))
    ensures ImportanceOf(s) == Some(x)
  {
    ImportanceParts(s, x.lead, x.value, x.trail);
    ImportanceOfParts(s, x);
  }

  /** `ImportanceOf` reads back the token whose parts are spelled in turn. */
  lemma ImportanceOfParts(s: string, x: Importance)
    requires ImportanceShaped(x) && 1 + |x.lead| + |x.value| + |x.trail| < |s|
    requires s[0] == '{' && PrefixAt(s, 1, x.lead) && PrefixAt(s, 1 + |x.lead|, x.value)
    requires PrefixAt(s, 1 + |x.lead| + |x.value|, x.trail) && s[1 + |x.lead| + |x.value| + |x.trail|] == '}'
    ensures ImportanceOf(s) == Some(x)
  {
    var a := 1 + |x.lead|;
    var b := a + |x.value| - 1;
    var c := b + 1 + |x.trail|;
    ImportanceValueAt(s, a, x.value);
    SpaceRunEnd(s, 1, x.lead);
    SpaceRunEnd(s, b + 1, x.trail);
    ImportanceFrom(s, a, b, c);
    assert s[1..a] == x.lead;
    assert s[a..b + 1] == x.value;
    assert s[b + 1..c] == x.trail;
  }

  /** An importance value spelled at `a` ends in its digit, after a `-` exactly when it has one. */
  lemma ImportanceValueAt(s: string, a: nat, v: string)
    requires PrefixAt(s, a, v)
    requires (|v| == 1 && IsDigit(v[0])) || (|v| == 2 && v[0] == '-' && IsDigit(v[1]))
    ensures a + |v| - 1 == (if s[a] == '-' then a + 1 else a) && IsDigit(s[a + |v| - 1])
  {
    PrefixAtChar(s, a, v, 0);
    PrefixAtChar(s, a, v, |v| - 1);
  }

  /** `\((\S)(\S)(\S)([+-]\S)\)` at the start of the economic extension. */
  datatype Economics = Economics(resources: char, labour: char, infrastructure: char, efficiency: string)

  predicate EconomicsShaped(x: Economics) {
    && !IsSpace(x.resources) && !IsSpace(x.labour) && !IsSpace(x.infrastructure)
    && |x.efficiency| == 2 && (x.efficiency[0] == '+' || x.efficiency[0] == '-') && !IsSpace(x.efficiency[1])
  }

  function EconomicsSpelling(x: Economics): string {
    "(" + [x.resources, x.labour, x.infrastructure] + x.efficiency + ")"
  }

  function EconomicsOf(s: string): (r: Option<Economics>)
    ensures r.Some? ==> EconomicsShaped(r.value) && PrefixAt(s, 0, EconomicsSpelling(r.value))
  {
    if |s| >= 7 && s[0] == '(' && !IsSpace(s[1]) && !IsSpace(s[2]) && !IsSpace(s[3])
       && (s[4] == '+' || s[4] == '-') && !IsSpace(s[5]) && s[6] == ')'
    then
      var x := Economics(s[1], s[2], s[3], s[4..6]);
      assert s[..7] == EconomicsSpelling(x);
      Some(x)
    else None
  }

  lemma EconomicsOfUnique(s: string, x: Economics)
    requires EconomicsShaped(x) && PrefixAt(s, 0, EconomicsSpelling(x))
    ensures EconomicsOf(s) == Some(x)
  {
    var w := EconomicsSpelling(x);
    assert s[..7] == w;
    assert s[4..6] == x.efficiency;
  }

  /** `\[(\S)(\S)(\S)(\S)\]` at the start of the cultural extension. */
  datatype Culture = Culture(heterogeneity: char, acceptance: char, strangeness: char, symbols: char)

  predicate CultureShaped(x: Culture) {
    !IsSpace(x.heterogeneity) && !IsSpace(x.acceptance) && !IsSpace(x.strangeness) && !IsSpace(x.symbols)
  }

  function CultureSpelling(x: Culture): string {
    "[" + [x.heterogeneity, x.acceptance, x.strangeness, x.symbols] + "]"
  }

  function CultureOf(s: string): (r: Option<Culture>)
    ensures r.Some? ==> CultureShaped(r.value) && PrefixAt(s, 0, CultureSpelling(r.value))
  {
    if |s| >= 6 && s[0] == '[' && !IsSpace(s[1]) && !IsSpace(s[2]) && !IsSpace(s[3]) && !IsSpace(s[4])
       && s[5] == ']'
    then
      var x := Culture(s[1], s[2], s[3], s[4]);
      assert s[..6] == CultureSpelling(x);
      Some(x)
    else None
  }

  lemma CultureOfUnique(s: string, x: Culture)
    requires CultureShaped(x) && PrefixAt(s, 0, CultureSpelling(x))
    ensures CultureOf(s) == Some(x)
  {
    assert s[..6] == CultureSpelling(x);
  }
}
