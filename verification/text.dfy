/** The Python string builtins the pipeline relies on: `lower`, `strip`,
    `split()`, `join`, `title`, `in` (substring test) and `str(int)`.
    Strings are sequences of Unicode scalar values. */
module Text {
  import opened Results

  /** Python's `str.isspace` on a single character: the ASCII controls
      TAB..CR and FS..US, SPACE, NEL, NBSP and the Unicode space separators
      and line/paragraph separators. */
  predicate IsSpace(c: char) {
    var n := c as int;
    || 0x09 <= n <= 0x0D
    || 0x1C <= n <= 0x20
    || n == 0x85 || n == 0xA0 || n == 0x1680
    || 0x2000 <= n <= 0x200A
    || n == 0x2028 || n == 0x2029 || n == 0x202F || n == 0x205F || n == 0x3000
  }

  predicate IsUpper(c: char) { 'A' <= c <= 'Z' }

  predicate IsLower(c: char) { 'a' <= c <= 'z' }

  predicate IsLetter(c: char) { IsUpper(c) || IsLower(c) }

  function LowerChar(c: char): (d: char)
    ensures !IsUpper(d)
    ensures IsLetter(c) <==> IsLetter(d)
    ensures !IsUpper(c) ==> d == c
    ensures IsSpace(c) <==> IsSpace(d)
  {
    if IsUpper(c) then (c as int + 32) as char else c
  }

  function UpperChar(c: char): (d: char)
    ensures !IsLower(d)
    ensures IsLetter(c) <==> IsLetter(d)
    ensures !IsLower(c) ==> d == c
    ensures LowerChar(d) == LowerChar(c)
  {
    if IsLower(c) then (c as int - 32) as char else c
  }

  /** `s.lower()`, restricted to the ASCII letters. */
  function Lower(s: string): (r: string)
    ensures |r| == |s|
    ensures forall i :: 0 <= i < |s| ==> r[i] == LowerChar(s[i])
  {
    seq(|s|, i requires 0 <= i < |s| => LowerChar(s[i]))
  }

  /** Prefix test, `s.startswith(p)`. */
  predicate StartsWith(s: string, p: string) {
    |p| <= |s| && s[..|p|] == p
  }

  /** `p` occurs in `s` starting at position `i`. */
  predicate OccursAt(s: string, p: string, i: nat) {
    i + |p| <= |s| && s[i..i + |p|] == p
  }

  /** The characters of `p` from `j` on match those of `s` from `i + j` on. */
  predicate MatchesFrom(s: string, p: string, i: nat, j: nat)
    requires j <= |p|
    decreases |p| - j
  {
    j == |p| || (i + j < |s| && s[i + j] == p[j] && MatchesFrom(s, p, i, j + 1))
  }

  /** `p` occurs in `s` at some position `i` or later. */
  predicate ContainsFrom(s: string, p: string, i: nat)
    requires i <= |s|
    decreases |s| - i
  {
    MatchesFrom(s, p, i, 0) || (i < |s| && ContainsFrom(s, p, i + 1))
  }

  /** Substring test, Python's `p in s`, scanning left to right. */
  predicate Contains(s: string, p: string) {
    ContainsFrom(s, p, 0)
  }

  /** `s.endswith(p)`. */
  predicate EndsWith(s: string, p: string) {
    |p| <= |s| && s[|s| - |p|..] == p
  }

  /** `s.lstrip()`: drop leading whitespace. */
  function LStrip(s: string): (r: string)
    ensures |r| <= |s| && r == s[|s| - |r|..]
    ensures forall i :: 0 <= i < |s| - |r| ==> IsSpace(s[i])
    ensures |r| > 0 ==> !IsSpace(r[0])
    decreases |s|
  {
    if |s| > 0 && IsSpace(s[0]) then LStrip(s[1..]) else s
  }

  /** `s.rstrip()`: drop trailing whitespace. */
  function RStrip(s: string): (r: string)
    ensures |r| <= |s| && r == s[..|r|]
    ensures forall i :: |r| <= i < |s| ==> IsSpace(s[i])
    ensures |r| > 0 ==> !IsSpace(r[|r| - 1])
    decreases |s|
  {
    if |s| > 0 && IsSpace(s[|s| - 1]) then RStrip(s[..|s| - 1]) else s
  }

  /** `s.strip()`: drop whitespace at both ends. */
  function Strip(s: string): string {
    RStrip(LStrip(s))
  }

  /** The length of the leading run of non-whitespace characters. */
  function WordLength(s: string): (k: nat)
    ensures k <= |s|
    ensures forall i :: 0 <= i < k ==> !IsSpace(s[i])
    ensures k < |s| ==> IsSpace(s[k])
    decreases |s|
  {
    if |s| == 0 || IsSpace(s[0]) then 0 else 1 + WordLength(s[1..])
  }

  /** A word of `str.split()`: non-empty and free of whitespace. */
  predicate IsWord(w: string) {
    |w| > 0 && forall i :: 0 <= i < |w| ==> !IsSpace(w[i])
  }

  /** `s.split()` with no separator: the maximal runs of non-whitespace. */
  function Words(s: string): (ws: seq<string>)
    ensures forall i :: 0 <= i < |ws| ==> IsWord(ws[i])
    decreases |s|
  {
    var t := LStrip(s);
    if |t| == 0 then []
    else
      var k := WordLength(t);
      assert k > 0;
      assert IsWord(t[..k]);
      var rest := Words(t[k..]);
      [t[..k]] + rest
  }

  /** Whitespace that can surround words: every gap is whitespace, and a
      gap between two words is not empty (the first and the last may be). */
  predicate Gaps(gaps: seq<string>) {
    && (forall i :: 0 <= i < |gaps| ==> AllSpace(gaps[i]))
    && (forall i :: 0 < i < |gaps| - 1 ==> |gaps[i]| > 0)
  }

  /** A word followed by nothing or by whitespace is the leading run. */
  lemma WordLengthOfWord(w: string, rest: string)
    requires IsWord(w) && (|rest| == 0 || IsSpace(rest[0]))
    ensures WordLength(w + rest) == |w|
  {
    var k := WordLength(w + rest);
    assert forall i :: 0 <= i < |w| ==> (w + rest)[i] == w[i];
    assert |rest| > 0 ==> (w + rest)[|w|] == rest[0];
  }

  /** One step of `split()`: the leading word, then the words of the rest. */
  lemma WordsStep(s: string)
    ensures var t := LStrip(s);
      && (|t| == 0 ==> Words(s) == [])
      && (|t| > 0 ==> var k := WordLength(t); Words(s) == [t[..k]] + Words(t[k..]))
  {
  }

  /** `split()` finds no word exactly in a string of whitespace. */
  lemma WordsEmptyIff(s: string)
    ensures Words(s) == [] <==> AllSpace(s)
  {
    var t := LStrip(s);
    WordsStep(s);
    if |t| > 0 {
      assert s[|s| - |t|] == t[0];
    }
  }

  /** Dropping the first gap keeps the gaps valid. */
  lemma GapsTail(gaps: seq<string>)
    requires |gaps| > 0 && Gaps(gaps)
    ensures Gaps(gaps[1..])
  {
    forall i | 0 < i < |gaps[1..]| - 1
      ensures |gaps[1..][i]| > 0
    {
      assert gaps[1..][i] == gaps[i + 1];
    }
  }

  /** After the first word of a fill comes nothing or whitespace. */
  lemma FillAfterWord(gaps: seq<string>, ws: seq<string>)
    requires |gaps| == |ws| + 1 && |ws| > 0 && Gaps(gaps)
    ensures var rest := Fill(gaps[1..], ws[1..]); |rest| == 0 || IsSpace(rest[0])
  {
    var rest := Fill(gaps[1..], ws[1..]);
    assert StartsWith(rest, gaps[1]);
    assert AllSpace(gaps[1]);
    if |ws| > 1 {
      assert |gaps[1]| > 0;
      assert rest[0] == gaps[1][0];
    } else {
      assert rest == gaps[1];
    }
  }

  /** The whitespace gap in front of a word is skipped. */
  lemma LStripGapWord(gap: string, w: string, rest: string)
    requires AllSpace(gap) && IsWord(w)
    ensures LStrip(gap + (w + rest)) == w + rest
  {
    LStripAfterSpaces(gap, w + rest);
    assert (w + rest)[0] == w[0];
  }

  /** A word behind a whitespace gap is split off first. */
  lemma WordsAfterGap(gap: string, w: string, rest: string)
    requires AllSpace(gap) && IsWord(w) && (|rest| == 0 || IsSpace(rest[0]))
    ensures Words(gap + (w + rest)) == [w] + Words(rest)
  {
    var u := w + rest;
    assert LStrip(gap + u) == u by {
      LStripGapWord(gap, w, rest);
    }
    assert WordLength(u) == |w| by {
      WordLengthOfWord(w, rest);
    }
    assert u[..|w|] == w && u[|w|..] == rest;
    WordsStep(gap + u);
  }

  /** The first word of a fill is split off first. */
  lemma WordsOfFillStep(gaps: seq<string>, ws: seq<string>)
    requires |gaps| == |ws| + 1 && |ws| > 0 && Gaps(gaps) && IsWord(ws[0])
    ensures Words(Fill(gaps, ws)) == [ws[0]] + Words(Fill(gaps[1..], ws[1..]))
  {
    var rest := Fill(gaps[1..], ws[1..]);
    FillCons(gaps, ws);
    Associative(gaps[0], ws[0], rest);
    FillAfterWord(gaps, ws);
    WordsAfterGap(gaps[0], ws[0], rest);
  }

  /** `split()` undoes laying words out with whitespace between them: the
      words come back, in order, whatever the gaps are. */
  lemma {:induction false} WordsOfFill(gaps: seq<string>, ws: seq<string>)
    requires |gaps| == |ws| + 1 && Gaps(gaps)
    requires forall i :: 0 <= i < |ws| ==> IsWord(ws[i])
    ensures Words(Fill(gaps, ws)) == ws
    decreases |ws|
  {
    if |ws| == 0 {
      LStripOfSpaces(gaps[0]);
      WordsStep(gaps[0]);
    } else {
      WordsOfFillStep(gaps, ws);
      GapsTail(gaps);
      WordsOfFill(gaps[1..], ws[1..]);
      HeadTail(ws);
    }
  }

  /** The leading whitespace, the leading word and the rest of a string
      that has a word: the rest is empty or starts with whitespace. */
  lemma LeadingWord(s: string) returns (lead: string, word: string, rest: string)
    requires |LStrip(s)| > 0
    ensures AllSpace(lead) && (IsSpace(s[0]) ==> |lead| > 0)
    ensures s == lead + (word + rest) && |rest| < |s|
    ensures LStrip(s) == word + rest && WordLength(LStrip(s)) == |word|
    ensures |rest| > 0 ==> IsSpace(rest[0])
  {
    var t := LStrip(s);
    lead := s[..|s| - |t|];
    var k := WordLength(t);
    word, rest := t[..k], t[k..];
    SplitAt(t, k);
    SplitAt(s, |s| - |t|);
    if |lead| == 0 {
      assert t[0] == s[0];
    }
  }

  /** `split()` takes off the leading word and goes on with the rest. */
  lemma WordsSplitOff(s: string) returns (lead: string, word: string, rest: string)
    requires |LStrip(s)| > 0
    ensures AllSpace(lead) && (IsSpace(s[0]) ==> |lead| > 0)
    ensures s == lead + (word + rest) && |rest| < |s|
    ensures Words(s) == [word] + Words(rest)
    ensures |Words(rest)| > 0 ==> |rest| > 0 && IsSpace(rest[0])
  {
    lead, word, rest := LeadingWord(s);
    assert Words(s) == [word] + Words(rest) by {
      WordsStep(s);
      ConcatParts(word, rest);
    }
    WordsEmptyIff(rest);
  }

  lemma ConcatParts(x: string, y: string)
    ensures (x + y)[..|x|] == x && (x + y)[|x|..] == y
  {
  }

  /** Every string is its `split()` words laid out with whitespace gaps.
      With `WordsOfFill`, the words are exactly the maximal runs of
      non-whitespace, in order. */
  lemma {:induction false} WordsGaps(s: string) returns (gaps: seq<string>)
    ensures |gaps| == |Words(s)| + 1 && Gaps(gaps)
    ensures Fill(gaps, Words(s)) == s
    ensures |s| > 0 && IsSpace(s[0]) ==> |gaps[0]| > 0
    decreases |s|
  {
    if |LStrip(s)| == 0 {
      WordsStep(s);
      assert AllSpace(s);
      gaps := [s];
    } else {
      var lead, word, rest := WordsSplitOff(s);
      var more := WordsGaps(rest);
      gaps := [lead] + more;
      var ws := Words(s);
      assert Fill(gaps, ws) == s by {
        ConsParts(lead, more);
        ConsParts(word, Words(rest));
        FillCons(gaps, ws);
        Associative(lead, word, rest);
      }
      GapsCons(lead, more, rest);
    }
  }

  lemma Associative(a: string, b: string, c: string)
    ensures a + b + c == a + (b + c)
  {
  }

  lemma SplitAt(s: string, k: nat)
    requires k <= |s|
    ensures s == s[..k] + s[k..]
  {
  }

  lemma HeadTail<T>(xs: seq<T>)
    requires |xs| > 0
    ensures xs == [xs[0]] + xs[1..]
  {
  }

  lemma ConsParts<T>(x: T, xs: seq<T>)
    ensures ([x] + xs)[0] == x && ([x] + xs)[1..] == xs
  {
  }

  /** Leading whitespace in front of the gaps of a string that starts with
      whitespace gives valid gaps. */
  lemma GapsCons(lead: string, more: seq<string>, rest: string)
    requires AllSpace(lead) && |more| > 0 && Gaps(more)
    requires |rest| > 0 && IsSpace(rest[0]) ==> |more[0]| > 0
    requires |more| > 1 ==> |rest| > 0 && IsSpace(rest[0])
    ensures Gaps([lead] + more)
  {
    var gaps := [lead] + more;
    forall i | 0 <= i < |gaps|
      ensures AllSpace(gaps[i])
    {
      if i > 0 {
        assert gaps[i] == more[i - 1];
      }
    }
    forall i | 0 < i < |gaps| - 1
      ensures |gaps[i]| > 0
    {
      assert gaps[i] == more[i - 1];
    }
  }

  /** `sep.join(ws)`. */
  function Join(sep: string, ws: seq<string>): (r: string)
    ensures |ws| > 0 ==> StartsWith(r, ws[0])
  {
    if |ws| == 0 then ""
    else if |ws| == 1 then ws[0]
    else ws[0] + sep + Join(sep, ws[1..])
  }

  /** `s.title()` on ASCII letters: a letter that follows a letter is
      lower-cased, any other letter is upper-cased, and every other
      character is kept. `afterLetter` says whether the character just
      before `s` was a letter. */
  function TitleFrom(s: string, afterLetter: bool): (r: string)
    ensures |r| == |s|
    ensures forall i :: 0 <= i < |s| && !IsLetter(s[i]) ==> r[i] == s[i]
    ensures forall i :: 0 <= i < |s| && IsLetter(s[i]) ==> IsLetter(r[i]) && LowerChar(r[i]) == LowerChar(s[i])
    ensures |s| > 0 && IsLetter(s[0]) ==> r[0] == (if afterLetter then LowerChar(s[0]) else UpperChar(s[0]))
    ensures forall i :: 0 < i < |s| && IsLetter(s[i]) ==>
      r[i] == (if IsLetter(s[i - 1]) then LowerChar(s[i]) else UpperChar(s[i]))
    decreases |s|
  {
    if |s| == 0 then []
    else
      var head := if !IsLetter(s[0]) then s[0] else if afterLetter then LowerChar(s[0]) else UpperChar(s[0]);
      var rest := TitleFrom(s[1..], IsLetter(s[0]));
      assert forall i :: 0 < i < |s| ==> s[1..][i - 1] == s[i];
      [head] + rest
  }

  /** `s.title()`: a letter at the start of the text or after a non-letter
      is upper-cased, a letter after a letter is lower-cased, and every
      other character is kept. */
  function Title(s: string): (r: string)
    ensures |r| == |s|
    ensures forall i :: 0 <= i < |s| ==> (IsSpace(r[i]) <==> IsSpace(s[i]))
    ensures forall i :: 0 <= i < |s| && !IsLetter(s[i]) ==> r[i] == s[i]
    ensures forall i :: 0 <= i < |s| && IsLetter(s[i]) ==>
      r[i] == (if i > 0 && IsLetter(s[i - 1]) then LowerChar(s[i]) else UpperChar(s[i]))
  {
    TitleFrom(s, false)
  }

  /** Title-casing a title changes nothing: letters stay letters, so every
      letter meets the same rule again. */
  lemma TitleIdempotent(s: string)
    ensures Title(Title(s)) == Title(s)
  {
    var r := Title(s);
    forall i | 0 <= i < |s| ensures IsLetter(r[i]) <==> IsLetter(s[i]) {
    }
    forall i | 0 <= i < |s| ensures Title(r)[i] == r[i] {
      if IsLetter(s[i]) {
        if i > 0 && IsLetter(s[i - 1]) {
          assert LowerChar(LowerChar(s[i])) == LowerChar(s[i]);
        } else {
          assert UpperChar(UpperChar(s[i])) == UpperChar(s[i]);
        }
      }
    }
  }

  predicate IsDigit(c: char) { '0' <= c <= '9' }

  predicate AllDigits(d: string) {
    forall i :: 0 <= i < |d| ==> IsDigit(d[i])
  }

  /** The number a run of decimal digits denotes, most significant first. */
  function DigitsValue(d: string): nat
    requires AllDigits(d)
    decreases |d|
  {
    if |d| == 0 then 0 else DigitsValue(d[..|d| - 1]) * 10 + (d[|d| - 1] as int - '0' as int)
  }

  /** The decimal digits of a natural number, most significant first, with
      no leading zero. */
  function NatToString(n: nat): (r: string)
    ensures |r| > 0 && AllDigits(r)
    ensures DigitsValue(r) == n
    ensures r[0] == '0' <==> n == 0
    decreases n
  {
    var d := ['0' + (n % 10) as char];
    if n < 10 then d
    else
      var r := NatToString(n / 10) + d;
      assert r[..|r| - 1] == NatToString(n / 10);
      r
  }

  /** `str(n)` for an int: a minus sign exactly for negative numbers,
      then the decimal digits of the magnitude without a leading zero. */
  function IntToString(n: int): (r: string)
    ensures |r| > 0
    ensures r[0] == '-' <==> n < 0
    ensures n < 0 ==> |r| > 1 && AllDigits(r[1..]) && DigitsValue(r[1..]) == -n && r[1] != '0'
    ensures n >= 0 ==> AllDigits(r) && DigitsValue(r) == n && (r[0] == '0' ==> r == "0")
  {
    if n < 0 then
      var r := "-" + NatToString(-n);
      assert r[1..] == NatToString(-n);
      r
    else NatToString(n)
  }

  /** A digit string of length one or more without a leading zero, unless
      it is "0" itself. */
  /** A printed integer holds only digits and a minus sign. */
  lemma IntToStringChars(n: int)
    ensures forall i :: 0 <= i < |IntToString(n)| ==> IntToString(n)[i] == '-' || IsDigit(IntToString(n)[i])
  {
    var r := IntToString(n);
    if n < 0 {
      forall i | 1 <= i < |r| ensures IsDigit(r[i]) {
        assert r[i] == r[1..][i - 1];
      }
    }
  }

  predicate CanonicalDigits(d: string) {
    |d| > 0 && AllDigits(d) && (d[0] == '0' ==> |d| == 1)
  }

  /** `int(s)` restricted to the forms `str` produces: an optional minus
      sign and canonical digits ("-0" is not one of them). */
  function ParseInt(s: string): (r: Option<int>)
    ensures r.Some? ==> |s| > 0
  {
    if |s| > 0 && s[0] == '-' then
      var d := s[1..];
      if CanonicalDigits(d) && d[0] != '0' then Some(-(DigitsValue(d) as int)) else None
    else if CanonicalDigits(s) then Some(DigitsValue(s) as int)
    else None
  }

  /** Reading back what `str` wrote gives the number. */
  lemma ParseIntToString(n: int)
    ensures ParseInt(IntToString(n)) == Some(n)
  {
    var r := IntToString(n);
    if n >= 0 {
      assert r[0] != '-';
      if r[0] == '0' {
        assert r == "0";
      }
    }
  }

  /** A canonical digit string that does not start with "0" denotes a
      positive number. */
  lemma {:induction false} PositiveDigits(d: string)
    requires |d| > 0 && AllDigits(d) && d[0] != '0'
    ensures DigitsValue(d) >= 1
    decreases |d|
  {
    if |d| > 1 {
      var p := d[..|d| - 1];
      assert p[0] == d[0];
      PositiveDigits(p);
    }
  }

  /** Canonical digits are the decimal form of their value. */
  lemma {:induction false} NatToStringOfDigits(d: string)
    requires CanonicalDigits(d)
    ensures NatToString(DigitsValue(d)) == d
    decreases |d|
  {
    var v := DigitsValue(d);
    if |d| == 1 {
      assert d[..0] == [] && DigitsValue(d[..0]) == 0;
      assert v == DigitsValue(d[..0]) * 10 + (d[0] as int - '0' as int);
      assert 0 <= v < 10 && v % 10 == v;
      assert '0' + (v % 10) as char == d[0];
      assert ['0' + (v % 10) as char] == d;
    } else {
      var p := d[..|d| - 1];
      assert p[0] == d[0] && |p| > 0 && d[0] != '0';
      PositiveDigits(p);
      NatToStringOfDigits(p);
      var last := d[|d| - 1] as int - '0' as int;
      assert v == DigitsValue(p) * 10 + last;
      assert v / 10 == DigitsValue(p) && v % 10 == last;
      assert d == p + ['0' + (v % 10) as char];
    }
  }

  /** Writing back what was read gives the string: `ParseInt` and
      `IntToString` are inverse on every string `ParseInt` accepts. */
  lemma IntToStringOfParse(s: string)
    requires ParseInt(s).Some?
    ensures IntToString(ParseInt(s).value) == s
  {
    if s[0] == '-' {
      var d := s[1..];
      NatToStringOfDigits(d);
      PositiveDigits(d);
      assert s == "-" + d;
    } else {
      NatToStringOfDigits(s);
    }
  }

  /** Distinct numbers have distinct decimal forms. */
  lemma {:induction false} NatToStringInjective(a: nat, b: nat)
    requires NatToString(a) == NatToString(b)
    ensures a == b
    decreases a
  {
    if a >= 10 && b >= 10 {
      var ra, rb := NatToString(a), NatToString(b);
      assert ra[..|ra| - 1] == NatToString(a / 10);
      assert rb[..|rb| - 1] == NatToString(b / 10);
      NatToStringInjective(a / 10, b / 10);
    }
  }

  lemma IntToStringInjective(a: int, b: int)
    requires IntToString(a) == IntToString(b)
    ensures a == b
  {
    assert a < 0 <==> IntToString(a)[0] == '-';
    assert b < 0 <==> IntToString(b)[0] == '-';
    if a < 0 && b < 0 {
      assert IntToString(a)[1..] == NatToString(-a);
      assert IntToString(b)[1..] == NatToString(-b);
      NatToStringInjective(-a, -b);
    } else if a >= 0 && b >= 0 {
      NatToStringInjective(a, b);
    }
  }

  /** Python truthiness of an optional string: present and non-empty. */
  predicate Truthy(o: Option<string>) {
    o.Some? && |o.value| > 0
  }

  predicate AllSpace(s: string) {
    forall i :: 0 <= i < |s| ==> IsSpace(s[i])
  }

  /** A string with no whitespace at either end. */
  predicate Trimmed(s: string) {
    |s| == 0 || (!IsSpace(s[0]) && !IsSpace(s[|s| - 1]))
  }

  lemma {:induction false} LStripAfterSpaces(ws: string, x: string)
    requires AllSpace(ws)
    ensures LStrip(ws + x) == LStrip(x)
    decreases |ws|
  {
    if |ws| == 0 {
      assert ws + x == x;
    } else {
      assert (ws + x)[0] == ws[0];
      assert (ws + x)[1..] == ws[1..] + x;
      LStripAfterSpaces(ws[1..], x);
    }
  }

  lemma {:induction false} RStripBeforeSpaces(x: string, ws: string)
    requires AllSpace(ws)
    ensures RStrip(x + ws) == RStrip(x)
    decreases |ws|
  {
    if |ws| == 0 {
      assert x + ws == x;
    } else {
      var w := ws[..|ws| - 1];
      assert (x + ws)[|x + ws| - 1] == ws[|ws| - 1];
      assert (x + ws)[..|x + ws| - 1] == x + w;
      RStripBeforeSpaces(x, w);
    }
  }

  lemma {:induction false} LStripOfAppend(x: string, y: string)
    requires |LStrip(x)| > 0
    ensures LStrip(x + y) == LStrip(x) + y
    decreases |x|
  {
    if IsSpace(x[0]) {
      assert (x + y)[1..] == x[1..] + y;
      LStripOfAppend(x[1..], y);
    }
  }

  lemma {:induction false} LStripOfSpaces(s: string)
    requires AllSpace(s)
    ensures LStrip(s) == []
    decreases |s|
  {
    if |s| > 0 {
      LStripOfSpaces(s[1..]);
    }
  }

  lemma AllSpaceAppend(a: string, b: string)
    requires AllSpace(a) && AllSpace(b)
    ensures AllSpace(a + b)
  {
    forall i | 0 <= i < |a + b|
      ensures IsSpace((a + b)[i])
    {
      if i < |a| {
        assert (a + b)[i] == a[i];
      } else {
        assert (a + b)[i] == b[i - |a|];
      }
    }
  }

  /** `strip` ignores whitespace added at either end. */
  lemma StripOfPadded(ws1: string, x: string, ws2: string)
    requires AllSpace(ws1) && AllSpace(ws2)
    ensures Strip(ws1 + x + ws2) == Strip(x)
  {
    var y := x + ws2;
    assert ws1 + x + ws2 == ws1 + y;
    LStripAfterSpaces(ws1, y);
    var t := LStrip(x);
    if |t| > 0 {
      LStripOfAppend(x, ws2);
      RStripBeforeSpaces(t, ws2);
    } else {
      assert AllSpace(x);
      AllSpaceAppend(x, ws2);
      LStripOfSpaces(y);
    }
  }

  lemma TrimmedIsFixed(s: string)
    requires Trimmed(s)
    ensures LStrip(s) == s && RStrip(s) == s && Strip(s) == s
  {
    assert LStrip(s) == s;
    assert RStrip(s) == s;
  }

  /** The result of `strip` has no whitespace at either end. */
  lemma StripIsTrimmed(s: string)
    ensures Trimmed(Strip(s))
  {
    var t := LStrip(s);
    var r := RStrip(t);
    if |r| > 0 {
      assert r[0] == t[0];
    }
  }

  lemma StripIdempotent(s: string)
    ensures Strip(Strip(s)) == Strip(s)
  {
    StripIsTrimmed(s);
    TrimmedIsFixed(Strip(s));
  }

  /** A string that starts with a non-whitespace character keeps it under
      `strip`, so the result is not empty. */
  lemma StripKeepsLeadingChar(s: string)
    requires |s| > 0 && !IsSpace(s[0])
    ensures |Strip(s)| > 0 && Strip(s)[0] == s[0]
  {
    assert LStrip(s) == s;
  }

  lemma LowerOfAppend(a: string, b: string)
    ensures Lower(a + b) == Lower(a) + Lower(b)
  {
  }

  lemma LowerOfSpaces(ws: string)
    requires AllSpace(ws)
    ensures Lower(ws) == ws
  {
  }

  lemma {:induction false} MatchesFromIff(s: string, p: string, i: nat, j: nat)
    requires j <= |p| && i + j <= |s|
    ensures MatchesFrom(s, p, i, j) <==> i + |p| <= |s| && s[i + j..i + |p|] == p[j..]
    decreases |p| - j
  {
    if j < |p| && i + j < |s| {
      MatchesFromIff(s, p, i, j + 1);
      if i + |p| <= |s| {
        assert s[i + j..i + |p|] == [s[i + j]] + s[i + j + 1..i + |p|];
        assert p[j..] == [p[j]] + p[j + 1..];
        if s[i + j..i + |p|] == p[j..] {
          assert s[i + j] == p[j];
          assert s[i + j + 1..i + |p|] == p[j + 1..];
        }
      }
    }
  }

  lemma {:induction false} ContainsFromIff(s: string, p: string, i: nat)
    requires i <= |s|
    ensures ContainsFrom(s, p, i) <==> exists k: nat :: i <= k && OccursAt(s, p, k)
    decreases |s| - i
  {
    MatchesFromIff(s, p, i, 0);
    assert MatchesFrom(s, p, i, 0) <==> OccursAt(s, p, i);
    if i < |s| {
      ContainsFromIff(s, p, i + 1);
    }
    if exists k: nat :: i <= k && OccursAt(s, p, k) {
      var k: nat :| i <= k && OccursAt(s, p, k);
      if k > i {
        assert i < |s|;
        assert ContainsFrom(s, p, i + 1);
      }
    }
  }

  /** A match at position `i` is found by the scan. */
  lemma {:induction false} ContainsAt(s: string, p: string, i: nat)
    requires i <= |s| && MatchesFrom(s, p, i, 0)
    ensures Contains(s, p)
  {
    var k := i;
    while k > 0
      invariant 0 <= k <= i && ContainsFrom(s, p, k)
    {
      k := k - 1;
    }
    assert ContainsFrom(s, p, 0);
  }

  /** The scan agrees with the definition of a substring: `p in s` holds
      exactly when `p` occurs in `s` at some position. */
  lemma ContainsIff(s: string, p: string)
    ensures Contains(s, p) <==> exists i: nat :: OccursAt(s, p, i)
  {
    ContainsFromIff(s, p, 0);
  }

  /** `strip` returns a slice of its argument, so it adds no character. */
  lemma StripIsSlice(s: string)
    ensures var a := |s| - |LStrip(s)|;
      a + |Strip(s)| <= |s| && Strip(s) == s[a..a + |Strip(s)|]
  {
  }

  predicate NoUpper(s: string) {
    forall i :: 0 <= i < |s| ==> !IsUpper(s[i])
  }

  /** Lower-casing a string without capitals changes nothing. */
  lemma LowerOfUncapitalised(s: string)
    requires NoUpper(s)
    ensures Lower(s) == s
  {
  }

  lemma NoUpperOfSlice(s: string, a: nat, b: nat)
    requires NoUpper(s) && a <= b <= |s|
    ensures NoUpper(s[a..b])
  {
    forall i | 0 <= i < b - a
      ensures !IsUpper(s[a..b][i])
    {
      assert s[a..b][i] == s[a + i];
    }
  }

  /** Stripping removes characters, so it adds no capital. */
  lemma StripKeepsNoUpper(s: string)
    requires NoUpper(s)
    ensures NoUpper(Strip(s))
  {
    var t := LStrip(s);
    assert t == s[|s| - |t|..|s|];
    NoUpperOfSlice(s, |s| - |t|, |s|);
    var r := RStrip(t);
    assert r == t[0..|r|];
    NoUpperOfSlice(t, 0, |r|);
  }

  /** An f-string: the literal pieces around its holes, with the values
      filled in order, so `Fill(["a", "b", "c"], [x, y])` is
      `"a" + x + "b" + y + "c"`. */
  function Fill(pieces: seq<string>, values: seq<string>): (r: string)
    requires |pieces| == |values| + 1
    ensures StartsWith(r, pieces[0])
    decreases |values|
  {
    if |values| == 0 then pieces[0]
    else pieces[0] + values[0] + Fill(pieces[1..], values[1..])
  }

  /** The strings of `parts` occur in `s` one after the other, without
      overlapping. */
  predicate InOrder(s: string, parts: seq<string>)
    decreases |parts|
  {
    |parts| == 0 ||
    exists i :: 0 <= i <= |s| && OccursAt(s, parts[0], i) && InOrder(s[i + |parts[0]|..], parts[1..])
  }

  /** A filled template shows its values in order. */
  lemma {:induction false} FillInOrder(pieces: seq<string>, values: seq<string>)
    requires |pieces| == |values| + 1
    ensures InOrder(Fill(pieces, values), values)
    decreases |values|
  {
    if |values| > 0 {
      var s := Fill(pieces, values);
      var i := |pieces[0]|;
      assert OccursAt(s, values[0], i);
      FillInOrder(pieces[1..], values[1..]);
      assert s[i + |values[0]|..] == Fill(pieces[1..], values[1..]);
    }
  }

  /** Each part of an ordered list occurs somewhere. */
  lemma {:induction false} InOrderEach(s: string, parts: seq<string>)
    requires InOrder(s, parts)
    ensures forall k :: 0 <= k < |parts| ==> Contains(s, parts[k])
    decreases |parts|
  {
    if |parts| > 0 {
      var i :| 0 <= i <= |s| && OccursAt(s, parts[0], i) && InOrder(s[i + |parts[0]|..], parts[1..]);
      var d := i + |parts[0]|;
      InOrderEach(s[d..], parts[1..]);
      forall k | 0 <= k < |parts|
        ensures Contains(s, parts[k])
      {
        if k == 0 {
          ContainsIff(s, parts[0]);
        } else {
          ContainsIff(s[d..], parts[k]);
          var j: nat :| OccursAt(s[d..], parts[k], j);
          OccursInSuffix(s, parts[k], d, j);
          ContainsIff(s, parts[k]);
        }
      }
    }
  }

  lemma OccursInSuffix(s: string, p: string, d: nat, j: nat)
    requires d <= |s| && OccursAt(s[d..], p, j)
    ensures OccursAt(s, p, d + j)
  {
    assert s[d + j..d + j + |p|] == s[d..][j..j + |p|];
  }

  /** Text appended after the last part keeps the parts in order. */
  lemma {:induction false} InOrderAppend(s: string, parts: seq<string>, t: string)
    requires InOrder(s, parts)
    ensures InOrder(s + t, parts)
    decreases |parts|
  {
    if |parts| > 0 {
      var i :| 0 <= i <= |s| && OccursAt(s, parts[0], i) && InOrder(s[i + |parts[0]|..], parts[1..]);
      assert OccursAt(s + t, parts[0], i) by {
        assert (s + t)[i..i + |parts[0]|] == s[i..i + |parts[0]|];
      }
      InOrderAppend(s[i + |parts[0]|..], parts[1..], t);
      assert (s + t)[i + |parts[0]|..] == s[i + |parts[0]|..] + t;
    }
  }

  /** A filled template ends with its last hole and the pieces around it. */
  lemma {:induction false} FillEndsWith(pieces: seq<string>, values: seq<string>)
    requires |pieces| == |values| + 1 && |values| > 0
    ensures EndsWith(Fill(pieces, values), pieces[|pieces| - 2] + values[|values| - 1] + pieces[|pieces| - 1])
    decreases |values|
  {
    if |values| > 1 {
      FillEndsWith(pieces[1..], values[1..]);
    } else {
      assert Fill(pieces[1..], values[1..]) == pieces[1];
    }
  }

  lemma EndsWithSuffix(s: string, x: string, y: string)
    requires EndsWith(s, x + y)
    ensures EndsWith(s, y)
  {
    assert s[|s| - |y|..] == s[|s| - |x + y|..][|x|..];
  }

  lemma FillCons(pieces: seq<string>, values: seq<string>)
    requires |pieces| == |values| + 1 && |values| > 0
    ensures Fill(pieces, values) == pieces[0] + values[0] + Fill(pieces[1..], values[1..])
  {
  }

  lemma Regroup(a: string, b: string, c: string, d: string)
    ensures a + b + c + d == a + (b + c + d)
  {
  }

  lemma RegroupPairs(a: string, b: string, c: string, d: string)
    ensures a + b + c + d == (a + b) + (c + d)
  {
  }

  lemma OccursInMiddle(a: string, b: string, c: string)
    ensures OccursAt(a + b + c, b, |a|)
  {
    assert (a + b + c)[|a|..|a| + |b|] == b;
  }

  lemma StartsWithAppend(s: string, p: string, t: string)
    requires StartsWith(s, p)
    ensures StartsWith(s + t, p)
  {
    assert (s + t)[..|p|] == s[..|p|];
  }

  lemma EndsWithAppend(s: string, t: string)
    ensures EndsWith(s + t, t)
  {
  }
}
