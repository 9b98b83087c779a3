/** The Python `str` built-ins that the scoring engine and the backend stub rely on:
    `strip`, `lower`, `upper`, `replace`, `split`, `join` and `int(...)`, over ASCII. */
module Text {

  datatype Option<T> = None | Some(value: T)

  /** `str.isspace()` on ASCII: the space, `\t \n \v \f \r` (9..13) and the
      separators 28..31. */
  predicate IsSpace(c: char) {
    c == ' ' || (9 <= c as int <= 13) || (28 <= c as int <= 31)
  }

  predicate AllSpace(s: string) {
    forall i :: 0 <= i < |s| ==> IsSpace(s[i])
  }

  predicate IsDigit(c: char) {
    '0' <= c <= '9'
  }

  // ---------------------------------------------------------------------------
  // Case mapping
  // ---------------------------------------------------------------------------

  function LowerChar(c: char): char {
    if 'A' <= c <= 'Z' then (c as int + 32) as char else c
  }

  function UpperChar(c: char): char {
    if 'a' <= c <= 'z' then (c as int - 32) as char else c
  }

  /** `str.lower()` on ASCII letters. */
  function Lower(s: string): (r: string)
    ensures |r| == |s|
    ensures forall i :: 0 <= i < |s| ==> r[i] == LowerChar(s[i])
  {
    seq(|s|, i requires 0 <= i < |s| => LowerChar(s[i]))
  }

  /** `str.upper()` on ASCII letters. */
  function Upper(s: string): (r: string)
    ensures |r| == |s|
    ensures forall i :: 0 <= i < |s| ==> r[i] == UpperChar(s[i])
  {
    seq(|s|, i requires 0 <= i < |s| => UpperChar(s[i]))
  }

  /** Lower-casing forgets any earlier upper-casing. */
  lemma LowerOfUpper(s: string)
    ensures Lower(Upper(s)) == Lower(s)
  {
    assert forall i :: 0 <= i < |s| ==> LowerChar(UpperChar(s[i])) == LowerChar(s[i]);
  }

  // ---------------------------------------------------------------------------
  // strip
  // ---------------------------------------------------------------------------

  /** `str.lstrip()`: the suffix of `s` left after dropping leading whitespace. */
  function StripLeft(s: string): (r: string)
    ensures |r| <= |s| && r == s[|s| - |r|..]
    ensures AllSpace(s[..|s| - |r|])
    ensures r != [] ==> !IsSpace(r[0])
    decreases |s|
  {
    if s != [] && IsSpace(s[0]) then StripLeft(s[1..]) else s
  }

  /** `str.rstrip()`: the prefix of `s` left after dropping trailing whitespace. */
  function StripRight(s: string): (r: string)
    ensures |r| <= |s| && r == s[..|r|]
    ensures AllSpace(s[|r|..])
    ensures r != [] ==> !IsSpace(r[|r| - 1])
    decreases |s|
  {
    if s != [] && IsSpace(s[|s| - 1]) then
      var r := StripRight(s[..|s| - 1]);
      assert s[|r|..] == s[..|s| - 1][|r|..] + [s[|s| - 1]];
      r
    else s
  }

  /** `str.strip()`: no longer than `s`, built only from characters of `s`, and
      with no whitespace at either end. `StripTrimsSlice` shows it is the slice
      of `s` left once only whitespace is cut from both ends. */
  function Strip(s: string): (r: string)
    ensures |r| <= |s|
    ensures multiset(r) <= multiset(s)
    ensures r != [] ==> !IsSpace(r[0]) && !IsSpace(r[|r| - 1])
  {
    var l := StripLeft(s);
    var a := |s| - |l|;
    var r := StripRight(l);
    assert r == l[..|r|];
    assert r != [] ==> r[0] == l[0];
    SliceOfSuffix(s, a, |r|);
    SliceMultiset(s, a, a + |r|);
    r
  }

  lemma SliceOfSuffix(s: string, a: int, n: int)
    requires 0 <= a <= |s| && 0 <= n <= |s| - a
    ensures s[a..][..n] == s[a..a + n]
  {
  }

  /** A slice holds no more of any character than the whole. */
  lemma SliceMultiset(s: string, a: int, b: int)
    requires 0 <= a <= b <= |s|
    ensures multiset(s[a..b]) <= multiset(s)
  {
    assert s == s[..a] + s[a..b] + s[b..];
    assert multiset(s) == multiset(s[..a]) + multiset(s[a..b]) + multiset(s[b..]);
  }

  /** The stripped text is a slice of `s` with only whitespace before and
      after it. */
  lemma StripTrimsSlice(s: string) returns (a: nat)
    ensures a + |Strip(s)| <= |s|
    ensures Strip(s) == s[a..a + |Strip(s)|]
    ensures AllSpace(s[..a]) && AllSpace(s[a + |Strip(s)|..])
  {
    var l := StripLeft(s);
    a := |s| - |l|;
    var r := StripRight(l);
    assert r == Strip(s);
    assert r == l[..|r|];
    SliceOfSuffix(s, a, |r|);
    assert l[|r|..] == s[a + |r|..];
  }

  /** Stripping never removes a character that is not whitespace. */
  lemma StripKeeps(s: string, c: char)
    requires c in s && !IsSpace(c)
    ensures c in Strip(s)
  {
    var a := StripTrimsSlice(s);
    var r := Strip(s);
    forall k | 0 <= k < a ensures IsSpace(s[k]) {
      assert s[..a][k] == s[k];
    }
    forall k | a + |r| <= k < |s| ensures IsSpace(s[k]) {
      assert s[a + |r|..][k - a - |r|] == s[k];
    }
    var i :| 0 <= i < |s| && s[i] == c;
    assert r[i - a] == c;
  }

  lemma {:induction false} StripLeftSpacePrefix(w: string, x: string)
    requires AllSpace(w)
    ensures StripLeft(w + x) == StripLeft(x)
    decreases |w|
  {
    if w != [] {
      assert (w + x)[0] == w[0] && IsSpace(w[0]);
      assert (w + x)[1..] == w[1..] + x;
      StripLeftSpacePrefix(w[1..], x);
      assert StripLeft(w + x) == StripLeft(w[1..] + x);
    } else {
      assert w + x == x;
    }
  }

  lemma {:induction false} StripRightSpaceSuffix(x: string, w: string)
    requires AllSpace(w)
    ensures StripRight(x + w) == StripRight(x)
    decreases |w|
  {
    if w != [] {
      var n := |x + w|;
      assert (x + w)[n - 1] == w[|w| - 1] && IsSpace(w[|w| - 1]);
      assert (x + w)[..n - 1] == x + w[..|w| - 1];
      StripRightSpaceSuffix(x, w[..|w| - 1]);
      assert StripRight(x + w) == StripRight(x + w[..|w| - 1]);
    } else {
      assert x + w == x;
    }
  }

  lemma {:induction false} StripLeftAppend(x: string, w: string)
    requires StripLeft(x) != []
    ensures StripLeft(x + w) == StripLeft(x) + w
    decreases |x|
  {
    if IsSpace(x[0]) {
      assert (x + w)[1..] == x[1..] + w;
      StripLeftAppend(x[1..], w);
    }
  }

  /** Whitespace around a string never changes what `strip` returns. */
  lemma StripPadded(w1: string, s: string, w2: string)
    requires AllSpace(w1) && AllSpace(w2)
    ensures Strip(w1 + s + w2) == Strip(s)
  {
    assert w1 + s + w2 == w1 + (s + w2);
    StripLeftSpacePrefix(w1, s + w2);
    if StripLeft(s) != [] {
      StripLeftAppend(s, w2);
      StripRightSpaceSuffix(StripLeft(s), w2);
    } else {
      assert AllSpace(s + w2);
      StripLeftSpacePrefix(s + w2, []);
      assert s + w2 + [] == s + w2;
    }
  }

  lemma StripUnpadded(s: string)
    requires s == [] || (!IsSpace(s[0]) && !IsSpace(s[|s| - 1]))
    ensures Strip(s) == s
  {
  }

  lemma UpperKeepsSpace(c: char)
    ensures IsSpace(UpperChar(c)) == IsSpace(c)
  {
  }

  lemma {:induction false} StripLeftUpper(s: string)
    ensures StripLeft(Upper(s)) == Upper(StripLeft(s))
    decreases |s|
  {
    if s != [] {
      assert Upper(s)[0] == UpperChar(s[0]);
      UpperKeepsSpace(s[0]);
      if IsSpace(s[0]) {
        assert Upper(s)[1..] == Upper(s[1..]);
        StripLeftUpper(s[1..]);
      }
    }
  }

  lemma {:induction false} StripRightUpper(s: string)
    ensures StripRight(Upper(s)) == Upper(StripRight(s))
    decreases |s|
  {
    if s != [] {
      assert Upper(s)[|s| - 1] == UpperChar(s[|s| - 1]);
      UpperKeepsSpace(s[|s| - 1]);
      if IsSpace(s[|s| - 1]) {
        assert Upper(s)[..|s| - 1] == Upper(s[..|s| - 1]);
        StripRightUpper(s[..|s| - 1]);
      }
    }
  }

  /** Upper-casing and stripping commute (letters are never whitespace). */
  lemma StripUpper(s: string)
    ensures Strip(Upper(s)) == Upper(Strip(s))
  {
    StripLeftUpper(s);
    StripRightUpper(StripLeft(s));
  }

  // ---------------------------------------------------------------------------
  // replace
  // ---------------------------------------------------------------------------

  /** `s.replace(pat, rep)` for a non-empty pattern: occurrences are found left
      to right and never overlap. */
  function Replace(s: string, pat: string, rep: string): string
    requires pat != []
    decreases |s|
  {
    if |s| < |pat| then s
    else if s[..|pat|] == pat then rep + Replace(s[|pat|..], pat, rep)
    else [s[0]] + Replace(s[1..], pat, rep)
  }

  /** A character that is not in the pattern survives the replacement. */
  lemma {:induction false} ReplaceKeeps(s: string, pat: string, rep: string, c: char)
    requires pat != [] && c !in pat && c in s
    ensures c in Replace(s, pat, rep)
    decreases |s|
  {
    if |s| >= |pat| {
      if s[..|pat|] == pat {
        forall k | 0 <= k < |pat| ensures s[k] != c {
          assert s[..|pat|][k] == s[k] && pat[k] in pat;
        }
        var i :| 0 <= i < |s| && s[i] == c;
        assert s[|pat|..][i - |pat|] == c;
        ReplaceKeeps(s[|pat|..], pat, rep, c);
      } else if s[0] != c {
        var i :| 0 <= i < |s| && s[i] == c;
        assert s[1..][i - 1] == c;
        ReplaceKeeps(s[1..], pat, rep, c);
      }
    }
  }

  /** A prefix that holds no first letter of the pattern passes through unchanged. */
  lemma {:induction false} ReplaceSkipsPrefix(a: string, b: string, pat: string, rep: string)
    requires pat != [] && pat[0] !in a
    ensures Replace(a + b, pat, rep) == a + Replace(b, pat, rep)
    decreases |a|
  {
    if a != [] {
      var s := a + b;
      assert s[0] == a[0] && s[0] != pat[0];
      if |s| < |pat| {
        assert |b| < |pat|;
        assert Replace(b, pat, rep) == b;
      } else {
        assert s[..|pat|][0] == s[0];
        assert s[..|pat|] != pat;
        assert s[1..] == a[1..] + b;
        ReplaceSkipsPrefix(a[1..], b, pat, rep);
        assert [a[0]] + a[1..] == a;
      }
    } else {
      assert a + b == b;
    }
  }

  // ---------------------------------------------------------------------------
  // split and join
  // ---------------------------------------------------------------------------

  /** `s.split(sep)` for a one-character separator: never empty, and every
      separator starts a new piece (so "" gives [""] and ",," gives ["", "", ""]). */
  function Split(s: string, sep: char): (r: seq<string>)
    ensures |r| >= 1
    decreases |s|
  {
    if s == [] then [[]]
    else
      var rest := Split(s[1..], sep);
      if s[0] == sep then [[]] + rest
      else [[s[0]] + rest[0]] + rest[1..]
  }

  /** `sep.join(parts)`. */
  function Join(parts: seq<string>, sep: string): string
    decreases |parts|
  {
    if parts == [] then []
    else if |parts| == 1 then parts[0]
    else parts[0] + sep + Join(parts[1..], sep)
  }

  /** One piece per separator, plus one. */
  lemma {:induction false} SplitCount(s: string, sep: char)
    ensures |Split(s, sep)| == multiset(s)[sep] + 1
    decreases |s|
  {
    if s != [] {
      assert s == [s[0]] + s[1..];
      assert multiset(s) == multiset{s[0]} + multiset(s[1..]);
      SplitCount(s[1..], sep);
    }
  }

  /** No piece holds the separator. */
  lemma {:induction false} SplitPiecesExcludeSep(s: string, sep: char)
    ensures forall p :: p in Split(s, sep) ==> sep !in p
    decreases |s|
  {
    if s != [] {
      SplitPiecesExcludeSep(s[1..], sep);
    }
  }

  /** Joining the pieces with the separator gives back the input. */
  lemma {:induction false} JoinSplit(s: string, sep: char)
    ensures Join(Split(s, sep), [sep]) == s
    decreases |s|
  {
    if s != [] {
      var rest := Split(s[1..], sep);
      JoinSplit(s[1..], sep);
      if s[0] == sep {
        assert ([[]] + rest)[1..] == rest;
      } else if |rest| == 1 {
      } else {
        var r := [[s[0]] + rest[0]] + rest[1..];
        assert r[1..] == rest[1..];
        assert Join(r, [sep]) == [s[0]] + rest[0] + [sep] + Join(rest[1..], [sep]);
      }
    }
  }

  /** A string free of the separator is one piece. */
  lemma {:induction false} SplitFree(p: string, sep: char)
    requires sep !in p
    ensures Split(p, sep) == [p]
    decreases |p|
  {
    if p != [] {
      SplitFree(p[1..], sep);
      assert [p[0]] + p[1..] == p;
    }
  }

  /** A separator-free first piece followed by the separator starts the split. */
  lemma {:induction false} SplitAfterPiece(p: string, sep: char, s: string)
    requires sep !in p
    ensures Split(p + [sep] + s, sep) == [p] + Split(s, sep)
    decreases |p|
  {
    if p == [] {
      assert (p + [sep] + s)[1..] == s;
    } else {
      assert (p + [sep] + s)[1..] == p[1..] + [sep] + s;
      SplitAfterPiece(p[1..], sep, s);
      assert [p[0]] + p[1..] == p;
    }
  }

  /** Splitting a join of separator-free pieces gives back the pieces. */
  lemma {:induction false} SplitJoin(parts: seq<string>, sep: char)
    requires |parts| >= 1
    requires forall i :: 0 <= i < |parts| ==> sep !in parts[i]
    ensures Split(Join(parts, [sep]), sep) == parts
    decreases |parts|
  {
    if |parts| == 1 {
      SplitFree(parts[0], sep);
    } else {
      SplitJoin(parts[1..], sep);
      SplitAfterPiece(parts[0], sep, Join(parts[1..], [sep]));
      assert [parts[0]] + parts[1..] == parts;
    }
  }

  // ---------------------------------------------------------------------------
  // int(...) and decimal numerals
  // ---------------------------------------------------------------------------

  function DigitOf(c: char): nat {
    if IsDigit(c) then c as int - '0' as int else 0
  }

  /** The value of a numeral whose underscores are ignored. */
  function DigitsValue(s: string): nat
    decreases |s|
  {
    if s == [] then 0
    else if s[|s| - 1] == '_' then DigitsValue(s[..|s| - 1])
    else DigitsValue(s[..|s| - 1]) * 10 + DigitOf(s[|s| - 1])
  }

  /** The digit part `int()` accepts: digits, with single underscores allowed
      only between two digits. */
  predicate DigitGroups(s: string) {
    |s| > 0 && IsDigit(s[0]) && IsDigit(s[|s| - 1]) &&
    (forall i :: 0 <= i < |s| ==> IsDigit(s[i]) || s[i] == '_') &&
    (forall i :: 0 <= i < |s| - 1 && s[i] == '_' ==> IsDigit(s[i + 1]))
  }

  /** The most digits `int()` converts from a decimal string
      (`sys.int_info.default_max_str_digits`); longer numerals are refused. */
  const MaxStrDigits: nat := 4300

  /** The number of digits in `s`; underscores do not count. */
  function DigitCount(s: string): (r: nat)
    ensures r <= |s|
    decreases |s|
  {
    if s == [] then 0
    else DigitCount(s[..|s| - 1]) + (if IsDigit(s[|s| - 1]) then 1 else 0)
  }

  lemma {:induction false} DigitCountAll(s: string)
    requires forall i :: 0 <= i < |s| ==> IsDigit(s[i])
    ensures DigitCount(s) == |s|
    decreases |s|
  {
    if s != [] {
      DigitCountAll(s[..|s| - 1]);
    }
  }

  /** The unsigned part of `int(s)`: well-formed digit groups of at most
      `MaxStrDigits` digits. */
  function GroupsValue(g: string): Option<int> {
    if DigitGroups(g) && DigitCount(g) <= MaxStrDigits then Some(DigitsValue(g)) else None
  }

  /** `int(s)` in base 10: surrounding whitespace, one optional sign, then digit
      groups; anything else is a `ValueError`, here `None`. The trim is
      `Strip`, whose whitespace also covers 28..31, which `int()` does not
      skip; the effort parser only applies it to text it has already
      stripped, where the two agree. */
  function ParseInt(s: string): Option<int> {
    var t := Strip(s);
    if t != [] && (t[0] == '+' || t[0] == '-') then
      match GroupsValue(t[1..])
      case Some(v) => Some(if t[0] == '-' then -v else v)
      case None => None
    else GroupsValue(t)
  }

  /** A character that can appear in no integer literal. */
  predicate NotNumeral(c: char) {
    !IsDigit(c) && c != '_' && c != '+' && c != '-' && !IsSpace(c)
  }

  /** Text holding a character that no integer literal contains is refused. */
  lemma ParseIntRejects(s: string, c: char)
    requires c in s && NotNumeral(c)
    ensures ParseInt(s) == None
  {
    StripKeeps(s, c);
    var t := Strip(s);
    var j :| 0 <= j < |t| && t[j] == c;
    assert j != 0 ==> t[1..][j - 1] == c;
    assert !DigitGroups(t);
    assert t[0] == '+' || t[0] == '-' ==> !DigitGroups(t[1..]);
  }

  function DigitChar(d: nat): (c: char)
    requires d < 10
    ensures IsDigit(c) && DigitOf(c) == d
  {
    ('0' as int + d) as char
  }

  /** `str(n)` for a natural number. */
  function DecimalString(n: nat): (r: string)
    ensures |r| >= 1
    ensures forall i :: 0 <= i < |r| ==> IsDigit(r[i])
  {
    if n < 10 then [DigitChar(n)] else DecimalString(n / 10) + [DigitChar(n % 10)]
  }

  lemma {:induction false} DecimalValue(n: nat)
    ensures DigitsValue(DecimalString(n)) == n
  {
    if n >= 10 {
      var d := DecimalString(n);
      assert d[..|d| - 1] == DecimalString(n / 10);
      DecimalValue(n / 10);
    }
  }

  /** Unsigned digit groups parse to their value when they have at most
      `MaxStrDigits` digits, and are refused when they have more. */
  lemma ParseDigitGroups(t: string)
    requires DigitGroups(t)
    ensures DigitCount(t) <= MaxStrDigits ==> ParseInt(t) == Some(DigitsValue(t))
    ensures DigitCount(t) > MaxStrDigits ==> ParseInt(t) == None
  {
    assert IsDigit(t[0]) && IsDigit(t[|t| - 1]);
    assert !IsSpace(t[0]) && !IsSpace(t[|t| - 1]);
    StripUnpadded(t);
    assert t[0] != '+' && t[0] != '-';
  }

  /** `int(str(n)) == n` for a numeral of at most `MaxStrDigits` digits;
      a longer one is refused. */
  lemma ParseDecimal(n: nat)
    ensures |DecimalString(n)| <= MaxStrDigits ==> ParseInt(DecimalString(n)) == Some(n)
    ensures |DecimalString(n)| > MaxStrDigits ==> ParseInt(DecimalString(n)) == None
  {
    var d := DecimalString(n);
    assert DigitGroups(d);
    DigitCountAll(d);
    ParseDigitGroups(d);
    DecimalValue(n);
  }
}
