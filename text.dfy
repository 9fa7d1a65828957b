/** The JavaScript string operations the blog relies on: the `\s` class,
    `trim()`, `split(/\s+/)`, `toLowerCase()`, `startsWith`, `includes`, and
    the decimal rendering of a count. */
module Text {

  /** JavaScript's `\s` class, which is also the set of characters `trim()` strips. */
  predicate IsSpace(c: char) {
    || c == ' ' || c == '\t' || c == '\n' || c == '\r' || c == '\U{B}' || c == '\U{C}'
    || c == '\U{A0}' || c == '\U{1680}' || ('\U{2000}' <= c <= '\U{200A}')
    || c == '\U{2028}' || c == '\U{2029}' || c == '\U{202F}' || c == '\U{205F}'
    || c == '\U{3000}' || c == '\U{FEFF}'
  }

  predicate NoSpace(s: string) {
    forall i :: 0 <= i < |s| ==> !IsSpace(s[i])
  }

  predicate AllSpace(s: string) {
    forall i :: 0 <= i < |s| ==> IsSpace(s[i])
  }

  /** Nothing for `trim()` to remove: no whitespace at either end. */
  predicate Trimmed(s: string) {
    s == [] || (!IsSpace(s[0]) && !IsSpace(s[|s| - 1]))
  }

  /** 1 when `s` begins with whitespace, else 0. */
  function Leading(s: string): nat {
    if s != [] && IsSpace(s[0]) then 1 else 0
  }

  /** 1 when `s` ends with whitespace, else 0. */
  function Trailing(s: string): nat {
    if s != [] && IsSpace(s[|s| - 1]) then 1 else 0
  }

  // ---------------------------------------------------------------- trim

  function TrimStart(s: string): (r: string)
    ensures |r| <= |s|
    ensures AllSpace(s[..|s| - |r|])
    ensures r == [] || !IsSpace(r[0])
  {
    if |s| > 0 && IsSpace(s[0]) then
      var r := TrimStart(s[1..]);
      assert AllSpace(s[..|s| - |r|]) by {
        var p, q := s[..|s| - |r|], s[1..][..|s| - 1 - |r|];
        forall k | 0 <= k < |p| ensures IsSpace(p[k]) {
          if k > 0 { assert p[k] == q[k - 1]; }
        }
      }
      r
    else s
  }

  /** What `TrimStart` keeps is a suffix of its input. */
  lemma {:induction false} TrimStartSuffix(s: string)
    ensures TrimStart(s) == s[|s| - |TrimStart(s)|..]
    decreases |s|
  {
    if |s| > 0 && IsSpace(s[0]) {
      TrimStartSuffix(s[1..]);
      assert s[1..][|s| - 1 - |TrimStart(s)|..] == s[|s| - |TrimStart(s)|..];
    }
  }

  function TrimEnd(s: string): (r: string)
    ensures |r| <= |s|
    ensures AllSpace(s[|r|..])
    ensures r == [] || !IsSpace(r[|r| - 1])
  {
    if |s| > 0 && IsSpace(s[|s| - 1]) then
      var r := TrimEnd(s[..|s| - 1]);
      assert AllSpace(s[|r|..]) by {
        var p, q := s[|r|..], s[..|s| - 1][|r|..];
        forall k | 0 <= k < |p| ensures IsSpace(p[k]) {
          if k < |q| { assert p[k] == q[k]; }
        }
      }
      r
    else s
  }

  /** What `TrimEnd` keeps is a prefix of its input. */
  lemma {:induction false} TrimEndPrefix(s: string)
    ensures TrimEnd(s) == s[..|TrimEnd(s)|]
    decreases |s|
  {
    if |s| > 0 && IsSpace(s[|s| - 1]) {
      TrimEndPrefix(s[..|s| - 1]);
      assert s[..|s| - 1][..|TrimEnd(s)|] == s[..|TrimEnd(s)|];
    }
  }

  /** Trimming both ends leaves nothing exactly when `s` is all whitespace. */
  lemma TrimEmptyIff(s: string)
    ensures TrimEnd(TrimStart(s)) == [] <==> AllSpace(s)
  {
    var a := TrimStart(s);
    var k := |s| - |a|;
    TrimStartSuffix(s);
    if a != [] {
      assert a[0] == s[k];
    }
    if TrimEnd(a) == [] {
      assert a[0..] == a;
      assert s[..k] == s;
    }
  }

  /** Trimming both ends leaves no whitespace at either end. */
  lemma TrimEndsClean(s: string)
    ensures Trimmed(TrimEnd(TrimStart(s)))
  {
    var a := TrimStart(s);
    var r := TrimEnd(a);
    TrimEndPrefix(a);
    if r != [] {
      assert r[0] == a[0];
    }
  }

  /** `s.trim()`: `s` without its leading and trailing whitespace. */
  function Trim(s: string): (r: string)
    ensures Trimmed(r)
    ensures r == [] <==> AllSpace(s)
  {
    TrimEmptyIff(s);
    TrimEndsClean(s);
    TrimEnd(TrimStart(s))
  }

  /** `trim()` removes whitespace from the two ends and nothing else: its
      result is the slice of `s` left between a whitespace prefix and a
      whitespace suffix. */
  lemma TrimIsInfix(s: string)
    ensures exists i, j :: 0 <= i <= j <= |s| && Trim(s) == s[i..j] && AllSpace(s[..i]) && AllSpace(s[j..])
  {
    var a := TrimStart(s);
    var r := TrimEnd(a);
    var i := |s| - |a|;
    var j := i + |r|;
    TrimStartSuffix(s);
    TrimEndPrefix(a);
    assert r == s[i..j];
    assert s[j..] == a[|r|..];
  }

  lemma TrimNoop(s: string)
    requires Trimmed(s)
    ensures Trim(s) == s
  {
  }

  /** Trimming twice is trimming once. */
  lemma TrimIdempotent(s: string)
    ensures Trim(Trim(s)) == Trim(s)
  {
    TrimNoop(Trim(s));
  }

  // ---------------------------------------------------------------- case

  /** `toLowerCase()` on one character; only the ASCII letters are mapped. */
  function LowerChar(c: char): char {
    if 'A' <= c <= 'Z' then (c as int - 'A' as int + 'a' as int) as char else c
  }

  /** `s.toLowerCase()`, character by character. */
  function ToLower(s: string): (r: string)
    ensures |r| == |s|
    ensures forall k :: 0 <= k < |s| ==> r[k] == LowerChar(s[k])
  {
    if s == [] then [] else [LowerChar(s[0])] + ToLower(s[1..])
  }

  lemma ToLowerIdempotent(s: string)
    ensures ToLower(ToLower(s)) == ToLower(s)
  {
  }

  /** Lower-casing never creates or removes whitespace. */
  lemma LowerCharSpace(c: char)
    ensures IsSpace(LowerChar(c)) <==> IsSpace(c)
  {
  }

  lemma ToLowerAllSpace(s: string)
    ensures AllSpace(ToLower(s)) <==> AllSpace(s)
  {
    forall k | 0 <= k < |s| ensures IsSpace(ToLower(s)[k]) <==> IsSpace(s[k]) {
      LowerCharSpace(s[k]);
    }
  }

  lemma {:induction false} TrimStartToLower(s: string)
    ensures TrimStart(ToLower(s)) == ToLower(TrimStart(s))
    decreases |s|
  {
    if |s| > 0 {
      LowerCharSpace(s[0]);
      assert ToLower(s)[1..] == ToLower(s[1..]);
      if IsSpace(s[0]) {
        TrimStartToLower(s[1..]);
      }
    }
  }

  lemma {:induction false} TrimEndToLower(s: string)
    ensures TrimEnd(ToLower(s)) == ToLower(TrimEnd(s))
    decreases |s|
  {
    if |s| > 0 {
      LowerCharSpace(s[|s| - 1]);
      assert ToLower(s)[..|s| - 1] == ToLower(s[..|s| - 1]);
      if IsSpace(s[|s| - 1]) {
        TrimEndToLower(s[..|s| - 1]);
      }
    }
  }

  /** Trimming and lower-casing commute, so the order in which the two are
      applied to a value does not matter. */
  lemma TrimToLowerCommute(s: string)
    ensures Trim(ToLower(s)) == ToLower(Trim(s))
  {
    TrimStartToLower(s);
    TrimEndToLower(TrimStart(s));
  }

  // ---------------------------------------------------------------- search

  /** `s.startsWith(prefix)`. */
  predicate StartsWith(s: string, prefix: string) {
    |prefix| <= |s| && s[..|prefix|] == prefix
  }

  /** `s.includes(q)`, searched from the left. */
  predicate Includes(s: string, q: string)
    decreases |s|
  {
    StartsWith(s, q) || (s != [] && Includes(s[1..], q))
  }

  /** `Includes` holds exactly when `q` occurs at some position of `s`. */
  lemma {:induction false} IncludesIff(s: string, q: string)
    ensures Includes(s, q) <==> exists i :: 0 <= i <= |s| && StartsWith(s[i..], q)
    decreases |s|
  {
    assert s[0..] == s;
    if s != [] {
      IncludesIff(s[1..], q);
      if exists i :: 0 <= i <= |s| && StartsWith(s[i..], q) {
        var i :| 0 <= i <= |s| && StartsWith(s[i..], q);
        if i > 0 {
          assert s[1..][i - 1..] == s[i..];
          assert Includes(s[1..], q);
        }
      }
      if !StartsWith(s, q) && Includes(s[1..], q) {
        var i :| 0 <= i <= |s| - 1 && StartsWith(s[1..][i..], q);
        assert s[1..][i..] == s[i + 1..];
        assert StartsWith(s[i + 1..], q);
      }
    }
  }

  // ---------------------------------------------------------------- words

  /** The number of word starts in `s`: a non-space character that is first,
      or follows whitespace (`afterSpace` says whether what precedes `s` does). */
  function CountStarts(s: string, afterSpace: bool): nat {
    if s == [] then 0
    else (if afterSpace && !IsSpace(s[0]) then 1 else 0) + CountStarts(s[1..], IsSpace(s[0]))
  }

  /** The number of maximal runs of non-space characters in `s`. */
  function Words(s: string): nat {
    CountStarts(s, true)
  }

  lemma {:induction false} CountNoSpacePrefix(s: string, i: nat, p: bool)
    requires 0 < i <= |s| && NoSpace(s[..i])
    ensures CountStarts(s, p) == (if p then 1 else 0) + CountStarts(s[i..], false)
    decreases i
  {
    assert !IsSpace(s[..i][0]);
    if i > 1 {
      assert s[1..][..i - 1] == s[..i][1..];
      CountNoSpacePrefix(s[1..], i - 1, false);
      assert s[1..][i - 1..] == s[i..];
    }
  }

  lemma {:induction false} CountSpacePrefix(s: string, i: nat, p: bool)
    requires 0 < i <= |s| && AllSpace(s[..i])
    ensures CountStarts(s, p) == CountStarts(s[i..], true)
    decreases i
  {
    assert IsSpace(s[..i][0]);
    if i > 1 {
      assert s[1..][..i - 1] == s[..i][1..];
      CountSpacePrefix(s[1..], i - 1, true);
      assert s[1..][i - 1..] == s[i..];
    }
  }

  lemma {:induction false} CountSpaceSuffix(s: string, i: nat, p: bool)
    requires i <= |s| && AllSpace(s[i..])
    ensures CountStarts(s, p) == CountStarts(s[..i], p)
    decreases |s|
  {
    if i == |s| {
      assert s[..i] == s;
    } else if i == 0 {
      assert s[..|s|] == s;
      CountSpacePrefix(s, |s|, p);
    } else {
      assert s[1..][i - 1..] == s[i..];
      CountSpaceSuffix(s[1..], i - 1, IsSpace(s[0]));
      assert s[..i][1..] == s[1..][..i - 1];
    }
  }

  /** Whitespace at either end does not change the number of words. */
  lemma WordsTrim(s: string)
    ensures Words(Trim(s)) == Words(s)
  {
    var a := TrimStart(s);
    TrimStartSuffix(s);
    if |s| - |a| > 0 {
      CountSpacePrefix(s, |s| - |a|, true);
    }
    TrimEndPrefix(a);
    CountSpaceSuffix(a, |TrimEnd(a)|, true);
  }

  lemma WordsAllSpace(s: string)
    requires AllSpace(s)
    ensures Words(s) == 0
  {
    if s != [] {
      assert s[..|s|] == s;
      CountSpacePrefix(s, |s|, true);
    }
  }

  // ---------------------------------------------------------------- split

  /** Index of the first whitespace character of `s`, or `|s|` when there is none. */
  function FirstSpace(s: string): (i: nat)
    ensures i <= |s| && NoSpace(s[..i]) && (i < |s| ==> IsSpace(s[i]))
  {
    if s == [] || IsSpace(s[0]) then 0
    else
      var i := 1 + FirstSpace(s[1..]);
      assert s[..i] == [s[0]] + s[1..][..i - 1];
      i
  }

  /** End of the run of whitespace that starts at index `i`. */
  function SpaceRunEnd(s: string, i: nat): (j: nat)
    requires i <= |s|
    ensures i <= j <= |s| && AllSpace(s[i..j]) && (j < |s| ==> !IsSpace(s[j]))
    decreases |s| - i
  {
    if i < |s| && IsSpace(s[i]) then SpaceRunEnd(s, i + 1) else i
  }

  /** `s.split(/\s+/)`: the pieces between the maximal runs of whitespace, so
      whitespace at either end contributes an empty piece. */
  function Split(s: string): (pieces: seq<string>)
    ensures |pieces| >= 1
    ensures forall k :: 0 <= k < |pieces| ==> NoSpace(pieces[k])
    decreases |s|
  {
    var i := FirstSpace(s);
    if i == |s| then
      assert s[..i] == s;
      [s]
    else
      [s[..i]] + Split(s[SpaceRunEnd(s, i + 1)..])
  }

  /** A run of whitespace starting at `i` is all whitespace up to its end. */
  lemma SpaceRun(s: string, i: nat)
    requires i < |s| && IsSpace(s[i])
    ensures AllSpace(s[i..SpaceRunEnd(s, i + 1)])
  {
    var j := SpaceRunEnd(s, i + 1);
    forall k | 0 <= k < j - i ensures IsSpace(s[i..j][k]) {
      if k > 0 { assert s[i..j][k] == s[i + 1..j][k - 1]; }
    }
  }

  /** A word of length `i` followed by whitespace up to `j` counts once. */
  lemma WordThenSpace(s: string, i: nat, j: nat)
    requires 0 < i < j <= |s| && NoSpace(s[..i]) && AllSpace(s[i..j])
    ensures Words(s) == 1 + Words(s[j..])
  {
    CountNoSpacePrefix(s, i, true);
    assert s[i..][..j - i] == s[i..j];
    CountSpacePrefix(s[i..], j - i, false);
    assert s[i..][j - i..] == s[j..];
  }

  /** Cutting `s` at its first run of whitespace: the words of `s` are the
      word before the run, if any, and the words after it. */
  lemma WordsAtFirstRun(s: string)
    requires FirstSpace(s) < |s|
    ensures Words(s) == (if FirstSpace(s) > 0 then 1 else 0) + Words(s[SpaceRunEnd(s, FirstSpace(s) + 1)..])
  {
    var i := FirstSpace(s);
    var j := SpaceRunEnd(s, i + 1);
    SpaceRun(s, i);
    if i > 0 {
      WordThenSpace(s, i, j);
    } else {
      assert s[..j] == s[i..j];
      CountSpacePrefix(s, j, true);
    }
  }

  /** Without whitespace, `split` gives the string itself: one piece, one word. */
  lemma SplitWhole(s: string)
    requires s != [] && FirstSpace(s) == |s|
    ensures |Split(s)| == 1 && Words(s) == 1 && Leading(s) == 0 && Trailing(s) == 0
  {
    assert s[..|s|] == s;
    CountNoSpacePrefix(s, |s|, true);
  }

  /** With whitespace, `split` gives the piece before the first run and the
      pieces of what follows the run. */
  lemma SplitCut(s: string)
    requires FirstSpace(s) < |s|
    ensures |Split(s)| == 1 + |Split(s[SpaceRunEnd(s, FirstSpace(s) + 1)..])|
  {
  }

  /** How the ends of `s` relate to the ends of what follows its first run
      of whitespace. */
  lemma RestEnds(s: string)
    requires FirstSpace(s) < |s|
    ensures var rest := s[SpaceRunEnd(s, FirstSpace(s) + 1)..];
      && Leading(s) == (if FirstSpace(s) == 0 then 1 else 0)
      && (rest == [] ==> Trailing(s) == 1)
      && (rest != [] ==> Leading(rest) == 0 && Trailing(rest) == Trailing(s))
  {
    var i := FirstSpace(s);
    var j := SpaceRunEnd(s, i + 1);
    var rest := s[j..];
    if rest == [] {
      if j > i + 1 {
        assert s[|s| - 1] == s[i + 1..j][j - i - 2];
      }
    } else {
      assert rest[0] == s[j];
      assert rest[|rest| - 1] == s[|s| - 1];
    }
  }

  /** The number of pieces `split(/\s+/)` gives for a non-empty string is its
      number of words, plus one for leading and one for trailing whitespace. */
  lemma {:induction false} SplitLength(s: string)
    requires s != []
    ensures |Split(s)| == Words(s) + Leading(s) + Trailing(s)
    decreases |s|
  {
    if FirstSpace(s) == |s| {
      SplitWhole(s);
    } else {
      SplitCut(s);
      RestEnds(s);
      WordsAtFirstRun(s);
      var rest := s[SpaceRunEnd(s, FirstSpace(s) + 1)..];
      if rest != [] {
        SplitLength(rest);
      } else {
        assert Split(rest) == [rest];
      }
    }
  }

  /** For a string with no whitespace at either end, `split(/\s+/)` yields
      exactly its words. */
  lemma SplitTrimmed(s: string)
    requires s != [] && Trimmed(s)
    ensures |Split(s)| == Words(s)
  {
    SplitLength(s);
  }

  // ---------------------------------------------------------------- numbers

  function DigitChar(d: nat): (c: char)
    requires d < 10
    ensures '0' <= c <= '9'
  {
    "0123456789"[d]
  }

  /** The decimal rendering of `n`, as a template literal `${n}` gives it. */
  function Decimal(n: nat): (r: string)
    ensures |r| >= 1
    ensures forall k :: 0 <= k < |r| ==> '0' <= r[k] <= '9'
  {
    if n < 10 then [DigitChar(n)] else Decimal(n / 10) + [DigitChar(n % 10)]
  }
}
