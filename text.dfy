/** Text primitives shared by the model: optional values, substring search with
    Python's `str.find` semantics, Python slicing with negative and clipped bounds,
    Python's `str.strip()` and Dart's `String.split` on a one-character separator. */
module Text {

  datatype Option<T> = None | Some(value: T)

  datatype Result<T, E> = Ok(value: T) | Err(error: E)

  /** `pat` occurs in `s` starting at index `i`. */
  predicate OccursAt(s: string, pat: string, i: int)
  {
    0 <= i && i + |pat| <= |s| && s[i..i + |pat|] == pat
  }

  /** Python `s.find(pat, start)` for a non-negative `start`: the least index at or
      after `start` where `pat` occurs, or -1 when there is none. */
  function Find(s: string, pat: string, start: nat): (r: int)
    ensures r == -1 || (start <= r && OccursAt(s, pat, r))
    ensures r == -1 ==> forall i :: start <= i ==> !OccursAt(s, pat, i)
    ensures r != -1 ==> forall i :: start <= i < r ==> !OccursAt(s, pat, i)
    decreases |s| - start
  {
    if start + |pat| > |s| then -1
    else if s[start..start + |pat|] == pat then start
    else Find(s, pat, start + 1)
  }

  /** Python `pat in s`. */
  predicate Contains(s: string, pat: string)
  {
    Find(s, pat, 0) != -1
  }

  /** The text before the first occurrence of a non-empty pattern does not contain it. */
  lemma NothingBeforeFirst(s: string, pat: string)
    requires |pat| > 0 && Contains(s, pat)
    ensures !Contains(s[..Find(s, pat, 0)], pat)
  {
    var f := Find(s, pat, 0);
    var pre := s[..f];
    forall i | 0 <= i && i + |pat| <= |pre| ensures !OccursAt(pre, pat, i) {
      assert !OccursAt(s, pat, i);
      assert pre[i..i + |pat|] == s[i..i + |pat|];
    }
  }

  /** A string that lacks the first character of a non-empty pattern cannot contain it. */
  lemma NotContainsWithoutFirstChar(s: string, pat: string)
    requires |pat| > 0
    requires forall i :: 0 <= i < |s| ==> s[i] != pat[0]
    ensures !Contains(s, pat)
  {
    assert forall i :: OccursAt(s, pat, i) ==> s[i..i + |pat|][0] == s[i];
  }

  /** The position a Python slice bound `k` denotes in a sequence of length `n`:
      negative bounds count from the end, and every bound is clipped to `[0, n]`. */
  function SliceBound(n: nat, k: int): (r: nat)
    ensures r <= n
    ensures 0 <= k <= n ==> r == k
    ensures k > n ==> r == n
    ensures k < 0 ==> r == if n + k < 0 then 0 else n + k
  {
    if k < 0 then (if n + k < 0 then 0 else n + k)
    else if k > n then n
    else k
  }

  /** Python `s[:k]`. */
  function SliceTo(s: string, k: int): string
  {
    s[..SliceBound(|s|, k)]
  }

  /** Python `s[k:]`. */
  function SliceFrom(s: string, k: int): string
  {
    s[SliceBound(|s|, k)..]
  }

  /** The ASCII whitespace that Python's `str.strip()` and Dart's integer parser remove. */
  predicate IsSpace(c: char)
  {
    c == ' ' || c == '\t' || c == '\n' || c == '\r' || c == '\U{B}' || c == '\U{C}'
  }

  function TrimStart(s: string): (r: string)
    ensures |r| <= |s| && r == s[|s| - |r|..]
    ensures r == [] || !IsSpace(r[0])
  {
    if s != [] && IsSpace(s[0]) then
      var r := TrimStart(s[1..]);
      assert s[1..][|s| - 1 - |r|..] == s[|s| - |r|..];
      r
    else s
  }

  /** Everything `TrimStart` drops is whitespace. */
  lemma {:induction false} TrimStartDropsSpaces(s: string)
    ensures forall k :: 0 <= k < |s| - |TrimStart(s)| ==> IsSpace(s[k])
    decreases |s|
  {
    if s != [] && IsSpace(s[0]) {
      TrimStartDropsSpaces(s[1..]);
      assert TrimStart(s) == TrimStart(s[1..]);
      forall k | 1 <= k < |s| - |TrimStart(s)| ensures IsSpace(s[k]) {
        assert s[k] == s[1..][k - 1];
      }
    }
  }

  function TrimEnd(s: string): (r: string)
    ensures |r| <= |s| && r == s[..|r|]
    ensures r == [] || !IsSpace(r[|r| - 1])
  {
    if s != [] && IsSpace(s[|s| - 1]) then
      var r := TrimEnd(s[..|s| - 1]);
      assert s[..|s| - 1][..|r|] == s[..|r|];
      r
    else s
  }

  /** Everything `TrimEnd` drops is whitespace. */
  lemma {:induction false} TrimEndDropsSpaces(s: string)
    ensures forall k :: |TrimEnd(s)| <= k < |s| ==> IsSpace(s[k])
    decreases |s|
  {
    if s != [] && IsSpace(s[|s| - 1]) {
      var init := s[..|s| - 1];
      TrimEndDropsSpaces(init);
      assert TrimEnd(s) == TrimEnd(init);
      forall k | |TrimEnd(s)| <= k < |s| - 1 ensures IsSpace(s[k]) {
        assert s[k] == init[k];
      }
    }
  }

  /** Python `s.strip()` with no argument: the part of `s` left once the whitespace
      before and after it is dropped. */
  function Strip(s: string): (r: string)
    ensures |r| <= |s|
    ensures r == [] || (!IsSpace(r[0]) && !IsSpace(r[|r| - 1]))
  {
    var t := TrimStart(s);
    var u := TrimEnd(t);
    assert u != [] ==> u[0] == t[0];
    u
  }

  /** What `strip()` keeps is a contiguous middle part of the string, with only
      whitespace before it and after it. */
  lemma StripKeepsMiddle(s: string)
    ensures var r := Strip(s);
      var a := |s| - |TrimStart(s)|;
      && a + |r| <= |s| && r == s[a..a + |r|]
      && (forall k :: 0 <= k < a ==> IsSpace(s[k]))
      && (forall k :: a + |r| <= k < |s| ==> IsSpace(s[k]))
  {
    StripIsSlice(s);
    TrimStartDropsSpaces(s);
    StripDropsTrailing(s);
  }

  lemma StripIsSlice(s: string)
    ensures var a := |s| - |TrimStart(s)|;
      a + |Strip(s)| <= |s| && Strip(s) == s[a..a + |Strip(s)|]
  {
    var t := TrimStart(s);
    var u := TrimEnd(t);
    PrefixOfSuffix(s, t, u);
    StripIsTrimmed(s);
  }

  lemma StripIsTrimmed(s: string)
    ensures Strip(s) == TrimEnd(TrimStart(s))
  {
  }

  /** A prefix `u` of a suffix `t` of `s` is the slice of `s` that starts where `t`
      starts. */
  lemma PrefixOfSuffix(s: string, t: string, u: string)
    requires |t| <= |s| && t == s[|s| - |t|..]
    requires |u| <= |t| && u == t[..|u|]
    ensures |s| - |t| + |u| <= |s| && u == s[|s| - |t|..|s| - |t| + |u|]
  {
    var a := |s| - |t|;
    forall k | 0 <= k < |u| ensures u[k] == s[a + k] {
      assert u[k] == t[k];
    }
  }

  lemma StripDropsTrailing(s: string)
    ensures forall k :: |s| - |TrimStart(s)| + |Strip(s)| <= k < |s| ==> IsSpace(s[k])
  {
    var t := TrimStart(s);
    var u := TrimEnd(t);
    TrimEndDropsSpaces(t);
    SpacesAfterPrefix(s, t, u);
    StripIsTrimmed(s);
  }

  /** When all of suffix `t` of `s` beyond its prefix `u` is whitespace, so is all of
      `s` beyond the slice that `u` occupies. */
  lemma SpacesAfterPrefix(s: string, t: string, u: string)
    requires |t| <= |s| && t == s[|s| - |t|..]
    requires |u| <= |t|
    requires forall k :: |u| <= k < |t| ==> IsSpace(t[k])
    ensures forall k :: |s| - |t| + |u| <= k < |s| ==> IsSpace(s[k])
  {
    var a := |s| - |t|;
    forall k | a + |u| <= k < |s| ensures IsSpace(s[k]) {
      assert s[k] == t[k - a];
    }
  }

  /** Stripping a string that neither starts nor ends with whitespace leaves it as it is. */
  lemma StripUntrimmed(s: string)
    requires s != [] && !IsSpace(s[0]) && !IsSpace(s[|s| - 1])
    ensures Strip(s) == s
  {
    assert TrimStart(s) == s;
  }

  /** Dart `s.split(sep)` for a one-character separator: the maximal separator-free
      pieces, including empty ones, so that there is always at least one. */
  function Split(s: string, sep: char): (parts: seq<string>)
    ensures |parts| >= 1
    ensures forall k :: 0 <= k < |parts| ==> sep !in parts[k]
    decreases |s|
  {
    if s == [] then [""]
    else
      var init := Split(s[..|s| - 1], sep);
      if s[|s| - 1] == sep then init + [""]
      else init[..|init| - 1] + [init[|init| - 1] + [s[|s| - 1]]]
  }

  /** Dart `parts.join(sep)`: the inverse of `Split`. */
  function Join(parts: seq<string>, sep: char): string
    requires |parts| >= 1
  {
    if |parts| == 1 then parts[0]
    else Join(parts[..|parts| - 1], sep) + [sep] + parts[|parts| - 1]
  }

  /** Extending the last piece by one character extends the join by that character. */
  lemma JoinExtendLast(parts: seq<string>, sep: char, c: char)
    requires |parts| >= 1
    ensures Join(parts[..|parts| - 1] + [parts[|parts| - 1] + [c]], sep) == Join(parts, sep) + [c]
  {
    var ext := parts[..|parts| - 1] + [parts[|parts| - 1] + [c]];
    if |parts| > 1 {
      assert ext[..|ext| - 1] == parts[..|parts| - 1];
    }
  }

  /** Joining the pieces of a split gives back the original string. */
  lemma {:induction false} JoinSplit(s: string, sep: char)
    ensures Join(Split(s, sep), sep) == s
    decreases |s|
  {
    if s != [] {
      var init := Split(s[..|s| - 1], sep);
      JoinSplit(s[..|s| - 1], sep);
      var c := s[|s| - 1];
      assert s == s[..|s| - 1] + [c];
      if c != sep {
        assert Split(s, sep) == init[..|init| - 1] + [init[|init| - 1] + [c]];
        JoinExtendLast(init, sep, c);
      } else {
        var parts := init + [""];
        assert Split(s, sep) == parts;
        assert parts[..|parts| - 1] == init;
        assert Join(parts, sep) == Join(init, sep) + [sep] + "";
      }
    }
  }

  /** Splitting `x + sep + p` where `p` holds no separator adds `p` as a last piece. */
  lemma {:induction false} SplitAppendPiece(x: string, sep: char, p: string)
    requires sep !in p
    ensures Split(x + [sep] + p, sep) == Split(x, sep) + [p]
    decreases |p|
  {
    var s := x + [sep] + p;
    if p == [] {
      assert s[..|s| - 1] == x;
    } else {
      var q := p[..|p| - 1];
      assert s[..|s| - 1] == x + [sep] + q;
      assert sep !in q by {
        forall k | 0 <= k < |q| ensures q[k] != sep { assert q[k] == p[k]; }
      }
      SplitAppendPiece(x, sep, q);
      assert s[|s| - 1] == p[|p| - 1];
      assert q + [p[|p| - 1]] == p;
    }
  }

  /** Splitting a join of separator-free pieces gives back the pieces. */
  lemma {:induction false} SplitJoin(parts: seq<string>, sep: char)
    requires |parts| >= 1
    requires forall k :: 0 <= k < |parts| ==> sep !in parts[k]
    ensures Split(Join(parts, sep), sep) == parts
    decreases |parts|
  {
    if |parts| == 1 {
      SplitWithoutSep(parts[0], sep);
      assert [parts[0]] == parts;
    } else {
      var init, last := LastSplit(parts, sep);
      SplitJoin(init, sep);
      SplitAppendPiece(Join(init, sep), sep, last);
    }
  }

  /** The pieces before the last one and the last one, each free of the separator, and
      the join of all pieces in terms of them. */
  lemma LastSplit(parts: seq<string>, sep: char) returns (init: seq<string>, last: string)
    requires |parts| >= 2
    requires forall k :: 0 <= k < |parts| ==> sep !in parts[k]
    ensures |init| >= 1 && init + [last] == parts
    ensures forall k :: 0 <= k < |init| ==> sep !in init[k]
    ensures sep !in last
    ensures Join(parts, sep) == Join(init, sep) + [sep] + last
  {
    init := parts[..|parts| - 1];
    last := parts[|parts| - 1];
    assert init + [last] == parts;
  }

  /** A string without the separator splits into itself alone. */
  lemma {:induction false} SplitWithoutSep(s: string, sep: char)
    requires sep !in s
    ensures Split(s, sep) == [s]
    decreases |s|
  {
    if s != [] {
      var init := s[..|s| - 1];
      assert sep !in init by {
        forall k | 0 <= k < |init| ensures init[k] != sep { assert init[k] == s[k]; }
      }
      SplitWithoutSep(init, sep);
      assert init + [s[|s| - 1]] == s;
    }
  }
}
