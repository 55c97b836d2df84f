/**
 * Shared vocabulary of the BackToPure model: optional values, the Python string
 * operations the scripts rely on (split, join, replace, strip, lower, prefix
 * tests), insertion-ordered dictionaries, first-match search and batching.
 */
module Common {

  datatype Option<+T> = None | Some(value: T)
  {
    function GetOr(default: T): T
    {
      if Some? then value else default
    }
  }

  /** Python truthiness of a value that is a string or None. */
  predicate Truthy(s: Option<string>)
  {
    s.Some? && s.value != ""
  }

  // ---------------------------------------------------------------------
  // Prefixes, suffixes, substrings

  predicate StartsWith(s: string, p: string)
  {
    |p| <= |s| && s[..|p|] == p
  }

  predicate EndsWith(s: string, p: string)
  {
    |p| <= |s| && s[|s| - |p|..] == p
  }

  /** Python's `p in s` for strings. */
  predicate Contains(s: string, p: string)
    decreases |s|
  {
    StartsWith(s, p) || (|s| > 0 && Contains(s[1..], p))
  }

  lemma {:induction false} ContainsLength(s: string, p: string)
    requires Contains(s, p)
    ensures |p| <= |s|
    decreases |s|
  {
    if !StartsWith(s, p) {
      ContainsLength(s[1..], p);
    }
  }

  lemma {:induction false} ContainsExtend(a: string, s: string, p: string)
    requires Contains(s, p)
    ensures Contains(a + s, p)
    decreases |a|
  {
    if |a| > 0 {
      ContainsExtend(a[1..], s, p);
      assert (a + s)[1..] == a[1..] + s;
    } else {
      assert a + s == s;
    }
  }

  lemma {:induction false} ContainsPrefixOf(s: string, t: string, p: string)
    requires Contains(s, p)
    ensures Contains(s + t, p)
    decreases |s|
  {
    if StartsWith(s, p) {
      assert (s + t)[..|p|] == s[..|p|];
    } else {
      assert (s + t)[1..] == s[1..] + t;
      ContainsPrefixOf(s[1..], t, p);
    }
  }

  /** An occurrence at a known position. */
  lemma {:induction false} ContainsAt(s: string, i: nat, p: string)
    requires i + |p| <= |s| && s[i..i + |p|] == p
    ensures Contains(s, p)
    decreases i
  {
    if i == 0 {
      assert s[..|p|] == p;
    } else {
      assert s[1..][i - 1..i - 1 + |p|] == p;
      ContainsAt(s[1..], i - 1, p);
    }
  }

  /** A string containing q + p contains p. */
  lemma {:induction false} ContainsTail(s: string, q: string, p: string)
    requires Contains(s, q + p)
    ensures Contains(s, p)
    decreases |s|
  {
    if StartsWith(s, q + p) {
      assert s[|q|..|q| + |p|] == (q + p)[|q|..];
      ContainsAt(s, |q|, p);
    } else {
      ContainsTail(s[1..], q, p);
    }
  }

  // ---------------------------------------------------------------------
  // Character classes

  /** ASCII lower-casing of one character (Python's str.lower restricted to ASCII). */
  function LowerChar(c: char): char
  {
    if 'A' <= c <= 'Z' then (c as int + 32) as char else c
  }

  function Lower(s: string): (r: string)
    ensures |r| == |s|
    ensures forall i :: 0 <= i < |s| ==> r[i] == LowerChar(s[i])
  {
    seq(|s|, i requires 0 <= i < |s| => LowerChar(s[i]))
  }

  predicate IsDigit(c: char)
  {
    '0' <= c <= '9'
  }

  predicate IsAsciiLetter(c: char)
  {
    'a' <= c <= 'z' || 'A' <= c <= 'Z'
  }

  /** The characters Python's str.isspace accepts. */
  predicate IsSpace(c: char)
  {
    c == ' ' || ('\t' <= c <= '\r') || ('\U{1c}' <= c <= '\U{1f}') || c == '\U{85}'
    || c == '\U{a0}' || c == '\U{1680}' || ('\U{2000}' <= c <= '\U{200a}')
    || c == '\U{2028}' || c == '\U{2029}' || c == '\U{202f}' || c == '\U{205f}' || c == '\U{3000}'
  }

  function StripLeft(s: string): (r: string)
    ensures |r| <= |s| && s[|s| - |r|..] == r
    ensures |r| > 0 ==> !IsSpace(r[0])
    ensures forall i :: 0 <= i < |s| - |r| ==> IsSpace(s[i])
    decreases |s|
  {
    if |s| > 0 && IsSpace(s[0]) then StripLeft(s[1..]) else s
  }

  function StripRight(s: string): (r: string)
    ensures |r| <= |s| && s[..|r|] == r
    ensures |r| > 0 ==> !IsSpace(r[|r| - 1])
    ensures forall i :: |r| <= i < |s| ==> IsSpace(s[i])
    decreases |s|
  {
    if |s| > 0 && IsSpace(s[|s| - 1]) then StripRight(s[..|s| - 1]) else s
  }

  /** Python's str.strip() with no argument. */
  function Strip(s: string): string
  {
    StripRight(StripLeft(s))
  }

  // ---------------------------------------------------------------------
  // split / join / replace

  /**
   * Python's `s.split(sep)` for a non-empty separator: occurrences are found
   * left to right without overlap and empty pieces are kept.
   */
  function Split(s: string, sep: string): (r: seq<string>)
    requires |sep| > 0
    ensures |r| >= 1
    decreases |s|
  {
    if |s| < |sep| then [s]
    else if s[..|sep|] == sep then [""] + Split(s[|sep|..], sep)
    else
      var rest := Split(s[1..], sep);
      [[s[0]] + rest[0]] + rest[1..]
  }

  /** Python's `sep.join(parts)`. */
  function Join(parts: seq<string>, sep: string): string
    decreases |parts|
  {
    if |parts| == 0 then ""
    else if |parts| == 1 then parts[0]
    else parts[0] + sep + Join(parts[1..], sep)
  }

  /** Splitting and joining again with the same separator gives back the string. */
  lemma {:induction false} JoinSplit(s: string, sep: string)
    requires |sep| > 0
    ensures Join(Split(s, sep), sep) == s
    decreases |s|
  {
    if |s| < |sep| {
    } else if s[..|sep|] == sep {
      JoinSplit(s[|sep|..], sep);
      JoinSplitAtSep(s, sep);
    } else {
      JoinSplit(s[1..], sep);
      JoinSplitPlain(s, sep);
    }
  }

  /** The step of JoinSplit where the string starts with the separator. */
  lemma JoinSplitAtSep(s: string, sep: string)
    requires 0 < |sep| <= |s| && s[..|sep|] == sep
    requires Join(Split(s[|sep|..], sep), sep) == s[|sep|..]
    ensures Join(Split(s, sep), sep) == s
  {
    SplitAtSepUnfold(s, sep);
    JoinEmptyHead(Split(s[|sep|..], sep), sep);
    assert s == s[..|sep|] + s[|sep|..];
  }

  lemma SplitAtSepUnfold(s: string, sep: string)
    requires 0 < |sep| <= |s| && s[..|sep|] == sep
    ensures Split(s, sep) == [""] + Split(s[|sep|..], sep)
  {
  }

  /** An empty first part leaves just the separator in front of the join. */
  lemma JoinEmptyHead(parts: seq<string>, sep: string)
    requires |parts| > 0
    ensures Join([""] + parts, sep) == sep + Join(parts, sep)
  {
    JoinCons("", parts, sep);
    assert "" + sep == sep;
  }

  /** The step of JoinSplit where the first character is not the start of a separator. */
  lemma JoinSplitPlain(s: string, sep: string)
    requires 0 < |sep| <= |s| && s[..|sep|] != sep
    requires Join(Split(s[1..], sep), sep) == s[1..]
    ensures Join(Split(s, sep), sep) == s
  {
    var rest := Split(s[1..], sep);
    assert Split(s, sep) == [[s[0]] + rest[0]] + rest[1..];
    JoinHeadCons(s[0], rest, sep);
    assert s == [s[0]] + s[1..];
  }

  /** Putting a character in front of the first part puts it in front of the join. */
  lemma JoinHeadCons(c: char, parts: seq<string>, sep: string)
    requires |parts| > 0
    ensures Join([[c] + parts[0]] + parts[1..], sep) == [c] + Join(parts, sep)
  {
    if |parts| > 1 {
      assert parts == [parts[0]] + parts[1..];
      JoinCons(parts[0], parts[1..], sep);
      JoinCons([c] + parts[0], parts[1..], sep);
    }
  }

  /** Joining a list with a head and a non-empty tail. */
  lemma JoinCons(p: string, rest: seq<string>, sep: string)
    requires |rest| > 0
    ensures Join([p] + rest, sep) == p + sep + Join(rest, sep)
  {
    assert ([p] + rest)[1..] == rest;
  }

  /** The first piece of a split is a prefix of the string. */
  lemma SplitFirstIsPrefix(s: string, sep: string)
    requires |sep| > 0
    ensures StartsWith(s, Split(s, sep)[0])
  {
    var r := Split(s, sep);
    JoinSplit(s, sep);
    if |r| > 1 {
      assert Join(r, sep) == r[0] + (sep + Join(r[1..], sep));
    }
  }

  /** No piece of a split still contains the separator. */
  lemma {:induction false} SplitPiecesFree(s: string, sep: string)
    requires |sep| > 0
    ensures forall i :: 0 <= i < |Split(s, sep)| ==> !Contains(Split(s, sep)[i], sep)
    decreases |s|
  {
    var r := Split(s, sep);
    if |s| < |sep| {
      if Contains(s, sep) {
        ContainsLength(s, sep);
      }
    } else if s[..|sep|] == sep {
      SplitPiecesFree(s[|sep|..], sep);
      var rest := Split(s[|sep|..], sep);
      assert r == [""] + rest;
      forall i | 0 <= i < |r|
        ensures !Contains(r[i], sep)
      {
        if i == 0 {
          if Contains("", sep) {
            ContainsLength("", sep);
          }
        } else {
          assert r[i] == rest[i - 1];
        }
      }
    } else {
      var rest := Split(s[1..], sep);
      SplitPiecesFree(s[1..], sep);
      SplitFirstIsPrefix(s[1..], sep);
      forall i | 0 <= i < |r|
        ensures !Contains(r[i], sep)
      {
        if i == 0 {
          var first := [s[0]] + rest[0];
          assert r[0] == first;
          assert first[1..] == rest[0];
        } else {
          assert r[i] == rest[i];
        }
      }
    }
  }

  function Last<T>(s: seq<T>): T
    requires |s| > 0
  {
    s[|s| - 1]
  }

  /**
   * `s.split(sep)[-1]`: what follows the last occurrence of the separator, or
   * the whole string when there is none.
   */
  function AfterLast(s: string, sep: string): (r: string)
    requires |sep| > 0
    ensures EndsWith(s, r) && !Contains(r, sep)
    ensures !Contains(s, sep) ==> r == s
  {
    var parts := Split(s, sep);
    SplitPiecesFree(s, sep);
    JoinSplit(s, sep);
    JoinLastSuffix(parts, sep);
    if !Contains(s, sep) then (NoSepSplitsToItself(s, sep); Last(parts)) else Last(parts)
  }

  lemma {:induction false} JoinLastSuffix(parts: seq<string>, sep: string)
    requires |parts| > 0
    ensures EndsWith(Join(parts, sep), Last(parts))
    decreases |parts|
  {
    if |parts| > 1 {
      JoinLastSuffix(parts[1..], sep);
      assert Last(parts[1..]) == Last(parts);
      var tail := Join(parts[1..], sep);
      assert Join(parts, sep) == (parts[0] + sep) + tail;
    }
  }

  lemma {:induction false} NoSepSplitsToItself(s: string, sep: string)
    requires |sep| > 0 && !Contains(s, sep)
    ensures Split(s, sep) == [s]
    decreases |s|
  {
    if |s| >= |sep| {
      assert s[..|sep|] != sep;
      assert !Contains(s[1..], sep);
      NoSepSplitsToItself(s[1..], sep);
      assert [s[0]] + s[1..] == s;
    }
  }

  /** Splitting on a one-character separator splits at each occurrence of it, so it distributes over concatenation around one. */
  lemma {:induction false} SplitAtChar(a: string, c: char, v: string)
    ensures Split(a + [c] + v, [c]) == Split(a, [c]) + Split(v, [c])
    decreases |a|
  {
    var s := a + [c] + v;
    if |a| == 0 {
      assert s == [c] + v;
      SplitCharAtSep(s, c);
    } else {
      assert s[0] == a[0] && a[1..] + [c] + v == s[1..];
      SplitAtChar(a[1..], c, v);
      if a[0] == c {
        SplitCharAtSep(a, c);
        SplitCharAtSep(s, c);
      } else {
        SplitCharPlain(a, c);
        SplitCharPlain(s, c);
        HeadPartCons(a[0], Split(a[1..], [c]), Split(v, [c]));
      }
    }
  }

  /** Split on a character at a string that starts with it. */
  lemma SplitCharAtSep(s: string, c: char)
    requires |s| > 0 && s[0] == c
    ensures Split(s, [c]) == [""] + Split(s[1..], [c])
  {
    assert s[..1] == [c];
  }

  /** Split on a character at a string that does not start with it. */
  lemma SplitCharPlain(s: string, c: char)
    requires |s| > 0 && s[0] != c
    ensures Split(s, [c]) == [[s[0]] + Split(s[1..], [c])[0]] + Split(s[1..], [c])[1..]
  {
    assert s[..1] != [c];
  }

  /** Extending the first part commutes with appending more parts. */
  lemma HeadPartCons(x: char, ra: seq<string>, rv: seq<string>)
    requires |ra| > 0
    ensures [[x] + ra[0]] + ra[1..] + rv == [[x] + (ra + rv)[0]] + (ra + rv)[1..]
  {
    assert (ra + rv)[0] == ra[0];
    assert (ra + rv)[1..] == ra[1..] + rv;
  }

  /** Splitting on a character that occurs exactly once gives the two sides. */
  lemma SplitTwo(a: string, c: char, b: string)
    requires c !in a && c !in b
    ensures Split(a + [c] + b, [c]) == [a, b]
  {
    SplitAtChar(a, c, b);
    NotContainsChar(a, c);
    NotContainsChar(b, c);
    NoSepSplitsToItself(a, [c]);
    NoSepSplitsToItself(b, [c]);
  }

  /** Splitting on a character that occurs exactly twice gives the three pieces. */
  lemma SplitThree(a: string, c: char, b: string, d: string)
    requires c !in a && c !in b && c !in d
    ensures Split(a + [c] + b + [c] + d, [c]) == [a, b, d]
  {
    assert a + [c] + b + [c] + d == a + [c] + (b + [c] + d);
    SplitAtChar(a, c, b + [c] + d);
    SplitTwo(b, c, d);
    NotContainsChar(a, c);
    NoSepSplitsToItself(a, [c]);
  }

  /** What follows a last separator character that nothing after it repeats. */
  lemma AfterLastOfTail(p: string, c: char, v: string)
    requires !Contains(v, [c])
    ensures AfterLast(p + [c] + v, [c]) == v
  {
    SplitAtChar(p, c, v);
    NoSepSplitsToItself(v, [c]);
  }

  /** A string that starts with a prefix contains whatever the prefix contains. */
  lemma StartsWithContains(s: string, p: string, x: string)
    requires StartsWith(s, p) && Contains(p, x)
    ensures Contains(s, x)
  {
    ContainsPrefixOf(p, s[|p|..], x);
    assert p + s[|p|..] == s;
  }

  /** A character that does not occur is not a substring. */
  lemma {:induction false} NotContainsChar(s: string, c: char)
    requires c !in s
    ensures !Contains(s, [c])
    decreases |s|
  {
    if |s| > 0 {
      assert s[..1] != [c] by { assert s[0] in s; }
      assert forall x :: x in s[1..] ==> x in s;
      NotContainsChar(s[1..], c);
    }
  }

  /** A non-empty string contains its own last character. */
  lemma ContainsLastChar(s: string)
    requires |s| > 0
    ensures Contains(s, [Last(s)])
  {
    var t := [Last(s)];
    assert StartsWith(t, t);
    ContainsExtend(s[..|s| - 1], t, t);
    assert s[..|s| - 1] + t == s;
  }

  /**
   * `s.split(sep)[0]`: what precedes the first occurrence of the separator.
   */
  function BeforeFirst(s: string, sep: string): (r: string)
    requires |sep| > 0
    ensures StartsWith(s, r) && !Contains(r, sep)
    ensures !Contains(s, sep) ==> r == s
  {
    SplitFirstIsPrefix(s, sep);
    SplitPiecesFree(s, sep);
    if !Contains(s, sep) then (NoSepSplitsToItself(s, sep); Split(s, sep)[0]) else Split(s, sep)[0]
  }

  /**
   * `s.replace(pat, "")`: every non-overlapping occurrence of the pattern,
   * found left to right, is removed.
   */
  function RemoveAll(s: string, pat: string): (r: string)
    requires |pat| > 0
    ensures |r| <= |s|
    decreases |s|
  {
    if |s| < |pat| then s
    else if s[..|pat|] == pat then RemoveAll(s[|pat|..], pat)
    else [s[0]] + RemoveAll(s[1..], pat)
  }

  /** Removing a pattern that does not occur changes nothing. */
  lemma {:induction false} RemoveAllAbsent(s: string, pat: string)
    requires |pat| > 0 && !Contains(s, pat)
    ensures RemoveAll(s, pat) == s
    decreases |s|
  {
    if |s| >= |pat| {
      assert !Contains(s[1..], pat);
      RemoveAllAbsent(s[1..], pat);
      assert [s[0]] + s[1..] == s;
    }
  }

  /** After the removal the pattern no longer starts the string (it may reappear further in). */
  lemma {:induction false} RemoveAllPrefix(p: string, s: string)
    requires |p| > 0
    ensures RemoveAll(p + s, p) == RemoveAll(s, p)
  {
    assert (p + s)[..|p|] == p;
    assert (p + s)[|p|..] == s;
  }

  // ---------------------------------------------------------------------
  // Insertion-ordered dictionaries

  /** A Python dict: keys in insertion order, each key once. */
  type Dict<K, V> = seq<(K, V)>

  function Keys<K, V>(d: Dict<K, V>): (r: seq<K>)
    ensures |r| == |d| && forall i :: 0 <= i < |d| ==> r[i] == d[i].0
  {
    seq(|d|, i requires 0 <= i < |d| => d[i].0)
  }

  predicate DistinctKeys<K(==), V>(d: Dict<K, V>)
  {
    forall i, j :: 0 <= i < j < |d| ==> d[i].0 != d[j].0
  }

  function Get<K(==), V>(d: Dict<K, V>, k: K): (r: Option<V>)
    ensures r.Some? <==> k in Keys(d)
    decreases |d|
  {
    if |d| == 0 then None
    else if d[0].0 == k then Some(d[0].1)
    else
      assert Keys(d) == [d[0].0] + Keys(d[1..]);
      Get(d[1..], k)
  }

  /** `d[k] = v`: an existing key keeps its position and takes the new value; a new key goes last. */
  function Put<K(==), V>(d: Dict<K, V>, k: K, v: V): (r: Dict<K, V>)
    ensures Keys(r) == if k in Keys(d) then Keys(d) else Keys(d) + [k]
    decreases |d|
  {
    if |d| == 0 then [(k, v)]
    else if d[0].0 == k then
      KeysCons((k, v), d[1..]);
      KeysCons(d[0], d[1..]);
      [(k, v)] + d[1..]
    else
      var rest := Put(d[1..], k, v);
      KeysCons(d[0], d[1..]);
      KeysCons(d[0], rest);
      [d[0]] + rest
  }

  lemma KeysCons<K, V>(x: (K, V), d: Dict<K, V>)
    ensures Keys([x] + d) == [x.0] + Keys(d)
  {
  }

  lemma {:induction false} PutGet<K, V>(d: Dict<K, V>, k: K, v: V, k2: K)
    ensures Get(Put(d, k, v), k2) == if k2 == k then Some(v) else Get(d, k2)
    decreases |d|
  {
    if |d| > 0 && d[0].0 != k {
      PutGet(d[1..], k, v, k2);
      assert Put(d, k, v)[1..] == Put(d[1..], k, v);
    }
  }

  lemma {:induction false} PutDistinct<K, V>(d: Dict<K, V>, k: K, v: V)
    requires DistinctKeys(d)
    ensures DistinctKeys(Put(d, k, v))
  {
    var r := Put(d, k, v);
    assert Keys(r) == if k in Keys(d) then Keys(d) else Keys(d) + [k];
    forall i, j | 0 <= i < j < |r|
      ensures r[i].0 != r[j].0
    {
      assert Keys(r)[i] == r[i].0 && Keys(r)[j] == r[j].0;
      if k !in Keys(d) && j == |d| {
        assert Keys(d)[i] == d[i].0;
      } else {
        assert Keys(d)[i] == d[i].0 && Keys(d)[j] == d[j].0;
      }
    }
  }

  /** In a dict whose keys are distinct, the value found is the one stored under the key. */
  lemma {:induction false} GetDistinct<K, V>(d: Dict<K, V>, i: nat)
    requires DistinctKeys(d) && i < |d|
    ensures Get(d, d[i].0) == Some(d[i].1)
    decreases i
  {
    if i > 0 {
      assert d[0].0 != d[i].0;
      assert d[1..][i - 1] == d[i];
      GetDistinct(d[1..], i - 1);
    }
  }

  // ---------------------------------------------------------------------
  // Search and batching

  /** Index of the first element satisfying p (the `next(...)` / first-match loops). */
  function FindFirst<T>(s: seq<T>, p: T -> bool): (r: Option<nat>)
    ensures r.Some? ==> r.value < |s| && p(s[r.value]) && forall j :: 0 <= j < r.value ==> !p(s[j])
    ensures r.None? ==> forall j :: 0 <= j < |s| ==> !p(s[j])
    decreases |s|
  {
    if |s| == 0 then None
    else if p(s[0]) then Some(0)
    else
      match FindFirst(s[1..], p)
      case None => None
      case Some(k) => Some(k + 1)
  }

  /** The first match depends only on which elements satisfy the predicate. */
  lemma {:induction false} FindFirstSame<T>(s: seq<T>, t: seq<T>, p: T -> bool)
    requires |s| == |t| && forall j :: 0 <= j < |s| ==> p(s[j]) == p(t[j])
    ensures FindFirst(s, p) == FindFirst(t, p)
    decreases |s|
  {
    if |s| > 0 {
      FindFirstSame(s[1..], t[1..], p);
    }
  }

  /** Appending an element changes the first match only when there was none. */
  lemma {:induction false} FindFirstSnoc<T>(s: seq<T>, x: T, p: T -> bool)
    ensures FindFirst(s + [x], p) ==
      if FindFirst(s, p).Some? then FindFirst(s, p) else if p(x) then Some(|s|) else None
    decreases |s|
  {
    if |s| > 0 {
      assert (s + [x])[1..] == s[1..] + [x];
      FindFirstSnoc(s[1..], x, p);
    } else {
      assert s + [x] == [x];
    }
  }

  /**
   * The values f gives, in order, for the elements it accepts: the shape of
   * every loop that appends one record per element passing a test.
   */
  function FilterMap<T, U>(s: seq<T>, f: T -> Option<U>): seq<U>
    decreases |s|
  {
    if |s| == 0 then []
    else FilterMap(s[..|s| - 1], f) + (if f(Last(s)).Some? then [f(Last(s)).value] else [])
  }

  /** The positions of the accepted elements. */
  function FilterIndices<T, U>(s: seq<T>, f: T -> Option<U>): seq<int>
    decreases |s|
  {
    if |s| == 0 then []
    else FilterIndices(s[..|s| - 1], f) + (if f(Last(s)).Some? then [|s| - 1] else [])
  }

  /**
   * FilterMap keeps exactly the accepted elements, in their order: its k-th
   * value comes from the k-th accepted position, positions strictly increase,
   * and every accepted position occurs.
   */
  lemma {:induction false} FilterMapSpec<T, U>(s: seq<T>, f: T -> Option<U>)
    ensures |FilterMap(s, f)| == |FilterIndices(s, f)|
    ensures forall k :: 0 <= k < |FilterIndices(s, f)| ==>
      0 <= FilterIndices(s, f)[k] < |s| && f(s[FilterIndices(s, f)[k]]) == Some(FilterMap(s, f)[k])
    ensures forall k, l :: 0 <= k < l < |FilterIndices(s, f)| ==> FilterIndices(s, f)[k] < FilterIndices(s, f)[l]
    ensures forall i :: 0 <= i < |s| ==> (f(s[i]).Some? <==> i in FilterIndices(s, f))
    decreases |s|
  {
    if |s| > 0 {
      var front := s[..|s| - 1];
      FilterMapSpec(front, f);
      var idx := FilterIndices(s, f);
      var vals := FilterMap(s, f);
      var idx0 := FilterIndices(front, f);
      var vals0 := FilterMap(front, f);
      assert forall i :: 0 <= i < |front| ==> front[i] == s[i];
      forall k | 0 <= k < |idx|
        ensures 0 <= idx[k] < |s| && f(s[idx[k]]) == Some(vals[k])
      {
        if k < |idx0| {
          assert idx[k] == idx0[k] && vals[k] == vals0[k];
        }
      }
      forall i | 0 <= i < |s|
        ensures f(s[i]).Some? <==> i in idx
      {
        if i < |front| {
          assert i in idx0 <==> i in idx;
        }
      }
    }
  }

  /** The loop building a FilterMap one element at a time. */
  lemma FilterMapSnoc<T, U>(s: seq<T>, i: nat, f: T -> Option<U>)
    requires i < |s|
    ensures FilterMap(s[..i + 1], f) == FilterMap(s[..i], f) + (if f(s[i]).Some? then [f(s[i]).value] else [])
  {
    assert s[..i + 1][..i] == s[..i];
  }

  /**
   * The distinct elements in order of first occurrence (the model's stand-in
   * for `list(set(xs))`, whose order Python leaves unspecified).
   */
  function Dedupe<T(==,!new)>(s: seq<T>): (r: seq<T>)
    ensures forall x :: x in r <==> x in s
    ensures forall i, j :: 0 <= i < j < |r| ==> r[i] != r[j]
    decreases |s|
  {
    if |s| == 0 then []
    else
      var d := Dedupe(s[..|s| - 1]);
      assert s == s[..|s| - 1] + [Last(s)];
      if Last(s) in d then d else d + [Last(s)]
  }

  /** Adding one element to a deduplicated list: it is appended only if new. */
  lemma DedupeSnoc<T(!new)>(s: seq<T>, x: T)
    ensures Dedupe(s + [x]) == if x in Dedupe(s) then Dedupe(s) else Dedupe(s) + [x]
  {
    assert (s + [x])[..|s|] == s;
  }

  /** Extending a prefix of the appended list by one element. */
  lemma AppendPrefixSnoc<T>(a: seq<T>, b: seq<T>, j: nat)
    requires j < |b|
    ensures a + b[..j + 1] == (a + b[..j]) + [b[j]]
  {
    assert b[..j + 1] == b[..j] + [b[j]];
  }

  /**
   * `acc.update(xs)` on a set kept as its elements in order of first
   * insertion: the result is as if base and xs had been inserted one by one.
   */
  method SetUpdate<T(==,!new)>(acc: seq<T>, ghost base: seq<T>, xs: seq<T>) returns (r: seq<T>)
    requires acc == Dedupe(base)
    ensures r == Dedupe(base + xs)
  {
    r := acc;
    var j := 0;
    assert base + xs[..0] == base;
    while j < |xs|
      invariant 0 <= j <= |xs|
      invariant r == Dedupe(base + xs[..j])
    {
      DedupeSnoc(base + xs[..j], xs[j]);
      AppendPrefixSnoc(base, xs, j);
      if xs[j] !in r {
        r := r + [xs[j]];
      }
      j := j + 1;
    }
    assert xs[..j] == xs;
  }

  function Flatten<T>(ss: seq<seq<T>>): seq<T>
    decreases |ss|
  {
    if |ss| == 0 then [] else ss[0] + Flatten(ss[1..])
  }

  lemma {:induction false} FlattenAppend<T>(ss: seq<seq<T>>, t: seq<seq<T>>)
    ensures Flatten(ss + t) == Flatten(ss) + Flatten(t)
    decreases |ss|
  {
    if |ss| > 0 {
      assert (ss + t)[1..] == ss[1..] + t;
      FlattenAppend(ss[1..], t);
    } else {
      assert ss + t == t;
    }
  }

  /** Every element of every part is in the concatenation. */
  lemma {:induction false} FlattenContains<T>(ss: seq<seq<T>>, i: nat, j: nat)
    requires i < |ss| && j < |ss[i]|
    ensures ss[i][j] in Flatten(ss)
    decreases i
  {
    if i > 0 {
      FlattenContains(ss[1..], i - 1, j);
      assert ss[1..][i - 1] == ss[i];
    }
  }

  /** The batches `lst[i:i + n]` for i in range(0, len(lst), n). */
  function Chunks<T>(s: seq<T>, n: nat): seq<seq<T>>
    requires n > 0
    decreases |s|
  {
    if |s| == 0 then []
    else if |s| <= n then [s]
    else [s[..n]] + Chunks(s[n..], n)
  }

  /** The batches of a suffix: the first batch, then the batches after it. */
  lemma ChunksFrom<T>(s: seq<T>, offset: nat, n: nat)
    requires n > 0 && offset < |s|
    ensures var end := if offset + n < |s| then offset + n else |s|;
      Chunks(s[offset..], n) == [s[offset..end]] + Chunks(s[end..], n)
  {
    var rest := s[offset..];
    if |rest| > n {
      assert rest[..n] == s[offset..offset + n];
      assert rest[n..] == s[offset + n..];
    } else {
      assert rest == s[offset..|s|];
      assert s[|s|..] == [];
    }
  }

  /** Batching loses and reorders nothing. */
  lemma {:induction false} ChunksFlatten<T>(s: seq<T>, n: nat)
    requires n > 0
    ensures Flatten(Chunks(s, n)) == s
    decreases |s|
  {
    if |s| > n {
      ChunksFlatten(s[n..], n);
      assert Chunks(s, n)[1..] == Chunks(s[n..], n);
      assert s == s[..n] + s[n..];
    } else if |s| > 0 {
      assert Flatten([s]) == s + Flatten([s][1..]);
    }
  }

  /** Every batch is full except possibly the last, and none is empty. */
  lemma {:induction false} ChunksSizes<T>(s: seq<T>, n: nat)
    requires n > 0
    ensures forall i :: 0 <= i < |Chunks(s, n)| ==> 0 < |Chunks(s, n)[i]| <= n
    ensures forall i :: 0 <= i < |Chunks(s, n)| - 1 ==> |Chunks(s, n)[i]| == n
    decreases |s|
  {
    if |s| > n {
      ChunksSizes(s[n..], n);
      var c := Chunks(s, n);
      assert c[1..] == Chunks(s[n..], n);
      forall i | 0 < i < |c|
        ensures 0 < |c[i]| <= n && (i < |c| - 1 ==> |c[i]| == n)
      {
        assert c[i] == c[1..][i - 1];
      }
    }
  }

  /**
   * The generator loop `for i in range(0, len(lst), n): yield lst[i:i + n]`.
   */
  method SplitIntoBatches<T>(s: seq<T>, n: nat) returns (batches: seq<seq<T>>)
    requires n > 0
    ensures batches == Chunks(s, n)
    ensures Flatten(batches) == s
    ensures forall i :: 0 <= i < |batches| ==> 0 < |batches[i]| <= n
  {
    batches := [];
    var offset := 0;
    while offset < |s|
      invariant offset <= |s|
      invariant batches + Chunks(s[offset..], n) == Chunks(s, n)
      decreases |s| - offset
    {
      var end := if offset + n < |s| then offset + n else |s|;
      ghost var rest := s[offset..];
      assert Chunks(rest, n) == [s[offset..end]] + Chunks(s[end..], n) by {
        if |rest| > n {
          assert rest[..n] == s[offset..end];
          assert rest[n..] == s[end..];
        } else {
          assert rest == s[offset..end];
          assert s[end..] == [];
        }
      }
      batches := batches + [s[offset..end]];
      offset := end;
    }
    assert s[offset..] == [];
    ChunksFlatten(s, n);
    ChunksSizes(s, n);
  }

  /** Batch k is the slice starting at offset k * n: the loop `for offset in range(0, len(s), n)`. */
  lemma {:induction false} ChunksAt<T>(s: seq<T>, n: nat, k: nat)
    requires n > 0 && k < |Chunks(s, n)|
    ensures k * n < |s|
    ensures Chunks(s, n)[k] == s[k * n .. if k * n + n < |s| then k * n + n else |s|]
    decreases |s|
  {
    if k > 0 {
      assert |s| > n;
      var c := Chunks(s, n);
      assert c[1..] == Chunks(s[n..], n);
      assert c[k] == Chunks(s[n..], n)[k - 1];
      ChunksAt(s[n..], n, k - 1);
      assert (k - 1) * n + n == k * n;
    }
  }

  /** Membership in a concatenation. */
  lemma {:induction false} FlattenMember<T>(ss: seq<seq<T>>, x: T)
    ensures x in Flatten(ss) <==> exists i :: 0 <= i < |ss| && x in ss[i]
    decreases |ss|
  {
    if |ss| > 0 {
      FlattenMember(ss[1..], x);
      if x in Flatten(ss[1..]) {
        var i :| 0 <= i < |ss[1..]| && x in ss[1..][i];
        assert x in ss[i + 1];
      }
      forall i | 0 < i < |ss| && x in ss[i]
        ensures x in Flatten(ss[1..])
      {
        assert ss[1..][i - 1] == ss[i];
      }
    }
  }

  /** Storing twice under one key leaves the second value, in the first position. */
  lemma {:induction false} PutPut<K, V>(d: Dict<K, V>, k: K, v1: V, v2: V)
    ensures Put(Put(d, k, v1), k, v2) == Put(d, k, v2)
    decreases |d|
  {
    if |d| > 0 && d[0].0 != k {
      PutPut(d[1..], k, v1, v2);
      var p := Put(d, k, v1);
      assert p[0] == d[0] && p[1..] == Put(d[1..], k, v1);
    }
  }

  /** Storing the value a key already has leaves the dict as it was. */
  lemma {:induction false} PutSame<K, V>(d: Dict<K, V>, k: K, v: V)
    requires Get(d, k) == Some(v)
    ensures Put(d, k, v) == d
    decreases |d|
  {
    if |d| > 0 && d[0].0 != k {
      PutSame(d[1..], k, v);
    }
  }

  /** Looking up in a dict with one more entry at the end. */
  lemma {:induction false} GetSnoc<K, V>(d: Dict<K, V>, k: K, v: V, k2: K)
    ensures Get(d + [(k, v)], k2) ==
      if k2 in Keys(d) then Get(d, k2) else if k2 == k then Some(v) else None
    decreases |d|
  {
    if |d| > 0 {
      assert (d + [(k, v)])[1..] == d[1..] + [(k, v)];
      assert Keys(d) == [d[0].0] + Keys(d[1..]);
      GetSnoc(d[1..], k, v, k2);
    } else {
      assert Keys(d) == [];
    }
  }

  /** A set has more than one element exactly when it holds two different values. */
  lemma DedupeTwo<T(!new)>(s: seq<T>)
    ensures |Dedupe(s)| > 1 <==> exists a, b :: a in s && b in s && a != b
  {
    var d := Dedupe(s);
    if |d| > 1 {
      assert d[0] in s && d[1] in s && d[0] != d[1];
    }
    forall a, b | a in s && b in s && a != b
      ensures |d| > 1
    {
      assert a in d && b in d;
    }
  }
}
