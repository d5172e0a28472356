/**
 * String helpers shared by every component: ASCII case folding, substring
 * search, Python's `str.split(sep)[0]`, `sep.join(parts)`, `str.split(ch)`
 * and slicing `s[:n]`.  Strings are `seq<char>`; case folding is ASCII only.
 */
module Text {

  function LowerChar(c: char): char {
    if 'A' <= c <= 'Z' then (c as int + 32) as char else c
  }

  function UpperChar(c: char): char {
    if 'a' <= c <= 'z' then (c as int - 32) as char else c
  }

  /** `s.lower()` restricted to ASCII letters. */
  function Lower(s: string): string {
    seq(|s|, i requires 0 <= i < |s| => LowerChar(s[i]))
  }

  /** `s.upper()` restricted to ASCII letters. */
  function Upper(s: string): string {
    seq(|s|, i requires 0 <= i < |s| => UpperChar(s[i]))
  }

  /** `sub` occurs in `s` starting at index `i`. */
  predicate OccursAt(s: string, i: int, sub: string) {
    0 <= i && i + |sub| <= |s| && s[i..i + |sub|] == sub
  }

  /** Python's `sub in s`. */
  predicate Contains(s: string, sub: string) {
    exists i :: 0 <= i <= |s| - |sub| && OccursAt(s, i, sub)
  }

  predicate StartsWith(s: string, prefix: string) {
    |prefix| <= |s| && s[..|prefix|] == prefix
  }

  predicate EndsWith(s: string, suffix: string) {
    |suffix| <= |s| && s[|s| - |suffix|..] == suffix
  }

  /** Python's `s[:n]`. */
  function Take(s: string, n: nat): string {
    if |s| <= n then s else s[..n]
  }

  /**
   * `s.split(sep)[0] if sep in s else s`: the text before the leftmost
   * occurrence of `sep`, or all of `s` when there is none.
   */
  function BeforeFirst(s: string, sep: string): (r: string)
    requires sep != []
    ensures StartsWith(s, r)
    decreases |s|
  {
    if |s| < |sep| then s
    else if s[..|sep|] == sep then ""
    else [s[0]] + BeforeFirst(s[1..], sep)
  }

  /** `sep.join(parts)`. */
  function Join(parts: seq<string>, sep: string): string
    decreases |parts|
  {
    if |parts| == 0 then ""
    else if |parts| == 1 then parts[0]
    else parts[0] + sep + Join(parts[1..], sep)
  }

  /** `s.split(d)` for a one-character separator `d`. */
  function Split(s: string, d: char): (parts: seq<string>)
    ensures |parts| >= 1
    decreases |s|
  {
    if s == [] then [""]
    else
      var rest := Split(s[1..], d);
      if s[0] == d then [""] + rest else [[s[0]] + rest[0]] + rest[1..]
  }

  /** No string occurs twice. */
  predicate Distinct(xs: seq<string>) {
    forall i, j :: 0 <= i < j < |xs| ==> xs[i] != xs[j]
  }

  // ---------------------------------------------------------------------
  // Facts about the helpers
  // ---------------------------------------------------------------------

  /** A character of `sub` that never appears in `s` rules out `sub in s`. */
  lemma AbsentCharNotContained(s: string, sub: string, k: nat)
    requires k < |sub| && sub[k] !in s
    ensures !Contains(s, sub)
  {
  }

  /** An occurrence inside a prefix is an occurrence in the whole string. */
  lemma OccursInPrefix(s: string, r: string, i: int, sub: string)
    requires StartsWith(s, r) && OccursAt(r, i, sub)
    ensures OccursAt(s, i, sub)
  {
    assert s[i..i + |sub|] == r[i..i + |sub|];
  }

  /** Past a non-match at the head, `sub in s` is decided by the tail. */
  lemma ContainsTail(s: string, sub: string)
    requires sub != [] && |s| >= |sub| && s[..|sub|] != sub
    ensures Contains(s, sub) <==> Contains(s[1..], sub)
  {
    var t := s[1..];
    if Contains(s, sub) {
      var j :| 0 <= j <= |s| - |sub| && OccursAt(s, j, sub);
      assert j != 0 by { assert s[0..|sub|] == s[..|sub|]; }
      assert t[j - 1..j - 1 + |sub|] == s[j..j + |sub|];
      assert OccursAt(t, j - 1, sub);
    }
    if Contains(t, sub) {
      var j :| 0 <= j <= |t| - |sub| && OccursAt(t, j, sub);
      assert s[j + 1..j + 1 + |sub|] == t[j..j + |sub|];
      assert OccursAt(s, j + 1, sub);
    }
  }

  /** An occurrence past the first character is an occurrence in the tail. */
  lemma OccursShift(s: string, i: int, sub: string)
    requires 1 <= i && i + |sub| <= |s|
    ensures OccursAt(s, i, sub) <==> OccursAt(s[1..], i - 1, sub)
  {
    var here, there := s[i..i + |sub|], s[1..][i - 1..i - 1 + |sub|];
    forall m | 0 <= m < |here| ensures here[m] == there[m] {
      assert here[m] == s[i + m] && there[m] == s[1..][i - 1 + m];
    }
    assert here == there;
  }

  /** No occurrence of `sep` starts inside `BeforeFirst(s, sep)`. */
  lemma {:induction false} BeforeFirstNoEarlier(s: string, sep: string)
    requires sep != []
    ensures forall i :: 0 <= i < |BeforeFirst(s, sep)| ==> !OccursAt(s, i, sep)
    decreases |s|
  {
    if |s| >= |sep| && s[..|sep|] != sep {
      var t := s[1..];
      BeforeFirstNoEarlier(t, sep);
      assert BeforeFirst(s, sep) == [s[0]] + BeforeFirst(t, sep);
      forall i | 0 <= i < |BeforeFirst(s, sep)| ensures !OccursAt(s, i, sep) {
        if i == 0 {
          assert s[0..|sep|] == s[..|sep|];
        } else if i + |sep| <= |s| {
          assert !OccursAt(t, i - 1, sep);
          OccursShift(s, i, sep);
        }
      }
    }
  }

  /** `BeforeFirst` stops exactly at an occurrence, or keeps everything. */
  lemma {:induction false} BeforeFirstStops(s: string, sep: string)
    requires sep != []
    ensures Contains(s, sep) ==> OccursAt(s, |BeforeFirst(s, sep)|, sep)
    ensures !Contains(s, sep) ==> BeforeFirst(s, sep) == s
    decreases |s|
  {
    if |s| < |sep| {
    } else if s[..|sep|] == sep {
      assert OccursAt(s, 0, sep);
    } else {
      var t := s[1..];
      BeforeFirstStops(t, sep);
      ContainsTail(s, sep);
      var r' := BeforeFirst(t, sep);
      if Contains(s, sep) {
        assert OccursAt(t, |r'|, sep);
        OccursShift(s, |r'| + 1, sep);
      } else {
        assert s == [s[0]] + t;
      }
    }
  }

  /**
   * What `BeforeFirst` cuts: when `sep` occurs, the result is followed by
   * `sep` in `s` and no earlier occurrence starts inside the result, so the
   * result itself never contains `sep`; when it does not occur, nothing is cut.
   */
  lemma BeforeFirstCut(s: string, sep: string)
    requires sep != []
    ensures var r := BeforeFirst(s, sep);
      && (Contains(s, sep) ==> OccursAt(s, |r|, sep))
      && !Contains(r, sep)
      && (!Contains(s, sep) ==> r == s)
  {
    var r := BeforeFirst(s, sep);
    BeforeFirstStops(s, sep);
    BeforeFirstNoEarlier(s, sep);
    if Contains(r, sep) {
      var j :| 0 <= j <= |r| - |sep| && OccursAt(r, j, sep);
      OccursInPrefix(s, r, j, sep);
    }
  }

  lemma JoinCons(p: string, rest: seq<string>, sep: string)
    requires |rest| >= 1
    ensures Join([p] + rest, sep) == p + sep + Join(rest, sep)
  {
    assert ([p] + rest)[1..] == rest;
  }

  /** Joining parts whose first part gained a leading character. */
  lemma JoinPrependChar(c: char, parts: seq<string>, sep: string)
    requires |parts| >= 1
    ensures Join([[c] + parts[0]] + parts[1..], sep) == [c] + Join(parts, sep)
  {
    if |parts| > 1 {
      JoinCons([c] + parts[0], parts[1..], sep);
      JoinCons(parts[0], parts[1..], sep);
      assert [parts[0]] + parts[1..] == parts;
    }
  }

  /** Splitting on `d` and joining back with `d` gives the original text. */
  lemma {:induction false} JoinSplit(s: string, d: char)
    ensures Join(Split(s, d), [d]) == s
    decreases |s|
  {
    if s != [] {
      var rest := Split(s[1..], d);
      JoinSplit(s[1..], d);
      if s[0] == d {
        assert Split(s, d) == [""] + rest;
        JoinCons("", rest, [d]);
      } else {
        assert Split(s, d) == [[s[0]] + rest[0]] + rest[1..];
        JoinPrependChar(s[0], rest, [d]);
      }
      assert s == [s[0]] + s[1..];
    }
  }

  /** No part of `Split(s, d)` contains the separator. */
  lemma {:induction false} SplitPartsFree(s: string, d: char)
    ensures forall k :: 0 <= k < |Split(s, d)| ==> d !in Split(s, d)[k]
    decreases |s|
  {
    if s != [] {
      SplitPartsFree(s[1..], d);
    }
  }

  /** A leading field without the separator splits off as the first part. */
  lemma {:induction false} SplitAfter(a: string, d: char, rest: string)
    requires d !in a
    ensures Split(a + [d] + rest, d) == [a] + Split(rest, d)
    decreases |a|
  {
    var s := a + [d] + rest;
    if a == [] {
      assert s[0] == d && s[1..] == rest;
    } else {
      SplitAfter(a[1..], d, rest);
      assert s[0] == a[0] && s[1..] == a[1..] + [d] + rest;
      assert [a[0]] + a[1..] == a;
    }
  }

  /** A text without capital letters is its own case folding. */
  lemma LowerWithoutCapitals(s: string)
    requires forall j :: 0 <= j < |s| ==> !('A' <= s[j] <= 'Z')
    ensures Lower(s) == s
  {
  }

  /** Case folding twice is case folding once. */
  lemma LowerIdempotent(s: string)
    ensures Lower(Lower(s)) == Lower(s)
  {
  }

  /** Case folding distributes over concatenation. */
  lemma LowerAppend(a: string, b: string)
    ensures Lower(a + b) == Lower(a) + Lower(b)
  {
  }

  /** Two characters agree after upper-casing exactly when they agree after lower-casing. */
  lemma FoldedChar(a: char, b: char)
    ensures UpperChar(a) == UpperChar(b) <==> LowerChar(a) == LowerChar(b)
  {
  }

  /** An upper-cased occurrence is a lower-cased occurrence at the same place, and back. */
  lemma FoldedOccurs(s: string, w: string, i: int)
    requires 0 <= i && i + |w| <= |s|
    ensures OccursAt(Upper(s), i, Upper(w)) <==> OccursAt(Lower(s), i, Lower(w))
  {
    var us, uw := Upper(s)[i..i + |w|], Upper(w);
    var ls, lw := Lower(s)[i..i + |w|], Lower(w);
    forall j | 0 <= j < |w| ensures us[j] == uw[j] <==> ls[j] == lw[j] {
      FoldedChar(s[i + j], w[j]);
    }
    if us == uw {
      forall j | 0 <= j < |w| ensures ls[j] == lw[j] {
        assert us[j] == uw[j];
      }
      assert ls == lw;
    }
    if ls == lw {
      forall j | 0 <= j < |w| ensures us[j] == uw[j] {
        assert ls[j] == lw[j];
      }
      assert us == uw;
    }
  }

  /**
   * Searching the upper-cased text for an upper-cased word and searching the
   * lower-cased text for the lower-cased word find the same occurrences.
   */
  lemma FoldedContains(s: string, w: string)
    ensures Contains(Upper(s), Upper(w)) <==> Contains(Lower(s), Lower(w))
  {
    if Contains(Upper(s), Upper(w)) {
      var i :| 0 <= i <= |Upper(s)| - |Upper(w)| && OccursAt(Upper(s), i, Upper(w));
      FoldedOccurs(s, w, i);
    }
    if Contains(Lower(s), Lower(w)) {
      var i :| 0 <= i <= |Lower(s)| - |Lower(w)| && OccursAt(Lower(s), i, Lower(w));
      FoldedOccurs(s, w, i);
    }
  }

  /** Lower-casing forgets any earlier upper-casing. */
  lemma LowerOfUpper(s: string)
    ensures Lower(Upper(s)) == Lower(s)
  {
  }
}

/** The conventional Option datatype. */
module Wrappers {
  datatype Option<+T> = None | Some(value: T) {
    function GetOr(default: T): T {
      match this
      case Some(v) => v
      case None => default
    }
  }
}
