/**
 * Python's `str.split` on a one-character separator, `str.join`, `rfind`,
 * `startswith` and ASCII `lower`, over sequences of any element type, with
 * the facts that tie them together.
 */
module Text {

  /** Index of the first occurrence of `x` in `s`, or -1 (facts in IndexOfSpec). */
  function IndexOf<T(==)>(s: seq<T>, x: T): (r: int)
    ensures -1 <= r < |s|
    ensures r >= 0 ==> s[r] == x
  {
    IndexFrom(s, x, 0)
  }

  function IndexFrom<T(==)>(s: seq<T>, x: T, i: nat): (r: int)
    requires i <= |s|
    ensures -1 <= r < |s|
    ensures r >= 0 ==> i <= r && s[r] == x
    decreases |s| - i
  {
    if i == |s| then -1
    else if s[i] == x then i
    else IndexFrom(s, x, i + 1)
  }

  lemma {:induction false} IndexFromSpec<T>(s: seq<T>, x: T, i: nat)
    requires i <= |s|
    requires forall j :: 0 <= j < i ==> s[j] != x
    ensures var r := IndexFrom(s, x, i);
      && (r == -1 <==> x !in s)
      && forall j :: 0 <= j < r ==> s[j] != x
    decreases |s| - i
  {
    if i < |s| && s[i] != x {
      IndexFromSpec(s, x, i + 1);
    }
  }

  /** `IndexOf` finds the first occurrence, and -1 exactly when there is none. */
  lemma IndexOfSpec<T>(s: seq<T>, x: T)
    ensures var r := IndexOf(s, x);
      && (r == -1 <==> x !in s)
      && forall j :: 0 <= j < r ==> s[j] != x
  {
    IndexFromSpec(s, x, 0);
  }

  /** Index of the last occurrence of `x` in `s`, or -1 (facts in LastIndexOfSpec). */
  function LastIndexOf<T(==)>(s: seq<T>, x: T): (r: int)
    ensures -1 <= r < |s|
    ensures r >= 0 ==> s[r] == x
  {
    LastIndexFrom(s, x, |s|)
  }

  function LastIndexFrom<T(==)>(s: seq<T>, x: T, i: nat): (r: int)
    requires i <= |s|
    ensures -1 <= r < i
    ensures r >= 0 ==> s[r] == x
  {
    if i == 0 then -1
    else if s[i - 1] == x then i - 1
    else LastIndexFrom(s, x, i - 1)
  }

  lemma {:induction false} LastIndexFromSpec<T>(s: seq<T>, x: T, i: nat)
    requires i <= |s|
    requires forall j :: i <= j < |s| ==> s[j] != x
    ensures var r := LastIndexFrom(s, x, i);
      && (r == -1 <==> x !in s)
      && forall j :: r < j < |s| ==> s[j] != x
  {
    if i > 0 && s[i - 1] != x {
      LastIndexFromSpec(s, x, i - 1);
    }
  }

  /** `LastIndexOf` finds the last occurrence, and -1 exactly when there is none. */
  lemma LastIndexOfSpec<T>(s: seq<T>, x: T)
    ensures var r := LastIndexOf(s, x);
      && (r == -1 <==> x !in s)
      && forall j :: r < j < |s| ==> s[j] != x
  {
    LastIndexFromSpec(s, x, |s|);
  }

  /** An occurrence with none after it is the last one. */
  lemma LastIndexUnique<T>(s: seq<T>, x: T, r: int)
    requires 0 <= r < |s| && s[r] == x
    requires forall j :: r < j < |s| ==> s[j] != x
    ensures LastIndexOf(s, x) == r
  {
    LastIndexOfSpec(s, x);
  }

  /** An occurrence with none before it is the first one. */
  lemma IndexUnique<T>(s: seq<T>, x: T, r: int)
    requires 0 <= r < |s| && s[r] == x
    requires forall j :: 0 <= j < r ==> s[j] != x
    ensures IndexOf(s, x) == r
  {
    IndexOfSpec(s, x);
  }

  /** `s.split(sep)`: the pieces between occurrences of `sep`; never empty. */
  function Split<T(==)>(s: seq<T>, sep: T): (pieces: seq<seq<T>>)
    ensures |pieces| >= 1
    decreases |s|
  {
    var k := IndexOf(s, sep);
    if k == -1 then [s] else [s[..k]] + Split(s[k + 1..], sep)
  }

  /** `sep.join(pieces)`. */
  function Join<T>(pieces: seq<seq<T>>, sep: T): (s: seq<T>)
  {
    if pieces == [] then []
    else if |pieces| == 1 then pieces[0]
    else pieces[0] + [sep] + Join(pieces[1..], sep)
  }

  function Last<T>(s: seq<T>): T
    requires s != []
  {
    s[|s| - 1]
  }

  /** No piece of a split holds the separator. */
  lemma {:induction false} SplitPiecesFree<T>(s: seq<T>, sep: T)
    ensures forall i :: 0 <= i < |Split(s, sep)| ==> sep !in Split(s, sep)[i]
    decreases |s|
  {
    var k := IndexOf(s, sep);
    IndexOfSpec(s, sep);
    if k != -1 {
      SplitPiecesFree(s[k + 1..], sep);
      var rest := Split(s[k + 1..], sep);
      assert Split(s, sep) == [s[..k]] + rest;
      forall i | 0 <= i < |Split(s, sep)| ensures sep !in Split(s, sep)[i] {
        if i > 0 { assert Split(s, sep)[i] == rest[i - 1]; }
      }
    }
  }

  /** Joining the pieces of a split gives back the original. */
  lemma {:induction false} JoinSplit<T>(s: seq<T>, sep: T)
    ensures Join(Split(s, sep), sep) == s
    decreases |s|
  {
    var k := IndexOf(s, sep);
    if k != -1 {
      var rest := Split(s[k + 1..], sep);
      JoinSplit(s[k + 1..], sep);
      assert Split(s, sep) == [s[..k]] + rest;
      assert ([s[..k]] + rest)[1..] == rest;
      assert Join(Split(s, sep), sep) == s[..k] + [sep] + Join(rest, sep);
      assert s == s[..k] + [sep] + s[k + 1..];
    } else {
      assert Split(s, sep) == [s];
    }
  }

  /** One step of `Split` at the first separator. */
  lemma SplitCons<T>(s: seq<T>, sep: T, f: int)
    requires 0 <= f < |s| && s[f] == sep
    requires forall j :: 0 <= j < f ==> s[j] != sep
    ensures Split(s, sep) == [s[..f]] + Split(s[f + 1..], sep)
  {
    IndexUnique(s, sep, f);
  }

  /** Without a separator, `Split` gives the whole sequence. */
  lemma SplitNone<T>(s: seq<T>, sep: T)
    requires forall j :: 0 <= j < |s| ==> s[j] != sep
    ensures Split(s, sep) == [s]
  {
    IndexOfSpec(s, sep);
  }

  /** Splitting at the last separator: the last piece is what follows it. */
  lemma {:induction false} SplitAtLast<T>(s: seq<T>, sep: T)
    requires sep in s
    ensures var k := LastIndexOf(s, sep);
      0 <= k && Split(s, sep) == Split(s[..k], sep) + [s[k + 1..]]
    decreases |s|
  {
    var k := LastIndexOf(s, sep);
    LastIndexOfSpec(s, sep);
    SplitAtIndex(s, sep, k);
  }

  /** `SplitAtLast` for a given last occurrence `k`. */
  lemma {:induction false} SplitAtIndex<T>(s: seq<T>, sep: T, k: int)
    requires 0 <= k < |s| && s[k] == sep
    requires forall j :: k < j < |s| ==> s[j] != sep
    ensures Split(s, sep) == Split(s[..k], sep) + [s[k + 1..]]
    decreases |s|, 1
  {
    var f := IndexOf(s, sep);
    IndexOfSpec(s, sep);
    if f == k {
      SplitCons(s, sep, f);
      SplitNone(s[k + 1..], sep);
      SplitNone(s[..k], sep);
    } else {
      SplitAtLaterIndex(s, sep, f, k);
    }
  }

  /** `SplitAtIndex` when the first occurrence `f` comes before the last one `k`. */
  lemma {:induction false} SplitAtLaterIndex<T>(s: seq<T>, sep: T, f: int, k: int)
    requires 0 <= f < k < |s| && s[f] == sep && s[k] == sep
    requires forall j :: 0 <= j < f ==> s[j] != sep
    requires forall j :: k < j < |s| ==> s[j] != sep
    ensures Split(s, sep) == Split(s[..k], sep) + [s[k + 1..]]
    decreases |s|, 0
  {
    var u, w, p, t := s[..k], s[k + 1..], s[..f], s[f + 1..];
    LaterSlices(s, sep, f, k);
    SplitCons(s, sep, f);
    SplitAtIndex(t, sep, k - f - 1);
    SplitCons(u, sep, f);
    SplitTwoWays(Split(s, sep), Split(u, sep), p, Split(t[..k - f - 1], sep), w);
  }

  /** How the pieces around the first and the last separator overlap. */
  lemma LaterSlices<T>(s: seq<T>, sep: T, f: int, k: int)
    requires 0 <= f < k < |s| && s[f] == sep && s[k] == sep
    requires forall j :: 0 <= j < f ==> s[j] != sep
    requires forall j :: k < j < |s| ==> s[j] != sep
    ensures var u, t := s[..k], s[f + 1..];
      && t[k - f - 1] == sep && (forall j :: k - f - 1 < j < |t| ==> t[j] != sep)
      && u[f] == sep && (forall j :: 0 <= j < f ==> u[j] != sep)
      && t[..k - f - 1] == u[f + 1..] && t[k - f..] == s[k + 1..] && u[..f] == s[..f]
  {
    var u, t := s[..k], s[f + 1..];
    forall j | k - f - 1 < j < |t|
      ensures t[j] != sep
    {
      assert t[j] == s[f + 1 + j];
    }
    forall j | 0 <= j < f
      ensures u[j] != sep
    {
      assert u[j] == s[j];
    }
    assert t[..k - f - 1] == u[f + 1..];
  }

  /** The list algebra that closes `SplitAtIndex`. */
  lemma SplitTwoWays<T>(whole: seq<seq<T>>, front: seq<seq<T>>, p: seq<T>, a: seq<seq<T>>, w: seq<T>)
    requires whole == [p] + (a + [w])
    requires front == [p] + a
    ensures whole == front + [w]
  {
  }

  /** The last piece of a split is what follows the last separator. */
  lemma LastPiece<T>(s: seq<T>, sep: T)
    ensures Last(Split(s, sep)) == s[LastIndexOf(s, sep) + 1..]
  {
    IndexOfSpec(s, sep);
    LastIndexOfSpec(s, sep);
    if sep in s {
      SplitAtLast(s, sep);
    } else {
      assert IndexOf(s, sep) == -1;
      assert Split(s, sep) == [s];
      assert LastIndexOf(s, sep) == -1;
      assert s[0..] == s;
    }
  }

  /** The first piece of a split is what comes before the first separator. */
  lemma FirstPiece<T>(s: seq<T>, sep: T)
    ensures IndexOf(s, sep) >= 0 <==> sep in s
    ensures Split(s, sep)[0] == if IndexOf(s, sep) >= 0 then s[..IndexOf(s, sep)] else s
    ensures sep !in Split(s, sep)[0]
  {
    IndexOfSpec(s, sep);
    SplitPiecesFree(s, sep);
  }

  /** `s.startswith(p)`. */
  predicate StartsWith<T(==)>(s: seq<T>, p: seq<T>)
  {
    |p| <= |s| && s[..|p|] == p
  }

  predicate MatchAt<T(==)>(s: seq<T>, pat: seq<T>, i: int)
  {
    0 <= i && i + |pat| <= |s| && s[i..i + |pat|] == pat
  }

  /** `s.rfind(pat)`: the last position where `pat` occurs, or -1. */
  function RFind<T(==)>(s: seq<T>, pat: seq<T>): (r: int)
    ensures -1 <= r <= |s|
    ensures r >= 0 ==> MatchAt(s, pat, r)
    ensures r >= 0 ==> forall j :: r < j <= |s| ==> !MatchAt(s, pat, j)
    ensures r == -1 <==> forall j :: 0 <= j <= |s| ==> !MatchAt(s, pat, j)
  {
    if |pat| > |s| then -1 else RFindFrom(s, pat, |s| - |pat|)
  }

  function RFindFrom<T(==)>(s: seq<T>, pat: seq<T>, i: int): (r: int)
    requires -1 <= i && i + |pat| <= |s|
    requires forall j :: i < j <= |s| ==> !MatchAt(s, pat, j)
    ensures -1 <= r <= i
    ensures r >= 0 ==> MatchAt(s, pat, r)
    ensures forall j :: r < j <= |s| ==> !MatchAt(s, pat, j)
    decreases i + 1
  {
    if i < 0 then -1
    else if s[i..i + |pat|] == pat then i
    else RFindFrom(s, pat, i - 1)
  }

  /** Looking for a one-element pattern is looking for its element. */
  lemma RFindSingle<T>(s: seq<T>, x: T)
    ensures RFind(s, [x]) == LastIndexOf(s, x)
  {
    LastIndexOfSpec(s, x);
    var r := RFind(s, [x]);
    if r >= 0 {
      assert s[r..r + 1] == [s[r]];
      forall j | r < j < |s| ensures s[j] != x {
        assert !MatchAt(s, [x], j);
        assert s[j..j + 1] == [s[j]];
      }
      LastIndexUnique(s, x, r);
    } else if x in s {
      var j := LastIndexOf(s, x);
      assert s[j..j + 1] == [x];
      assert MatchAt(s, [x], j);
    }
  }

  /** ASCII lower-casing of one character. */
  function LowerChar(c: char): char
  {
    if 'A' <= c <= 'Z' then (c as int + 32) as char else c
  }

  /** `s.lower()` on the ASCII letters. */
  function Lower(s: string): (r: string)
    ensures |r| == |s|
    ensures forall i :: 0 <= i < |s| ==> r[i] == LowerChar(s[i])
  {
    if s == [] then [] else [LowerChar(s[0])] + Lower(s[1..])
  }

  /** No element occurs twice. */
  predicate Distinct<T(==)>(s: seq<T>)
  {
    forall i, j :: 0 <= i < j < |s| ==> s[i] != s[j]
  }

  function Elements<T>(s: seq<T>): set<T>
  {
    set x | x in s
  }

  /** `len(set(s)) == len(s)` exactly when no element of `s` repeats. */
  lemma {:induction false} DistinctCard<T>(s: seq<T>)
    ensures |Elements(s)| == |s| <==> Distinct(s)
    ensures |Elements(s)| <= |s|
  {
    if s != [] {
      var t := s[..|s| - 1];
      var x := Last(s);
      DistinctCard(t);
      assert s == t + [x];
      assert Elements(s) == Elements(t) + {x};
      if x in t {
        assert Elements(s) == Elements(t);
        var i :| 0 <= i < |t| && t[i] == x;
        assert s[i] == s[|s| - 1];
      } else {
        assert |Elements(s)| == |Elements(t)| + 1;
        if Distinct(t) {
          forall i, j | 0 <= i < j < |s| ensures s[i] != s[j] {
            if j < |s| - 1 { assert s[i] == t[i] && s[j] == t[j]; }
            else { assert s[i] == t[i]; }
          }
        }
        if Distinct(s) {
          forall i, j | 0 <= i < j < |t| ensures t[i] != t[j] {
            assert s[i] == t[i] && s[j] == t[j];
          }
        }
      }
    }
  }
}
