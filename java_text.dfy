/**
 * The Java `String` operations the command layer relies on: `indexOf`,
 * `contains`, `split` with a literal delimiter (none of the command
 * delimiters contains a regular-expression metacharacter; a split on the
 * save-record delimiter `" | "` here is the literal cut, not Java's
 * regular-expression alternation), `split(d, 2)`,
 * `toUpperCase` and `Arrays.toString`.
 */
module JavaText {
  import opened Wrappers

  /** `d` occurs in `s` starting at index `i`. */
  predicate OccursAt(s: string, d: string, i: int) {
    0 <= i && i + |d| <= |s| && s[i..i + |d|] == d
  }

  /** `String.contains`. */
  predicate Contains(s: string, q: string) {
    exists i :: 0 <= i <= |s| - |q| && OccursAt(s, q, i)
  }

  /** The first occurrence of `d` in `s` at or after index `k`. */
  function IndexFrom(s: string, d: string, k: nat): (r: Option<nat>)
    requires k <= |s|
    ensures r.Some? ==> k <= r.value <= |s| && OccursAt(s, d, r.value)
    ensures forall j :: k <= j && (r.None? || j < r.value) ==> !OccursAt(s, d, j)
    decreases |s| - k
  {
    if OccursAt(s, d, k) then Some(k)
    else if k == |s| then None
    else IndexFrom(s, d, k + 1)
  }

  /** `String.indexOf`: the first occurrence of `d` in `s`, if there is one. */
  function IndexOf(s: string, d: string): (r: Option<nat>)
    ensures r.Some? ==> OccursAt(s, d, r.value)
    ensures r.Some? ==> forall j :: 0 <= j < r.value ==> !OccursAt(s, d, j)
    ensures r.None? <==> !Contains(s, d)
  {
    IndexFrom(s, d, 0)
  }

  /** An occurrence with none before it is the one `IndexOf` finds. */
  lemma IndexOfIs(s: string, d: string, m: nat)
    requires OccursAt(s, d, m)
    requires forall j :: 0 <= j < m ==> !OccursAt(s, d, j)
    ensures IndexOf(s, d) == Some(m)
  {
    assert Contains(s, d);
  }

  /** A window that lies inside `s` is found in `s + t` exactly when it is found in `s`. */
  lemma OccursInPrefix(s: string, t: string, d: string, j: int)
    requires 0 <= j && j + |d| <= |s|
    ensures OccursAt(s + t, d, j) <==> OccursAt(s, d, j)
  {
    assert (s + t)[j..j + |d|] == s[j..j + |d|];
  }

  /** An occurrence of `a + q + b` holds an occurrence of `q` after `a`. */
  lemma OccursInside(s: string, a: string, q: string, b: string, i: int)
    requires OccursAt(s, a + q + b, i)
    ensures OccursAt(s, q, i + |a|) && Contains(s, q)
  {
    var w := s[i..i + |a + q + b|];
    assert w == a + q + b;
    var x, y := s[i + |a|..i + |a| + |q|], w[|a|..|a| + |q|];
    forall k | 0 <= k < |q| ensures x[k] == y[k] {
      assert w[|a| + k] == s[i + |a| + k];
    }
    assert x == y;
    assert y == q;
    assert OccursAt(s, q, i + |a|);
  }

  /** A part of a text that does not contain `q` does not contain it either. */
  lemma NotContainsInMiddle(a: string, b: string, c: string, q: string)
    requires !Contains(a + b + c, q)
    ensures !Contains(b, q)
  {
    forall j | 0 <= j <= |b| - |q| ensures !OccursAt(b, q, j) {
      assert (a + b + c)[|a| + j..|a| + j + |q|] == b[j..j + |q|];
      assert !OccursAt(a + b + c, q, |a| + j);
    }
  }

  /** The text before the first occurrence of `d`, or all of `s` when `d` does not occur. */
  function Before(s: string, d: string): (r: string)
    requires |d| > 0
    ensures !Contains(r, d)
    ensures !Contains(s, d) ==> r == s
    ensures |r| <= |s| && r == s[..|r|]
  {
    match IndexOf(s, d)
    case None => s
    case Some(i) =>
      assert !Contains(s[..i], d) by {
        forall j | 0 <= j <= i - |d| ensures !OccursAt(s[..i], d, j) {
          OccursInPrefix(s[..i], s[i..], d, j);
          assert s[..i] + s[i..] == s;
        }
      }
      s[..i]
  }

  /** The text after the first occurrence of `d`. */
  function After(s: string, d: string): (r: string)
    requires |d| > 0 && Contains(s, d)
    ensures s == Before(s, d) + d + r
    ensures |r| < |s|
  {
    var i := IndexOf(s, d).value;
    assert s == s[..i] + s[i..i + |d|] + s[i + |d|..];
    s[i + |d|..]
  }

  /**
   * The pieces between successive leftmost, non-overlapping occurrences of
   * `d`, before Java drops the trailing empty ones.
   */
  function Pieces(s: string, d: string): (ps: seq<string>)
    requires |d| > 0
    ensures |ps| >= 1 && ps[0] == Before(s, d)
    decreases |s|
  {
    if Contains(s, d) then [Before(s, d)] + Pieces(After(s, d), d) else [s]
  }

  /** `ps` joined with `d` between consecutive elements. */
  function Join(ps: seq<string>, d: string): string {
    if |ps| == 0 then ""
    else if |ps| == 1 then ps[0]
    else ps[0] + d + Join(ps[1..], d)
  }

  /** No piece contains the delimiter. */
  lemma {:induction false} PiecesAreFree(s: string, d: string)
    requires |d| > 0
    ensures forall k :: 0 <= k < |Pieces(s, d)| ==> !Contains(Pieces(s, d)[k], d)
    decreases |s|
  {
    if Contains(s, d) {
      PiecesAreFree(After(s, d), d);
      assert Pieces(s, d)[1..] == Pieces(After(s, d), d);
    }
  }

  /**
   * When every element but the last ends at its first meeting with the
   * delimiter and the last has none, cutting the joined text gives the
   * elements back.
   */
  lemma {:induction false} PiecesOfJoin(ps: seq<string>, d: string)
    requires |d| > 0 && |ps| >= 1
    requires forall k :: 0 <= k < |ps| - 1 ==> IndexOf(ps[k] + d, d) == Some(|ps[k]|)
    requires !Contains(ps[|ps| - 1], d)
    ensures Pieces(Join(ps, d), d) == ps
    decreases |ps|
  {
    if |ps| > 1 {
      var p, rest := ps[0], Join(ps[1..], d);
      var s := Join(ps, d);
      assert s == (p + d) + rest;
      assert IndexOf(p + d, d) == Some(|p|);
      forall j | 0 <= j < |p| ensures !OccursAt(s, d, j) {
        OccursInPrefix(p + d, rest, d, j);
      }
      OccursInPrefix(p + d, rest, d, |p|);
      IndexOfIs(s, d, |p|);
      assert Before(s, d) == p;
      assert After(s, d) == rest;
      PiecesOfJoin(ps[1..], d);
    }
  }

  /** The longest prefix of `ps` that does not end with an empty string. */
  function DropTrailingEmpty(ps: seq<string>): (r: seq<string>)
    ensures |r| <= |ps| && r == ps[..|r|]
    ensures r != [] ==> r[|r| - 1] != ""
    ensures forall k :: |r| <= k < |ps| ==> ps[k] == ""
  {
    if ps == [] || ps[|ps| - 1] != "" then ps else DropTrailingEmpty(ps[..|ps| - 1])
  }

  /**
   * `String.split(d)` for a literal delimiter: the pieces with the trailing
   * empty ones removed, or `[s]` when `d` does not occur in `s`.
   */
  function Split(s: string, d: string): (r: seq<string>)
    requires |d| > 0
    ensures !Contains(s, d) ==> r == [s]
    ensures |r| <= |Pieces(s, d)| && r == Pieces(s, d)[..|r|]
    ensures forall k :: |r| <= k < |Pieces(s, d)| ==> Pieces(s, d)[k] == ""
    ensures Contains(s, d) && r != [] ==> r[|r| - 1] != ""
    ensures forall k :: 0 <= k < |r| ==> !Contains(r[k], d)
  {
    var ps := Pieces(s, d);
    PiecesAreFree(s, d);
    if Contains(s, d) then DropTrailingEmpty(ps)
    else
      assert ps == [s];
      [s]
  }

  /** Every piece of a text free of `q` is free of `q`. */
  lemma {:induction false} PiecesAvoid(s: string, d: string, q: string)
    requires |d| > 0 && !Contains(s, q)
    ensures forall k :: 0 <= k < |Pieces(s, d)| ==> !Contains(Pieces(s, d)[k], q)
    decreases |s|
  {
    var b := Before(s, d);
    assert "" + b + s[|b|..] == s;
    NotContainsInMiddle("", b, s[|b|..], q);
    if Contains(s, d) {
      var rest := After(s, d);
      assert b + d + rest + "" == s;
      NotContainsInMiddle(b + d, rest, "", q);
      PiecesAvoid(rest, d, q);
      assert Pieces(s, d) == [b] + Pieces(rest, d);
    }
  }

  /** Every element of a split of a text free of `q` is free of `q`. */
  lemma SplitAvoids(s: string, d: string, q: string, k: nat)
    requires |d| > 0 && !Contains(s, q) && k < |Split(s, d)|
    ensures !Contains(Split(s, d)[k], q)
  {
    PiecesAvoid(s, d, q);
    assert Split(s, d)[k] == Pieces(s, d)[k];
  }

  /** The second element of a split is the text between the first and second delimiters. */
  lemma SplitSecond(s: string, d: string)
    requires |d| > 0 && |Split(s, d)| >= 2
    ensures Contains(s, d) && Split(s, d)[1] == Before(After(s, d), d)
  {
    assert Pieces(s, d)[1] == Pieces(After(s, d), d)[0];
  }

  /** Text with exactly one delimiter and a non-empty tail splits into the parts around it. */
  lemma SplitOneDelimiter(s: string, d: string)
    requires |d| > 0 && Contains(s, d)
    requires !Contains(After(s, d), d) && After(s, d) != ""
    ensures Split(s, d) == [Before(s, d), After(s, d)]
  {
    assert Pieces(s, d) == [Before(s, d), After(s, d)];
  }

  /** `String.split(d, 2)`: one cut at the first occurrence, nothing dropped. */
  function SplitOnce(s: string, d: string): (r: seq<string>)
    requires |d| > 0
    ensures 1 <= |r| <= 2
    ensures |r| == 2 <==> Contains(s, d)
    ensures r[0] == Before(s, d) && !Contains(r[0], d)
    ensures |r| == 2 ==> s == r[0] + d + r[1]
  {
    if Contains(s, d) then [Before(s, d), After(s, d)] else [s]
  }

  /** `Arrays.toString` of an array of strings. */
  function ArrayToString(xs: seq<string>): string {
    "[" + Join(xs, ", ") + "]"
  }

  /** `Character.toUpperCase` on the ASCII letters; every other character is kept. */
  function UpperChar(c: char): char {
    if 'a' <= c <= 'z' then (c as int - 32) as char else c
  }

  /** `String.toUpperCase`: no lower-case ASCII letter survives. */
  function ToUpper(s: string): (r: string)
    ensures |r| == |s|
    ensures forall i :: 0 <= i < |r| ==> !('a' <= r[i] <= 'z')
    ensures forall i :: 0 <= i < |r| && !('a' <= s[i] <= 'z') ==> r[i] == s[i]
  {
    seq(|s|, i requires 0 <= i < |s| => UpperChar(s[i]))
  }
}
