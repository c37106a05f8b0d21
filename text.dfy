/** String helpers shared by the search, the chip sort and the renderers. */
module Text {

  /** ASCII lower-casing of one character (`String.prototype.toLowerCase` restricted to A-Z). */
  function LowerChar(c: char): char
  {
    if 'A' <= c <= 'Z' then (c as int + 32) as char else c
  }

  /**
   * `s.toLowerCase()`, character by character: no capital A-Z is left, each capital becomes its
   * small letter in place, and every other character is kept.
   */
  function Lower(s: string): (r: string)
    ensures |r| == |s|
    ensures forall i :: 0 <= i < |r| ==> !('A' <= r[i] <= 'Z')
    ensures forall i :: 0 <= i < |s| && 'A' <= s[i] <= 'Z' ==> r[i] as int - s[i] as int == 'a' as int - 'A' as int
    ensures forall i :: 0 <= i < |s| && !('A' <= s[i] <= 'Z') ==> r[i] == s[i]
  {
    seq(|s|, i requires 0 <= i < |s| => LowerChar(s[i]))
  }

  /** Lower-casing twice is lower-casing once. */
  lemma LowerIdempotent(s: string)
    ensures Lower(Lower(s)) == Lower(s)
  {
    assert forall i :: 0 <= i < |s| ==> LowerChar(LowerChar(s[i])) == LowerChar(s[i]);
  }

  predicate StartsWith(t: string, p: string)
  {
    |p| <= |t| && t[..|p|] == p
  }

  predicate OccursAt(q: string, t: string, i: int)
  {
    0 <= i && i + |q| <= |t| && t[i..i + |q|] == q
  }

  /** `t.includes(q)`: `q` is a contiguous piece of `t`. */
  predicate Includes(t: string, q: string)
  {
    exists i :: 0 <= i <= |t| - |q| && OccursAt(q, t, i)
  }

  /** The empty string is included in every string, so a `!q ||` guard before `includes` changes nothing. */
  lemma EmptyIncluded(t: string)
    ensures Includes(t, "")
  {
    assert OccursAt("", t, 0);
  }

  /** Inclusion is transitive: a piece of a piece is a piece. */
  lemma IncludesTransitive(a: string, b: string, c: string)
    requires Includes(b, a) && Includes(c, b)
    ensures Includes(c, a)
  {
    var i :| 0 <= i <= |b| - |a| && OccursAt(a, b, i);
    var j :| 0 <= j <= |c| - |b| && OccursAt(b, c, j);
    assert forall n :: 0 <= n < |a| ==> c[j + i + n] == b[i + n] == a[n];
    assert OccursAt(a, c, j + i);
  }

  /** Lower-casing both sides keeps an inclusion. */
  lemma LowerIncludes(t: string, q: string)
    requires Includes(t, q)
    ensures Includes(Lower(t), Lower(q))
  {
    var i :| 0 <= i <= |t| - |q| && OccursAt(q, t, i);
    assert Lower(t)[i..i + |q|] == Lower(q);
    assert OccursAt(Lower(q), Lower(t), i);
  }

  /** `xs.join(sep)`. */
  function Join(xs: seq<string>, sep: string): string
  {
    if xs == [] then "" else if |xs| == 1 then xs[0] else xs[0] + sep + Join(xs[1..], sep)
  }

  /** A join of non-empty pieces is empty exactly when there are no pieces. */
  lemma {:induction false} JoinEmptyIff(xs: seq<string>, sep: string)
    requires forall i :: 0 <= i < |xs| ==> xs[i] != ""
    ensures Join(xs, sep) == "" <==> xs == []
  {
    if |xs| > 1 {
      assert |Join(xs, sep)| >= |xs[0]| > 0;
    }
  }

  /** Appending a piece appends it, after one separator when there was already a piece. */
  lemma {:induction false} JoinSnoc(xs: seq<string>, x: string, sep: string)
    ensures Join(xs + [x], sep) == if xs == [] then x else Join(xs, sep) + sep + x
  {
    if xs == [] {
      assert xs + [x] == [x];
    } else if |xs| == 1 {
      assert (xs + [x])[1..] == [x];
    } else {
      assert (xs + [x])[0] == xs[0] && (xs + [x])[1..] == xs[1..] + [x];
      JoinSnoc(xs[1..], x, sep);
    }
  }

  /** With no separator, appending a piece appends it. */
  lemma JoinSnocPlain(xs: seq<string>, x: string)
    ensures Join(xs + [x], "") == Join(xs, "") + x
  {
    JoinSnoc(xs, x, "");
    if xs == [] {
      assert Join(xs, "") + x == x;
    } else {
      assert Join(xs, "") + "" + x == Join(xs, "") + x;
    }
  }

  /** Every piece occurs in the join, in list order. */
  lemma {:induction false} JoinContains(xs: seq<string>, sep: string, k: nat)
    requires k < |xs|
    ensures Includes(Join(xs, sep), xs[k])
  {
    if |xs| == 1 {
      assert OccursAt(xs[0], Join(xs, sep), 0);
    } else if k == 0 {
      assert OccursAt(xs[0], Join(xs, sep), 0);
    } else {
      JoinContains(xs[1..], sep, k - 1);
      var rest := Join(xs[1..], sep);
      var i :| 0 <= i <= |rest| - |xs[k]| && OccursAt(xs[k], rest, i);
      var off := |xs[0] + sep|;
      assert Join(xs, sep) == xs[0] + sep + rest;
      assert Join(xs, sep)[off + i..off + i + |xs[k]|] == rest[i..i + |xs[k]|];
      assert OccursAt(xs[k], Join(xs, sep), off + i);
    }
  }

  /**
   * Lexicographic order on strings by character code. JavaScript's `<` and the default `sort()`
   * compare UTF-16 code units; this order compares code points, which agrees with it on every
   * string without characters above U+FFFF.
   */
  predicate LexLe(a: string, b: string)
  {
    a == [] || (b != [] && (a[0] < b[0] || (a[0] == b[0] && LexLe(a[1..], b[1..]))))
  }

  lemma {:induction false} LexLeTotal(a: string, b: string)
    ensures LexLe(a, b) || LexLe(b, a)
  {
    if a != [] && b != [] && a[0] == b[0] {
      LexLeTotal(a[1..], b[1..]);
    }
  }

  lemma {:induction false} LexLeTransitive(a: string, b: string, c: string)
    requires LexLe(a, b) && LexLe(b, c)
    ensures LexLe(a, c)
  {
    if a != [] && b != [] && c != [] && a[0] == b[0] && b[0] == c[0] {
      LexLeTransitive(a[1..], b[1..], c[1..]);
    }
  }

  lemma {:induction false} LexLeAntisymmetric(a: string, b: string)
    requires LexLe(a, b) && LexLe(b, a)
    ensures a == b
  {
    if a != [] && b != [] {
      LexLeAntisymmetric(a[1..], b[1..]);
      assert a == [a[0]] + a[1..] && b == [b[0]] + b[1..];
    }
  }
}
