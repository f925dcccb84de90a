/** Sequence and number helpers shared by the other modules. */
module Seqs {

  /** Python's `int(r)`: truncation toward zero. */
  function TruncateTowardZero(r: real): (t: int)
    ensures r >= 0.0 ==> 0 <= t && t as real <= r < t as real + 1.0
    ensures r < 0.0 ==> t <= 0 && t as real - 1.0 < r <= t as real
  {
    if r >= 0.0 then r.Floor else -((-r).Floor)
  }

  /** Sum of a sequence of reals, folded from the back so that extending a prefix unfolds once. */
  function Sum(s: seq<real>): real
  {
    if |s| == 0 then 0.0 else Sum(s[..|s| - 1]) + s[|s| - 1]
  }

  lemma {:induction false} SumAppend(a: seq<real>, b: seq<real>)
    ensures Sum(a + b) == Sum(a) + Sum(b)
    decreases |b|
  {
    if |b| == 0 {
      assert a + b == a;
    } else {
      assert (a + b)[..|a + b| - 1] == a + b[..|b| - 1];
      SumAppend(a, b[..|b| - 1]);
    }
  }

  lemma {:induction false} SumPrefixStep(s: seq<real>, i: nat)
    requires i < |s|
    ensures Sum(s[..i + 1]) == Sum(s[..i]) + s[i]
  {
    assert s[..i + 1][..i] == s[..i];
  }

  /** The sum of a non-negative sequence is non-negative. */
  lemma {:induction false} SumNonNegative(s: seq<real>)
    requires forall i :: 0 <= i < |s| ==> s[i] >= 0.0
    ensures Sum(s) >= 0.0
  {
    if |s| > 0 {
      SumNonNegative(s[..|s| - 1]);
    }
  }

  /** Element-wise product, numpy's `a * b` on equal-length arrays. */
  function Mul(a: seq<real>, b: seq<real>): (r: seq<real>)
    requires |a| == |b|
    ensures |r| == |a|
    ensures forall i :: 0 <= i < |r| ==> r[i] == a[i] * b[i]
  {
    seq(|a|, i requires 0 <= i < |a| => a[i] * b[i])
  }

  /** Every element multiplied by k, numpy's `k * s`. */
  function Scaled(s: seq<real>, k: real): (r: seq<real>)
    ensures |r| == |s|
    ensures forall i :: 0 <= i < |r| ==> r[i] == k * s[i]
  {
    seq(|s|, i requires 0 <= i < |s| => k * s[i])
  }

  /** Scaling every element scales the sum. */
  lemma {:induction false} SumScaled(s: seq<real>, r: seq<real>, k: real)
    requires |r| == |s|
    requires forall i :: 0 <= i < |s| ==> r[i] == k * s[i]
    ensures Sum(r) == k * Sum(s)
  {
    if |s| > 0 {
      SumScaled(s[..|s| - 1], r[..|r| - 1], k);
    }
  }

  /** The sum of a scaled sequence is the scaled sum. */
  lemma {:induction false} SumScaledOf(s: seq<real>, k: real)
    ensures Sum(Scaled(s, k)) == k * Sum(s)
  {
    SumScaled(s, Scaled(s, k), k);
  }

  /** Two sequences that agree pointwise have the same sum. */
  lemma {:induction false} SumPointwise(s: seq<real>, r: seq<real>)
    requires |r| == |s|
    requires forall i :: 0 <= i < |s| ==> r[i] == s[i]
    ensures Sum(r) == Sum(s)
  {
    assert r == s;
  }

  /** The sum of pointwise sums is the sum of the sums. */
  lemma {:induction false} SumAdd(s: seq<real>, r: seq<real>, t: seq<real>)
    requires |s| == |r| == |t|
    requires forall i :: 0 <= i < |t| ==> t[i] == s[i] + r[i]
    ensures Sum(t) == Sum(s) + Sum(r)
  {
    if |t| > 0 {
      SumAdd(s[..|s| - 1], r[..|r| - 1], t[..|t| - 1]);
    }
  }

  /** Sums are monotone in their entries. */
  lemma {:induction false} SumMonotone(s: seq<real>, r: seq<real>)
    requires |s| == |r|
    requires forall i :: 0 <= i < |s| ==> s[i] <= r[i]
    ensures Sum(s) <= Sum(r)
  {
    if |s| > 0 {
      SumMonotone(s[..|s| - 1], r[..|r| - 1]);
    }
  }

  /** Order-preserving filter, Python's `filter(p, xs)` / a generator that yields the accepted items. */
  function Filter<T>(s: seq<T>, p: T -> bool): (r: seq<T>)
    ensures |r| <= |s|
    ensures forall i :: 0 <= i < |r| ==> p(r[i])
  {
    if |s| == 0 then [] else if p(s[0]) then [s[0]] + Filter(s[1..], p) else Filter(s[1..], p)
  }

  /** Filtering distributes over concatenation. */
  lemma {:induction false} FilterAppend<T>(a: seq<T>, b: seq<T>, p: T -> bool)
    ensures Filter(a + b, p) == Filter(a, p) + Filter(b, p)
  {
    if |a| > 0 {
      assert (a + b)[1..] == a[1..] + b;
      FilterAppend(a[1..], b, p);
    } else {
      assert a + b == b;
    }
  }

  /** Filtering a prefix one element longer adds at most that element. */
  lemma {:induction false} FilterSnoc<T>(s: seq<T>, i: nat, p: T -> bool)
    requires i < |s|
    ensures Filter(s[..i + 1], p) == Filter(s[..i], p) + (if p(s[i]) then [s[i]] else [])
  {
    assert s[..i + 1] == s[..i] + [s[i]];
    FilterAppend(s[..i], [s[i]], p);
    assert [s[i]][1..] == [];
  }

  /** Nothing passes a filter that rejects every element. */
  lemma {:induction false} FilterNone<T>(s: seq<T>, p: T -> bool)
    requires forall i :: 0 <= i < |s| ==> !p(s[i])
    ensures Filter(s, p) == []
  {
    if |s| > 0 {
      FilterNone(s[1..], p);
    }
  }

  /** Filtering again with a stricter predicate is filtering once with it. */
  lemma {:induction false} FilterNarrow<T>(s: seq<T>, p: T -> bool, q: T -> bool)
    requires forall i :: 0 <= i < |s| ==> q(s[i]) ==> p(s[i])
    ensures Filter(Filter(s, p), q) == Filter(s, q)
  {
    if |s| > 0 {
      FilterNarrow(s[1..], p, q);
      if p(s[0]) {
        assert ([s[0]] + Filter(s[1..], p))[1..] == Filter(s[1..], p);
      }
    }
  }

  /** Filtering keeps exactly the elements that satisfy the predicate. */
  lemma {:induction false} FilterMembers<T>(s: seq<T>, p: T -> bool, x: T)
    ensures x in Filter(s, p) <==> x in s && p(x)
  {
    if |s| > 0 {
      FilterMembers(s[1..], p, x);
      assert s == [s[0]] + s[1..];
    }
  }

  /** numpy boolean-mask indexing `s[mask]`: the elements whose mask entry is true, in order. */
  function Select<T>(s: seq<T>, mask: seq<bool>): (r: seq<T>)
    requires |mask| == |s|
    ensures |r| <= |s|
  {
    if |s| == 0 then [] else if mask[0] then [s[0]] + Select(s[1..], mask[1..]) else Select(s[1..], mask[1..])
  }

  /** Number of true entries of a mask. */
  function CountTrue(mask: seq<bool>): nat
  {
    if |mask| == 0 then 0 else (if mask[0] then 1 else 0) + CountTrue(mask[1..])
  }

  /** A mask selects exactly as many elements as it has true entries. */
  lemma {:induction false} SelectLength<T>(s: seq<T>, mask: seq<bool>)
    requires |mask| == |s|
    ensures |Select(s, mask)| == CountTrue(mask)
  {
    if |s| > 0 {
      SelectLength(s[1..], mask[1..]);
    }
  }

  /** Filtering by a predicate is mask selection with the predicate's values as the mask. */
  lemma {:induction false} FilterIsSelect<T>(s: seq<T>, p: T -> bool)
    ensures Filter(s, p) == Select(s, seq(|s|, i requires 0 <= i < |s| => p(s[i])))
  {
    var mask := seq(|s|, i requires 0 <= i < |s| => p(s[i]));
    if |s| > 0 {
      FilterIsSelect(s[1..], p);
      assert mask[1..] == seq(|s[1..]|, i requires 0 <= i < |s[1..]| => p(s[1..][i]));
    }
  }

  /** An all-true mask selects everything. */
  lemma {:induction false} SelectAll<T>(s: seq<T>, mask: seq<bool>)
    requires |mask| == |s|
    requires forall i :: 0 <= i < |mask| ==> mask[i]
    ensures Select(s, mask) == s
  {
    if |s| > 0 {
      SelectAll(s[1..], mask[1..]);
    }
  }

  /** Pairs of corresponding elements. */
  function Zip<A, B>(a: seq<A>, b: seq<B>): (r: seq<(A, B)>)
    requires |a| == |b|
    ensures |r| == |a|
  {
    if |a| == 0 then [] else [(a[0], b[0])] + Zip(a[1..], b[1..])
  }

  /** One mask applied to two columns keeps them paired: selecting from each and pairing up is
    * selecting the pairs. */
  lemma {:induction false} SelectZip<A, B>(a: seq<A>, b: seq<B>, mask: seq<bool>)
    requires |a| == |b| == |mask|
    ensures |Select(a, mask)| == |Select(b, mask)|
    ensures Zip(Select(a, mask), Select(b, mask)) == Select(Zip(a, b), mask)
  {
    SelectLength(a, mask);
    SelectLength(b, mask);
    if |a| > 0 {
      SelectZip(a[1..], b[1..], mask[1..]);
      assert Zip(a, b)[1..] == Zip(a[1..], b[1..]);
      if mask[0] {
        var sa, sb := Select(a[1..], mask[1..]), Select(b[1..], mask[1..]);
        assert ([a[0]] + sa)[1..] == sa && ([b[0]] + sb)[1..] == sb;
      }
    }
  }

  /** Python's `s.split(sep)` with an explicit one-character separator: never empty. */
  function Split(s: string, sep: char): (r: seq<string>)
    ensures |r| >= 1
  {
    if |s| == 0 then [""]
    else
      var rest := Split(s[1..], sep);
      if s[0] == sep then [""] + rest else [[s[0]] + rest[0]] + rest[1..]
  }

  /** Python's `sep.join(parts)`. */
  function Join(parts: seq<string>, sep: char): string
  {
    if |parts| == 0 then "" else if |parts| == 1 then parts[0] else parts[0] + [sep] + Join(parts[1..], sep)
  }

  /** Splitting a part that holds no separator, followed by a separator and a tail. */
  lemma {:induction false} SplitPrefix(p: string, sep: char, t: string)
    requires sep !in p
    ensures Split(p + [sep] + t, sep) == [p] + Split(t, sep)
  {
    if |p| == 0 {
      assert p + [sep] + t == [sep] + t;
      assert ([sep] + t)[1..] == t;
    } else {
      assert (p + [sep] + t)[1..] == p[1..] + [sep] + t;
      SplitPrefix(p[1..], sep, t);
      assert [p[0]] + p[1..] == p;
    }
  }

  /** A string without the separator splits into itself. */
  lemma {:induction false} SplitNoSep(p: string, sep: char)
    requires sep !in p
    ensures Split(p, sep) == [p]
  {
    if |p| > 0 {
      SplitNoSep(p[1..], sep);
      assert [p[0]] + p[1..] == p;
    }
  }

  /** Splitting undoes joining when no part contains the separator. */
  lemma {:induction false} SplitJoin(parts: seq<string>, sep: char)
    requires |parts| >= 1
    requires forall i :: 0 <= i < |parts| ==> sep !in parts[i]
    ensures Split(Join(parts, sep), sep) == parts
  {
    if |parts| == 1 {
      SplitNoSep(parts[0], sep);
    } else {
      SplitJoin(parts[1..], sep);
      SplitPrefix(parts[0], sep, Join(parts[1..], sep));
    }
  }

  /** Joining undoes splitting, for every string. */
  lemma {:induction false} JoinSplit(s: string, sep: char)
    ensures Join(Split(s, sep), sep) == s
  {
    if |s| > 0 {
      JoinSplit(s[1..], sep);
      var rest := Split(s[1..], sep);
      if s[0] == sep {
        assert Join([""] + rest, sep) == "" + [sep] + Join(rest, sep);
        assert s == [s[0]] + s[1..];
      } else {
        var parts := [[s[0]] + rest[0]] + rest[1..];
        assert parts[1..] == rest[1..];
        if |rest| == 1 {
          assert s == [s[0]] + rest[0];
        } else {
          assert Join(rest, sep) == rest[0] + [sep] + Join(rest[1..], sep);
          assert s == [s[0]] + s[1..];
        }
      }
    }
  }

  /** Python's `sub in s` for strings. */
  predicate Contains(s: string, sub: string)
    decreases |s|
  {
    |sub| <= |s| && (s[..|sub|] == sub || (|s| > 0 && Contains(s[1..], sub)))
  }

  /** A window of `s` equal to `sub` makes `sub in s` true. */
  lemma {:induction false} ContainsAt(s: string, sub: string, i: nat)
    requires i + |sub| <= |s| && s[i..i + |sub|] == sub
    ensures Contains(s, sub)
  {
    if i > 0 {
      assert s[1..][i - 1..i - 1 + |sub|] == s[i..i + |sub|];
      ContainsAt(s[1..], sub, i - 1);
    }
  }

  /** Python's whitespace characters for `str.strip()`. */
  predicate IsSpace(c: char)
  {
    c == ' ' || c == '\t' || c == '\n' || c == '\r' || c == '\U{B}' || c == '\U{C}'
  }

  function StripLeft(s: string): (r: string)
    ensures |r| <= |s| && r == s[|s| - |r|..]
    ensures |r| > 0 ==> !IsSpace(r[0])
  {
    if |s| > 0 && IsSpace(s[0]) then StripLeft(s[1..]) else s
  }

  function StripRight(s: string): (r: string)
    ensures |r| <= |s| && r == s[..|r|]
    ensures |r| > 0 ==> !IsSpace(r[|r| - 1])
  {
    if |s| > 0 && IsSpace(s[|s| - 1]) then StripRight(s[..|s| - 1]) else s
  }

  /** Python's `str.strip()`. */
  function Strip(s: string): string
  {
    StripRight(StripLeft(s))
  }

  /** Stripping a string that neither starts nor ends with whitespace leaves it unchanged. */
  lemma {:induction false} StripTrimmed(s: string)
    requires |s| > 0 ==> !IsSpace(s[0]) && !IsSpace(s[|s| - 1])
    ensures Strip(s) == s
  {
  }
}
