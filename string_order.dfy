/**
 * The natural order of strings (lexicographic by character, a proper prefix
 * first) and a TreeSet of strings, modelled as a strictly ascending sequence
 * that is filled by one `add` per collected element.
 */
module StringOrder {

  /** `a.compareTo(b) < 0`. */
  predicate Below(a: string, b: string)
    decreases |a|
  {
    if |a| == 0 then |b| > 0
    else if |b| == 0 then false
    else if a[0] != b[0] then a[0] < b[0]
    else Below(a[1..], b[1..])
  }

  /**
   * `compareTo`'s own description: at the first index where the strings
   * differ `a` holds the smaller character, or `a` is a proper prefix of `b`.
   */
  ghost predicate FirstDifferenceBelow(a: string, b: string, k: nat)
  {
    k <= |a| && k <= |b| && a[..k] == b[..k]
    && ((k == |a| && k < |b|) || (k < |a| && k < |b| && a[k] < b[k]))
  }

  /** `Below` is exactly the order `compareTo` describes. */
  lemma {:induction false} BelowIsCompareTo(a: string, b: string)
    ensures Below(a, b) <==> exists k: nat :: FirstDifferenceBelow(a, b, k)
    decreases |a|
  {
    forall k: nat | 0 < k && FirstDifferenceBelow(a, b, k)
      ensures a[0] == b[0]
    {
      assert a[..k][0] == b[..k][0];
    }
    if |a| == 0 {
      if |b| > 0 {
        assert FirstDifferenceBelow(a, b, 0);
      }
    } else if |b| == 0 {
    } else if a[0] != b[0] {
      if a[0] < b[0] {
        assert FirstDifferenceBelow(a, b, 0);
      }
    } else {
      var a', b' := a[1..], b[1..];
      BelowIsCompareTo(a', b');
      forall k: nat | FirstDifferenceBelow(a', b', k)
        ensures FirstDifferenceBelow(a, b, k + 1)
      {
        assert a[..k + 1] == [a[0]] + a'[..k];
        assert b[..k + 1] == [b[0]] + b'[..k];
      }
      forall k: nat | FirstDifferenceBelow(a, b, k)
        ensures k > 0 && FirstDifferenceBelow(a', b', k - 1)
      {
        assert k != 0;
        assert a'[..k - 1] == a[..k][1..];
        assert b'[..k - 1] == b[..k][1..];
      }
      if exists k: nat :: FirstDifferenceBelow(a, b, k) {
        var k: nat :| FirstDifferenceBelow(a, b, k);
        assert FirstDifferenceBelow(a', b', k - 1);
      }
    }
  }

  lemma {:induction false} BelowIrreflexive(a: string)
    ensures !Below(a, a)
    decreases |a|
  {
    if |a| > 0 {
      BelowIrreflexive(a[1..]);
    }
  }

  lemma {:induction false} BelowAsymmetric(a: string, b: string)
    ensures !(Below(a, b) && Below(b, a))
    decreases |a|
  {
    if |a| > 0 && |b| > 0 && a[0] == b[0] {
      BelowAsymmetric(a[1..], b[1..]);
    }
  }

  lemma {:induction false} BelowTransitive(a: string, b: string, c: string)
    requires Below(a, b) && Below(b, c)
    ensures Below(a, c)
    decreases |a|
  {
    if |a| > 0 && a[0] == b[0] && b[0] == c[0] {
      BelowTransitive(a[1..], b[1..], c[1..]);
    }
  }

  lemma {:induction false} BelowTotal(a: string, b: string)
    requires a != b
    ensures Below(a, b) || Below(b, a)
    decreases |a|
  {
    if |a| > 0 && |b| > 0 && a[0] == b[0] {
      assert a == [a[0]] + a[1..];
      assert b == [b[0]] + b[1..];
      BelowTotal(a[1..], b[1..]);
    }
  }

  /** Sorted without duplicates: the iteration order of a TreeSet. */
  ghost predicate StrictlyAscending(s: seq<string>)
  {
    forall i, j :: 0 <= i < j < |s| ==> Below(s[i], s[j])
  }

  lemma PrependAscending(x: string, s: seq<string>)
    requires StrictlyAscending(s)
    requires forall y <- s :: Below(x, y)
    ensures StrictlyAscending([x] + s)
  {
  }

  lemma HeadBelowRest(x: string, s: seq<string>)
    requires StrictlyAscending(s) && s != [] && Below(x, s[0])
    ensures forall y <- s :: Below(x, y)
  {
    forall y <- s
      ensures Below(x, y)
    {
      var j :| 0 <= j < |s| && s[j] == y;
      if j > 0 {
        BelowTransitive(x, s[0], y);
      }
    }
  }

  /** `TreeSet.add`: insert `x` at its place, or leave the set as it is when `x` is already in it. */
  function Insert(s: seq<string>, x: string): (r: seq<string>)
    requires StrictlyAscending(s)
    ensures StrictlyAscending(r)
    ensures forall y :: y in r <==> y in s || y == x
    decreases |s|
  {
    if s == [] then [x]
    else if x == s[0] then s
    else if Below(x, s[0]) then
      HeadBelowRest(x, s);
      PrependAscending(x, s);
      [x] + s
    else
      BelowTotal(x, s[0]);
      var t := Insert(s[1..], x);
      assert forall y <- t :: Below(s[0], y) by {
        forall y <- t
          ensures Below(s[0], y)
        {
          if y != x {
            var j :| 1 <= j < |s| && s[j] == y;
          }
        }
      }
      PrependAscending(s[0], t);
      assert s == [s[0]] + s[1..];
      [s[0]] + t
  }

  /** Add every element of `xs`, in order, to the set `acc`. */
  function AddAll(acc: seq<string>, xs: seq<string>): (r: seq<string>)
    requires StrictlyAscending(acc)
    ensures StrictlyAscending(r)
    ensures forall y :: y in r <==> y in acc || y in xs
    decreases |xs|
  {
    if xs == [] then acc
    else
      assert xs == [xs[0]] + xs[1..];
      AddAll(Insert(acc, xs[0]), xs[1..])
  }

  /** `collect(Collectors.toCollection(TreeSet::new))`: a sorted set holding exactly the collected strings. */
  function Collect(xs: seq<string>): (r: seq<string>)
    ensures StrictlyAscending(r)
    ensures forall y :: y in r <==> y in xs
  {
    AddAll([], xs)
  }

  /** A set has only one ascending enumeration. */
  lemma {:induction false} AscendingUnique(a: seq<string>, b: seq<string>)
    requires StrictlyAscending(a) && StrictlyAscending(b)
    requires forall y :: y in a <==> y in b
    ensures a == b
    decreases |a|
  {
    assert a != [] ==> a[0] in b;
    assert b != [] ==> b[0] in a;
    if a != [] && b != [] {
      if a[0] != b[0] {
        assert a[0] in b && b[0] in a;
        var i :| 0 <= i < |b| && b[i] == a[0];
        var j :| 0 <= j < |a| && a[j] == b[0];
        assert Below(b[0], a[0]) && Below(a[0], b[0]);
        BelowAsymmetric(a[0], b[0]);
      }
      assert a == [a[0]] + a[1..];
      assert b == [b[0]] + b[1..];
      forall y
        ensures y in a[1..] <==> y in b[1..]
      {
        BelowIrreflexive(y);
        if y in a[1..] {
          var k :| 1 <= k < |a| && a[k] == y;
          assert Below(a[0], y);
          assert y in a && y in b;
          var m :| 0 <= m < |b| && b[m] == y;
          assert m != 0;
          assert b[1..][m - 1] == y;
        }
        if y in b[1..] {
          var k :| 1 <= k < |b| && b[k] == y;
          assert Below(b[0], y);
          assert y in b && y in a;
          var m :| 0 <= m < |a| && a[m] == y;
          assert m != 0;
          assert a[1..][m - 1] == y;
        }
      }
      AscendingUnique(a[1..], b[1..]);
    }
  }

  /** An ascending enumeration never repeats an element. */
  lemma AscendingHasNoDuplicates(s: seq<string>)
    requires StrictlyAscending(s)
    ensures forall i, j :: 0 <= i < j < |s| ==> s[i] != s[j]
  {
    forall i, j | 0 <= i < j < |s|
      ensures s[i] != s[j]
    {
      BelowIrreflexive(s[i]);
    }
  }

  /** The collected set depends only on which strings arrive, not on their order or repetitions. */
  lemma CollectIgnoresOrder(xs: seq<string>, ys: seq<string>)
    requires forall y :: y in xs <==> y in ys
    ensures Collect(xs) == Collect(ys)
  {
    AscendingUnique(Collect(xs), Collect(ys));
  }
}
