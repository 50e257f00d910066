/**
 * A reference reduction of per-foundation counts: the category-wise sum that
 * `ApplicationCounts.aggregate` and `ServiceInstanceCounts.aggregate` are
 * documented to compute. The assemblers take the reduction as a parameter;
 * this one is used to show that, for a sum, the order in which the
 * per-foundation counts arrive does not matter.
 */
module CountsReducer {
  import opened Domain

  /** The count of `category`, zero when the category is absent. */
  function Get(c: Counts, category: string): nat
  {
    if category in c then c[category] else 0
  }

  /** Category-wise sum of two counts. */
  function Add(a: Counts, b: Counts): (r: Counts)
    ensures r.Keys == a.Keys + b.Keys
    ensures forall k :: Get(r, k) == Get(a, k) + Get(b, k)
  {
    map k | k in a.Keys + b.Keys :: Get(a, k) + Get(b, k)
  }

  /** Category-wise total of every counts value in the list. */
  function Aggregate(cs: seq<Counts>): (r: Counts)
    ensures forall k :: k in r <==> exists c <- cs :: k in c
  {
    if cs == [] then map[] else Add(cs[0], Aggregate(cs[1..]))
  }

  /** The total of one category, summed over the list. */
  ghost function CategoryTotal(cs: seq<Counts>, category: string): nat
  {
    if cs == [] then 0 else Get(cs[0], category) + CategoryTotal(cs[1..], category)
  }

  /** Every category of the aggregate holds the sum of that category over the list. */
  lemma {:induction false} AggregateIsCategoryTotal(cs: seq<Counts>, category: string)
    ensures Get(Aggregate(cs), category) == CategoryTotal(cs, category)
  {
    if cs != [] {
      AggregateIsCategoryTotal(cs[1..], category);
    }
  }

  lemma AddSwap(a: Counts, b: Counts, c: Counts)
    ensures Add(a, Add(b, c)) == Add(b, Add(a, c))
  {
  }

  /** Taking any one element out of the list and adding it back gives the same aggregate. */
  lemma {:induction false} AggregateRemove(t: seq<Counts>, i: nat)
    requires i < |t|
    ensures Aggregate(t) == Add(t[i], Aggregate(t[..i] + t[i + 1..]))
  {
    if i == 0 {
      assert t[..0] + t[1..] == t[1..];
    } else {
      var rest := t[1..][..i - 1] + t[1..][i..];
      var u := t[..i] + t[i + 1..];
      assert u == [t[0]] + rest;
      assert u[0] == t[0] && u[1..] == rest;
      assert t[1..][i - 1] == t[i];
      calc {
        Aggregate(t);
        Add(t[0], Aggregate(t[1..]));
        { AggregateRemove(t[1..], i - 1); }
        Add(t[0], Add(t[i], Aggregate(rest)));
        { AddSwap(t[0], t[i], Aggregate(rest)); }
        Add(t[i], Add(t[0], Aggregate(rest)));
        Add(t[i], Aggregate(u));
      }
    }
  }

  /** The aggregate does not depend on the order of the list. */
  lemma {:induction false} AggregatePermutation(s: seq<Counts>, t: seq<Counts>)
    requires multiset(s) == multiset(t)
    ensures Aggregate(s) == Aggregate(t)
    decreases |s|
  {
    if s == [] {
      assert |t| == |multiset(t)| == 0;
    } else {
      assert s[0] in multiset(t);
      var i :| 0 <= i < |t| && t[i] == s[0];
      var t' := t[..i] + t[i + 1..];
      assert t == t[..i] + [t[i]] + t[i + 1..];
      assert s == [s[0]] + s[1..];
      assert multiset(t) == multiset(t[..i]) + multiset{t[i]} + multiset(t[i + 1..]);
      assert multiset(t') == multiset(t[..i]) + multiset(t[i + 1..]);
      assert multiset(s) == multiset{s[0]} + multiset(s[1..]);
      assert multiset(t) == multiset{s[0]} + multiset(t');
      assert multiset(s[1..]) == multiset(s) - multiset{s[0]};
      assert multiset(t') == multiset(t) - multiset{s[0]};
      AggregatePermutation(s[1..], t');
      AggregateRemove(t, i);
    }
  }

  /** Aggregating nothing but empty counts maps yields the empty counts map. */
  lemma AggregateOfNothing(cs: seq<Counts>)
    requires forall c <- cs :: c == map[]
    ensures Aggregate(cs) == map[]
  {
  }

  /** Aggregating counts whose every category is zero, listed or not, yields zero in every category. */
  lemma {:induction false} AggregateOfZeros(cs: seq<Counts>)
    requires forall c <- cs, category :: Get(c, category) == 0
    ensures forall category :: Get(Aggregate(cs), category) == 0
  {
    if cs != [] {
      assert cs[0] in cs;
      assert forall c <- cs[1..] :: c in cs;
      AggregateOfZeros(cs[1..]);
    }
  }
}
