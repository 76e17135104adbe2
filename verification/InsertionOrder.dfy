/** The keys of an insertion-ordered map, oldest first, and what deleting some of them leaves. */
module InsertionOrder {
  import opened Common

  /** The keys of `order` outside `drop`, in order. */
  function Keep(order: seq<string>, drop: set<string>): (r: seq<string>)
    ensures forall k :: k in r <==> k in order && k !in drop
    ensures |r| <= |order|
  {
    if order == [] then []
    else
      var before := Keep(order[..|order| - 1], drop);
      var last := order[|order| - 1];
      assert forall k :: k in order <==> k in order[..|order| - 1] || k == last;
      if last in drop then before else before + [last]
  }

  function ToSet(keys: seq<string>): set<string> {
    set k | k in keys
  }

  lemma {:induction false} KeepDistinct(order: seq<string>, drop: set<string>)
    requires Distinct(order)
    ensures Distinct(Keep(order, drop))
  {
    if order != [] {
      KeepDistinct(order[..|order| - 1], drop);
    }
  }

  lemma {:induction false} KeepTwice(order: seq<string>, a: set<string>, b: set<string>)
    ensures Keep(Keep(order, a), b) == Keep(order, a + b)
  {
    if order != [] {
      var rest, last := order[..|order| - 1], order[|order| - 1];
      KeepTwice(rest, a, b);
      if last !in a {
        assert (Keep(rest, a) + [last])[..|Keep(rest, a)|] == Keep(rest, a);
      }
    }
  }

  lemma {:induction false} KeepAll(order: seq<string>, drop: set<string>)
    requires forall i :: 0 <= i < |order| ==> order[i] !in drop
    ensures Keep(order, drop) == order
  {
    if order != [] {
      KeepAll(order[..|order| - 1], drop);
      assert order == order[..|order| - 1] + [order[|order| - 1]];
    }
  }

  lemma {:induction false} KeepNone(order: seq<string>, drop: set<string>)
    requires forall k :: k in order ==> k in drop
    ensures Keep(order, drop) == []
  {
    if order != [] {
      assert forall k :: k in order[..|order| - 1] ==> k in order;
      KeepNone(order[..|order| - 1], drop);
    }
  }

  lemma {:induction false} DropOldest(order: seq<string>, n: nat)
    requires Distinct(order) && n <= |order|
    ensures Keep(order, ToSet(order[..n])) == order[n..]
    decreases |order|
  {
    if n == |order| {
      assert order[..n] == order;
      KeepNone(order, ToSet(order));
    } else {
      var rest, last := order[..|order| - 1], order[|order| - 1];
      DropOldest(rest, n);
      assert rest[..n] == order[..n];
      assert last !in ToSet(order[..n]);
      assert order[n..] == rest[n..] + [last];
    }
  }

  lemma {:induction false} Shorter(order: seq<string>, k: string)
    requires k in order && Distinct(order)
    ensures |Keep(order, {k})| == |order| - 1
  {
    var last := order[|order| - 1];
    if last == k {
      KeepAll(order[..|order| - 1], {k});
    } else {
      assert k in order[..|order| - 1];
      Shorter(order[..|order| - 1], k);
    }
  }
}
