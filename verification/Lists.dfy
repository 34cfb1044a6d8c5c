// The linked lists of the firmware, seen as sequences of node addresses.

module Lists {

  datatype Option<+T> = None | Some(value: T)

  /** The address of a node. */
  type Ptr = nat

  /** The list after the node `p` has been unlinked from it. */
  function Without(xs: seq<Ptr>, p: Ptr): seq<Ptr> {
    if xs == [] then []
    else if xs[0] == p then xs[1..]
    else [xs[0]] + Without(xs[1..], p)
  }

  /** The nodes of `xs` that belong to `keep`, in list order. */
  function Select(xs: seq<Ptr>, keep: set<Ptr>): (r: seq<Ptr>) {
    if xs == [] then []
    else if xs[0] in keep then [xs[0]] + Select(xs[1..], keep)
    else Select(xs[1..], keep)
  }

  /** The node that follows `p`, the way the firmware finds it before it touches `p`. */
  function NextOf(xs: seq<Ptr>, p: Ptr): Option<Ptr> {
    if xs == [] then None
    else if xs[0] == p then (if |xs| > 1 then Some(xs[1]) else None)
    else NextOf(xs[1..], p)
  }

  function FirstOf(xs: seq<Ptr>, keep: set<Ptr>): Option<Ptr> {
    if xs == [] then None else if xs[0] in keep then Some(xs[0]) else FirstOf(xs[1..], keep)
  }

  /** The first node of `keep` after `p`. */
  function NextIn(xs: seq<Ptr>, p: Ptr, keep: set<Ptr>): Option<Ptr> {
    if xs == [] then None
    else if xs[0] == p then FirstOf(xs[1..], keep)
    else NextIn(xs[1..], p, keep)
  }

  /** How many nodes of the list have address `p`. */
  function {:tailrecursion false} Count(xs: seq<Ptr>, p: Ptr): nat {
    if xs == [] then 0 else (if xs[0] == p then 1 else 0) + Count(xs[1..], p)
  }

  ghost predicate Distinct(xs: seq<Ptr>) {
    forall p :: Count(xs, p) <= 1
  }

  lemma {:induction false} CountIn(xs: seq<Ptr>, p: Ptr)
    ensures p in xs <==> Count(xs, p) > 0
  {
    if xs != [] {
      CountIn(xs[1..], p);
    }
  }

  lemma {:induction false} CountAppend(xs: seq<Ptr>, ys: seq<Ptr>, p: Ptr)
    ensures Count(xs + ys, p) == Count(xs, p) + Count(ys, p)
  {
    if xs == [] {
      assert xs + ys == ys;
    } else {
      assert (xs + ys)[1..] == xs[1..] + ys;
      CountAppend(xs[1..], ys, p);
    }
  }

  lemma {:induction false} CountWithout(xs: seq<Ptr>, p: Ptr, q: Ptr)
    ensures Count(Without(xs, p), q) == if p == q && p in xs then Count(xs, q) - 1 else Count(xs, q)
  {
    CountIn(xs, p);
    if xs != [] && xs[0] != p {
      assert Without(xs, p)[1..] == Without(xs[1..], p);
      CountWithout(xs[1..], p, q);
    }
  }

  lemma {:induction false} WithoutMembers(xs: seq<Ptr>, p: Ptr)
    ensures p !in xs ==> Without(xs, p) == xs
    ensures forall q :: q in Without(xs, p) ==> q in xs
    ensures forall q :: q in xs && q != p ==> q in Without(xs, p)
  {
    if xs != [] {
      WithoutMembers(xs[1..], p);
    }
  }

  function Chosen(p: Ptr, keep: set<Ptr>): seq<Ptr> { if p in keep then [p] else [] }

  lemma Associate(a: seq<Ptr>, b: seq<Ptr>, c: seq<Ptr>)
    ensures a + b + c == a + (b + c)
  {}

  lemma SelectHead(xs: seq<Ptr>, keep: set<Ptr>)
    requires xs != []
    ensures Select(xs, keep) == Chosen(xs[0], keep) + Select(xs[1..], keep)
  {}

  /** Appending a list's first node, if it is selected, and then its other selected nodes. */
  lemma AppendSelected(xs: seq<Ptr>, ps: seq<Ptr>, keep: set<Ptr>)
    requires ps != []
    ensures xs + Chosen(ps[0], keep) + Select(ps[1..], keep) == xs + Select(ps, keep)
  {
    SelectHead(ps, keep);
    Associate(xs, Chosen(ps[0], keep), Select(ps[1..], keep));
  }

  lemma {:induction false} SelectMembers(xs: seq<Ptr>, keep: set<Ptr>)
    ensures forall q :: q in Select(xs, keep) <==> q in xs && q in keep
  {
    if xs != [] {
      SelectMembers(xs[1..], keep);
    }
  }

  lemma {:induction false} SelectCount(xs: seq<Ptr>, keep: set<Ptr>, q: Ptr)
    ensures Count(Select(xs, keep), q) == if q in keep then Count(xs, q) else 0
  {
    if xs != [] {
      SelectCount(xs[1..], keep, q);
    }
  }

  lemma SelectDistinct(xs: seq<Ptr>, keep: set<Ptr>)
    requires Distinct(xs)
    ensures Distinct(Select(xs, keep))
  {
    forall q ensures Count(Select(xs, keep), q) <= 1 { SelectCount(xs, keep, q); }
  }

  /** Selecting by two sets that agree on the list gives the same list. */
  lemma {:induction false} SelectAgree(xs: seq<Ptr>, a: set<Ptr>, b: set<Ptr>)
    requires forall q :: q in xs ==> (q in a <==> q in b)
    ensures Select(xs, a) == Select(xs, b)
  {
    if xs != [] {
      SelectAgree(xs[1..], a, b);
    }
  }

  lemma {:induction false} SelectAll(xs: seq<Ptr>, keep: set<Ptr>)
    requires forall q :: q in xs ==> q in keep
    ensures Select(xs, keep) == xs
  {
    if xs != [] {
      SelectAll(xs[1..], keep);
    }
  }

  lemma {:induction false} SelectNone(xs: seq<Ptr>, keep: set<Ptr>)
    requires forall q :: q in xs ==> q !in keep
    ensures Select(xs, keep) == []
  {
    if xs != [] {
      SelectNone(xs[1..], keep);
    }
  }

  lemma {:induction false} SelectAppend(xs: seq<Ptr>, ys: seq<Ptr>, keep: set<Ptr>)
    ensures Select(xs + ys, keep) == Select(xs, keep) + Select(ys, keep)
  {
    if xs == [] {
      assert xs + ys == ys;
    } else {
      assert (xs + ys)[1..] == xs[1..] + ys;
      SelectAppend(xs[1..], ys, keep);
    }
  }

  /** Unlinking a node and then selecting is selecting without that node. */
  lemma {:induction false} SelectWithout(xs: seq<Ptr>, p: Ptr, keep: set<Ptr>)
    requires Distinct(xs)
    ensures Select(Without(xs, p), keep) == Select(xs, keep - {p})
  {
    if xs != [] {
      DistinctTail(xs);
      if xs[0] == p {
        SelectAgree(xs[1..], keep, keep - {p});
      } else {
        SelectWithout(xs[1..], p, keep);
      }
    }
  }

  lemma DistinctTail(xs: seq<Ptr>)
    requires Distinct(xs) && xs != []
    ensures xs[0] !in xs[1..] && Distinct(xs[1..])
  {
    CountIn(xs[1..], xs[0]);
    assert Count(xs, xs[0]) <= 1;
    forall p ensures Count(xs[1..], p) <= 1 { assert Count(xs, p) <= 1; }
  }

  /** In a list without repetitions the node after the head of a suffix is the suffix's second node. */
  lemma {:induction false} NextAfterPrefix(pre: seq<Ptr>, p: Ptr, post: seq<Ptr>)
    requires Distinct(pre + [p] + post)
    ensures NextOf(pre + [p] + post, p) == if post == [] then None else Some(post[0])
  {
    var xs := pre + [p] + post;
    if pre == [] {
      assert xs == [p] + post;
    } else {
      assert xs[1..] == pre[1..] + [p] + post;
      DistinctTail(xs);
      assert p in xs[1..] by { assert xs[1..][|pre| - 1] == p; }
      NextAfterPrefix(pre[1..], p, post);
    }
  }

  /** Unlinking the node between two stretches leaves the two stretches. */
  lemma {:induction false} WithoutMiddle(pre: seq<Ptr>, p: Ptr, post: seq<Ptr>)
    requires Distinct(pre + [p] + post)
    ensures Without(pre + [p] + post, p) == pre + post
  {
    var xs := pre + [p] + post;
    if pre == [] {
      assert xs == [p] + post && pre + post == post;
    } else {
      assert xs[1..] == pre[1..] + [p] + post;
      DistinctTail(xs);
      assert p in xs[1..] by { assert xs[1..][|pre| - 1] == p; }
      WithoutMiddle(pre[1..], p, post);
      assert pre + post == [pre[0]] + (pre[1..] + post);
    }
  }

  lemma {:induction false} FirstIsSelected(xs: seq<Ptr>, keep: set<Ptr>)
    ensures FirstOf(xs, keep) == if Select(xs, keep) == [] then None else Some(Select(xs, keep)[0])
  {
    if xs != [] {
      FirstIsSelected(xs[1..], keep);
    }
  }

  lemma {:induction false} NextInAfterPrefix(pre: seq<Ptr>, p: Ptr, post: seq<Ptr>, keep: set<Ptr>)
    requires p !in pre
    ensures NextIn(pre + [p] + post, p, keep) == FirstOf(post, keep)
  {
    var xs := pre + [p] + post;
    if pre == [] {
      assert xs == [p] + post;
    } else {
      assert xs[1..] == pre[1..] + [p] + post;
      NextInAfterPrefix(pre[1..], p, post, keep);
    }
  }

  /** The stretch before the first selected node, the node, and the rest. */
  lemma {:induction false} SplitAtFirst(xs: seq<Ptr>, keep: set<Ptr>) returns (pre: seq<Ptr>, post: seq<Ptr>)
    requires FirstOf(xs, keep).Some?
    ensures var p := FirstOf(xs, keep).value;
            && xs == pre + [p] + post && p in keep && Select(pre, keep) == []
            && Select(xs, keep) == [p] + Select(post, keep)
  {
    if xs[0] in keep {
      pre, post := [], xs[1..];
    } else {
      pre, post := SplitAtFirst(xs[1..], keep);
      pre := [xs[0]] + pre;
      assert pre[1..] + [FirstOf(xs, keep).value] + post == xs[1..];
    }
  }
}
