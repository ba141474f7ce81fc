/** The merge-join of two sorted, duplicate-free inputs (`SumIter`): their union in
    order, each item tagged with the input(s) it came from. */
module SumIter {
  import opened Base
  import opened Paths

  /** Which input an item of the sum came from */
  datatype SumIterSelector = Left | Right | Both

  /** `SumIterSelector::wrap` */
  function Wrap<T>(sel: SumIterSelector, v: Option<T>): Option<(SumIterSelector, T)> {
    match v
    case None => None
    case Some(x) => Some((sel, x))
  }

  /** `TwoItersPeek`: what peeking at both inputs showed */
  datatype TwoItersPeek = OnlyLeft | OnlyRight | BothPeeked(ord: Ordering)

  /** `Peekable::peek` on an input modelled by the items it has left */
  function Head<T>(s: seq<T>): (r: Option<T>)
    ensures r.Some? <==> s != []
    ensures r.Some? ==> r.value == s[0]
  {
    if s == [] then None else Some(s[0])
  }

  /** The classification of the two peeked heads at the start of `next`; when only the
      right input or neither has an item, it is `OnlyRight`. */
  function Classify<T>(cmp: (T, T) -> Ordering, lhs: Option<T>, rhs: Option<T>): (r: TwoItersPeek)
    ensures r.OnlyLeft? <==> lhs.Some? && rhs.None?
    ensures r.OnlyRight? <==> lhs.None?
    ensures r.BothPeeked? <==> lhs.Some? && rhs.Some?
    ensures r.BothPeeked? ==> r.ord == cmp(lhs.value, rhs.value)
  {
    match (lhs, rhs)
    case (Some(l), Some(r)) => BothPeeked(cmp(l, r))
    case (Some(_), None) => OnlyLeft
    case (None, _) => OnlyRight
  }

  /** Everything a `SumIter` over inputs with `a` and `b` left yields from now on. */
  function Merge<T>(cmp: (T, T) -> Ordering, a: seq<T>, b: seq<T>): seq<(SumIterSelector, T)>
    decreases |a| + |b|
  {
    match Classify(cmp, Head(a), Head(b))
    case OnlyLeft => [(Left, a[0])] + Merge(cmp, a[1..], b)
    case BothPeeked(Less) => [(Left, a[0])] + Merge(cmp, a[1..], b)
    case OnlyRight => if b == [] then [] else [(Right, b[0])] + Merge(cmp, a, b[1..])
    case BothPeeked(Greater) => [(Right, b[0])] + Merge(cmp, a, b[1..])
    case BothPeeked(Equal) => [(Both, a[0])] + Merge(cmp, a[1..], b[1..])
  }

  /** The items of a tagged sequence, without their tags */
  function Items<T>(m: seq<(SumIterSelector, T)>): (r: seq<T>)
    ensures |r| == |m|
    ensures forall i :: 0 <= i < |m| ==> r[i] == m[i].1
  {
    if m == [] then [] else [m[0].1] + Items(m[1..])
  }

  /** The tag that an item of the sum of `a` and `b` must carry */
  ghost predicate TagIsOrigin<T>(sel: SumIterSelector, x: T, a: seq<T>, b: seq<T>) {
    && (sel == Both <==> x in a && x in b)
    && (sel == Left <==> x in a && x !in b)
    && (sel == Right <==> x !in a && x in b)
  }

  ghost predicate Below<T>(cmp: (T, T) -> Ordering, x: T, s: seq<T>) {
    forall y :: y in s ==> cmp(x, y) == Less
  }

  lemma SortedHead<T(!new)>(cmp: (T, T) -> Ordering, s: seq<T>)
    requires s != [] && StrictlySorted(cmp, s)
    ensures Below(cmp, s[0], s[1..]) && StrictlySorted(cmp, s[1..])
  {
    forall y | y in s[1..] ensures cmp(s[0], y) == Less {
      var j :| 0 <= j < |s[1..]| && s[1..][j] == y;
      assert s[j + 1] == y;
    }
  }

  /** An item smaller than the head of a sorted sequence is smaller than all of it, and so not in it. */
  lemma BelowHead<T(!new)>(cmp: (T, T) -> Ordering, x: T, s: seq<T>)
    requires TotalOrder(cmp) && s != [] && StrictlySorted(cmp, s) && cmp(x, s[0]) == Less
    ensures Below(cmp, x, s) && x !in s
  {
    SortedHead(cmp, s);
    assert cmp(x, x) == Equal;
  }

  /** The untagged output holds exactly the items of both inputs. */
  lemma {:induction false} MergeMembers<T(!new)>(cmp: (T, T) -> Ordering, a: seq<T>, b: seq<T>)
    requires TotalOrder(cmp)
    ensures forall x :: x in Items(Merge(cmp, a, b)) <==> x in a || x in b
    decreases |a| + |b|
  {
    var m := Merge(cmp, a, b);
    match Classify(cmp, Head(a), Head(b))
    case OnlyLeft =>
      MergeMembers(cmp, a[1..], b);
      assert Items(m) == [a[0]] + Items(Merge(cmp, a[1..], b));
      assert a == [a[0]] + a[1..];
    case BothPeeked(Less) =>
      MergeMembers(cmp, a[1..], b);
      assert Items(m) == [a[0]] + Items(Merge(cmp, a[1..], b));
      assert a == [a[0]] + a[1..];
    case OnlyRight =>
      if b != [] {
        MergeMembers(cmp, a, b[1..]);
        assert Items(m) == [b[0]] + Items(Merge(cmp, a, b[1..]));
        assert b == [b[0]] + b[1..];
      }
    case BothPeeked(Greater) =>
      MergeMembers(cmp, a, b[1..]);
      assert Items(m) == [b[0]] + Items(Merge(cmp, a, b[1..]));
      assert b == [b[0]] + b[1..];
    case BothPeeked(Equal) =>
      MergeMembers(cmp, a[1..], b[1..]);
      assert Items(m) == [a[0]] + Items(Merge(cmp, a[1..], b[1..]));
      assert a == [a[0]] + a[1..] && b == [b[0]] + b[1..];
      assert a[0] == b[0];
  }

  /** An item below both inputs stays sorted in front of their (sorted) sum. */
  lemma SortedConsMerge<T(!new)>(cmp: (T, T) -> Ordering, sel: SumIterSelector, x: T, a: seq<T>, b: seq<T>)
    requires TotalOrder(cmp) && Below(cmp, x, a) && Below(cmp, x, b)
    requires StrictlySorted(cmp, Items(Merge(cmp, a, b)))
    ensures StrictlySorted(cmp, Items([(sel, x)] + Merge(cmp, a, b)))
  {
    var rest := Items(Merge(cmp, a, b));
    MergeMembers(cmp, a, b);
    var items := Items([(sel, x)] + Merge(cmp, a, b));
    assert items == [x] + rest;
    forall i, j | 0 <= i < j < |items| ensures cmp(items[i], items[j]) == Less {
      if i == 0 {
        assert items[j] == rest[j - 1] && rest[j - 1] in rest;
      }
    }
  }

  /** For strictly sorted inputs the output is strictly increasing, so it is their sorted
      union, and every item of it appears once. */
  lemma {:induction false} MergeSorted<T(!new)>(cmp: (T, T) -> Ordering, a: seq<T>, b: seq<T>)
    requires TotalOrder(cmp) && StrictlySorted(cmp, a) && StrictlySorted(cmp, b)
    ensures StrictlySorted(cmp, Items(Merge(cmp, a, b)))
    decreases |a| + |b|
  {
    if a != [] { SortedHead(cmp, a); }
    if b != [] { SortedHead(cmp, b); }
    match Classify(cmp, Head(a), Head(b))
    case OnlyLeft =>
      MergeSorted(cmp, a[1..], b);
      SortedConsMerge(cmp, Left, a[0], a[1..], b);
    case BothPeeked(Less) =>
      BelowHead(cmp, a[0], b);
      MergeSorted(cmp, a[1..], b);
      SortedConsMerge(cmp, Left, a[0], a[1..], b);
    case OnlyRight =>
      if b != [] {
        MergeSorted(cmp, a, b[1..]);
        SortedConsMerge(cmp, Right, b[0], a, b[1..]);
      }
    case BothPeeked(Greater) =>
      assert cmp(b[0], a[0]) == Less;
      BelowHead(cmp, b[0], a);
      MergeSorted(cmp, a, b[1..]);
      SortedConsMerge(cmp, Right, b[0], a, b[1..]);
    case BothPeeked(Equal) =>
      MergeSorted(cmp, a[1..], b[1..]);
      SortedConsMerge(cmp, Both, a[0], a[1..], b[1..]);
  }

  /** Putting back in front of the inputs an item that neither holds any more keeps the
      tags of the rest right, and the new first item's tag is right when it says where
      that item came from. */
  lemma TaggedConsMerge<T(!new)>(cmp: (T, T) -> Ordering, sel: SumIterSelector, x: T,
                                 a: seq<T>, b: seq<T>, a': seq<T>, b': seq<T>)
    requires TotalOrder(cmp)
    requires (a == a' || a == [x] + a') && (b == b' || b == [x] + b') && x !in a' && x !in b'
    requires TagIsOrigin(sel, x, a, b)
    requires forall i :: 0 <= i < |Merge(cmp, a', b')| ==>
      TagIsOrigin(Merge(cmp, a', b')[i].0, Merge(cmp, a', b')[i].1, a', b')
    ensures forall i :: 0 <= i < |[(sel, x)] + Merge(cmp, a', b')| ==>
      TagIsOrigin(([(sel, x)] + Merge(cmp, a', b'))[i].0, ([(sel, x)] + Merge(cmp, a', b'))[i].1, a, b)
  {
    var rest := Merge(cmp, a', b');
    var m := [(sel, x)] + rest;
    MergeMembers(cmp, a', b');
    forall i | 0 <= i < |m| ensures TagIsOrigin(m[i].0, m[i].1, a, b) {
      if i > 0 {
        var y := m[i].1;
        assert rest[i - 1] == m[i];
        assert y in Items(rest) by { assert Items(rest)[i - 1] == y; }
        assert y != x;
      }
    }
  }

  /** For strictly sorted inputs every item is tagged `Both` exactly when it is in both
      inputs, `Left` when it is only in the left one and `Right` when only in the right one. */
  lemma {:induction false} MergeTagged<T(!new)>(cmp: (T, T) -> Ordering, a: seq<T>, b: seq<T>)
    requires TotalOrder(cmp) && StrictlySorted(cmp, a) && StrictlySorted(cmp, b)
    ensures forall i :: 0 <= i < |Merge(cmp, a, b)| ==>
      TagIsOrigin(Merge(cmp, a, b)[i].0, Merge(cmp, a, b)[i].1, a, b)
    decreases |a| + |b|
  {
    if a != [] { SortedHead(cmp, a); assert a == [a[0]] + a[1..]; }
    if b != [] { SortedHead(cmp, b); assert b == [b[0]] + b[1..]; }
    match Classify(cmp, Head(a), Head(b))
    case OnlyLeft =>
      MergeTagged(cmp, a[1..], b);
      TaggedConsMerge(cmp, Left, a[0], a, b, a[1..], b);
    case BothPeeked(Less) =>
      BelowHead(cmp, a[0], b);
      MergeTagged(cmp, a[1..], b);
      TaggedConsMerge(cmp, Left, a[0], a, b, a[1..], b);
    case OnlyRight =>
      if b != [] {
        MergeTagged(cmp, a, b[1..]);
        TaggedConsMerge(cmp, Right, b[0], a, b, a, b[1..]);
      }
    case BothPeeked(Greater) =>
      assert cmp(b[0], a[0]) == Less;
      BelowHead(cmp, b[0], a);
      MergeTagged(cmp, a, b[1..]);
      TaggedConsMerge(cmp, Right, b[0], a, b, a, b[1..]);
    case BothPeeked(Equal) =>
      assert a[0] == b[0];
      MergeTagged(cmp, a[1..], b[1..]);
      TaggedConsMerge(cmp, Both, a[0], a, b, a[1..], b[1..]);
  }

  /** The output is at least as long as each input and at most as long as both together. */
  lemma {:induction false} MergeLengthBounds<T>(cmp: (T, T) -> Ordering, a: seq<T>, b: seq<T>)
    ensures Max(|a|, |b|) <= |Merge(cmp, a, b)| <= |a| + |b|
    decreases |a| + |b|
  {
    match Classify(cmp, Head(a), Head(b))
    case OnlyLeft => MergeLengthBounds(cmp, a[1..], b);
    case BothPeeked(Less) => MergeLengthBounds(cmp, a[1..], b);
    case OnlyRight => if b != [] { MergeLengthBounds(cmp, a, b[1..]); }
    case BothPeeked(Greater) => MergeLengthBounds(cmp, a, b[1..]);
    case BothPeeked(Equal) => MergeLengthBounds(cmp, a[1..], b[1..]);
  }

  ghost function Elements<T>(s: seq<T>): set<T> {
    set x | x in s
  }

  /** For strictly sorted inputs the output has |A| + |B| - |A ∩ B| items. */
  lemma ElementsTail<T>(s: seq<T>)
    requires s != []
    ensures Elements(s) == {s[0]} + Elements(s[1..])
  {
    assert s == [s[0]] + s[1..];
  }

  /** Dropping from `a` a head that `b` lacks leaves the common items unchanged. */
  lemma CommonWithoutHead<T>(a: seq<T>, b: seq<T>)
    requires a != [] && a[0] !in b
    ensures Elements(a) * Elements(b) == Elements(a[1..]) * Elements(b)
  {
    ElementsTail(a);
  }

  lemma CommonWithoutRightHead<T>(a: seq<T>, b: seq<T>)
    requires b != [] && b[0] !in a
    ensures Elements(a) * Elements(b) == Elements(a) * Elements(b[1..])
  {
    ElementsTail(b);
  }

  /** Dropping a common head that neither tail holds removes one common item. */
  lemma CommonWithoutSharedHead<T>(a: seq<T>, b: seq<T>)
    requires a != [] && b != [] && a[0] == b[0] && a[0] !in a[1..] && a[0] !in b[1..]
    ensures |Elements(a) * Elements(b)| == 1 + |Elements(a[1..]) * Elements(b[1..])|
  {
    ElementsTail(a);
    ElementsTail(b);
    var rest := Elements(a[1..]) * Elements(b[1..]);
    assert Elements(a) * Elements(b) == {a[0]} + rest;
    assert a[0] !in rest;
  }

  /** For strictly sorted inputs the output has |A| + |B| - |A ∩ B| items. */
  lemma {:induction false} MergeLength<T(!new)>(cmp: (T, T) -> Ordering, a: seq<T>, b: seq<T>)
    requires TotalOrder(cmp) && StrictlySorted(cmp, a) && StrictlySorted(cmp, b)
    ensures |Merge(cmp, a, b)| == |a| + |b| - |Elements(a) * Elements(b)|
    decreases |a| + |b|
  {
    if a != [] { SortedHead(cmp, a); }
    if b != [] { SortedHead(cmp, b); }
    match Classify(cmp, Head(a), Head(b))
    case OnlyLeft =>
      MergeLength(cmp, a[1..], b);
      CommonWithoutHead(a, b);
    case BothPeeked(Less) =>
      MergeLength(cmp, a[1..], b);
      BelowHead(cmp, a[0], b);
      CommonWithoutHead(a, b);
    case OnlyRight =>
      if b != [] {
        MergeLength(cmp, a, b[1..]);
        CommonWithoutRightHead(a, b);
        assert |Merge(cmp, a, b)| == 1 + |Merge(cmp, a, b[1..])|;
      }
    case BothPeeked(Greater) =>
      MergeLength(cmp, a, b[1..]);
      assert cmp(b[0], a[0]) == Less;
      BelowHead(cmp, b[0], a);
      CommonWithoutRightHead(a, b);
      assert |Merge(cmp, a, b)| == 1 + |Merge(cmp, a, b[1..])|;
    case BothPeeked(Equal) =>
      MergeLength(cmp, a[1..], b[1..]);
      assert a[0] == b[0] && a[0] !in a[1..];
      assert a[0] !in b[1..];
      CommonWithoutSharedHead(a, b);
  }

  /** `size_hint` of the sum, from the size hints of the two (peekable) inputs */
  function CombineSizeHints(lhs: SizeHint, rhs: SizeHint): SizeHint {
    SizeHint(Max(lhs.lower, rhs.lower),
             match (lhs.upper, rhs.upper)
             case (Some(l), Some(r)) => Some(l + r)
             case _ => None)
  }

  /** If the inputs' hints are right about the inputs, the combined hint is right about the sum. */
  lemma CombineSizeHintsSound<T>(cmp: (T, T) -> Ordering, a: seq<T>, b: seq<T>, lhs: SizeHint, rhs: SizeHint)
    requires Bounds(lhs, |a|) && Bounds(rhs, |b|)
    ensures Bounds(CombineSizeHints(lhs, rhs), |Merge(cmp, a, b)|)
    ensures CombineSizeHints(lhs, rhs).upper.Some? <==> lhs.upper.Some? && rhs.upper.Some?
  {
    MergeLengthBounds(cmp, a, b);
  }

  /** The example of the doc comment and of the unit test */
  lemma RudimentaryExample()
    ensures Merge(CmpInt, [2, 5, 9], [1, 7, 8, 9])
         == [(Right, 1), (Left, 2), (Left, 5), (Right, 7), (Right, 8), (Both, 9)]
  {
    assert [2, 5, 9][1..] == [5, 9] && [5, 9][1..] == [9] && [9][1..] == [];
    assert [1, 7, 8, 9][1..] == [7, 8, 9] && [7, 8, 9][1..] == [8, 9] && [8, 9][1..] == [9];
    assert Merge(CmpInt, [], []) == [];
    assert Merge(CmpInt, [9], [9]) == [(Both, 9)];
    assert Merge(CmpInt, [9], [8, 9]) == [(Right, 8), (Both, 9)];
    assert Merge(CmpInt, [9], [7, 8, 9]) == [(Right, 7), (Right, 8), (Both, 9)];
    assert Merge(CmpInt, [5, 9], [7, 8, 9]) == [(Left, 5), (Right, 7), (Right, 8), (Both, 9)];
    assert Merge(CmpInt, [2, 5, 9], [7, 8, 9]) == [(Left, 2), (Left, 5), (Right, 7), (Right, 8), (Both, 9)];
  }

  /** A `SumIter` over two inputs, each given by the items it has still to yield */
  class SumIter<T> {
    var lhsIter: seq<T>
    var rhsIter: seq<T>
    const cmp: (T, T) -> Ordering

    /** `SumIter::new`; the inputs are assumed unique and sorted by a total order `cmp`,
        an assumption that the lemmas above carry, not the iterator. */
    constructor (lhs: seq<T>, rhs: seq<T>, cmp: (T, T) -> Ordering)
      ensures lhsIter == lhs && rhsIter == rhs && this.cmp == cmp
    {
      lhsIter, rhsIter, this.cmp := lhs, rhs, cmp;
    }

    /** Everything this iterator is still to yield */
    ghost function Rest(): seq<(SumIterSelector, T)>
      reads this
    {
      Merge(cmp, lhsIter, rhsIter)
    }

    /** Advances both inputs and returns the left input's item. */
    method SkipRhsTakeLhs() returns (r: Option<T>)
      modifies this
      ensures r == Head(old(lhsIter))
      ensures lhsIter == (if old(lhsIter) == [] then [] else old(lhsIter)[1..])
      ensures rhsIter == (if old(rhsIter) == [] then [] else old(rhsIter)[1..])
    {
      if rhsIter != [] { rhsIter := rhsIter[1..]; }
      r := Head(lhsIter);
      if lhsIter != [] { lhsIter := lhsIter[1..]; }
    }

    method Next() returns (r: Option<(SumIterSelector, T)>)
      modifies this
      ensures r.None? <==> old(lhsIter) == [] && old(rhsIter) == []
      ensures r.None? ==> lhsIter == [] && rhsIter == []
      ensures r.Some? ==> old(Rest()) == [r.value] + Rest()
      ensures r.Some? && r.value.0 == Left ==>
        old(lhsIter) != [] && r.value.1 == old(lhsIter)[0] && lhsIter == old(lhsIter)[1..] && rhsIter == old(rhsIter)
      ensures r.Some? && r.value.0 == Right ==>
        old(rhsIter) != [] && r.value.1 == old(rhsIter)[0] && lhsIter == old(lhsIter) && rhsIter == old(rhsIter)[1..]
      ensures r.Some? && r.value.0 == Both ==>
        old(lhsIter) != [] && old(rhsIter) != [] && r.value.1 == old(lhsIter)[0] && lhsIter == old(lhsIter)[1..] && rhsIter == old(rhsIter)[1..]
    {
      var peek := Classify(cmp, Head(lhsIter), Head(rhsIter));
      match peek
      case OnlyLeft =>
        r := Wrap(Left, Head(lhsIter));
        lhsIter := lhsIter[1..];
      case BothPeeked(Less) =>
        r := Wrap(Left, Head(lhsIter));
        lhsIter := lhsIter[1..];
      case OnlyRight =>
        r := Wrap(Right, Head(rhsIter));
        if rhsIter != [] { rhsIter := rhsIter[1..]; }
      case BothPeeked(Greater) =>
        r := Wrap(Right, Head(rhsIter));
        rhsIter := rhsIter[1..];
      case BothPeeked(Equal) =>
        var v := SkipRhsTakeLhs();
        r := Wrap(Both, v);
    }

    /** `size_hint`, with the hints of the two inputs given */
    function SizeHint(lhsHint: SizeHint, rhsHint: SizeHint): (h: SizeHint)
      reads this
      requires Bounds(lhsHint, |lhsIter|) && Bounds(rhsHint, |rhsIter|)
      ensures Bounds(h, |Rest()|)
    {
      CombineSizeHintsSound(cmp, lhsIter, rhsIter, lhsHint, rhsHint);
      CombineSizeHints(lhsHint, rhsHint)
    }

    /** `Iterator::collect` (as in the unit test): drains the iterator. */
    method Collect() returns (out: seq<(SumIterSelector, T)>)
      modifies this
      ensures out == old(Rest())
      ensures lhsIter == [] && rhsIter == []
    {
      out := [];
      while true
        invariant out + Rest() == old(Rest())
        decreases |lhsIter| + |rhsIter|
      {
        var item := Next();
        if item.None? {
          assert Rest() == [];
          return;
        }
        AppendAssoc(out, [item.value], Rest());
        out := out + [item.value];
      }
    }
  }

  /** The unit test: [2, 5, 9] and [1, 7, 8, 9] sum to R1, L2, L5, R7, R8, Both9. */
  method Rudimentary() returns (sum: seq<(SumIterSelector, int)>)
    ensures sum == [(Right, 1), (Left, 2), (Left, 5), (Right, 7), (Right, 8), (Both, 9)]
  {
    var it := new SumIter([2, 5, 9], [1, 7, 8, 9], CmpInt);
    sum := it.Collect();
    RudimentaryExample();
  }
}
