/** `OkIter`: forwards the `Ok` values of an iterator of results and, on the first
    `Err`, stores it in a slot that the caller owns and stops. */
module OkIter {
  import opened Base

  /** The longest prefix of `s` made of `Ok`s, unwrapped */
  function OkPrefix<T, E>(s: seq<Result<T, E>>): (r: seq<T>)
    ensures |r| <= |s|
    ensures forall i :: 0 <= i < |r| ==> s[i] == Ok(r[i])
    ensures |r| < |s| ==> s[|r|].Err?
  {
    if s == [] || s[0].Err? then [] else [s[0].value] + OkPrefix(s[1..])
  }

  /** The first error in `s`, if there is one */
  function FirstErr<T, E>(s: seq<Result<T, E>>): (r: Option<E>)
    ensures r.None? <==> forall i :: 0 <= i < |s| ==> s[i].Ok?
    ensures r.Some? ==> |OkPrefix(s)| < |s| && s[|OkPrefix(s)|] == Err(r.value)
  {
    var n := |OkPrefix(s)|;
    if n < |s| then Some(s[n].error) else None
  }

  /** The contract of `OkPrefix` singles out one sequence: the longest `Ok` prefix. */
  lemma {:induction false} OkPrefixUnique<T, E>(s: seq<Result<T, E>>, r: seq<T>)
    requires |r| <= |s|
    requires forall i :: 0 <= i < |r| ==> s[i] == Ok(r[i])
    requires |r| < |s| ==> s[|r|].Err?
    ensures r == OkPrefix(s)
  {
    var p := OkPrefix(s);
    assert |p| == |r|;
    forall i | 0 <= i < |r| ensures r[i] == p[i] {
      assert s[i] == Ok(r[i]) && s[i] == Ok(p[i]);
    }
  }

  /** The variable whose `&mut` an `OkIter` holds */
  class Slot<E> {
    var value: Option<E>

    constructor ()
      ensures value.None?
    {
      value := None;
    }
  }

  class OkIter<T, E> {
    /** What the inner iterator is still to yield */
    var inner: seq<Result<T, E>>
    const err: Slot<E>

    /** `OkIter::new`; the slot is meant to be empty, which the iterator does not check. */
    constructor (inner: seq<Result<T, E>>, err: Slot<E>)
      ensures this.inner == inner && this.err == err
    {
      this.inner, this.err := inner, err;
    }

    /** Everything this iterator is still to yield */
    ghost function Rest(): seq<T>
      reads this, err
    {
      if err.value.Some? then [] else OkPrefix(inner)
    }

    method Next() returns (r: Option<T>)
      modifies this, err
      ensures old(err.value).Some? ==> r.None? && inner == old(inner) && err.value == old(err.value)
      ensures old(err.value).None? && old(inner) == [] ==> r.None? && inner == [] && err.value.None?
      ensures old(err.value).None? && old(inner) != [] ==> inner == old(inner)[1..]
      ensures old(err.value).None? && old(inner) != [] && old(inner)[0].Ok? ==>
        r == Some(old(inner)[0].value) && err.value.None?
      ensures old(err.value).None? && old(inner) != [] && old(inner)[0].Err? ==>
        r.None? && err.value == Some(old(inner)[0].error)
      ensures r.Some? ==> old(Rest()) == [r.value] + Rest()
      ensures r.None? ==> Rest() == [] && old(Rest()) == []
    {
      if err.value.Some? {
        return None;
      }
      if inner == [] {
        return None;
      }
      var item := inner[0];
      inner := inner[1..];
      match item
      case Ok(i) =>
        r := Some(i);
      case Err(e) =>
        err.value := Some(e);
        r := None;
    }

    /** `size_hint` */
    function SizeHint(): (h: SizeHint)
      reads this, err
      ensures Bounds(h, |Rest()|)
      ensures h.upper.Some? <==> err.value.Some?
    {
      if err.value.Some? then Base.SizeHint(0, Some(0)) else Base.SizeHint(0, None)
    }

    /** `Iterator::collect`: the longest `Ok` prefix, with the first error left in the slot */
    method Collect() returns (out: seq<T>)
      modifies this, err
      ensures out == old(Rest())
      ensures err.value == (if old(err.value).Some? then old(err.value) else FirstErr(old(inner)))
    {
      out := [];
      if err.value.Some? {
        return;
      }
      ghost var whole := inner;
      while true
        invariant out + Rest() == OkPrefix(whole)
        invariant err.value.None? ==> FirstErr(inner) == FirstErr(whole)
        invariant err.value.Some? ==> err.value == FirstErr(whole)
        decreases |inner| + (if err.value.None? then 1 else 0)
      {
        if err.value.None? && inner != [] {
          FirstErrCons(inner);
        }
        var item := Next();
        if item.None? {
          return;
        }
        AppendAssoc(out, [item.value], Rest());
        out := out + [item.value];
      }
    }
  }

  /** After an `Ok`, the first error is the one of the rest; an `Err` in front is the first. */
  lemma FirstErrCons<T, E>(s: seq<Result<T, E>>)
    requires s != []
    ensures s[0].Ok? ==> FirstErr(s[1..]) == FirstErr(s)
    ensures s[0].Err? ==> FirstErr(s) == Some(s[0].error)
  {
    if s[0].Ok? {
      assert OkPrefix(s) == [s[0].value] + OkPrefix(s[1..]);
      assert forall i :: 0 <= i < |s[1..]| ==> s[1..][i] == s[i + 1];
    }
  }

  /** The unit test: [Ok 4, Ok 27, Ok 1, Err 5, Ok 9, Err 500] gives [4, 27, 1] and the slot `Some(5)`. */
  method Rudimentary() returns (oked: seq<int>, err: Option<int>)
    ensures oked == [4, 27, 1] && err == Some(5)
  {
    var results: seq<Result<int, int>> := [Ok(4), Ok(27), Ok(1), Err(5), Ok(9), Err(500)];
    var slot := new Slot();
    var it := new OkIter(results, slot);
    oked := it.Collect();
    err := slot.value;
    assert OkPrefix(results) == [4, 27, 1] by {
      OkPrefixUnique(results, [4, 27, 1]);
    }
  }
}
