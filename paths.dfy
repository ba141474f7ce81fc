/** Total orders, the lexicographic extension of an order, and the order on paths
    that both directory traversals and the merge-join rely on (`cmp_paths`). */
module Paths {
  import opened Base

  /** A file name: the bytes of one path component (`OsStr`) */
  type Name = Bytes

  /** A path, as its sequence of components. A relative path yielded by a traversal is
      joined onto its root with `+` (`Path::join`). */
  type Path = seq<Name>

  /** `cmp` is a strict total order whose `Equal` is equality: the assumption that
      `SumIter::new` makes about its comparator. */
  ghost predicate TotalOrder<T(!new)>(cmp: (T, T) -> Ordering) {
    && (forall a, b :: cmp(a, b) == Equal <==> a == b)
    && (forall a, b :: cmp(b, a) == cmp(a, b).Reverse())
    && (forall a, b, c :: cmp(a, b) == Less && cmp(b, c) == Less ==> cmp(a, c) == Less)
  }

  /** Every earlier element is strictly smaller than every later one. */
  ghost predicate StrictlySorted<T>(cmp: (T, T) -> Ordering, s: seq<T>) {
    forall i, j :: 0 <= i < j < |s| ==> cmp(s[i], s[j]) == Less
  }

  /** The lexicographic extension of `cmp` to sequences (`Ord` on slices, and on
      `Path::components`). */
  function Lex<T>(cmp: (T, T) -> Ordering, a: seq<T>, b: seq<T>): Ordering
    decreases |a|
  {
    if a == [] then (if b == [] then Equal else Less)
    else if b == [] then Greater
    else match cmp(a[0], b[0])
      case Equal => Lex(cmp, a[1..], b[1..])
      case Less => Less
      case Greater => Greater
  }

  lemma {:induction false} LexEqual<T(!new)>(cmp: (T, T) -> Ordering, a: seq<T>, b: seq<T>)
    requires TotalOrder(cmp)
    ensures Lex(cmp, a, b) == Equal <==> a == b
    decreases |a|
  {
    if a != [] && b != [] {
      LexEqual(cmp, a[1..], b[1..]);
      if a[0] == b[0] && a[1..] == b[1..] {
        assert a == [a[0]] + a[1..] && b == [b[0]] + b[1..];
      }
    }
  }

  lemma {:induction false} LexReverse<T(!new)>(cmp: (T, T) -> Ordering, a: seq<T>, b: seq<T>)
    requires TotalOrder(cmp)
    ensures Lex(cmp, b, a) == Lex(cmp, a, b).Reverse()
    decreases |a|
  {
    if a != [] && b != [] {
      LexReverse(cmp, a[1..], b[1..]);
      assert cmp(b[0], a[0]) == cmp(a[0], b[0]).Reverse();
    }
  }

  lemma {:induction false} LexTransitive<T(!new)>(cmp: (T, T) -> Ordering, a: seq<T>, b: seq<T>, c: seq<T>)
    requires TotalOrder(cmp)
    requires Lex(cmp, a, b) == Less && Lex(cmp, b, c) == Less
    ensures Lex(cmp, a, c) == Less
    decreases |a|
  {
    if a != [] && c != [] {
      assert b != [];
      if cmp(a[0], b[0]) == Equal && cmp(b[0], c[0]) == Equal {
        LexTransitive(cmp, a[1..], b[1..], c[1..]);
      } else if cmp(a[0], b[0]) == Equal {
        assert a[0] == b[0];
      } else if cmp(b[0], c[0]) == Equal {
        assert b[0] == c[0];
      }
    }
  }

  /** The lexicographic extension of a total order is a total order. */
  lemma LexTotal<T(!new)>(cmp: (T, T) -> Ordering, lex: (seq<T>, seq<T>) -> Ordering)
    requires TotalOrder(cmp)
    requires forall a, b :: lex(a, b) == Lex(cmp, a, b)
    ensures TotalOrder(lex)
  {
    forall a, b ensures lex(a, b) == Equal <==> a == b {
      LexEqual(cmp, a, b);
    }
    forall a, b ensures lex(b, a) == lex(a, b).Reverse() {
      LexReverse(cmp, a, b);
    }
    forall a, b, c | lex(a, b) == Less && lex(b, c) == Less ensures lex(a, c) == Less {
      LexTransitive(cmp, a, b, c);
    }
  }

  /** Two sequences of equal length that compare `Less` keep comparing `Less`
      whatever is appended to them. */
  lemma {:induction false} LexAppend<T>(cmp: (T, T) -> Ordering, u: seq<T>, v: seq<T>, s: seq<T>, t: seq<T>)
    requires |u| == |v| && Lex(cmp, u, v) == Less
    ensures Lex(cmp, u + s, v + t) == Less
    decreases |u|
  {
    assert u != [];
    assert (u + s)[0] == u[0] && (v + t)[0] == v[0];
    if cmp(u[0], v[0]) == Equal {
      assert (u + s)[1..] == u[1..] + s && (v + t)[1..] == v[1..] + t;
      LexAppend(cmp, u[1..], v[1..], s, t);
    }
  }

  /** Behind a common prefix, the comparison is decided by what follows it. */
  lemma {:induction false} LexCommonPrefix<T(!new)>(cmp: (T, T) -> Ordering, p: seq<T>, s: seq<T>, t: seq<T>)
    requires TotalOrder(cmp)
    ensures Lex(cmp, p + s, p + t) == Lex(cmp, s, t)
    decreases |p|
  {
    if p != [] {
      assert (p + s)[0] == p[0] && (p + t)[0] == p[0];
      assert cmp(p[0], p[0]) == Equal;
      assert (p + s)[1..] == p[1..] + s && (p + t)[1..] == p[1..] + t;
      LexCommonPrefix(cmp, p[1..], s, t);
    } else {
      assert p + s == s && p + t == t;
    }
  }

  function CmpBytes(a: byte, b: byte): Ordering { CmpInt(a as int, b as int) }

  /** `Ord` on `OsStr`: byte-wise lexicographic comparison of file names */
  function CmpNames(a: Name, b: Name): Ordering { Lex(CmpBytes, a, b) }

  /** `Ord` on `Path`: component-wise lexicographic comparison */
  function CmpComponents(a: Path, b: Path): Ordering { Lex(CmpNames, a, b) }

  /** `cmp_paths`: fewer components first; equally many components are compared as paths. */
  function CmpPaths(a: Path, b: Path): (r: Ordering)
    ensures |a| < |b| ==> r == Less
    ensures |a| > |b| ==> r == Greater
    ensures |a| == |b| ==> r == CmpComponents(a, b)
  {
    match CmpInt(|a|, |b|)
    case Equal => CmpComponents(a, b)
    case o => o
  }

  lemma CmpBytesTotal()
    ensures TotalOrder(CmpBytes)
  {
  }

  lemma CmpNamesTotal()
    ensures TotalOrder(CmpNames)
  {
    CmpBytesTotal();
    LexTotal(CmpBytes, CmpNames);
  }

  lemma CmpComponentsTotal()
    ensures TotalOrder(CmpComponents)
  {
    CmpNamesTotal();
    LexTotal(CmpNames, CmpComponents);
  }

  /** `cmp_paths` is a total order, as `SumIter` requires of the order its inputs are sorted by. */
  lemma CmpPathsTotal()
    ensures TotalOrder(CmpPaths)
  {
    CmpComponentsTotal();
    forall a, b, c | CmpPaths(a, b) == Less && CmpPaths(b, c) == Less
      ensures CmpPaths(a, c) == Less
    {
      if |a| == |b| == |c| {
        assert CmpComponents(a, b) == Less && CmpComponents(b, c) == Less;
      }
    }
  }

  lemma NamesFacts(a: Name, b: Name)
    ensures (CmpNames(a, b) == Equal <==> a == b) && CmpNames(b, a) == CmpNames(a, b).Reverse()
  {
    CmpNamesTotal();
  }

  lemma NamesTransitive(a: Name, b: Name, c: Name)
    requires CmpNames(a, b) == Less && CmpNames(b, c) == Less
    ensures CmpNames(a, c) == Less
  {
    CmpNamesTotal();
  }

  lemma ComponentsTransitive(a: Path, b: Path, c: Path)
    requires CmpComponents(a, b) == Less && CmpComponents(b, c) == Less
    ensures CmpComponents(a, c) == Less
  {
    CmpComponentsTotal();
  }

  lemma PathsFacts(a: Path, b: Path)
    ensures (CmpPaths(a, b) == Equal <==> a == b) && CmpPaths(b, a) == CmpPaths(a, b).Reverse()
  {
    CmpPathsTotal();
  }

  lemma PathsTransitive(a: Path, b: Path, c: Path)
    requires CmpPaths(a, b) == Less && CmpPaths(b, c) == Less
    ensures CmpPaths(a, c) == Less
  {
    CmpPathsTotal();
  }

  /** Paths with equally many components compare as their (equally long) parents do,
      unless the parents are equal. */
  lemma SiblingsOrder(p: Path, x: Name, y: Name)
    ensures CmpPaths(p + [x], p + [y]) == CmpNames(x, y)
  {
    CmpNamesTotal();
    LexCommonPrefix(CmpNames, p, [x], [y]);
    assert Lex(CmpNames, [x], [y]) == CmpNames(x, y) by {
      assert [x][1..] == [] && [y][1..] == [];
    }
  }

  /** A path whose parent precedes, among paths as long, another path `q` precedes
      every child of `q`. */
  lemma CousinsOrder(parent: Path, x: Name, q: Path, y: Name)
    requires |parent| == |q| && CmpComponents(parent, q) == Less
    ensures CmpPaths(parent + [x], q + [y]) == Less
  {
    LexAppend(CmpNames, parent, q, [x], [y]);
  }

  function Parent(p: Path): Path
    requires |p| >= 1
  {
    p[..|p| - 1]
  }

  /** `Path::file_name`: the last component */
  function FileName(p: Path): Name
    requires |p| >= 1
  {
    p[|p| - 1]
  }
}
