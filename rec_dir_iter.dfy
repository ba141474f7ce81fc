/** `RecDirIter`: a breadth-first walk of a directory tree that yields the paths below
    the root, relative to it, in `cmp_paths` order, and stops for good after the first
    error, which it yields once. */
module RecDirIter {
  import opened Base
  import opened Paths
  import opened FileSystem
  import opened PercentEncode

  // ---------------------------------------------------------------------------------
  // Sorting by file name (`sort_by_cached_key` on `file_name`)

  ghost predicate NonRoot(s: seq<Path>) {
    forall i :: 0 <= i < |s| ==> |s[i]| >= 1
  }

  function Insert(x: Path, t: seq<Path>): (r: seq<Path>)
    requires |x| >= 1 && NonRoot(t)
    ensures multiset(r) == multiset(t) + multiset{x} && NonRoot(r)
    ensures forall y :: y in r <==> y == x || y in t
  {
    if t == [] then [x]
    else if CmpNames(FileName(x), FileName(t[0])) == Greater then
      var rest := Insert(x, t[1..]);
      assert t == [t[0]] + t[1..];
      NonRootCons(t[0], rest);
      [t[0]] + rest
    else
      NonRootCons(x, t);
      [x] + t
  }

  lemma NonRootCons(x: Path, t: seq<Path>)
    requires |x| >= 1 && NonRoot(t)
    ensures NonRoot([x] + t)
    ensures multiset([x] + t) == multiset(t) + multiset{x}
    ensures forall y :: y in [x] + t <==> y == x || y in t
  {
    forall i | 0 <= i < |[x] + t| ensures |([x] + t)[i]| >= 1 {
      if i > 0 {
        assert ([x] + t)[i] == t[i - 1];
      }
    }
  }

  /** The paths ordered by their last component (a stable insertion sort) */
  function SortByFileName(s: seq<Path>): (r: seq<Path>)
    requires NonRoot(s)
    ensures multiset(r) == multiset(s) && NonRoot(r)
    ensures forall y :: y in r <==> y in s
  {
    if s == [] then []
    else
      assert s == [s[0]] + s[1..];
      Insert(s[0], SortByFileName(s[1..]))
  }

  ghost predicate DistinctFileNames(s: seq<Path>) {
    NonRoot(s) && forall i, j :: 0 <= i < j < |s| ==> FileName(s[i]) != FileName(s[j])
  }

  ghost predicate StrictlySortedByName(s: seq<Path>) {
    NonRoot(s) && forall i, j :: 0 <= i < j < |s| ==> CmpNames(FileName(s[i]), FileName(s[j])) == Less
  }

  lemma SortedTail(s: seq<Path>)
    requires s != [] && StrictlySortedByName(s)
    ensures StrictlySortedByName(s[1..])
    ensures forall j :: 0 <= j < |s[1..]| ==> CmpNames(FileName(s[0]), FileName(s[1..][j])) == Less
  {
    forall i, j | 0 <= i < j < |s[1..]|
      ensures CmpNames(FileName(s[1..][i]), FileName(s[1..][j])) == Less
    {
      assert s[1..][i] == s[i + 1] && s[1..][j] == s[j + 1];
    }
    forall j | 0 <= j < |s[1..]| ensures CmpNames(FileName(s[0]), FileName(s[1..][j])) == Less {
      assert s[1..][j] == s[j + 1];
    }
  }

  lemma SortedCons(h: Path, s: seq<Path>)
    requires |h| >= 1 && StrictlySortedByName(s)
    requires forall j :: 0 <= j < |s| ==> CmpNames(FileName(h), FileName(s[j])) == Less
    ensures StrictlySortedByName([h] + s)
  {
    var r := [h] + s;
    NonRootCons(h, s);
    forall i, j | 0 <= i < j < |r| ensures CmpNames(FileName(r[i]), FileName(r[j])) == Less {
      assert r[j] == s[j - 1];
      if i > 0 {
        assert r[i] == s[i - 1];
      }
    }
  }

  lemma {:induction false} InsertSorted(x: Path, t: seq<Path>)
    requires |x| >= 1 && StrictlySortedByName(t)
    requires forall y :: y in t ==> FileName(y) != FileName(x)
    ensures StrictlySortedByName(Insert(x, t))
  {
    if t == [] {
      SortedCons(x, t);
    } else {
      var nx, n0 := FileName(x), FileName(t[0]);
      NamesFacts(nx, n0);
      SortedTail(t);
      if CmpNames(nx, n0) == Greater {
        var rest := Insert(x, t[1..]);
        InsertSorted(x, t[1..]);
        forall j | 0 <= j < |rest| ensures CmpNames(n0, FileName(rest[j])) == Less {
          var y := rest[j];
          assert y in rest;
          if y != x {
            var k :| 0 <= k < |t[1..]| && t[1..][k] == y;
          }
        }
        SortedCons(t[0], rest);
      } else {
        assert t[0] in t;
        forall j | 0 <= j < |t| ensures CmpNames(nx, FileName(t[j])) == Less {
          if j > 0 {
            assert t[j] == t[1..][j - 1];
            NamesTransitive(nx, n0, FileName(t[j]));
          }
        }
        SortedCons(x, t);
      }
    }
  }

  /** Sorting paths with distinct file names orders them strictly by file name. */
  lemma {:induction false} SortSorted(s: seq<Path>)
    requires DistinctFileNames(s)
    ensures StrictlySortedByName(SortByFileName(s))
  {
    if s != [] {
      var rest := SortByFileName(s[1..]);
      SortSorted(s[1..]);
      forall y | y in rest ensures FileName(y) != FileName(s[0]) {
        var k :| 0 <= k < |s[1..]| && s[1..][k] == y;
        assert s[k + 1] == y;
      }
      InsertSorted(s[0], rest);
    }
  }

  // ---------------------------------------------------------------------------------
  // Expanding one directory (`try_append_dir_elems`)

  predicate AllOk(es: seq<DirEntry>) {
    forall i :: 0 <= i < |es| ==> es[i].EntryOk?
  }

  /** The error of the first failing entry */
  function FirstEntryError(es: seq<DirEntry>): (e: IoError)
    requires !AllOk(es)
  {
    if es[0].EntryErr? then es[0].error else FirstEntryError(es[1..])
  }

  lemma {:induction false} FirstEntryErrorAt(es: seq<DirEntry>, i: nat)
    requires i < |es| && AllOk(es[..i]) && es[i].EntryErr?
    ensures !AllOk(es) && FirstEntryError(es) == es[i].error
  {
    if i > 0 {
      assert es[0] == es[..i][0];
      assert es[1..][..i - 1] == es[..i][1..];
      FirstEntryErrorAt(es[1..], i - 1);
    }
  }

  /** The relative paths of the entries of directory `d` */
  function Children(d: Path, es: seq<DirEntry>): (r: seq<Path>)
    requires AllOk(es)
    ensures |r| == |es| && forall i :: 0 <= i < |es| ==> r[i] == d + [es[i].name]
  {
    seq(|es|, i requires 0 <= i < |es| => d + [es[i].name])
  }

  /** What `try_append_dir_elems` appends to the queue for `top.join(d)`, or the error it
      returns (in which case it appends nothing). A symlink is not followed: only an
      entry whose own metadata says directory is listed. */
  function Expand(fs: Fs, top: Path, d: Path): IoResult<seq<Path>> {
    match SymlinkMetadata(fs, top + d)
    case Err(e) => Err(e)
    case Ok(m) =>
      if !m.fileType.isDir then Ok([])
      else match ReadDir(fs, top + d)
        case Err(e) => Err(e)
        case Ok(es) =>
          if AllOk(es) then
            assert NonRoot(Children(d, es));
            Ok(SortByFileName(Children(d, es)))
          else Err(FirstEntryError(es))
  }

  /** `p` is named in the listing of its parent directory. */
  ghost predicate Listed(fs: Fs, top: Path, p: Path) {
    && |p| >= 1
    && top + Parent(p) in fs
    && fs[top + Parent(p)].Present?
    && fs[top + Parent(p)].node.Directory?
    && fs[top + Parent(p)].node.listing.Entries?
    && EntryOk(FileName(p)) in fs[top + Parent(p)].node.listing.entries
  }

  /** `p` is a directory whose listing names `n` */
  ghost predicate ListsEntry(fs: Fs, top: Path, p: Path, n: Name) {
    && top + p in fs
    && fs[top + p].Present?
    && fs[top + p].node.Directory?
    && fs[top + p].node.listing.Entries?
    && EntryOk(n) in fs[top + p].node.listing.entries
  }

  lemma ChildrenFacts(fs: Fs, top: Path, d: Path, es: seq<DirEntry>)
    requires WellFormed(fs) && ReadDir(fs, top + d) == Ok(es) && AllOk(es)
    ensures DistinctFileNames(Children(d, es))
    ensures forall k :: k in Children(d, es) ==> |k| == |d| + 1 && Parent(k) == d && Listed(fs, top, k)
    ensures forall n :: EntryOk(n) in es ==> d + [n] in Children(d, es)
  {
    var cs := Children(d, es);
    forall i, j | 0 <= i < j < |cs| ensures FileName(cs[i]) != FileName(cs[j]) {
      assert FileName(cs[i]) == es[i].name && FileName(cs[j]) == es[j].name;
    }
    forall k | k in cs ensures |k| == |d| + 1 && Parent(k) == d && Listed(fs, top, k) {
      var i :| 0 <= i < |cs| && cs[i] == k;
      assert Parent(k) == d && FileName(k) == es[i].name;
      assert es[i] in es;
    }
    forall n | EntryOk(n) in es ensures d + [n] in cs {
      var i :| 0 <= i < |es| && es[i] == EntryOk(n);
      assert cs[i] == d + [n];
    }
  }

  lemma SiblingsSorted(d: Path, kids: seq<Path>)
    requires StrictlySortedByName(kids)
    requires forall k :: k in kids ==> |k| == |d| + 1 && Parent(k) == d
    ensures StrictlySorted(CmpPaths, kids)
  {
    forall i, j | 0 <= i < j < |kids| ensures CmpPaths(kids[i], kids[j]) == Less {
      var a, b := kids[i], kids[j];
      assert a in kids && b in kids;
      assert a == d + [FileName(a)] && b == d + [FileName(b)];
      SiblingsOrder(d, FileName(a), FileName(b));
    }
  }

  /** The children of `d`: one level deeper, below `d`, named in its listing, strictly
      ordered; every name of the listing is among them; nothing for a non-directory. */
  lemma ExpandChildren(fs: Fs, top: Path, d: Path)
    requires WellFormed(fs) && Expand(fs, top, d).Ok?
    ensures var kids := Expand(fs, top, d).value;
      && top + d in fs && fs[top + d].Present?
      && (forall k :: k in kids ==> |k| == |d| + 1 && Parent(k) == d && Listed(fs, top, k))
      && StrictlySorted(CmpPaths, kids)
      && (forall n :: ListsEntry(fs, top, d, n) ==> d + [n] in kids)
      && (!fs[top + d].node.Directory? ==> kids == [])
  {
    var kids := Expand(fs, top, d).value;
    if fs[top + d].node.Directory? {
      var es := ReadDir(fs, top + d).value;
      var cs := Children(d, es);
      assert kids == SortByFileName(cs);
      ChildrenFacts(fs, top, d, es);
      SortSorted(cs);
      SiblingsSorted(d, kids);
    }
  }

  /** `try_append_dir_elems`: the queue extended with the sorted children of `dir`, or
      left as it was together with the error met. */
  method TryAppendDirElems(fs: Fs, dst: seq<Path>, top: Path, dir: Path) returns (out: seq<Path>, r: IoResult<()>)
    ensures r.Ok? <==> Expand(fs, top, dir).Ok?
    ensures r.Ok? ==> out == dst + Expand(fs, top, dir).value
    ensures r.Err? ==> out == dst && r.error == Expand(fs, top, dir).error
  {
    var fullPrefix := top + dir;
    var metadata := SymlinkMetadata(fs, fullPrefix);
    if metadata.Err? {
      return dst, Err(metadata.error);
    }
    if !metadata.value.fileType.isDir {
      return dst, Ok(());
    }
    var listing := ReadDir(fs, fullPrefix);
    if listing.Err? {
      return dst, Err(listing.error);
    }
    var es := listing.value;
    var elems: seq<Path> := [];
    var i := 0;
    while i < |es|
      invariant 0 <= i <= |es| && AllOk(es[..i])
      invariant elems == Children(dir, es[..i])
    {
      match es[i]
      case EntryErr(e) =>
        FirstEntryErrorAt(es, i);
        return dst, Err(e);
      case EntryOk(name) =>
        elems := elems + [dir + [name]];
      assert es[..i + 1] == es[..i] + [es[i]];
      i := i + 1;
    }
    assert es[..i] == es;
    elems := SortByFileName(elems);
    out, r := dst + elems, Ok(());
  }

  /** `annotate_error`: the same kind, described as "reading directory " and the
      percent-encoded path */
  function AnnotateError(p: Path, e: IoError): (r: IoError)
    ensures r.kind == e.kind
    ensures |r.description| >= 18 && r.description[..18] == Ascii("reading directory ")
    ensures r.description[18..] == EncodePath(p)
  {
    IoError(e.kind, Ascii("reading directory ") + EncodePath(p))
  }

  // ---------------------------------------------------------------------------------
  // The queue and what is left to yield

  /** The breadth-first shape of the queue: strictly increasing in `cmp_paths`, every path
      at the level of the front or one below it, and a path one below has a parent that
      precedes the front. */
  ghost predicate QueueOrdered(q: seq<Path>) {
    && StrictlySorted(CmpPaths, q)
    && (forall i :: 0 <= i < |q| ==> |q[i]| >= 1)
    && (forall i :: 0 <= i < |q| ==>
          |q[i]| == |q[0]| || (|q[i]| == |q[0]| + 1 && CmpComponents(Parent(q[i]), q[0]) == Less))
  }

  ghost predicate AllListed(fs: Fs, top: Path, q: seq<Path>) {
    forall i :: 0 <= i < |q| ==> Listed(fs, top, q[i])
  }

  ghost predicate Inv(fs: Fs, top: Path, q: seq<Path>, err: Option<IoError>) {
    WellFormed(fs) && (err.None? ==> QueueOrdered(q) && AllListed(fs, top, q))
  }

  ghost predicate ChildrenOfFront(q: seq<Path>, kids: seq<Path>)
    requires q != []
  {
    forall k :: k in kids ==> |k| == |q[0]| + 1 && Parent(k) == q[0]
  }

  lemma {:induction false} PopKeepsSorted(q: seq<Path>, kids: seq<Path>)
    requires q != [] && QueueOrdered(q) && ChildrenOfFront(q, kids) && StrictlySorted(CmpPaths, kids)
    ensures StrictlySorted(CmpPaths, q[1..] + kids)
  {
    var p, t := q[0], q[1..];
    var q' := t + kids;
    forall i, j | 0 <= i < j < |q'| ensures CmpPaths(q'[i], q'[j]) == Less {
      if j < |t| {
        assert q'[i] == q[i + 1] && q'[j] == q[j + 1];
      } else if i >= |t| {
        assert q'[i] == kids[i - |t|] && q'[j] == kids[j - |t|];
      } else {
        assert q'[i] == q[i + 1] && q'[j] == kids[j - |t|] && kids[j - |t|] in kids;
        QueuedBeforeKid(q, kids, i + 1, kids[j - |t|]);
      }
    }
  }

  /** A path still queued behind the front precedes every child of the front. */
  lemma QueuedBeforeKid(q: seq<Path>, kids: seq<Path>, a: int, k: Path)
    requires q != [] && QueueOrdered(q) && ChildrenOfFront(q, kids)
    requires 1 <= a < |q| && k in kids
    ensures CmpPaths(q[a], k) == Less
  {
    var p, e := q[0], q[a];
    if |e| != |p| {
      assert e == Parent(e) + [FileName(e)] && k == p + [FileName(k)];
      CousinsOrder(Parent(e), FileName(e), p, FileName(k));
    }
  }

  lemma {:induction false} PopKeepsLevels(q: seq<Path>, kids: seq<Path>)
    requires q != [] && QueueOrdered(q) && ChildrenOfFront(q, kids)
    requires q[1..] + kids != []
    ensures var q' := q[1..] + kids;
      forall i :: 0 <= i < |q'| ==>
        |q'[i]| >= 1 &&
        (|q'[i]| == |q'[0]| || (|q'[i]| == |q'[0]| + 1 && CmpComponents(Parent(q'[i]), q'[0]) == Less))
  {
    var p, t := q[0], q[1..];
    var q' := t + kids;
    var f := q'[0];
    forall i | 0 <= i < |q'|
      ensures |q'[i]| >= 1 && (|q'[i]| == |f| || (|q'[i]| == |f| + 1 && CmpComponents(Parent(q'[i]), f) == Less))
    {
      if i >= |t| {
        assert q'[i] in kids;
        if t != [] {
          assert f == q[1];
          assert CmpPaths(p, f) == Less;
        } else {
          assert f in kids;
        }
      } else {
        var e := q[i + 1];
        assert q'[i] == e && f == q[1];
        assert CmpPaths(p, f) == Less;
        if |f| == |p| {
          if |e| != |f| {
            ComponentsTransitive(Parent(e), p, f);
          }
        } else if i > 0 {
          assert CmpPaths(f, e) == Less;
        }
      }
    }
  }

  /** Popping the front and appending its children keeps the queue's shape, and the new
      front comes after the old one. */
  lemma ExpandKeepsOrder(q: seq<Path>, kids: seq<Path>)
    requires q != [] && QueueOrdered(q)
    requires forall k :: k in kids ==> |k| == |q[0]| + 1 && Parent(k) == q[0]
    requires StrictlySorted(CmpPaths, kids)
    ensures QueueOrdered(q[1..] + kids)
    ensures q[1..] + kids != [] ==> CmpPaths(q[0], (q[1..] + kids)[0]) == Less
  {
    PopKeepsSorted(q, kids);
    var q' := q[1..] + kids;
    if q' != [] {
      PopKeepsLevels(q, kids);
      if |q| > 1 {
        assert q'[0] == q[1];
      } else {
        assert q'[0] in kids;
      }
    }
  }

  /** Joining onto a common root keeps the order of relative paths. */
  lemma JoinKeepsOrder(top: Path, a: Path, b: Path)
    ensures CmpPaths(top + a, top + b) == CmpPaths(a, b)
  {
    CmpNamesTotal();
    LexCommonPrefix(CmpNames, top, a, b);
  }

  /** The keys of the filesystem at or after `x` in `cmp_paths` order */
  ghost function KeysFrom(fs: Fs, x: Path): set<Path> {
    set k | k in fs && CmpPaths(k, x) != Less
  }

  /** The traversal's measure: the keys not yet passed by the front of the queue */
  ghost function Measure(fs: Fs, top: Path, q: seq<Path>): nat {
    if q == [] then 0 else |KeysFrom(fs, top + q[0])|
  }

  lemma ProperSubsetSmaller<T>(a: set<T>, b: set<T>, x: T)
    requires a <= b && x in b && x !in a
    ensures |a| < |b|
  {
    assert a <= b - {x};
    assert |b - {x}| == |b| - 1;
    SubsetNotLarger(a, b - {x});
  }

  lemma {:induction false} SubsetNotLarger<T>(a: set<T>, b: set<T>)
    requires a <= b
    ensures |a| <= |b|
    decreases |b|
  {
    if a != {} {
      var y :| y in a;
      SubsetNotLarger(a - {y}, b - {y});
    }
  }

  lemma MeasureDrops(fs: Fs, x: Path, y: Path)
    requires x in fs && CmpPaths(x, y) == Less
    ensures |KeysFrom(fs, y)| < |KeysFrom(fs, x)|
  {
    PathsFacts(x, x);
    PathsFacts(x, y);
    forall k | k in KeysFrom(fs, y) ensures k in KeysFrom(fs, x) {
      if CmpPaths(k, x) == Less {
        PathsTransitive(k, x, y);
      }
    }
    ProperSubsetSmaller(KeysFrom(fs, y), KeysFrom(fs, x), x);
  }

  lemma ListedAfterPop(fs: Fs, top: Path, q: seq<Path>, kids: seq<Path>)
    requires q != [] && AllListed(fs, top, q) && forall k :: k in kids ==> Listed(fs, top, k)
    ensures AllListed(fs, top, q[1..] + kids)
  {
    var q' := q[1..] + kids;
    forall i | 0 <= i < |q'| ensures Listed(fs, top, q'[i]) {
      if i < |q| - 1 { assert q'[i] == q[i + 1]; } else { assert q'[i] in kids; }
    }
  }

  /** The front advancing within the queue lowers the measure. */
  lemma MeasureAdvances(fs: Fs, top: Path, q: seq<Path>, q': seq<Path>)
    requires q != [] && top + q[0] in fs
    requires q' != [] ==> CmpPaths(q[0], q'[0]) == Less
    ensures Measure(fs, top, q') < Measure(fs, top, q)
  {
    var x := top + q[0];
    if q' != [] {
      JoinKeepsOrder(top, q[0], q'[0]);
      MeasureDrops(fs, x, top + q'[0]);
    } else {
      PathsFacts(x, x);
      assert x in KeysFrom(fs, x);
    }
  }

  /** One step of the traversal keeps the invariant and lowers the measure. */
  lemma Step(fs: Fs, top: Path, q: seq<Path>)
    requires Inv(fs, top, q, None) && q != [] && Expand(fs, top, q[0]).Ok?
    ensures Inv(fs, top, q[1..] + Expand(fs, top, q[0]).value, None)
    ensures Measure(fs, top, q[1..] + Expand(fs, top, q[0]).value) < Measure(fs, top, q)
    ensures var q' := q[1..] + Expand(fs, top, q[0]).value; q' != [] ==> CmpPaths(q[0], q'[0]) == Less
  {
    ExpandChildren(fs, top, q[0]);
    StepKids(fs, top, q, Expand(fs, top, q[0]).value);
  }

  /** `Step` for a front whose children, in order, are `kids` */
  lemma StepKids(fs: Fs, top: Path, q: seq<Path>, kids: seq<Path>)
    requires Inv(fs, top, q, None) && q != [] && top + q[0] in fs
    requires forall k :: k in kids ==> |k| == |q[0]| + 1 && Parent(k) == q[0] && Listed(fs, top, k)
    requires StrictlySorted(CmpPaths, kids)
    ensures Inv(fs, top, q[1..] + kids, None)
    ensures Measure(fs, top, q[1..] + kids) < Measure(fs, top, q)
    ensures q[1..] + kids != [] ==> CmpPaths(q[0], (q[1..] + kids)[0]) == Less
  {
    ExpandKeepsOrder(q, kids);
    ListedAfterPop(fs, top, q, kids);
    MeasureAdvances(fs, top, q, q[1..] + kids);
  }

  /** Everything that an iterator with queue `q` and latched error `err` yields from now on */
  ghost function Remaining(fs: Fs, top: Path, q: seq<Path>, err: Option<IoError>): seq<IoResult<Path>>
    requires Inv(fs, top, q, err)
    decreases Measure(fs, top, q)
  {
    if err.Some? then [Err(err.value)]
    else if q == [] then []
    else match Expand(fs, top, q[0])
      case Err(e) => [Ok(q[0]), Err(AnnotateError(top + q[0], e))]
      case Ok(kids) =>
        Step(fs, top, q);
        [Ok(q[0])] + Remaining(fs, top, q[1..] + kids, None)
  }

  /** `Remaining` after a successful expansion of the front */
  lemma RemainingStep(fs: Fs, top: Path, q: seq<Path>)
    requires Inv(fs, top, q, None) && q != [] && Expand(fs, top, q[0]).Ok?
    ensures Inv(fs, top, q[1..] + Expand(fs, top, q[0]).value, None)
    ensures Measure(fs, top, q[1..] + Expand(fs, top, q[0]).value) < Measure(fs, top, q)
    ensures var q' := q[1..] + Expand(fs, top, q[0]).value; q' != [] ==> CmpPaths(q[0], q'[0]) == Less
    ensures Remaining(fs, top, q, None) == [Ok(q[0])] + Remaining(fs, top, q[1..] + Expand(fs, top, q[0]).value, None)
  {
    Step(fs, top, q);
  }

  ghost predicate OkBeforeLast(r: seq<IoResult<Path>>) {
    forall i :: 0 <= i < |r| - 1 ==> r[i].Ok?
  }

  ghost predicate OksListed(fs: Fs, top: Path, r: seq<IoResult<Path>>) {
    forall i :: 0 <= i < |r| && r[i].Ok? ==> Listed(fs, top, r[i].value)
  }

  ghost predicate OksFrom(p: Path, r: seq<IoResult<Path>>) {
    forall i :: 0 <= i < |r| && r[i].Ok? ==> r[i].value == p || CmpPaths(p, r[i].value) == Less
  }

  ghost predicate OksSorted(r: seq<IoResult<Path>>) {
    forall i, j :: 0 <= i < j < |r| && r[i].Ok? && r[j].Ok? ==> CmpPaths(r[i].value, r[j].value) == Less
  }

  // Each property of `Remaining` below is carried from the rest of the walk to the walk
  // with its front by one of these lemmas about sequences alone.

  lemma OkBeforeLastCons(p: Path, r: seq<IoResult<Path>>)
    requires OkBeforeLast(r)
    ensures OkBeforeLast([Ok(p)] + r)
  {
    forall i | 0 <= i < |[Ok(p)] + r| - 1 ensures ([Ok(p)] + r)[i].Ok? {
      if i > 0 { assert ([Ok(p)] + r)[i] == r[i - 1]; }
    }
  }

  lemma OksListedCons(fs: Fs, top: Path, p: Path, r: seq<IoResult<Path>>)
    requires Listed(fs, top, p) && OksListed(fs, top, r)
    ensures OksListed(fs, top, [Ok(p)] + r)
  {
    forall i | 0 <= i < |[Ok(p)] + r| && ([Ok(p)] + r)[i].Ok? ensures Listed(fs, top, ([Ok(p)] + r)[i].value) {
      if i > 0 { assert ([Ok(p)] + r)[i] == r[i - 1]; }
    }
  }

  lemma OksFromCons(p: Path, p': Path, r: seq<IoResult<Path>>)
    requires CmpPaths(p, p') == Less && OksFrom(p', r)
    ensures OksFrom(p, [Ok(p)] + r)
  {
    forall i | 0 <= i < |[Ok(p)] + r| && ([Ok(p)] + r)[i].Ok?
      ensures ([Ok(p)] + r)[i].value == p || CmpPaths(p, ([Ok(p)] + r)[i].value) == Less
    {
      if i > 0 {
        assert ([Ok(p)] + r)[i] == r[i - 1];
        if r[i - 1].value != p' {
          PathsTransitive(p, p', r[i - 1].value);
        }
      }
    }
  }

  lemma OksSortedCons(p: Path, p': Path, r: seq<IoResult<Path>>)
    requires CmpPaths(p, p') == Less && OksFrom(p', r) && OksSorted(r)
    ensures OksSorted([Ok(p)] + r)
  {
    var r0 := [Ok(p)] + r;
    forall i, j | 0 <= i < j < |r0| && r0[i].Ok? && r0[j].Ok? ensures CmpPaths(r0[i].value, r0[j].value) == Less {
      assert r0[j] == r[j - 1];
      if i > 0 {
        assert r0[i] == r[i - 1];
      } else if r[j - 1].value != p' {
        PathsTransitive(p, p', r[j - 1].value);
      }
    }
  }

  lemma NoErrorTail(p: Path, r: seq<IoResult<Path>>)
    requires NoError([Ok(p)] + r)
    ensures NoError(r)
  {
    forall i | 0 <= i < |r| ensures r[i].Ok? { assert r[i] == ([Ok(p)] + r)[i + 1]; }
  }

  lemma QueueYielded(q: seq<Path>, kids: seq<Path>, r: seq<IoResult<Path>>)
    requires q != [] && forall x :: x in q[1..] + kids ==> Ok(x) in r
    ensures forall x :: x in q ==> Ok(x) in [Ok(q[0])] + r
  {
    forall x | x in q ensures Ok(x) in [Ok(q[0])] + r {
      if x != q[0] {
        var i :| 0 <= i < |q| && q[i] == x;
        assert (q[1..] + kids)[i - 1] == x;
      }
    }
  }

  /** Only the last item yielded can be an error. */
  lemma {:induction false} ErrorOnlyLast(fs: Fs, top: Path, q: seq<Path>, err: Option<IoError>)
    requires Inv(fs, top, q, err)
    ensures OkBeforeLast(Remaining(fs, top, q, err))
    decreases Measure(fs, top, q)
  {
    if err.None? && q != [] && Expand(fs, top, q[0]).Ok? {
      var q' := q[1..] + Expand(fs, top, q[0]).value;
      RemainingStep(fs, top, q);
      ErrorOnlyLast(fs, top, q', None);
      OkBeforeLastCons(q[0], Remaining(fs, top, q', None));
    }
  }

  /** Every path yielded is named in its parent's listing, so the root is never yielded. */
  lemma {:induction false} YieldsListed(fs: Fs, top: Path, q: seq<Path>, err: Option<IoError>)
    requires Inv(fs, top, q, err)
    ensures OksListed(fs, top, Remaining(fs, top, q, err))
    decreases Measure(fs, top, q)
  {
    if err.None? && q != [] {
      assert Listed(fs, top, q[0]);
      if Expand(fs, top, q[0]).Ok? {
        var q' := q[1..] + Expand(fs, top, q[0]).value;
        RemainingStep(fs, top, q);
        YieldsListed(fs, top, q', None);
        OksListedCons(fs, top, q[0], Remaining(fs, top, q', None));
      }
    }
  }

  /** Every path yielded is the front of the queue or comes after it. */
  lemma {:induction false} YieldsFromFront(fs: Fs, top: Path, q: seq<Path>)
    requires Inv(fs, top, q, None) && q != []
    ensures OksFrom(q[0], Remaining(fs, top, q, None))
    decreases Measure(fs, top, q)
  {
    if Expand(fs, top, q[0]).Err? {
      FrontFailsYieldsFront(fs, top, q);
    } else {
      var q' := q[1..] + Expand(fs, top, q[0]).value;
      RemainingStep(fs, top, q);
      if q' != [] {
        YieldsFromFront(fs, top, q');
        OksFromCons(q[0], q'[0], Remaining(fs, top, q', None));
      }
    }
  }

  /** A front that fails to expand is yielded, followed by its error. */
  lemma FrontFailsYieldsFront(fs: Fs, top: Path, q: seq<Path>)
    requires Inv(fs, top, q, None) && q != [] && Expand(fs, top, q[0]).Err?
    ensures OksFrom(q[0], Remaining(fs, top, q, None))
  {
    var r := Remaining(fs, top, q, None);
    assert r == [Ok(q[0]), Err(AnnotateError(top + q[0], Expand(fs, top, q[0]).error))];
  }

  /** The paths are yielded in strictly increasing `cmp_paths` order. */
  lemma {:induction false} YieldsSorted(fs: Fs, top: Path, q: seq<Path>, err: Option<IoError>)
    requires Inv(fs, top, q, err)
    ensures OksSorted(Remaining(fs, top, q, err))
    decreases Measure(fs, top, q)
  {
    if err.None? && q != [] && Expand(fs, top, q[0]).Ok? {
      var q' := q[1..] + Expand(fs, top, q[0]).value;
      RemainingStep(fs, top, q);
      if q' != [] {
        YieldsSorted(fs, top, q', None);
        YieldsFromFront(fs, top, q');
        OksSortedCons(q[0], q'[0], Remaining(fs, top, q', None));
      }
    }
  }

  ghost predicate NoError(r: seq<IoResult<Path>>) {
    forall i :: 0 <= i < |r| ==> r[i].Ok?
  }

  lemma ExpandFailureYieldsError(fs: Fs, top: Path, q: seq<Path>)
    requires Inv(fs, top, q, None) && q != [] && Expand(fs, top, q[0]).Err?
    ensures !NoError(Remaining(fs, top, q, None))
  {
    assert Remaining(fs, top, q, None)[1].Err?;
  }

  /** Without an error, every queued path is yielded. */
  lemma {:induction false} YieldsQueue(fs: Fs, top: Path, q: seq<Path>)
    requires Inv(fs, top, q, None) && NoError(Remaining(fs, top, q, None))
    ensures forall x :: x in q ==> Ok(x) in Remaining(fs, top, q, None)
    decreases Measure(fs, top, q)
  {
    if q != [] {
      NoErrorAfterFront(fs, top, q);
      var kids := Expand(fs, top, q[0]).value;
      RemainingStep(fs, top, q);
      YieldsQueue(fs, top, q[1..] + kids);
      QueueYielded(q, kids, Remaining(fs, top, q[1..] + kids, None));
    }
  }

  ghost predicate Closed(fs: Fs, top: Path, r: seq<IoResult<Path>>) {
    forall p, n :: Ok(p) in r && ListsEntry(fs, top, p, n) ==> Ok(p + [n]) in r
  }

  lemma ClosedCons(fs: Fs, top: Path, p0: Path, r: seq<IoResult<Path>>)
    requires Closed(fs, top, r)
    requires forall n :: ListsEntry(fs, top, p0, n) ==> Ok(p0 + [n]) in r
    ensures Closed(fs, top, [Ok(p0)] + r)
  {
  }

  lemma NoErrorAfterFront(fs: Fs, top: Path, q: seq<Path>)
    requires Inv(fs, top, q, None) && q != [] && NoError(Remaining(fs, top, q, None))
    ensures Expand(fs, top, q[0]).Ok?
    ensures Inv(fs, top, q[1..] + Expand(fs, top, q[0]).value, None)
    ensures NoError(Remaining(fs, top, q[1..] + Expand(fs, top, q[0]).value, None))
  {
    if Expand(fs, top, q[0]).Err? {
      ExpandFailureYieldsError(fs, top, q);
      assert false;
    }
    RemainingStep(fs, top, q);
    NoErrorTail(q[0], Remaining(fs, top, q[1..] + Expand(fs, top, q[0]).value, None));
  }

  lemma ChildrenYielded(fs: Fs, top: Path, q: seq<Path>)
    requires Inv(fs, top, q, None) && q != [] && Expand(fs, top, q[0]).Ok?
    requires Inv(fs, top, q[1..] + Expand(fs, top, q[0]).value, None)
    requires NoError(Remaining(fs, top, q[1..] + Expand(fs, top, q[0]).value, None))
    ensures forall n :: ListsEntry(fs, top, q[0], n) ==>
      Ok(q[0] + [n]) in Remaining(fs, top, q[1..] + Expand(fs, top, q[0]).value, None)
  {
    var q' := q[1..] + Expand(fs, top, q[0]).value;
    ExpandChildren(fs, top, q[0]);
    YieldsQueue(fs, top, q');
    forall n | ListsEntry(fs, top, q[0], n) ensures Ok(q[0] + [n]) in Remaining(fs, top, q', None) {
      assert q[0] + [n] in q';
    }
  }

  /** Without an error, the walk is complete: every entry listed by a directory yielded is
      yielded as well. */
  lemma {:induction false} YieldsClosed(fs: Fs, top: Path, q: seq<Path>)
    requires Inv(fs, top, q, None) && NoError(Remaining(fs, top, q, None))
    ensures Closed(fs, top, Remaining(fs, top, q, None))
    decreases Measure(fs, top, q)
  {
    if q != [] {
      NoErrorAfterFront(fs, top, q);
      var q' := q[1..] + Expand(fs, top, q[0]).value;
      RemainingStep(fs, top, q);
      Step(fs, top, q);
      YieldsClosed(fs, top, q');
      ChildrenYielded(fs, top, q);
      ClosedCons(fs, top, q[0], Remaining(fs, top, q', None));
    }
  }

  // ---------------------------------------------------------------------------------
  // The iterator

  /** `RecDirIterTopIsNotDir` */
  datatype TopIsNotDir = TopIsNotDir

  /** `size_hint` as written: the queue length while no error is latched, otherwise none. */
  function SizeHintAsWritten(q: seq<Path>, err: Option<IoError>): SizeHint {
    if err.None? then SizeHint(|q|, None) else SizeHint(0, Some(0))
  }

  /** A hint that keeps the `size_hint` contract: a latched error is yielded exactly once,
      and a non-empty queue yields at least its front. */
  function SizeHintCorrected(q: seq<Path>, err: Option<IoError>): SizeHint {
    if err.None? then SizeHint(if q == [] then 0 else 1, None) else SizeHint(1, Some(1))
  }

  lemma SizeHintCorrectedSound(fs: Fs, top: Path, q: seq<Path>, err: Option<IoError>)
    requires Inv(fs, top, q, err)
    ensures Bounds(SizeHintCorrected(q, err), |Remaining(fs, top, q, err)|)
  {
  }

  /** The latched error of a root that does not exist: the hint says nothing more comes,
      yet the error itself is still to be yielded. */
  lemma SizeHintAsWrittenMissesError(fs: Fs, top: Path)
    requires WellFormed(fs)
    ensures SizeHintAsWritten([], Some(NotFoundError)).upper == Some(0)
    ensures |Remaining(fs, top, [], Some(NotFoundError))| == 1
    ensures !Bounds(SizeHintAsWritten([], Some(NotFoundError)), |Remaining(fs, top, [], Some(NotFoundError))|)
  {
  }

  /** A root holding directories a, b and c, where listing a fails: the hint promises three
      more items, but only a and the error come. */
  lemma SizeHintAsWrittenOvershoots()
    ensures Inv(SizeHintExample(), [], ExampleQueue(), None)
    ensures SizeHintAsWritten(ExampleQueue(), None).lower == 3
    ensures |Remaining(SizeHintExample(), [], ExampleQueue(), None)| == 2
  {
    ExampleInv();
    ExampleFrontFails();
  }

  const A: Name := [0x61]
  const B: Name := [0x62]
  const C: Name := [0x63]

  function SizeHintExample(): Fs {
    var denied := IoError(PermissionDenied, []);
    map[
      [] := Present(Directory(Entries([EntryOk(A), EntryOk(B), EntryOk(C)]))),
      [A] := Present(Directory(ListFails(denied))),
      [B] := Present(Directory(Entries([]))),
      [C] := Present(Directory(Entries([])))
    ]
  }

  function ExampleQueue(): seq<Path> {
    [[A], [B], [C]]
  }

  lemma ExampleWellFormed()
    ensures WellFormed(SizeHintExample())
  {
    var fs := SizeHintExample();
    forall p | p in fs && fs[p].Present? && fs[p].node.Directory? && fs[p].node.listing.Entries?
      ensures DistinctNames(fs[p].node.listing.entries)
    {
      if p == [] {
        assert A != B && B != C && A != C by {
          assert A[0] != B[0] && B[0] != C[0] && A[0] != C[0];
        }
      } else {
        assert fs[p].node.listing.entries == [];
      }
    }
  }

  lemma ExampleSorted()
    ensures StrictlySorted(CmpPaths, ExampleQueue())
  {
    var q := ExampleQueue();
    assert CmpNames(A, B) == Less && CmpNames(B, C) == Less;
    SiblingsOrder([], A, B);
    SiblingsOrder([], B, C);
    assert [] + [A] == [A] && [] + [B] == [B] && [] + [C] == [C];
    PathsTransitive([A], [B], [C]);
  }

  lemma ExampleListed()
    ensures AllListed(SizeHintExample(), [], ExampleQueue())
  {
    var fs, q := SizeHintExample(), ExampleQueue();
    var es := fs[[]].node.listing.entries;
    var root: Path := [];
    assert root + Parent([A]) == root && root + Parent([B]) == root && root + Parent([C]) == root;
    assert es[0] == EntryOk(A) && es[1] == EntryOk(B) && es[2] == EntryOk(C);
    assert Listed(fs, [], [A]) && Listed(fs, [], [B]) && Listed(fs, [], [C]);
    assert q == [[A], [B], [C]];
  }

  lemma ExampleInv()
    ensures Inv(SizeHintExample(), [], ExampleQueue(), None)
  {
    ExampleWellFormed();
    ExampleSorted();
    ExampleListed();
  }

  lemma ExampleFrontFails()
    ensures Expand(SizeHintExample(), [], ExampleQueue()[0]).Err?
  {
    assert [] + ExampleQueue()[0] == [A];
  }

  /** The root's sorted children form a queue that satisfies the traversal invariant */
  lemma RootExpansionInv(fs: Fs, top: Path)
    requires WellFormed(fs) && Expand(fs, top, []).Ok?
    ensures Inv(fs, top, Expand(fs, top, []).value, None)
  {
    var q := Expand(fs, top, []).value;
    ExpandChildren(fs, top, []);
    forall i | 0 <= i < |q| ensures |q[i]| == |q[0]| {
      assert q[i] in q && q[0] in q;
    }
  }

  class RecDirIter {
    const fs: Fs
    const top: Path
    /** `to_traverse`, front first */
    var toTraverse: seq<Path>
    var error: Option<IoError>

    ghost predicate Valid()
      reads this
    {
      Inv(fs, top, toTraverse, error)
    }

    /** Everything this iterator is still to yield */
    ghost function Rest(): seq<IoResult<Path>>
      reads this
      requires Valid()
    {
      Remaining(fs, top, toTraverse, error)
    }

    constructor (fs: Fs, top: Path)
      ensures this.fs == fs && this.top == top && toTraverse == [] && error.None?
    {
      this.fs, this.top := fs, top;
      toTraverse, error := [], None;
    }

    /** `append_dir_elems`: expands `d`, latching the annotated error if that fails */
    method AppendDirElems(d: Path)
      modifies this
      ensures Expand(fs, top, d).Ok? ==>
        toTraverse == old(toTraverse) + Expand(fs, top, d).value && error == old(error)
      ensures Expand(fs, top, d).Err? ==>
        toTraverse == old(toTraverse) && error == Some(AnnotateError(top + d, Expand(fs, top, d).error))
    {
      var q, r := TryAppendDirElems(fs, toTraverse, top, d);
      toTraverse := q;
      if r.Err? {
        error := Some(AnnotateError(top + d, r.error));
      }
    }

    /** `RecDirIter::try_from`. The root's own metadata error is latched as it is; an
        error met listing the root is annotated with the root. */
    static method TryFrom(fs: Fs, top: Path) returns (r: Result<RecDirIter, TopIsNotDir>)
      requires WellFormed(fs)
      ensures r.Err? <==> SymlinkMetadata(fs, top).Ok? && !SymlinkMetadata(fs, top).value.fileType.isDir
      ensures r.Ok? ==> fresh(r.value) && r.value.Valid() && r.value.fs == fs && r.value.top == top
      ensures r.Ok? && SymlinkMetadata(fs, top).Err? ==>
        r.value.toTraverse == [] && r.value.error == Some(SymlinkMetadata(fs, top).error)
      ensures r.Ok? && SymlinkMetadata(fs, top).Ok? && Expand(fs, top, []).Ok? ==>
        r.value.toTraverse == Expand(fs, top, []).value && r.value.error.None?
      ensures r.Ok? && SymlinkMetadata(fs, top).Ok? && Expand(fs, top, []).Err? ==>
        r.value.toTraverse == [] && r.value.error == Some(AnnotateError(top, Expand(fs, top, []).error))
    {
      var iter := new RecDirIter(fs, top);
      var topMetadata := SymlinkMetadata(fs, top);
      match topMetadata {
        case Err(e) =>
          iter.error := Some(e);
        case Ok(m) =>
          if !m.fileType.isDir {
            return Err(TopIsNotDir);
          }
          var q, res := TryAppendDirElems(fs, [], top, []);
          iter.toTraverse := q;
          if res.Err? {
            iter.error := Some(AnnotateError(top, res.error));
          } else {
            RootExpansionInv(fs, top);
          }
      }
      r := Ok(iter);
    }

    method Next() returns (r: Option<IoResult<Path>>)
      requires Valid()
      modifies this
      ensures Valid()
      ensures old(error).Some? ==> r == Some(Err(old(error).value)) && toTraverse == [] && error.None?
      ensures old(error).None? && old(toTraverse) == [] ==> r.None? && toTraverse == [] && error.None?
      ensures old(error).None? && old(toTraverse) != [] ==>
        var p := old(toTraverse)[0];
        && r == Some(Ok(p))
        && (Expand(fs, top, p).Ok? ==> toTraverse == old(toTraverse)[1..] + Expand(fs, top, p).value && error.None?)
        && (Expand(fs, top, p).Err? ==>
              toTraverse == old(toTraverse)[1..] && error == Some(AnnotateError(top + p, Expand(fs, top, p).error)))
      ensures r.Some? ==> old(Rest()) == [r.value] + Rest()
      ensures r.None? ==> old(Rest()) == [] && Rest() == []
    {
      if error.Some? {
        toTraverse := [];
        r := Some(Err(error.value));
        error := None;
        return;
      }
      if toTraverse == [] {
        return None;
      }
      var p := toTraverse[0];
      toTraverse := toTraverse[1..];
      AppendDirElems(p);
      if error.None? {
        Step(fs, top, old(toTraverse));
      }
      r := Some(Ok(p));
    }

    /** `size_hint`, corrected (see `SizeHintAsWritten` for the hint the code gives): a
        sound bound on what is still to be yielded */
    function SizeHint(): (h: SizeHint)
      reads this
      requires Valid()
      ensures Bounds(h, |Rest()|)
      ensures h.upper.Some? <==> error.Some?
    {
      SizeHintCorrectedSound(fs, top, toTraverse, error);
      SizeHintCorrected(toTraverse, error)
    }

    /** `Iterator::collect` */
    method Collect() returns (out: seq<IoResult<Path>>)
      requires Valid()
      modifies this
      ensures out == old(Rest())
      ensures toTraverse == [] && error.None?
    {
      out := [];
      while true
        invariant Valid() && out + Rest() == old(Rest())
        decreases |Rest()|
      {
        var item := Next();
        if item.None? {
          return;
        }
        AppendAssoc(out, [item.value], Rest());
        out := out + [item.value];
      }
    }
  }

  /** The unit test for a root that does not exist: one `NotFound` error, then nothing. */
  method RootDirDoesNotExist(fs: Fs, top: Path) returns (first: Option<IoResult<Path>>, second: Option<IoResult<Path>>)
    requires WellFormed(fs) && top !in fs
    ensures first.Some? && first.value.Err? && first.value.error.kind == NotFound
    ensures second.None?
  {
    var it := RecDirIter.TryFrom(fs, top);
    var iter := it.value;
    first := iter.Next();
    second := iter.Next();
  }

  /** The unit test for a root that is a regular file */
  method RootDirIsARegularFile(fs: Fs, top: Path) returns (failed: bool)
    requires WellFormed(fs) && top in fs && fs[top].Present? && fs[top].node.RegularFile?
    ensures failed
  {
    var it := RecDirIter.TryFrom(fs, top);
    failed := it.Err?;
  }
}
