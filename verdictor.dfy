/** `Verdictor`: decides, for each item of the merge-join of the two trees, whether the
    files at that relative path differ. */
module Verdictor {
  import opened Base
  import opened Paths
  import opened FileSystem
  import RIM = ReadIntMitigator
  import opened SumIter
  import opened Verdict

  /** The block size used to read files when none is given: 512 KiB */
  const DEFAULT_BLKSIZE: Cap := 512 * 1024

  /** An error kind coupled with the root of the tree it was met in */
  type PrivError = (ErrorKind, Path)

  type PrivResult = Result<Verdict, PrivError>

  /** `priv_result_to_ver_path`: a verdict to print, and the path to print it with. An
      error is reported against the full path, whose front is the root of the failing tree. */
  function PrivResultToVerPath(result: PrivResult, path: Path): (r: (Verdict, Path))
    ensures result.Ok? ==> r == (result.value, path)
    ensures result.Err? ==> r.0 == Error(result.error.0) && r.1 == result.error.1 + path
    ensures IsSuffix(path, r.1)
  {
    match result
    case Ok(verdict) => (verdict, path)
    case Err((kind, prefix)) => (Error(kind), prefix + path)
  }

  /** `annotate`: keeps only the kind of an error and couples it with `prefix` */
  function Annotate<T>(r: IoResult<T>, prefix: Path): (a: Result<T, PrivError>)
    ensures a.Ok? <==> r.Ok?
    ensures a.Ok? ==> a.value == r.value
    ensures a.Err? ==> a.error == (r.error.kind, prefix)
  {
    match r
    case Ok(v) => Ok(v)
    case Err(e) => Err((e.kind, prefix))
  }

  /** The reference meaning of `Same`: two directories, two regular files with the same
      bytes, or two symlinks with the same target */
  ghost predicate Equivalent(a: Node, b: Node) {
    || (a.Directory? && b.Directory?)
    || (a.RegularFile? && b.RegularFile? && a.content == b.content)
    || (a.Symlink? && b.Symlink? && a.target == b.target)
  }

  /** Every operation the comparison may apply to a node of this kind succeeds. */
  ghost predicate Healthy(n: Node) {
    match n
    case Directory(_) => true
    case RegularFile(_, openError, script) => openError.None? && NoHardFailure(script)
    case Symlink(_, readLinkError) => readLinkError.None?
    case Special => false
  }

  ghost predicate HasNode(fs: Fs, p: Path) {
    p in fs && fs[p].Present?
  }

  /** What remains of a script without hard failures has none. */
  lemma NoHardFailureSuffix(s: seq<ReadStep>, t: seq<ReadStep>)
    requires IsSuffix(s, t)
    ensures NoHardFailure(t) ==> NoHardFailure(s)
  {
    forall i | 0 <= i < |s| && s[i].Fail? ensures s[i] == t[|t| - |s| + i] {
    }
  }

  datatype Verdictor = Verdictor(lhsPrefix: Path, rhsPrefix: Path, blksize: Cap) {

    /** `cmp_symlinks`: `Same` exactly when both links read and point to the same path */
    function CmpSymlinks(fs: Fs, lhs: Path, rhs: Path): (r: PrivResult)
      ensures ReadLink(fs, lhs).Err? ==> r == Err((ReadLink(fs, lhs).error.kind, lhsPrefix))
      ensures ReadLink(fs, lhs).Ok? && ReadLink(fs, rhs).Err? ==>
        r == Err((ReadLink(fs, rhs).error.kind, rhsPrefix))
      ensures r.Ok? <==> ReadLink(fs, lhs).Ok? && ReadLink(fs, rhs).Ok?
      ensures r.Err? ==> r.error.1 == lhsPrefix || r.error.1 == rhsPrefix
      ensures r.Ok? ==> (r.value == Same || r.value == Modified)
      ensures r.Ok? ==> (r.value == Same <==> fs[lhs].node.target == fs[rhs].node.target)
    {
      match Annotate(ReadLink(fs, lhs), lhsPrefix)
      case Err(e) => Err(e)
      case Ok(ll) =>
        match Annotate(ReadLink(fs, rhs), rhsPrefix)
        case Err(e) => Err(e)
        case Ok(rl) => if ll == rl then Ok(Same) else Ok(Modified)
    }

    /** `cmp_contents`: reads both files block by block, through `ReadIntMitigator`, and
        compares the whole buffers. A short last block leaves the bytes of the previous
        block behind it; those are equal on both sides, since the previous blocks matched,
        so comparing whole buffers compares the new bytes. */
    method CmpContents(fs: Fs, lhs: Path, rhs: Path) returns (r: PrivResult)
      ensures OpenError(fs, lhs).Some? ==> r == Err((OpenError(fs, lhs).value.kind, lhsPrefix))
      ensures OpenError(fs, lhs).None? && OpenError(fs, rhs).Some? ==>
        r == Err((OpenError(fs, rhs).value.kind, rhsPrefix))
      ensures r.Err? ==> r.error.1 == lhsPrefix || r.error.1 == rhsPrefix
      ensures r.Ok? ==> OpenError(fs, lhs).None? && OpenError(fs, rhs).None?
      ensures r.Ok? ==> (r.value == Same || r.value == Modified)
      ensures r.Ok? ==> (r.value == Same <==> fs[lhs].node.content == fs[rhs].node.content)
      ensures (OpenError(fs, lhs).None? && OpenError(fs, rhs).None?
               && NoHardFailure(fs[lhs].node.script) && NoHardFailure(fs[rhs].node.script)) ==> r.Ok?
      ensures r.Err? && OpenError(fs, lhs).None? && OpenError(fs, rhs).None? ==>
        r.error.0 != Interrupted &&
        ((r.error.1 == lhsPrefix && !NoHardFailure(fs[lhs].node.script))
         || (r.error.1 == rhsPrefix && !NoHardFailure(fs[rhs].node.script)))
    {
      var lo := Open(fs, lhs);
      if lo.Err? {
        return Err((lo.error.kind, lhsPrefix));
      }
      var ro := Open(fs, rhs);
      if ro.Err? {
        return Err((ro.error.kind, rhsPrefix));
      }
      var lbuf := new byte[blksize](_ => 0);
      var rbuf := new byte[blksize](_ => 0);
      r := CmpOpened(lo.value, ro.value, lbuf, rbuf);
    }

    /** The loop of `cmp_contents`, over two files open at their start and two buffers of
        one length holding the same bytes */
    method CmpOpened(lfile: FileReader, rfile: FileReader, lbuf: array<byte>, rbuf: array<byte>)
      returns (r: PrivResult)
      requires lfile != rfile && lbuf != rbuf
      requires lfile.Valid() && rfile.Valid() && lfile.pos == 0 && rfile.pos == 0
      requires lbuf.Length == rbuf.Length >= 1 && lbuf[..] == rbuf[..]
      modifies lfile, rfile, lbuf, rbuf
      ensures r.Ok? ==> (r.value == Same || r.value == Modified)
      ensures r.Ok? ==> (r.value == Same <==> lfile.content == rfile.content)
      ensures NoHardFailure(old(lfile.script)) && NoHardFailure(old(rfile.script)) ==> r.Ok?
      ensures r.Err? ==>
        r.error.0 != Interrupted &&
        ((r.error.1 == lhsPrefix && !NoHardFailure(old(lfile.script)))
         || (r.error.1 == rhsPrefix && !NoHardFailure(old(rfile.script))))
    {
      ghost var lc, rc := lfile.content, rfile.content;
      ghost var ls, rs := lfile.script, rfile.script;
      while true
        invariant lfile.Valid() && rfile.Valid()
        invariant IsSuffix(lfile.script, ls) && IsSuffix(rfile.script, rs)
        invariant lfile.pos == rfile.pos && lc[..lfile.pos] == rc[..rfile.pos]
        invariant lbuf[..] == rbuf[..]
        decreases |lc| - lfile.pos
      {
        ghost var pos := lfile.pos;
        NoHardFailureSuffix(lfile.script, ls);
        NoHardFailureSuffix(rfile.script, rs);
        var lread := RIM.Read(lfile, lbuf);
        if lread.Err? {
          return Err((lread.error.kind, lhsPrefix));
        }
        var rread := RIM.Read(rfile, rbuf);
        if rread.Err? {
          return Err((rread.error.kind, rhsPrefix));
        }
        var ln, rn := lread.value, rread.value;
        if ln != rn {
          assert |lc| != |rc|;
          return Ok(Modified);
        } else if ln == 0 {
          assert lc == lc[..pos] && rc == rc[..pos];
          return Ok(Same);
        } else if lbuf[..] != rbuf[..] {
          assert lc[pos..pos + ln] != rc[pos..pos + ln];
          return Ok(Modified);
        }
        assert lc[..pos + ln] == lc[..pos] + lc[pos..pos + ln];
        assert rc[..pos + ln] == rc[..pos] + rc[pos..pos + ln];
        assert lbuf[..ln] == rbuf[..ln];
      }
    }

    /** `cmp_files`: compares the entries at `suffix` under both roots. Metadata is read
        lhs first; then the kinds decide, and only two regular files of equal length have
        their contents read. */
    method CmpFiles(fs: Fs, suffix: Path) returns (r: PrivResult)
      ensures SymlinkMetadata(fs, lhsPrefix + suffix).Err? ==>
        r == Err((SymlinkMetadata(fs, lhsPrefix + suffix).error.kind, lhsPrefix))
      ensures SymlinkMetadata(fs, lhsPrefix + suffix).Ok? && SymlinkMetadata(fs, rhsPrefix + suffix).Err? ==>
        r == Err((SymlinkMetadata(fs, rhsPrefix + suffix).error.kind, rhsPrefix))
      ensures r.Err? ==> r.error.1 == lhsPrefix || r.error.1 == rhsPrefix
      ensures r.Ok? ==> HasNode(fs, lhsPrefix + suffix) && HasNode(fs, rhsPrefix + suffix)
      ensures r.Ok? ==> (r.value == Same || r.value == Modified)
      ensures r.Ok? ==>
        (r.value == Same <==> Equivalent(fs[lhsPrefix + suffix].node, fs[rhsPrefix + suffix].node))
      ensures HasNode(fs, lhsPrefix + suffix) && HasNode(fs, rhsPrefix + suffix) ==>
        var (a, b) := (fs[lhsPrefix + suffix].node, fs[rhsPrefix + suffix].node);
        && (TypeOf(a) != TypeOf(b) ==> r == Ok(Modified))
        && (a.Symlink? && b.Symlink? ==> r == CmpSymlinks(fs, lhsPrefix + suffix, rhsPrefix + suffix))
        && (a.RegularFile? && b.RegularFile? && |a.content| != |b.content| ==> r == Ok(Modified))
        && (a.Directory? && b.Directory? ==> r == Ok(Same))
        && (a.Special? && b.Special? ==> r == Err((InvalidData, lhsPrefix)))
        && (TypeOf(a) == TypeOf(b) && Healthy(a) && Healthy(b) ==> r.Ok?)
    {
      var lhsPath := lhsPrefix + suffix;
      var rhsPath := rhsPrefix + suffix;
      var lm := Annotate(SymlinkMetadata(fs, lhsPath), lhsPrefix);
      if lm.Err? {
        return Err(lm.error);
      }
      var rm := Annotate(SymlinkMetadata(fs, rhsPath), rhsPrefix);
      if rm.Err? {
        return Err(rm.error);
      }
      var lt, rt := lm.value.fileType, rm.value.fileType;
      if lt != rt {
        r := Ok(Modified);
      } else if lt.isSymlink {
        r := CmpSymlinks(fs, lhsPath, rhsPath);
      } else if lt.isFile {
        if lm.value.len == rm.value.len {
          r := CmpContents(fs, lhsPath, rhsPath);
        } else {
          r := Ok(Modified);
        }
      } else if lt.isDir {
        r := Ok(Same);
      } else {
        r := Err((InvalidData, lhsPrefix));
      }
    }

    /** `get_verdict`: an item only in the left tree was deleted and one only in the right
        tree was added, without touching the filesystem; an item in both is compared. */
    method GetVerdict(fs: Fs, item: (SumIterSelector, Path)) returns (r: (Verdict, Path))
      ensures item.0 == Left ==> r == (Deleted, item.1)
      ensures item.0 == Right ==> r == (Added, item.1)
      ensures item.0 == Both && !r.0.Error? ==>
        && r.1 == item.1
        && HasNode(fs, lhsPrefix + item.1) && HasNode(fs, rhsPrefix + item.1)
        && (r.0 == Same || r.0 == Modified)
        && (r.0 == Same <==> Equivalent(fs[lhsPrefix + item.1].node, fs[rhsPrefix + item.1].node))
      ensures item.0 == Both && r.0.Error? ==> r.1 == lhsPrefix + item.1 || r.1 == rhsPrefix + item.1
      ensures item.0 == Both && SymlinkMetadata(fs, lhsPrefix + item.1).Err? ==>
        r == (Error(SymlinkMetadata(fs, lhsPrefix + item.1).error.kind), lhsPrefix + item.1)
      ensures (item.0 == Both && HasNode(fs, lhsPrefix + item.1) && HasNode(fs, rhsPrefix + item.1)
               && TypeOf(fs[lhsPrefix + item.1].node) == TypeOf(fs[rhsPrefix + item.1].node)
               && Healthy(fs[lhsPrefix + item.1].node) && Healthy(fs[rhsPrefix + item.1].node)) ==> !r.0.Error?
    {
      match item.0
      case Left =>
        r := (Deleted, item.1);
      case Right =>
        r := (Added, item.1);
      case Both =>
        var res := CmpFiles(fs, item.1);
        r := PrivResultToVerPath(res, item.1);
    }
  }

  /** `Verdictor::new` */
  function New(lhsPrefix: Path, rhsPrefix: Path, blksizeOverride: Option<Cap>): (v: Verdictor)
    ensures v.lhsPrefix == lhsPrefix && v.rhsPrefix == rhsPrefix
    ensures blksizeOverride.Some? ==> v.blksize == blksizeOverride.value
    ensures blksizeOverride.None? ==> v.blksize == 524288
  {
    Verdictor(lhsPrefix, rhsPrefix, if blksizeOverride.Some? then blksizeOverride.value else DEFAULT_BLKSIZE)
  }
}
