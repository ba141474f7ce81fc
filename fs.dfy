/** The filesystem as the program sees it through `symlink_metadata`, `read_dir`,
    `read_link`, `File::open` and `Read::read`: a finite map from absolute paths to
    entries, where a path that is not a key does not exist. Failures are part of the
    data: a directory whose listing fails, a file that cannot be opened, a reader that
    fails or is interrupted after a given number of reads. */
module FileSystem {
  import opened Base
  import opened Paths

  /** The most bytes one `read` call hands over; never 0, since `Ok(0)` means end of file */
  type Cap = n: nat | 1 <= n witness 1

  /** One call of `Read::read` on an open file: it hands over at most `cap` bytes, or fails */
  datatype ReadStep = Deliver(cap: Cap) | Fail(error: IoError)

  /** One item of a `read_dir` iterator */
  datatype DirEntry = EntryOk(name: Name) | EntryErr(error: IoError)

  /** What `read_dir` on a directory gives */
  datatype Listing = ListFails(error: IoError) | Entries(entries: seq<DirEntry>)

  datatype Node =
    | Directory(listing: Listing)
      /** A regular file: its bytes, whether opening it fails, and how its reads behave.
          Once the script is used up, every read hands over as much as asked for. */
    | RegularFile(content: Bytes, openError: Option<IoError>, script: seq<ReadStep>)
    | Symlink(target: Path, readLinkError: Option<IoError>)
      /** A FIFO, socket or device: neither a directory, a regular file nor a symlink */
    | Special

  /** A key of the filesystem: a node, or a path whose `symlink_metadata` fails */
  datatype Entry = Present(node: Node) | MetadataFails(error: IoError)

  type Fs = map<Path, Entry>

  /** The names a directory lists are distinct, as in every real directory. */
  ghost predicate WellFormed(fs: Fs) {
    forall p :: p in fs && fs[p].Present? && fs[p].node.Directory? && fs[p].node.listing.Entries? ==>
      DistinctNames(fs[p].node.listing.entries)
  }

  ghost predicate DistinctNames(es: seq<DirEntry>) {
    forall i, j :: 0 <= i < j < |es| && es[i].EntryOk? && es[j].EntryOk? ==> es[i].name != es[j].name
  }

  const NotFoundError: IoError := IoError(NotFound, [])

  /** The error of an operation applied to a node of the wrong kind */
  const WrongKindError: IoError := IoError(Other, [])

  /** `FileType`, through its three queries `is_dir`, `is_file` and `is_symlink` */
  datatype FileType = FileType(isDir: bool, isFile: bool, isSymlink: bool)

  /** `Metadata`, through `file_type` and `len` */
  datatype Metadata = Metadata(fileType: FileType, len: nat)

  function TypeOf(n: Node): (t: FileType)
    ensures t.isDir <==> n.Directory?
    ensures t.isFile <==> n.RegularFile?
    ensures t.isSymlink <==> n.Symlink?
  {
    match n
    case Directory(_) => FileType(true, false, false)
    case RegularFile(_, _, _) => FileType(false, true, false)
    case Symlink(_, _) => FileType(false, false, true)
    case Special => FileType(false, false, false)
  }

  /** `Path::symlink_metadata`: the metadata of the entry itself, not following a symlink */
  function SymlinkMetadata(fs: Fs, p: Path): (r: IoResult<Metadata>)
    ensures p !in fs ==> r == Err(NotFoundError)
    ensures p in fs && fs[p].MetadataFails? ==> r == Err(fs[p].error)
    ensures p in fs && fs[p].Present? ==>
      r.Ok? && r.value.fileType == TypeOf(fs[p].node)
      && (fs[p].node.RegularFile? ==> r.value.len == |fs[p].node.content|)
  {
    if p !in fs then Err(NotFoundError)
    else match fs[p]
      case MetadataFails(e) => Err(e)
      case Present(n) => Ok(Metadata(TypeOf(n), if n.RegularFile? then |n.content| else 0))
  }

  /** `Path::read_dir`, with the iterator it returns collected */
  function ReadDir(fs: Fs, p: Path): (r: IoResult<seq<DirEntry>>)
    ensures r.Ok? <==> p in fs && fs[p].Present? && fs[p].node.Directory? && fs[p].node.listing.Entries?
    ensures r.Ok? ==> r.value == fs[p].node.listing.entries
  {
    if p !in fs then Err(NotFoundError)
    else match fs[p]
      case MetadataFails(e) => Err(e)
      case Present(Directory(ListFails(e))) => Err(e)
      case Present(Directory(Entries(es))) => Ok(es)
      case Present(_) => Err(WrongKindError)
  }

  /** `Path::read_link` */
  function ReadLink(fs: Fs, p: Path): (r: IoResult<Path>)
    ensures r.Ok? <==> p in fs && fs[p].Present? && fs[p].node.Symlink? && fs[p].node.readLinkError.None?
    ensures r.Ok? ==> r.value == fs[p].node.target
  {
    if p !in fs then Err(NotFoundError)
    else match fs[p]
      case MetadataFails(e) => Err(e)
      case Present(Symlink(t, None)) => Ok(t)
      case Present(Symlink(_, Some(e))) => Err(e)
      case Present(_) => Err(WrongKindError)
  }

  /** No read of the script fails with anything but `Interrupted`. */
  ghost predicate NoHardFailure(script: seq<ReadStep>) {
    forall i :: 0 <= i < |script| && script[i].Fail? ==> script[i].error.kind == Interrupted
  }

  ghost predicate IsSuffix<T>(s: seq<T>, t: seq<T>) {
    |s| <= |t| && s == t[|t| - |s|..]
  }

  /** An open file: `File` as a `Read`er */
  class FileReader {
    const content: Bytes
    /** How many bytes have been handed over */
    var pos: nat
    /** How the remaining reads behave */
    var script: seq<ReadStep>

    ghost predicate Valid()
      reads this
    {
      pos <= |content|
    }

    constructor (content: Bytes, script: seq<ReadStep>)
      ensures Valid() && this.content == content && pos == 0 && this.script == script
    {
      this.content, this.script, pos := content, script, 0;
    }

    /** `Read::read` into `buf[offset..]` */
    method Read(buf: array<byte>, offset: nat) returns (r: IoResult<nat>)
      requires Valid() && offset <= buf.Length
      modifies this, buf
      ensures Valid()
      ensures script == (if old(script) == [] then [] else old(script)[1..])
      ensures old(script) != [] && old(script)[0].Fail? ==>
        r == Err(old(script)[0].error) && pos == old(pos) && buf[..] == old(buf[..])
      ensures old(script) == [] ==> r == Ok(Min(buf.Length - offset, |content| - old(pos)))
      ensures old(script) != [] && old(script)[0].Deliver? ==>
        r == Ok(Min(Min(buf.Length - offset, |content| - old(pos)), old(script)[0].cap))
      ensures r.Ok? ==>
        && r.value <= buf.Length - offset
        && pos == old(pos) + r.value
        && buf[..offset] == old(buf[..offset])
        && buf[offset..offset + r.value] == content[old(pos)..pos]
        && buf[offset + r.value..] == old(buf[offset + r.value..])
    {
      var n := Min(buf.Length - offset, |content| - pos);
      if script != [] {
        var step := script[0];
        script := script[1..];
        match step
        case Fail(e) =>
          return Err(e);
        case Deliver(cap) =>
          n := Min(n, cap);
      }
      forall i | offset <= i < offset + n {
        buf[i] := content[pos + i - offset];
      }
      pos := pos + n;
      r := Ok(n);
    }
  }

  /** Why `File::open` fails, if it does */
  function OpenError(fs: Fs, p: Path): (r: Option<IoError>)
    ensures r.None? <==> p in fs && fs[p].Present? && fs[p].node.RegularFile? && fs[p].node.openError.None?
    ensures p !in fs ==> r == Some(NotFoundError)
    ensures p in fs && fs[p].Present? && fs[p].node.RegularFile? ==> r == fs[p].node.openError
  {
    if p !in fs then Some(NotFoundError)
    else match fs[p]
      case MetadataFails(e) => Some(e)
      case Present(RegularFile(_, openError, _)) => openError
      case Present(_) => Some(WrongKindError)
  }

  /** `File::open`: a fresh reader at the start of the file, or the error `OpenError` names */
  method Open(fs: Fs, p: Path) returns (r: IoResult<FileReader>)
    ensures r.Ok? <==> OpenError(fs, p).None?
    ensures r.Err? ==> r.error == OpenError(fs, p).value
    ensures r.Ok? ==>
      && fresh(r.value) && r.value.Valid() && r.value.pos == 0
      && r.value.content == fs[p].node.content && r.value.script == fs[p].node.script
  {
    var e := OpenError(fs, p);
    if e.Some? {
      return Err(e.value);
    }
    var node := fs[p].node;
    var reader := new FileReader(node.content, node.script);
    r := Ok(reader);
  }
}
