/** The open-file handle: an SFTP file over the body stream of a GET response.
    Reads and writes seek within that stream; close closes it and writes
    nothing back to the store. */
module SftpFile {
  import opened Wrappers
  import opened FileInfo

  /** The message of the error a closed in-memory stream raises on any I/O. */
  const ClosedFile := "I/O operation on closed file."

  /** What a handle operation gives back to the SFTP layer: a value, the
      distinct "operation not supported" signal, or another raised error. */
  datatype Reply<+T> = Done(value: T) | NotSupported(message: string) | Raised(message: string)

  function Min(a: int, b: int): (m: int)
  {
    if a <= b then a else b
  }

  function Zeros(n: nat): (z: seq<bv8>)
    ensures |z| == n
    ensures forall i :: 0 <= i < n ==> z[i] == 0
  {
    seq(n, _ => 0)
  }

  /** What reading `length` bytes at `offset` of `data` yields: at most
      `length` bytes, taken from `offset` on, short only at the end of the
      data, and nothing at or past the end. */
  function ReadAt(data: seq<bv8>, offset: nat, length: nat): (r: seq<bv8>)
    ensures |r| <= length
    ensures offset >= |data| ==> r == []
    ensures offset < |data| ==> offset + |r| <= |data| && r == data[offset..offset + |r|]
    ensures offset < |data| && |r| < length ==> offset + |r| == |data|
  {
    if offset >= |data| then [] else data[offset..Min(|data|, offset + length)]
  }

  /** What writing `bytes` at `offset` of `data` leaves, for an in-memory
      stream: `bytes` overwrite or extend the data at `offset`, a gap between
      the old end and `offset` reads as zero bytes, everything else is kept.
      An empty write changes nothing, even past the end. */
  function WriteAt(data: seq<bv8>, offset: nat, bytes: seq<bv8>): (r: seq<bv8>)
    ensures bytes == [] ==> r == data
    ensures bytes != [] ==> |r| == if offset + |bytes| > |data| then offset + |bytes| else |data|
    ensures bytes != [] ==> r[offset..offset + |bytes|] == bytes
    ensures bytes != [] ==> forall i :: 0 <= i < offset ==> r[i] == if i < |data| then data[i] else 0
    ensures forall i :: offset + |bytes| <= i < |data| ==> r[i] == data[i]
  {
    if bytes == [] then data
    else
      var padded := if offset <= |data| then data else data + Zeros(offset - |data|);
      padded[..offset] + bytes + padded[Min(|padded|, offset + |bytes|)..]
  }

  /** Reading back what was just written returns exactly the written bytes. */
  lemma ReadBackWrite(data: seq<bv8>, offset: nat, bytes: seq<bv8>)
    ensures ReadAt(WriteAt(data, offset, bytes), offset, |bytes|) == bytes
  {
    if bytes != [] {
      var w := WriteAt(data, offset, bytes);
      assert w[offset..offset + |bytes|] == bytes;
    }
  }

  /** After a write that starts past the end, the gap reads as zero bytes. */
  lemma GapReadsAsZeros(data: seq<bv8>, offset: nat, bytes: seq<bv8>)
    requires |data| < offset && bytes != []
    ensures ReadAt(WriteAt(data, offset, bytes), |data|, offset - |data|) == Zeros(offset - |data|)
  {
    var w := WriteAt(data, offset, bytes);
    var r := ReadAt(w, |data|, offset - |data|);
    assert |r| == offset - |data|;
    forall i | 0 <= i < |r|
      ensures r[i] == 0
    {
      assert r[i] == w[|data| + i];
    }
  }

  /** The body of a GET response, with the semantics of an in-memory byte
      stream: a current position, seek, read, write and close. */
  class BodyStream {
    var data: seq<bv8>
    var position: nat
    var closed: bool

    constructor(data: seq<bv8>)
      ensures this.data == data && position == 0 && !closed
    {
      this.data := data;
      position := 0;
      closed := false;
    }

    method Seek(offset: nat) returns (e: Option<string>)
      modifies this`position
      ensures e == if closed then Some(ClosedFile) else None
      ensures position == if closed then old(position) else offset
    {
      if closed {
        return Some(ClosedFile);
      }
      position := offset;
      return None;
    }

    method Read(length: nat) returns (r: Result<seq<bv8>>)
      modifies this`position
      ensures closed ==> r == Err(ClosedFile) && position == old(position)
      ensures !closed ==> r == Ok(ReadAt(data, old(position), length))
      ensures !closed ==> position == old(position) + |r.value|
    {
      if closed {
        return Err(ClosedFile);
      }
      var bytes := ReadAt(data, position, length);
      position := position + |bytes|;
      return Ok(bytes);
    }

    method Write(bytes: seq<bv8>) returns (r: Result<nat>)
      modifies this`data, this`position
      ensures closed ==> r == Err(ClosedFile) && data == old(data) && position == old(position)
      ensures !closed ==> r == Ok(|bytes|)
      ensures !closed ==> data == WriteAt(old(data), old(position), bytes)
      ensures !closed ==> position == old(position) + |bytes|
    {
      if closed {
        return Err(ClosedFile);
      }
      data := WriteAt(data, position, bytes);
      position := position + |bytes|;
      return Ok(|bytes|);
    }

    /** Closing a closed stream is allowed and does nothing more. */
    method Close()
      modifies this`closed
      ensures closed
    {
      closed := true;
    }
  }

  /** `h` is a handle just opened on `path` with `flags` over an object
      whose body is `body`: positioned at the start, not closed. */
  ghost predicate OpenedOver(h: S3SFTPFile, path: string, flags: int, body: seq<bv8>)
    reads h.s3Body
  {
    && h.path == path && h.flags == flags
    && h.s3Body.data == body && h.s3Body.position == 0 && !h.s3Body.closed
  }

  /** An open file: the path and flags it was opened with and the body
      stream of the object it was opened over. */
  class S3SFTPFile {
    const path: string
    const flags: int
    const s3Body: BodyStream

    constructor(path: string, flags: int, s3Body: BodyStream)
      ensures this.path == path && this.flags == flags && this.s3Body == s3Body
    {
      this.path := path;
      this.flags := flags;
      this.s3Body := s3Body;
    }

    /** Changing attributes is never supported. */
    function Chattr(attr: FileAttributes): (r: Reply<()>)
      ensures r.NotSupported?
    {
      NotSupported("chattr not supported for S3 files")
    }

    /** Asking the handle for attributes is never supported. */
    function Stat(): (r: Reply<FileAttributes>)
      ensures r.NotSupported?
    {
      NotSupported("stat not supported for S3 files")
    }

    /** Seek to `offset`, then read up to `length` bytes. */
    method Read(offset: nat, length: nat) returns (r: Reply<seq<bv8>>)
      modifies s3Body`position
      ensures s3Body.closed ==> r == Raised(ClosedFile) && s3Body.position == old(s3Body.position)
      ensures !s3Body.closed ==> r == Done(ReadAt(s3Body.data, offset, length))
      ensures !s3Body.closed ==> s3Body.position == offset + |r.value|
    {
      var e := s3Body.Seek(offset);
      if e.Some? {
        return Raised(e.value);
      }
      var bytes := s3Body.Read(length);
      return Done(bytes.value);
    }

    /** Seek to `offset`, write `bytes` into the stream, report `|bytes|`
        written; the store is not touched. */
    method Write(offset: nat, bytes: seq<bv8>) returns (r: Reply<nat>)
      modifies s3Body`data, s3Body`position
      ensures s3Body.closed ==> r == Raised(ClosedFile) && s3Body.data == old(s3Body.data)
      ensures !s3Body.closed ==> r == Done(|bytes|)
      ensures !s3Body.closed ==> s3Body.data == WriteAt(old(s3Body.data), offset, bytes)
      ensures !s3Body.closed ==> s3Body.position == offset + |bytes|
    {
      var e := s3Body.Seek(offset);
      if e.Some? {
        return Raised(e.value);
      }
      var _ := s3Body.Write(bytes);
      return Done(|bytes|);
    }

    /** Close the body stream. Only the stream is in the frame, so nothing
        is written back to the store. */
    method Close()
      modifies s3Body`closed
      ensures s3Body.closed
    {
      s3Body.Close();
    }
  }
}
