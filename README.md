# sftp-s3-bridge, modelled in Dafny

The bridge is an SFTP server whose filesystem is an S3 bucket. Each SFTP
operation is one or two object-store calls inside an exception handler:
`list_folder` is a prefix LIST, `open` a GET, `remove` a DELETE, `rename` a
COPY then a DELETE, `mkdir` a PUT of an empty body, `rmdir` a prefix LIST then
a batch DELETE. A failure becomes `False`, `None` or `[]`, plus one line in the
error log when error logging is enabled. An open file is a handle over the
GET response's body stream. Passwords are checked against a list of
(username, password) pairs that start-up builds from the configuration's
`User ` sections.

The model:

- `ObjectStore` (object_store.dfy): the client as a class `S3Client` over
  `buckets: map<BucketName, map<Key, StoredObject>>`, with a ghost trace of
  every request issued. Each call takes a `fault` parameter, the exception the
  network or the service raises on that call, so every exception handler is
  reachable. A call also fails where the store refuses it: unknown bucket,
  GET or COPY of a missing key, COPY of an object onto itself. A failed call
  changes nothing.
- `FileInfo` (file_info.dfy): the attributes reported per listed object.
- `SftpFile` (sftp_file.dfy): the handle `S3SFTPFile` over a `BodyStream`.
- `Filesystem` (filesystem.py → filesystem.dfy): `S3Filesystem`, a client and
  one bucket name.
- `SftpServer` (sftp_server.py → sftp_server.dfy): `SFTPServer` with the
  password check and the six filesystem operations. The error log file is the
  ghost field `errorLog`.
- `Config` (main.py → config.dfy): the loop that builds the user list.

What the code does, and the model with it, is thinner than a full SFTP-on-S3
design:

- the key is always the path, unchanged; there is no path-to-key mapping;
- listings are flat: every object under the raw string prefix is one regular
  file named by its full key, with no grouping into directories
  (`FlatListingOfDocs`);
- `mkdir` stores an empty object at exactly `path`, with no delimiter added;
- `close` only closes the body stream and never writes to the store, although
  its doc comment (sftp_server.py:308-310) says it updates the object;
- there is no `stat` on the server, and the handle's `stat` and `chattr` are
  always "not supported";
- `rename` and `rmdir` are not atomic.

## Model

| member | source | states |
|---|---|---|
| `SftpServer.SFTPServer.constructor` | sftp_server.py:4-15 | the server keeps the filesystem, the log settings and the user list it is given; nothing has been logged yet |
| `SftpServer.SFTPServer.CheckAuthPassword` | sftp_server.py:32-34 | success exactly when the exact (username, password) pair is in the user list, failure exactly when it is not; no third outcome |
| `SftpServer.SFTPServer.ListFolder` | sftp_server.py:51-63 | exactly one LIST of prefix `path` on the filesystem's bucket; if it succeeds, one entry per listed object in listing order; if it fails, `[]` and one log line `Error listing folder "<path>": <error>` only when error logging is on; the store never changes |
| `SftpServer.SFTPServer.Open` | sftp_server.py:81-93 | exactly one GET of key `path`, whatever the flags; a fresh handle over that object's body at position 0 when the GET succeeds, `null` when it fails, with the line `Error opening file "<path>": <error>` only when error logging is on; the store never changes |
| `SftpServer.SFTPServer.Remove` | sftp_server.py:106-116 | exactly one DELETE of key `path`; on success `true`, `path` is gone and every other key and bucket is unchanged; on failure `false`, the store unchanged, and the line `Error deleting file "<path>": <error>` only when error logging is on |
| `SftpServer.SFTPServer.Rename` | sftp_server.py:131-143 | COPY then DELETE, the DELETE only after a good COPY; COPY fails: `false`, store unchanged; DELETE fails: `false`, both keys present; both succeed: `true`, `newpath` holds the old body, `oldpath` gone; on failure the line `Error renaming file "<old>" to "<new>": <error>` only when error logging is on |
| `SftpServer.SFTPServer.Mkdir` | sftp_server.py:157-167 | exactly one PUT of an empty body at key `path` itself; `true` and that object stored on success; `false`, store unchanged, and the line `Error creating directory "<path>": <error>` only when error logging is on, on failure |
| `SftpServer.SFTPServer.Rmdir` | sftp_server.py:182-194 | a LIST of prefix `path` first, then one batch DELETE of exactly the listed keys; on success every key under the raw prefix is gone and nothing else; a failed LIST issues no DELETE; either failure: `false`, store unchanged, and the line `Error deleting directory "<path>": <error>` only when error logging is on |
| `SftpServer.ErrorLine` | sftp_server.py:62 | a log line is `Error <action>: ` followed by the exception text and a newline, the shape of all six error lines |
| `SftpServer.ErrorLogLines` | sftp_server.py:60-62 | a failing call appends exactly one line, `ErrorLine` of its action and error, when error logging is on, and none otherwise; a successful call appends none |
| `SftpServer.RenameMovesBody` | sftp_server.py:131-137 | after a completed rename the key set is the old one minus `oldpath` plus `newpath`, `newpath` has `oldpath`'s former body, every other key is untouched |
| `SftpServer.RenameHalfDone` | sftp_server.py:133-136 | when the DELETE fails after the COPY, both keys are present with the same body |
| `SftpServer.ListAfterRmdirIsEmpty` | sftp_server.py:184-187 | after a completed rmdir every LIST of the same prefix is empty |
| `SftpServer.RmdirIsRawPrefix` | sftp_server.py:186 | rmdir of `docs` also removes `docs2/x` and keeps `other/x`: the match is a raw string prefix |
| `FileInfo.ToFileInfo` | sftp_server.py:196-217 | a listed object becomes an entry named by its full key, with its size, uid = gid = 0, mode S_IFREG, and atime = mtime = its LastModified |
| `FileInfo.ToFileInfos` | sftp_server.py:56 | one entry per listed object, in listing order, each the conversion of that object |
| `FileInfo.ListingToFolder` | sftp_server.py:196-217 | converting a complete LIST response lists the folder: each object under the prefix exactly once, named by its full key, with its size, mode S_IFREG, uid = gid = 0, atime = mtime = its timestamp, and nothing else |
| `FileInfo.FlatListingOfDocs` | sftp_server.py:53-56 | with `docs/a.txt` (10 bytes) and `docs/sub/b.txt` (5 bytes), listing `docs` gives exactly two regular files named `docs/a.txt` and `docs/sub/b.txt`, in either order, with no `sub` directory entry |
| `SftpFile.S3SFTPFile.constructor` | sftp_server.py:231-241 | a handle keeps the path, the flags and the body stream it is given |
| `SftpFile.S3SFTPFile.Chattr` | sftp_server.py:256 | always the "operation not supported" outcome |
| `SftpFile.S3SFTPFile.Stat` | sftp_server.py:268 | always the "operation not supported" outcome |
| `SftpFile.S3SFTPFile.Read` | sftp_server.py:284-286 | seek then read: the bytes `ReadAt` gives for `offset` and `length`, position moved past them, body unchanged; an error on a closed stream |
| `SftpFile.S3SFTPFile.Write` | sftp_server.py:301-305 | seek then write: reports `len(data)` written whenever the stream is open; the body becomes `WriteAt` of the old body; an error on a closed stream |
| `SftpFile.S3SFTPFile.Close` | sftp_server.py:313 | the body stream is closed; only the stream is in the frame, so nothing is written to the store |
| `SftpFile.ReadAt` | sftp_server.py:284-286 | at most `length` bytes, a slice of the body starting at `offset`, short only at the end of the body, empty at or past the end |
| `SftpFile.WriteAt` | sftp_server.py:301-303 | the written bytes sit at `offset`; bytes before `offset` are the old ones or zero in a gap past the old end; bytes after the write are the old ones; an empty write changes nothing |
| `SftpFile.ReadBackWrite` | sftp_server.py:284-303 | for the assumed in-memory body stream, reading `len(data)` bytes at the offset just written returns exactly `data` |
| `SftpFile.GapReadsAsZeros` | sftp_server.py:301-303 | for the assumed in-memory body stream, after a write past the end, the gap between the old end and the offset reads as zero bytes |
| `SftpFile.BodyStream.constructor` | sftp_server.py:86 | a body stream starts at position 0, open, over the object's bytes |
| `SftpFile.BodyStream.Seek` | sftp_server.py:284 | an open stream moves to `offset`; a closed one raises and does not move |
| `SftpFile.BodyStream.Read` | sftp_server.py:286 | an open stream returns `ReadAt` at its position and advances by what it returned; a closed one raises |
| `SftpFile.BodyStream.Write` | sftp_server.py:303 | an open stream becomes `WriteAt` at its position, advances by the bytes written and reports their number; a closed one raises and keeps its data |
| `SftpFile.BodyStream.Close` | sftp_server.py:313 | the stream is closed |
| `Filesystem.S3Filesystem.constructor` | filesystem.py:5-13 | the filesystem keeps one client and one bucket name for every later call |
| `Filesystem.S3Filesystem.Open` | filesystem.py:31-35 | exactly one GET of key `path` on its bucket, whatever the flags; a fresh handle over the body when it succeeds; the GET's error reaches the caller as `Err` (no handler); the store never changes |
| `Filesystem.S3Filesystem.ListFolder` | filesystem.py:51-63 | exactly one LIST of prefix `path` on its bucket; on success one entry per listed object in listing order; on failure `[]`; the store never changes |
| `ObjectStore.S3Client.GetObject` | sftp_server.py:83-84 | succeeds exactly when there is no fault and the bucket holds the key, and then returns that object's body |
| `ObjectStore.S3Client.PutObject` | sftp_server.py:159-160 | on success the key maps to the given body; on failure nothing changes |
| `ObjectStore.S3Client.DeleteObject` | sftp_server.py:108-109 | on success the key is gone (deleting a missing key succeeds); on failure nothing changes |
| `ObjectStore.S3Client.CopyObject` | sftp_server.py:133-134 | on success the target key holds the source body; it fails, changing nothing, on a fault, a missing bucket or source key, or a copy onto itself |
| `ObjectStore.S3Client.ListObjects` | sftp_server.py:53-54 | on success a complete, duplicate-free listing of the keys under the raw prefix, with current sizes and timestamps |
| `ObjectStore.S3Client.DeleteObjects` | sftp_server.py:184-187 | on success exactly the given keys are gone from the bucket; on failure nothing changes |
| `ObjectStore.GetError` | sftp_server.py:83-84 | a GET raises nothing exactly when there is no fault and the bucket holds the key |
| `ObjectStore.CopyError` | sftp_server.py:133-134 | a COPY raises nothing exactly when there is no fault, both buckets exist, the source key exists and source and target differ |
| `ObjectStore.Copied` | sftp_server.py:133-134 | the store after a COPY: the target holds the source's body, every other key is unchanged |
| `ObjectStore.ListingLength` | sftp_server.py:53-56 | a LIST response has as many entries as there are keys under the prefix, so it is empty exactly when no key starts with the prefix |
| `ObjectStore.DeleteListedEmptiesPrefix` | sftp_server.py:184-187 | a batch DELETE of the listed keys removes exactly the keys under the prefix |
| `Config.BuildUsers` | main.py:23-28 | the loop builds exactly `UsersOf(sections)` |
| `Config.UsersOfAppend` | main.py:23-28 | the list for two runs of sections is the list for the first followed by the list for the second: section order and duplicates are kept |
| `Config.UsersOfCount` | main.py:23-28 | the list has one pair per section whose name starts with `User ` |
| `Config.UsersOfMembership` | main.py:24-28 | a pair is in the list exactly when a section named `User ...` (case-sensitive, with the space) has exactly that username and password |
| `Config.AuthAcceptsConfiguredUsers` | main.py:23-28 | a server given the built list accepts a login exactly when some `User ` section holds that exact username and password |

## Left out

- The SSH transport: host-key loading, the SFTP subsystem registration and
  `server.start()` (sftp_server.py:7, 13-14; main.py:40). Access-log settings
  are kept as fields; the code never writes an access log.
- Building the S3 client from credentials and region (filesystem.py:7-12):
  the model's client is given its buckets.
- Command-line and configuration-file parsing (main.py:10-20). Sections arrive
  parsed, in file order; option-name case folding, inherited defaults and `%`
  interpolation of option values (a `%` in a password can fail start-up or
  be rewritten, `%%` becoming `%`) are not modelled: option values are the
  final strings. A user section without
  `username` or `password` is excluded by a precondition, where the code
  stops start-up with a lookup error.
- Writing the error log file: the log is the ghost sequence of lines appended.
  The exception text in a line is the message the model's call failed with.
- `LastModified.timestamp()` is a float; timestamps are integers here, the
  clock is the `now` parameter of PUT and COPY.
- S3 listing details: pages of at most 1000 keys, and the missing `Contents`
  field of an empty response, which makes the code's `response['Contents']`
  fail (an empty folder would be listed with a log line, and rmdir of it would
  return `False`). In the model an empty listing is a successful one.
- ObjectStore.S3Client.ListObjects: leaves the order of the listing to the
  store, weaker than S3's ascending key order; the adapters keep whatever
  order the store returns.
- Batch DELETE details: per-key errors that S3 reports inside a successful
  response, the 1000-key cap and S3's refusal of an empty batch. The model's
  batch DELETE is all or nothing.
- The body stream: the model gives it the behaviour of an in-memory byte
  stream (seek anywhere, overwrite or extend on write, zero bytes in a gap
  past the end, errors after close). This is an assumption: the stream type
  is not part of the code, and a GET response body is in fact read-only.
- Defects that stop the code from running are modelled by intent: the
  indentation at sftp_server.py:61-62 and filesystem.py:38-63, the class name
  split over sftp_server.py:219-220, and `S3SFTPFile.__init__` popping a
  keyword `s3_body` (sftp_server.py:240) that both `open` methods pass
  positionally (sftp_server.py:86, filesystem.py:34), and filesystem.py not
  importing `S3SFTPFile`, so `S3Filesystem.open` would fail on the name. The
  handle is built over the body stream, and `S3Filesystem.Open` is modelled
  by intent as well.
- filesystem.py:56-62 uses `_s3_obj_to_sftp_file`, `error_log_enabled` and
  `error_log_file`, which `S3Filesystem` does not define. The model uses the
  server's conversion and writes no log there.
- The second `main` in sftp_server.py:315-342 (start-up without users).
- Concurrent sessions.
