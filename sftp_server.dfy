/** The SFTP server: the password check and the filesystem operations, each
    a few object-store calls inside an exception handler that turns a failure
    into `false`, `null` or `[]` and appends one line to the error log when
    error logging is enabled. */
module SftpServer {
  import opened Wrappers
  import opened ObjectStore
  import opened FileInfo
  import opened SftpFile
  import opened Filesystem

  datatype AuthResult = AuthSuccessful | AuthFailed

  /** A (username, password) pair. */
  type Credential = (string, string)

  /** One error-log line: `Error <action>: <exception text>` and a newline. */
  function ErrorLine(action: string, error: string): (line: string)
    ensures "Error " + action + ": " <= line
    ensures line[|line| - 1] == '\n'
    ensures line[|"Error " + action + ": "|..|line| - 1] == error
  {
    "Error " + action + ": " + error + "\n"
  }

  function Quoted(s: string): (q: string)
  {
    "\"" + s + "\""
  }

  /** The lines a call appends to the error log: one when logging is enabled
      and the call raised `e`, none otherwise. */
  function ErrorLogLines(enabled: bool, action: string, e: Option<string>): (lines: seq<string>)
    ensures lines != [] <==> enabled && e.Some?
    ensures lines != [] ==> lines == [ErrorLine(action, e.value)]
  {
    if enabled && e.Some? then [ErrorLine(action, e.value)] else []
  }

  class SFTPServer {
    const fs: S3Filesystem
    const errorLogFile: string
    const errorLogEnabled: bool
    const accessLogFile: string
    const accessLogEnabled: bool
    const users: seq<Credential>
    /** The lines this server has appended to the error log file. */
    ghost var errorLog: seq<string>

    constructor(errorLogFile: string, errorLogEnabled: bool, accessLogFile: string,
                accessLogEnabled: bool, fs: S3Filesystem, users: seq<Credential>)
      ensures this.fs == fs && this.users == users
      ensures this.errorLogFile == errorLogFile && this.errorLogEnabled == errorLogEnabled
      ensures this.accessLogFile == accessLogFile && this.accessLogEnabled == accessLogEnabled
      ensures errorLog == []
    {
      this.fs := fs;
      this.errorLogFile := errorLogFile;
      this.errorLogEnabled := errorLogEnabled;
      this.accessLogFile := accessLogFile;
      this.accessLogEnabled := accessLogEnabled;
      this.users := users;
      errorLog := [];
    }

    /** Success exactly for a configured (username, password) pair, compared
        as exact strings; failure for anything else. */
    function CheckAuthPassword(username: string, password: string): (r: AuthResult)
      ensures r == AuthSuccessful <==> (username, password) in users
      ensures r == AuthFailed <==> (username, password) !in users
    {
      if (username, password) in users then AuthSuccessful else AuthFailed
    }

    /** One prefix LIST of `path`; on success one entry per listed object in
        listing order, on failure `[]` and a log line. `listing` names the
        LIST response. */
    method ListFolder(path: string, fault: Option<string>)
      returns (files: seq<FileAttributes>, ghost listing: seq<ObjectSummary>)
      modifies fs.client`requests, this`errorLog
      ensures fs.client.requests == old(fs.client.requests) + [List(fs.bucket, path)]
      ensures var e := RequestError(fs.client.buckets, fs.bucket, fault);
        && (e.None? ==> IsListing(fs.client.buckets[fs.bucket], path, listing) && files == ToFileInfos(listing))
        && (e.Some? ==> files == [])
        && errorLog == old(errorLog) + ErrorLogLines(errorLogEnabled, "listing folder " + Quoted(path), e)
    {
      var response := fs.client.ListObjects(fs.bucket, path, fault);
      if response.Err? {
        if errorLogEnabled {
          errorLog := errorLog + [ErrorLine("listing folder " + Quoted(path), response.error)];
        }
        return [], [];
      }
      listing := response.value;
      files := ToFileInfos(response.value);
    }

    /** One GET of key `path`, whatever `flags` say; a handle over the body,
        or `null` and a log line when the GET fails. The store is not in the
        frame, so it does not change. */
    method Open(path: string, flags: int, attr: FileAttributes, fault: Option<string>)
      returns (h: S3SFTPFile?)
      modifies fs.client`requests, this`errorLog
      ensures fs.client.requests == old(fs.client.requests) + [Get(fs.bucket, path)]
      ensures var e := GetError(fs.client.buckets, fs.bucket, path, fault);
        && (h != null <==> e.None?)
        && (h != null ==> && fresh(h) && fresh(h.s3Body)
                          && OpenedOver(h, path, flags, fs.client.buckets[fs.bucket][path].body))
        && errorLog == old(errorLog) + ErrorLogLines(errorLogEnabled, "opening file " + Quoted(path), e)
    {
      var response := fs.client.GetObject(fs.bucket, path, fault);
      if response.Err? {
        if errorLogEnabled {
          errorLog := errorLog + [ErrorLine("opening file " + Quoted(path), response.error)];
        }
        return null;
      }
      var body := new BodyStream(response.value);
      h := new S3SFTPFile(path, flags, body);
    }

    /** One DELETE of key `path`: on success `path` is gone and nothing else
        changed; on failure `false`, the store unchanged and a log line. */
    method Remove(path: string, fault: Option<string>) returns (ok: bool)
      modifies fs.client, this`errorLog
      ensures fs.client.requests == old(fs.client.requests) + [Delete(fs.bucket, path)]
      ensures var before := old(fs.client.buckets);
        var e := RequestError(before, fs.bucket, fault);
        && ok == e.None?
        && fs.client.buckets == (if ok then before[fs.bucket := before[fs.bucket] - {path}] else before)
        && errorLog == old(errorLog) + ErrorLogLines(errorLogEnabled, "deleting file " + Quoted(path), e)
    {
      var e := fs.client.DeleteObject(fs.bucket, path, fault);
      if e.Some? {
        if errorLogEnabled {
          errorLog := errorLog + [ErrorLine("deleting file " + Quoted(path), e.value)];
        }
        return false;
      }
      return true;
    }

    /** COPY `oldpath` to `newpath`, then DELETE `oldpath`; not atomic.
        A failed COPY changes nothing; a failed DELETE after a good COPY
        leaves both keys with the same body. Only the last case returns
        `true`. */
    method Rename(oldpath: string, newpath: string, now: int,
                  copyFault: Option<string>, deleteFault: Option<string>) returns (ok: bool)
      modifies fs.client, this`errorLog
      ensures var before := old(fs.client.buckets);
        var b := fs.bucket;
        var copyError := CopyError(before, b, oldpath, b, newpath, copyFault);
        && fs.client.requests == old(fs.client.requests) + [Copy(b, oldpath, b, newpath)]
                                 + (if copyError.None? then [Delete(b, oldpath)] else [])
        && ok == (copyError.None? && deleteFault.None?)
        && (copyError.Some? ==> fs.client.buckets == before)
        && (copyError.None? && deleteFault.Some? ==>
              fs.client.buckets == before[b := Copied(before[b], oldpath, newpath, now)])
        && (ok ==> fs.client.buckets == before[b := Copied(before[b], oldpath, newpath, now) - {oldpath}])
        && errorLog == old(errorLog) + ErrorLogLines(errorLogEnabled,
              "renaming file " + Quoted(oldpath) + " to " + Quoted(newpath),
              if copyError.Some? then copyError else deleteFault)
    {
      var action := "renaming file " + Quoted(oldpath) + " to " + Quoted(newpath);
      var e := fs.client.CopyObject(fs.bucket, oldpath, fs.bucket, newpath, now, copyFault);
      if e.None? {
        e := fs.client.DeleteObject(fs.bucket, oldpath, deleteFault);
      }
      if e.Some? {
        if errorLogEnabled {
          errorLog := errorLog + [ErrorLine(action, e.value)];
        }
        return false;
      }
      return true;
    }

    /** One PUT of an empty body at key `path` exactly (no delimiter added);
        on failure `false`, the store unchanged and a log line. */
    method Mkdir(path: string, attr: FileAttributes, now: int, fault: Option<string>) returns (ok: bool)
      modifies fs.client, this`errorLog
      ensures fs.client.requests == old(fs.client.requests) + [Put(fs.bucket, path, [])]
      ensures var before := old(fs.client.buckets);
        var e := RequestError(before, fs.bucket, fault);
        && ok == e.None?
        && fs.client.buckets == (if ok then before[fs.bucket := before[fs.bucket][path := StoredObject([], now)]]
                                 else before)
        && errorLog == old(errorLog) + ErrorLogLines(errorLogEnabled, "creating directory " + Quoted(path), e)
    {
      var e := fs.client.PutObject(fs.bucket, path, [], now, fault);
      if e.Some? {
        if errorLogEnabled {
          errorLog := errorLog + [ErrorLine("creating directory " + Quoted(path), e.value)];
        }
        return false;
      }
      return true;
    }

    /** A prefix LIST of `path`, then one batch DELETE of exactly the listed
        keys. The prefix is a raw string prefix, so `docs` also takes
        `docs2/x`. A failed LIST deletes nothing; a failed batch DELETE changes
        nothing. `listing` names the LIST response. */
    method Rmdir(path: string, listFault: Option<string>, deleteFault: Option<string>)
      returns (ok: bool, ghost listing: seq<ObjectSummary>)
      modifies fs.client, this`errorLog
      ensures var before := old(fs.client.buckets);
        var b := fs.bucket;
        var listError := RequestError(before, b, listFault);
        && (listError.None? ==> IsListing(before[b], path, listing))
        && fs.client.requests == old(fs.client.requests) + [List(b, path)]
                                 + (if listError.None? then [DeleteBatch(b, Keys(listing))] else [])
        && ok == (listError.None? && deleteFault.None?)
        && fs.client.buckets == (if ok then before[b := before[b] - UnderPrefix(before[b], path)] else before)
        && errorLog == old(errorLog) + ErrorLogLines(errorLogEnabled, "deleting directory " + Quoted(path),
                                                     if listError.Some? then listError else deleteFault)
    {
      var action := "deleting directory " + Quoted(path);
      var response := fs.client.ListObjects(fs.bucket, path, listFault);
      if response.Err? {
        if errorLogEnabled {
          errorLog := errorLog + [ErrorLine(action, response.error)];
        }
        return false, [];
      }
      listing := response.value;
      DeleteListedEmptiesPrefix(old(fs.client.buckets)[fs.bucket], path, listing);
      var e := fs.client.DeleteObjects(fs.bucket, Keys(response.value), deleteFault);
      if e.Some? {
        if errorLogEnabled {
          errorLog := errorLog + [ErrorLine(action, e.value)];
        }
        return false, listing;
      }
      return true, listing;
    }
  }

  /** A completed rename: `newpath` holds what `oldpath` held, `oldpath` is
      gone, every other key is untouched. */
  lemma RenameMovesBody(objects: Objects, oldpath: Key, newpath: Key, now: int)
    requires oldpath in objects && oldpath != newpath
    ensures var after := Copied(objects, oldpath, newpath, now) - {oldpath};
      && after.Keys == objects.Keys - {oldpath} + {newpath}
      && after[newpath].body == objects[oldpath].body
      && forall k :: k in objects && k != oldpath && k != newpath ==> after[k] == objects[k]
  {
  }

  /** A rename whose DELETE failed: both keys present with the same body. */
  lemma RenameHalfDone(objects: Objects, oldpath: Key, newpath: Key, now: int)
    requires oldpath in objects
    ensures var after := Copied(objects, oldpath, newpath, now);
      && oldpath in after && newpath in after
      && after[newpath].body == after[oldpath].body == objects[oldpath].body
  {
  }

  /** After a completed rmdir, a LIST of the same prefix returns nothing. */
  lemma ListAfterRmdirIsEmpty(objects: Objects, path: string, listing: seq<ObjectSummary>)
    requires IsListing(objects - UnderPrefix(objects, path), path, listing)
    ensures listing == []
  {
    var after := objects - UnderPrefix(objects, path);
    ListingLength(after, path, listing);
    assert UnderPrefix(after, path) == {};
  }

  /** rmdir matches by raw string prefix: `docs` takes `docs2/x` along, and
      leaves keys that do not start with `docs`. */
  lemma RmdirIsRawPrefix(objects: Objects)
    requires "docs2/x" in objects && "other/x" in objects
    ensures "docs2/x" !in objects - UnderPrefix(objects, "docs")
    ensures "other/x" in objects - UnderPrefix(objects, "docs")
  {
    assert "docs" <= "docs2/x";
    assert "other/x"[0] != "docs"[0];
  }
}
