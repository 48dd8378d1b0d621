/** The attributes the adapter reports for a listed object, and what a listing
    of a folder therefore looks like: flat, one regular file per key, named by
    the full key. */
module FileInfo {
  import opened ObjectStore

  /** File-type bits of a regular file (octal 0100000). */
  const S_IFREG: nat := 0x8000

  /** The SFTP attributes of one directory entry. */
  datatype FileAttributes = FileAttributes(
    filename: string, size: nat, uid: nat, gid: nat, mode: nat, atime: int, mtime: int)

  /** One listed object as a directory entry: the full key as the name, the
      object's size, owner 0:0, a regular file, both times from LastModified. */
  function ToFileInfo(obj: ObjectSummary): (a: FileAttributes)
    ensures a.filename == obj.key && a.size == obj.size
    ensures a.uid == 0 && a.gid == 0 && a.mode == S_IFREG
    ensures a.atime == a.mtime == obj.lastModified
  {
    FileAttributes(obj.key, obj.size, 0, 0, S_IFREG, obj.lastModified, obj.lastModified)
  }

  /** Every listed object converted, in listing order. */
  function ToFileInfos(listing: seq<ObjectSummary>): (files: seq<FileAttributes>)
    ensures |files| == |listing|
    ensures forall i :: 0 <= i < |listing| ==> files[i] == ToFileInfo(listing[i])
  {
    seq(|listing|, i requires 0 <= i < |listing| => ToFileInfo(listing[i]))
  }

  /** `files` lists folder `path` of `objects`: each object whose key starts
      with `path` appears exactly once, as a regular file named by its full key
      with its size and timestamp; nothing else appears. */
  ghost predicate ListsFolder(objects: Objects, path: string, files: seq<FileAttributes>)
  {
    && (forall i :: 0 <= i < |files| ==>
          && files[i].filename in objects
          && path <= files[i].filename
          && files[i].size == |objects[files[i].filename].body|
          && files[i].mode == S_IFREG && files[i].uid == 0 && files[i].gid == 0
          && files[i].atime == files[i].mtime == objects[files[i].filename].lastModified)
    && (forall i, j :: 0 <= i < j < |files| ==> files[i].filename != files[j].filename)
    && (forall k :: k in objects && path <= k ==> exists i :: 0 <= i < |files| && files[i].filename == k)
  }

  /** Converting a complete LIST response yields a listing of the folder. */
  lemma ListingToFolder(objects: Objects, path: string, listing: seq<ObjectSummary>)
    requires IsListing(objects, path, listing)
    ensures ListsFolder(objects, path, ToFileInfos(listing))
  {
    var files := ToFileInfos(listing);
    var keys := Keys(listing);
    forall k | k in objects && path <= k
      ensures exists i :: 0 <= i < |files| && files[i].filename == k
    {
      var i :| 0 <= i < |keys| && keys[i] == k;
      assert files[i].filename == k;
    }
    forall i, j | 0 <= i < j < |files|
      ensures files[i].filename != files[j].filename
    {
      assert keys[i] != keys[j];
    }
  }

  /** Two objects, `docs/a.txt` of 10 bytes and `docs/sub/b.txt` of 5 bytes. */
  function DocsObjects(): (objects: Objects)
  {
    map["docs/a.txt" := StoredObject(seq(10, _ => 0), 0),
        "docs/sub/b.txt" := StoredObject(seq(5, _ => 0), 0)]
  }

  lemma DocsUnderPrefix()
    ensures UnderPrefix(DocsObjects(), "docs") == {"docs/a.txt", "docs/sub/b.txt"}
  {
    assert "docs" <= "docs/a.txt";
    assert "docs" <= "docs/sub/b.txt";
    assert DocsObjects().Keys == {"docs/a.txt", "docs/sub/b.txt"};
  }

  /** Listing `docs` over DocsObjects gives two regular files named by their
      full keys, whatever order the store lists them in: no `sub` directory
      entry and no basenames. */
  lemma FlatListingOfDocs(listing: seq<ObjectSummary>)
    requires IsListing(DocsObjects(), "docs", listing)
    ensures var files := ToFileInfos(listing);
      && |files| == 2
      && {files[0].filename, files[1].filename} == {"docs/a.txt", "docs/sub/b.txt"}
      && (forall i :: 0 <= i < 2 ==> files[i].mode == S_IFREG)
      && (forall i :: 0 <= i < 2 && files[i].filename == "docs/a.txt" ==> files[i].size == 10)
      && (forall i :: 0 <= i < 2 && files[i].filename == "docs/sub/b.txt" ==> files[i].size == 5)
  {
    var objects := DocsObjects();
    DocsUnderPrefix();
    ListingLength(objects, "docs", listing);
    ListingToFolder(objects, "docs", listing);
    var files := ToFileInfos(listing);
    assert objects.Keys == {"docs/a.txt", "docs/sub/b.txt"};
    assert files[0].filename in objects && files[1].filename in objects;
    assert files[0].filename != files[1].filename;
  }
}
