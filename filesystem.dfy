/** The filesystem object: a client and the one bucket every call goes to. */
module Filesystem {
  import opened Wrappers
  import opened ObjectStore
  import opened FileInfo
  import opened SftpFile

  class S3Filesystem {
    const client: S3Client
    const bucket: BucketName

    constructor(client: S3Client, bucket: BucketName)
      ensures this.client == client && this.bucket == bucket
    {
      this.client := client;
      this.bucket := bucket;
    }

    /** One GET of key `path`, whatever `flags` say, and a handle over the body.
        There is no exception handler here: a failing GET reaches the caller
        as `Err`. The store is not in the frame, so it does not change. */
    method Open(path: string, flags: int, attr: FileAttributes, fault: Option<string>)
      returns (r: Result<S3SFTPFile>)
      modifies client`requests
      ensures client.requests == old(client.requests) + [Get(bucket, path)]
      ensures var e := GetError(client.buckets, bucket, path, fault);
        && (r.Ok? <==> e.None?)
        && (r.Err? ==> r.error == e.value)
        && (r.Ok? ==> && fresh(r.value) && fresh(r.value.s3Body)
                      && OpenedOver(r.value, path, flags, client.buckets[bucket][path].body))
    {
      var response := client.GetObject(bucket, path, fault);
      if response.Err? {
        return Err(response.error);
      }
      var body := new BodyStream(response.value);
      var file := new S3SFTPFile(path, flags, body);
      return Ok(file);
    }

    /** One prefix LIST of `path`, each listed object converted in listing
        order; `[]` when the LIST fails. `listing` names the LIST response. */
    method ListFolder(path: string, fault: Option<string>)
      returns (files: seq<FileAttributes>, ghost listing: seq<ObjectSummary>)
      modifies client`requests
      ensures client.requests == old(client.requests) + [List(bucket, path)]
      ensures var e := RequestError(client.buckets, bucket, fault);
        && (e.None? ==> IsListing(client.buckets[bucket], path, listing) && files == ToFileInfos(listing))
        && (e.Some? ==> files == [])
    {
      var response := client.ListObjects(bucket, path, fault);
      if response.Err? {
        return [], [];
      }
      listing := response.value;
      files := ToFileInfos(response.value);
    }
  }
}
