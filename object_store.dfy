/** The object store behind the bridge, seen through the client calls the
    adapter makes: GET, PUT, DELETE, COPY, prefix LIST and batch DELETE.

    Every call takes a `fault`: `Some(message)` when the network or the service
    raises on that call, `None` otherwise. Besides injected faults, a call fails
    exactly where the store itself refuses it (missing bucket, missing key, a
    copy of an object onto itself). A failing call changes nothing. */
module ObjectStore {
  import opened Wrappers

  type Key = string
  type Body = seq<bv8>
  type BucketName = string

  /** What the store keeps per key: the body and the time of the PUT or COPY that wrote it. */
  datatype StoredObject = StoredObject(body: Body, lastModified: int)

  type Objects = map<Key, StoredObject>

  /** One element of a LIST response's `Contents`: `Key`, `Size`, `LastModified`. */
  datatype ObjectSummary = ObjectSummary(key: Key, size: nat, lastModified: int)

  /** A request as issued to the store, recorded in the client's trace. */
  datatype Request =
    | Get(bucket: BucketName, key: Key)
    | Put(bucket: BucketName, key: Key, body: Body)
    | Delete(bucket: BucketName, key: Key)
    | Copy(sourceBucket: BucketName, sourceKey: Key, bucket: BucketName, key: Key)
    | List(bucket: BucketName, prefix: string)
    | DeleteBatch(bucket: BucketName, keys: seq<Key>)

  const NoSuchBucket := "NoSuchBucket"
  const NoSuchKey := "NoSuchKey"
  const InvalidRequest := "InvalidRequest"

  /** The keys a LIST with `prefix` reports: a raw string-prefix match, no delimiter. */
  function UnderPrefix(objects: Objects, prefix: string): (keys: set<Key>)
  {
    set k | k in objects && prefix <= k
  }

  /** The keys of a listing, in listing order. */
  function Keys(listing: seq<ObjectSummary>): (keys: seq<Key>)
    ensures |keys| == |listing|
    ensures forall i :: 0 <= i < |listing| ==> keys[i] == listing[i].key
  {
    seq(|listing|, i requires 0 <= i < |listing| => listing[i].key)
  }

  /** `summary` reports an object of `objects` with its current size and timestamp. */
  predicate Describes(objects: Objects, summary: ObjectSummary)
  {
    summary.key in objects
    && summary.size == |objects[summary.key].body|
    && summary.lastModified == objects[summary.key].lastModified
  }

  /** The keys of `keys` as a set. */
  function KeySet(keys: seq<Key>): (s: set<Key>)
  {
    set k | k in keys
  }

  predicate Distinct(keys: seq<Key>)
  {
    forall i, j :: 0 <= i < j < |keys| ==> keys[i] != keys[j]
  }

  /** `listing` is a complete LIST response for `prefix`: each object under the
      prefix exactly once, described by its current size and timestamp. The
      order is the store's and is left open. */
  ghost predicate IsListing(objects: Objects, prefix: string, listing: seq<ObjectSummary>)
  {
    && (forall i :: 0 <= i < |listing| ==> Describes(objects, listing[i]) && prefix <= listing[i].key)
    && Distinct(Keys(listing))
    && (forall k :: k in objects && prefix <= k ==> k in Keys(listing))
  }

  /** The exception a request on `bucket` raises before keys are looked at. */
  function RequestError(buckets: map<BucketName, Objects>, bucket: BucketName, fault: Option<string>): (e: Option<string>)
  {
    if fault.Some? then fault
    else if bucket !in buckets then Some(NoSuchBucket)
    else None
  }

  /** The exception a GET raises. */
  function GetError(buckets: map<BucketName, Objects>, bucket: BucketName, key: Key, fault: Option<string>): (e: Option<string>)
    ensures e.None? <==> fault.None? && bucket in buckets && key in buckets[bucket]
  {
    var e := RequestError(buckets, bucket, fault);
    if e.Some? then e
    else if key !in buckets[bucket] then Some(NoSuchKey)
    else None
  }

  /** The exception a COPY raises; the store refuses to copy an object onto
      itself without changing it. */
  function CopyError(buckets: map<BucketName, Objects>, sourceBucket: BucketName, sourceKey: Key,
                     bucket: BucketName, key: Key, fault: Option<string>): (e: Option<string>)
    ensures e.None? <==>
      && fault.None? && bucket in buckets && sourceBucket in buckets
      && sourceKey in buckets[sourceBucket]
      && (sourceBucket, sourceKey) != (bucket, key)
  {
    if fault.Some? then fault
    else if bucket !in buckets || sourceBucket !in buckets then Some(NoSuchBucket)
    else if sourceKey !in buckets[sourceBucket] then Some(NoSuchKey)
    else if sourceBucket == bucket && sourceKey == key then Some(InvalidRequest)
    else None
  }

  /** The store's side of a successful COPY inside one bucket: `target` gets the
      body of `source`, stamped `now`; nothing else changes. */
  function Copied(objects: Objects, source: Key, target: Key, now: int): (r: Objects)
    requires source in objects
    ensures r.Keys == objects.Keys + {target}
    ensures r[target].body == objects[source].body
    ensures forall k :: k in objects && k != target ==> r[k] == objects[k]
  {
    objects[target := StoredObject(objects[source].body, now)]
  }

  class S3Client {
    /** Every bucket of the account, by name. */
    var buckets: map<BucketName, Objects>
    /** Every request issued so far, in order. */
    ghost var requests: seq<Request>

    constructor(buckets: map<BucketName, Objects>)
      ensures this.buckets == buckets && requests == []
    {
      this.buckets := buckets;
      requests := [];
    }

    method GetObject(bucket: BucketName, key: Key, fault: Option<string>) returns (r: Result<Body>)
      modifies this`requests
      ensures requests == old(requests) + [Get(bucket, key)]
      ensures var e := GetError(buckets, bucket, key, fault);
        && (r.Ok? <==> e.None?)
        && (r.Ok? ==> r.value == buckets[bucket][key].body)
        && (r.Err? ==> r.error == e.value)
    {
      requests := requests + [Get(bucket, key)];
      var e := GetError(buckets, bucket, key, fault);
      if e.Some? {
        return Err(e.value);
      }
      return Ok(buckets[bucket][key].body);
    }

    method PutObject(bucket: BucketName, key: Key, body: Body, now: int, fault: Option<string>) returns (e: Option<string>)
      modifies this
      ensures requests == old(requests) + [Put(bucket, key, body)]
      ensures e == RequestError(old(buckets), bucket, fault)
      ensures buckets == if e.Some? then old(buckets)
                         else old(buckets)[bucket := old(buckets)[bucket][key := StoredObject(body, now)]]
    {
      requests := requests + [Put(bucket, key, body)];
      e := RequestError(buckets, bucket, fault);
      if e.None? {
        buckets := buckets[bucket := buckets[bucket][key := StoredObject(body, now)]];
      }
    }

    /** Deleting a key that is not there succeeds and changes nothing. */
    method DeleteObject(bucket: BucketName, key: Key, fault: Option<string>) returns (e: Option<string>)
      modifies this
      ensures requests == old(requests) + [Delete(bucket, key)]
      ensures e == RequestError(old(buckets), bucket, fault)
      ensures buckets == if e.Some? then old(buckets)
                         else old(buckets)[bucket := old(buckets)[bucket] - {key}]
    {
      requests := requests + [Delete(bucket, key)];
      e := RequestError(buckets, bucket, fault);
      if e.None? {
        buckets := buckets[bucket := buckets[bucket] - {key}];
      }
    }

    method CopyObject(sourceBucket: BucketName, sourceKey: Key, bucket: BucketName, key: Key,
                      now: int, fault: Option<string>) returns (e: Option<string>)
      modifies this
      ensures requests == old(requests) + [Copy(sourceBucket, sourceKey, bucket, key)]
      ensures e == CopyError(old(buckets), sourceBucket, sourceKey, bucket, key, fault)
      ensures buckets == if e.Some? then old(buckets)
                         else old(buckets)[bucket := old(buckets)[bucket][key :=
                                StoredObject(old(buckets)[sourceBucket][sourceKey].body, now)]]
    {
      requests := requests + [Copy(sourceBucket, sourceKey, bucket, key)];
      e := CopyError(buckets, sourceBucket, sourceKey, bucket, key, fault);
      if e.None? {
        var body := buckets[sourceBucket][sourceKey].body;
        buckets := buckets[bucket := buckets[bucket][key := StoredObject(body, now)]];
      }
    }

    /** A prefix LIST: each object under `prefix` once, in an order the store chooses. */
    method ListObjects(bucket: BucketName, prefix: string, fault: Option<string>)
      returns (r: Result<seq<ObjectSummary>>)
      modifies this`requests
      ensures requests == old(requests) + [List(bucket, prefix)]
      ensures var e := RequestError(buckets, bucket, fault);
        && (r.Ok? <==> e.None?)
        && (r.Ok? ==> IsListing(buckets[bucket], prefix, r.value))
        && (r.Err? ==> r.error == e.value)
    {
      requests := requests + [List(bucket, prefix)];
      var e := RequestError(buckets, bucket, fault);
      if e.Some? {
        return Err(e.value);
      }
      var objects := buckets[bucket];
      var pending := UnderPrefix(objects, prefix);
      var listing: seq<ObjectSummary> := [];
      while pending != {}
        invariant pending <= UnderPrefix(objects, prefix)
        invariant forall i :: 0 <= i < |listing| ==> Describes(objects, listing[i]) && prefix <= listing[i].key
        invariant forall i :: 0 <= i < |listing| ==> listing[i].key !in pending
        invariant Distinct(Keys(listing))
        invariant forall k :: k in UnderPrefix(objects, prefix) ==> k in pending || k in Keys(listing)
        decreases pending
      {
        var k :| k in pending;
        ghost var before := listing;
        listing := listing + [ObjectSummary(k, |objects[k].body|, objects[k].lastModified)];
        assert Keys(listing) == Keys(before) + [k];
        pending := pending - {k};
      }
      return Ok(listing);
    }

    /** A batch DELETE of `keys`; keys that are not there are skipped. */
    method DeleteObjects(bucket: BucketName, keys: seq<Key>, fault: Option<string>) returns (e: Option<string>)
      modifies this
      ensures requests == old(requests) + [DeleteBatch(bucket, keys)]
      ensures e == RequestError(old(buckets), bucket, fault)
      ensures buckets == if e.Some? then old(buckets)
                         else old(buckets)[bucket := old(buckets)[bucket] - KeySet(keys)]
    {
      requests := requests + [DeleteBatch(bucket, keys)];
      e := RequestError(buckets, bucket, fault);
      if e.None? {
        buckets := buckets[bucket := buckets[bucket] - KeySet(keys)];
      }
    }
  }

  lemma {:induction false} DistinctCardinality(keys: seq<Key>)
    requires Distinct(keys)
    ensures |KeySet(keys)| == |keys|
  {
    if keys != [] {
      var rest := keys[..|keys| - 1];
      var last := keys[|keys| - 1];
      assert Distinct(rest);
      DistinctCardinality(rest);
      assert KeySet(keys) == KeySet(rest) + {last};
      assert last !in rest;
    }
  }

  /** A LIST response has exactly as many entries as there are keys under the
      prefix; in particular it is empty when no key starts with the prefix. */
  lemma ListingLength(objects: Objects, prefix: string, listing: seq<ObjectSummary>)
    requires IsListing(objects, prefix, listing)
    ensures |listing| == |UnderPrefix(objects, prefix)|
  {
    var keys := Keys(listing);
    DistinctCardinality(keys);
    assert KeySet(keys) == UnderPrefix(objects, prefix);
  }

  /** A batch DELETE of a complete listing for `prefix` removes exactly the keys
      that match the prefix, and nothing under the prefix is left. */
  lemma DeleteListedEmptiesPrefix(objects: Objects, prefix: string, listing: seq<ObjectSummary>)
    requires IsListing(objects, prefix, listing)
    ensures (objects - KeySet(Keys(listing))) == objects - UnderPrefix(objects, prefix)
    ensures UnderPrefix(objects - KeySet(Keys(listing)), prefix) == {}
  {
    assert KeySet(Keys(listing)) * objects.Keys == UnderPrefix(objects, prefix);
  }
}
