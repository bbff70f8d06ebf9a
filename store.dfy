/**
 * The object store both workers talk to (a DigitalOcean Spaces bucket
 * reached through the S3 API), reduced to the three per-object calls the
 * workers make: `head_object`, `get_object` and `put_object`. Whether a
 * call reaches the service is an input to each call; the store remembers
 * every request it was sent, so "no download" and "no write" can be stated.
 */
module ObjectStore {
  import opened Common

  /** The canned ACL an upload carries. */
  datatype Acl = Private | PublicRead

  /** A stored object: its bytes, its ACL and the content type given on upload, if any. */
  datatype Blob = Blob(body: seq<byte>, acl: Acl, contentType: Option<string>)

  /** A request as the store receives it. */
  datatype Request =
    | HeadReq(key: string)
    | GetReq(key: string)
    | PutReq(key: string, blob: Blob)

  /** The bucket's contents and the requests it has been sent, oldest first. */
  class Store {
    var objects: map<string, Blob>
    var log: seq<Request>

    constructor (initial: map<string, Blob>)
      ensures objects == initial && log == []
    {
      objects := initial;
      log := [];
    }

    /** `head_object`: succeeds exactly when the service is reached and holds the key; nothing is stored. */
    method Head(key: string, reaches: bool) returns (found: bool)
      modifies this
      ensures found <==> reaches && key in old(objects)
      ensures objects == old(objects)
      ensures log == old(log) + [HeadReq(key)]
    {
      found := reaches && key in objects;
      log := log + [HeadReq(key)];
    }

    /** `get_object` and reading its body: the stored bytes when reached and present, otherwise an error. */
    method Get(key: string, reaches: bool) returns (body: Option<seq<byte>>)
      modifies this
      ensures body.Some? <==> reaches && key in old(objects)
      ensures body.Some? ==> body.value == old(objects)[key].body
      ensures objects == old(objects)
      ensures log == old(log) + [GetReq(key)]
    {
      if reaches && key in objects {
        body := Some(objects[key].body);
      } else {
        body := None;
      }
      log := log + [GetReq(key)];
    }

    /** `put_object`: when reached, the key holds exactly the new blob afterwards; otherwise nothing changes. */
    method Put(key: string, blob: Blob, reaches: bool) returns (ok: bool)
      modifies this
      ensures ok == reaches
      ensures objects == if ok then old(objects)[key := blob] else old(objects)
      ensures log == old(log) + [PutReq(key, blob)]
    {
      ok := reaches;
      if ok {
        objects := objects[key := blob];
      }
      log := log + [PutReq(key, blob)];
    }
  }
}
