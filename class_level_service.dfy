/** The HTML variant of the service (src/shortened_url.py). Its counter and
    both indexes are class attributes, shared by the three route objects
    ('/', '/{code}' and '/{code}/stats'): here one ShortenedURL object holds
    them and every route acts on it. The clock reading and the URL validator
    are parameters. */
module ClassLevelService {
  import opened Base62
  import opened Links

  class ShortenedURL {
    /** The next ID to allocate. */
    var id: nat
    var url2id: map<string, nat>
    var id2url: map<string, Record>

    /** The store the three attributes make up. */
    function Snapshot(): Store
      reads this
    {
      Store(url2id, id2url, id)
    }

    /** The store invariant; in this variant every record has an access time,
        set when it is created and read unconditionally by the stats page. */
    ghost predicate Valid()
      reads this
    {
      && Linked(Snapshot())
      && forall c | c in id2url :: id2url[c].accessedTime.Some?
    }

    /** The attributes as the class defines them, before any file is loaded. */
    constructor ()
      ensures Valid() && Snapshot() == Empty()
    {
      id := Start;
      url2id := map[];
      id2url := map[];
    }

    /** POST '/': reject an invalid URL; answer the code of a known URL;
        otherwise allocate the counter, record the link with no views and the
        current time, and advance the counter. */
    method OnPost(url: string, isUrl: string -> bool, now: Timestamp) returns (reply: Reply<string>)
      requires Valid()
      modifies this
      ensures Valid()
      ensures (Snapshot(), reply) == CreateOrGet(old(Snapshot()), url, isUrl, Some(now))
      ensures !isUrl(url) || url in old(url2id) ==> unchanged(this)
      ensures isUrl(url) && url !in old(url2id) ==>
                && Digits(old(id)) !in old(id2url)
                && url2id == old(url2id)[url := old(id)]
                && id2url == old(id2url)[Digits(old(id)) := Record(url, 0, Some(now))]
                && id == old(id) + 1
    {
      CreateOrGetKeepsLinked(Snapshot(), url, isUrl, Some(now));
      ghost var after := CreateOrGet(Snapshot(), url, isUrl, Some(now));
      if !isUrl(url) {
        reply := BadRequest(url);
      } else if url in url2id {
        var unencodedId := url2id[url];
        var encodedId := Encode(unencodedId);
        reply := Ok(encodedId);
      } else {
        url2id := url2id[url := id];
        var encodedId := Encode(id);
        id2url := id2url[encodedId := Record(url, 0, Some(now))];
        id := id + 1;
        reply := Ok(encodedId);
      }
      assert Snapshot() == after.0;
    }

    /** GET '/{code}': an unknown code is a bad request and changes nothing; a
        known code gets one more view and the current time as its access
        time, and the answer is its URL (the redirect target). */
    method OnGetRedirect(encodedId: string, now: Timestamp) returns (reply: Reply<string>)
      requires Valid()
      modifies this
      ensures Valid()
      ensures (Snapshot(), reply) == Resolve(old(Snapshot()), encodedId, Some(now))
      ensures encodedId !in old(id2url) ==> unchanged(this) && reply == BadRequest(encodedId)
      ensures encodedId in old(id2url) ==>
                && reply == Ok(old(id2url)[encodedId].url)
                && id2url == old(id2url)[encodedId :=
                     old(id2url)[encodedId].(views := old(id2url)[encodedId].views + 1,
                                             accessedTime := Some(now))]
                && url2id == old(url2id) && id == old(id)
    {
      ResolveKeepsLinked(Snapshot(), encodedId, Some(now));
      ghost var after := Resolve(Snapshot(), encodedId, Some(now));
      if encodedId !in id2url {
        reply := BadRequest(encodedId);
      } else {
        var rec := id2url[encodedId];
        id2url := id2url[encodedId := rec.(views := rec.views + 1, accessedTime := Some(now))];
        reply := Ok(id2url[encodedId].url);
      }
      assert Snapshot() == after.0;
    }

    /** GET '/{code}/stats': the stored URL, views and access time of a known
        code, read without change; a bad request for an unknown code. */
    method OnGetStats(encodedId: string) returns (reply: Reply<Record>)
      requires Valid()
      ensures reply == Stats(Snapshot(), encodedId)
      ensures reply.Ok? ==> reply.value.url in url2id && Digits(url2id[reply.value.url]) == encodedId
      ensures reply.Ok? ==> reply.value.accessedTime.Some?
    {
      if encodedId !in id2url {
        reply := BadRequest(encodedId);
      } else {
        reply := Ok(id2url[encodedId]);
      }
    }
  }
}
