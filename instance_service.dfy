/** The JSON variant of the service (shortened_url.py). ShortenedURL keeps the
    counter and both indexes as instance fields and records no access time.
    Redirect serves '/{code}'; here it acts on the same ShortenedURL object,
    so it sees every code as soon as it is created. The URL validator is a
    parameter. */
module InstanceService {
  import opened Base62
  import opened Links

  class ShortenedURL {
    /** The next ID to allocate. */
    var id: nat
    var url2id: map<string, nat>
    var id2url: map<string, Record>

    /** The store the three fields make up. */
    function Snapshot(): Store
      reads this
    {
      Store(url2id, id2url, id)
    }

    /** The store invariant; in this variant no record has an access time. */
    ghost predicate Valid()
      reads this
    {
      && Linked(Snapshot())
      && forall c | c in id2url :: id2url[c].accessedTime == None
    }

    /** The fields as the constructor sets them, before any file is loaded. */
    constructor ()
      ensures Valid() && Snapshot() == Empty()
    {
      id := Start;
      url2id := map[];
      id2url := map[];
    }

    /** POST '/': reject an invalid URL; answer the code of a known URL;
        otherwise allocate the counter, record {url, views: 0} under its code
        and advance the counter. */
    method OnPost(url: string, isUrl: string -> bool) returns (reply: Reply<string>)
      requires Valid()
      modifies this
      ensures Valid()
      ensures (Snapshot(), reply) == CreateOrGet(old(Snapshot()), url, isUrl, None)
      ensures !isUrl(url) || url in old(url2id) ==> unchanged(this)
      ensures isUrl(url) && url !in old(url2id) ==>
                && Digits(old(id)) !in old(id2url)
                && url2id == old(url2id)[url := old(id)]
                && id2url == old(id2url)[Digits(old(id)) := Record(url, 0, None)]
                && id == old(id) + 1
    {
      CreateOrGetKeepsLinked(Snapshot(), url, isUrl, None);
      ghost var after := CreateOrGet(Snapshot(), url, isUrl, None);
      if !isUrl(url) {
        reply := BadRequest(url);
        return;
      }
      if url in url2id {
        var unencodedId := url2id[url];
        var encodedId := Encode(unencodedId);
        reply := Ok(encodedId);
      } else {
        url2id := url2id[url := id];
        var encodedId := Encode(id);
        id2url := id2url[encodedId := Record(url, 0, None)];
        id := id + 1;
        reply := Ok(encodedId);
      }
      assert Snapshot() == after.0;
    }
  }

  class Redirect {
    /** The store whose code index this route reads and updates. */
    const store: ShortenedURL

    constructor (store: ShortenedURL)
      ensures this.store == store
    {
      this.store := store;
    }

    /** GET '/{code}': an unknown code is a bad request and changes nothing; a
        known code gets one more view and the answer is its URL (the redirect
        target). */
    method OnGet(encodedId: string) returns (reply: Reply<string>)
      requires store.Valid()
      modifies store
      ensures store.Valid()
      ensures (store.Snapshot(), reply) == Resolve(old(store.Snapshot()), encodedId, None)
      ensures encodedId !in old(store.id2url) ==> unchanged(store) && reply == BadRequest(encodedId)
      ensures encodedId in old(store.id2url) ==>
                && reply == Ok(old(store.id2url)[encodedId].url)
                && store.id2url == old(store.id2url)[encodedId :=
                     old(store.id2url)[encodedId].(views := old(store.id2url)[encodedId].views + 1)]
                && store.url2id == old(store.url2id) && store.id == old(store.id)
    {
      ResolveKeepsLinked(store.Snapshot(), encodedId, None);
      ghost var after := Resolve(store.Snapshot(), encodedId, None);
      if encodedId !in store.id2url {
        reply := BadRequest(encodedId);
      } else {
        var rec := store.id2url[encodedId];
        store.id2url := store.id2url[encodedId := rec.(views := rec.views + 1)];
        reply := Ok(store.id2url[encodedId].url);
      }
      assert store.Snapshot() == after.0;
    }
  }
}
