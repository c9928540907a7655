/** The link store as a value: the URL index (url2id), the code index (id2url)
    and the next-ID counter, the invariant that ties them together, and the
    create-or-get, resolve and stats operations as functions of the store.
    The handler classes of both service variants are specified by these. */
module Links {
  import opened Base62

  /** An ISO-8601 time stamp, as the clock renders it. */
  type Timestamp = string

  datatype Option<T> = None | Some(value: T)

  /** An entry of the code index. A service variant that keeps no access time
      stores None. */
  datatype Record = Record(url: string, views: nat, accessedTime: Option<Timestamp>)

  /** What a handler answers: a value, or a bad request naming the rejected input. */
  datatype Reply<T> = Ok(value: T) | BadRequest(input: string)

  /** The first ID the store allocates. */
  const Start: nat := 1_000_000

  datatype Store = Store(url2id: map<string, nat>, id2url: map<string, Record>, counter: nat)

  /** The store invariant. Every stored URL has an ID in [Start, counter) whose
      code leads back to the URL; every code belongs to the ID of the URL it
      records; and each index holds one entry per allocated ID. */
  predicate Linked(s: Store)
  {
    && Start <= s.counter
    && |s.url2id| == s.counter - Start
    && |s.id2url| == s.counter - Start
    && (forall u | u in s.url2id :: Start <= s.url2id[u] < s.counter)
    && (forall u | u in s.url2id ::
          Digits(s.url2id[u]) in s.id2url && s.id2url[Digits(s.url2id[u])].url == u)
    && (forall c | c in s.id2url ::
          s.id2url[c].url in s.url2id && Digits(s.url2id[s.id2url[c].url]) == c)
  }

  /** The store a fresh process starts with. */
  function Empty(): (s: Store)
    ensures Linked(s)
    ensures s.url2id == map[] && s.id2url == map[] && s.counter == Start
  {
    Store(map[], map[], Start)
  }

  /** The code of the next ID is not in use yet, so allocating it overwrites
      no record. */
  lemma FreshCode(s: Store)
    requires Linked(s)
    ensures Digits(s.counter) !in s.id2url
  {
    if Digits(s.counter) in s.id2url {
      var u := s.id2url[Digits(s.counter)].url;
      DigitsInjective(s.url2id[u], s.counter);
    }
  }

  /** Two stored URLs never share an ID: IDs are not reused. */
  lemma IdsDistinct(s: Store, u: string, v: string)
    requires Linked(s) && u in s.url2id && v in s.url2id && u != v
    ensures s.url2id[u] != s.url2id[v]
  {
  }

  /** Every code in the code index is the canonical base-62 numeral of an
      allocated ID, namely the ID of the URL it records. */
  lemma IssuedCode(s: Store, code: string)
    requires Linked(s) && code in s.id2url
    ensures Canonical(code)
    ensures Start <= Value(code) < s.counter
    ensures Value(code) == s.url2id[s.id2url[code].url]
  {
    var id := s.url2id[s.id2url[code].url];
    DigitsCanonical(id);
    ValueOfDigits(id);
  }

  /** Allocation of a new URL: the current counter becomes its ID, its code
      gets a record with no views, and the counter moves on. */
  function Register(s: Store, url: string, stamp: Option<Timestamp>): (r: Store)
    ensures r.counter == s.counter + 1
    ensures url in r.url2id && r.url2id[url] == s.counter
    ensures Digits(s.counter) in r.id2url && r.id2url[Digits(s.counter)] == Record(url, 0, stamp)
    ensures r.url2id - {url} == s.url2id - {url}
    ensures r.id2url - {Digits(s.counter)} == s.id2url - {Digits(s.counter)}
  {
    Store(s.url2id[url := s.counter],
          s.id2url[Digits(s.counter) := Record(url, 0, stamp)],
          s.counter + 1)
  }

  /** Create-or-get: an invalid URL is rejected, a known URL gets its existing
      code back, a new URL is registered. */
  function CreateOrGet(s: Store, url: string, isUrl: string -> bool, stamp: Option<Timestamp>)
    : (res: (Store, Reply<string>))
    ensures res.1.BadRequest? <==> !isUrl(url)
    ensures res.1.BadRequest? ==> res == (s, BadRequest(url))
    ensures url in s.url2id ==> res.0 == s
    ensures res.0.counter == if isUrl(url) && url !in s.url2id then s.counter + 1 else s.counter
    ensures res.1.Ok? ==> url in res.0.url2id && res.1.value == Digits(res.0.url2id[url])
  {
    if !isUrl(url) then (s, BadRequest(url))
    else if url in s.url2id then (s, Ok(Digits(s.url2id[url])))
    else (Register(s, url, stamp), Ok(Digits(s.counter)))
  }

  /** A viewed record: one more view, and the access time when the variant
      keeps one. */
  function Viewed(rec: Record, stamp: Option<Timestamp>): (r: Record)
    ensures r.url == rec.url && r.views == rec.views + 1
    ensures r.accessedTime == if stamp.Some? then stamp else rec.accessedTime
  {
    rec.(views := rec.views + 1, accessedTime := if stamp.Some? then stamp else rec.accessedTime)
  }

  /** Resolve: an unknown code is a bad request; a known code answers its URL
      and counts one view. */
  function Resolve(s: Store, code: string, stamp: Option<Timestamp>): (res: (Store, Reply<string>))
    ensures res.1.BadRequest? <==> code !in s.id2url
    ensures res.1.BadRequest? ==> res == (s, BadRequest(code))
    ensures res.1.Ok? ==> res.1.value == s.id2url[code].url
    ensures res.0.url2id == s.url2id && res.0.counter == s.counter
    ensures res.0.id2url.Keys == s.id2url.Keys
    ensures code in s.id2url ==>
              && res.0.id2url[code].url == s.id2url[code].url
              && res.0.id2url[code].views == s.id2url[code].views + 1
              && res.0.id2url[code].accessedTime ==
                   (if stamp.Some? then stamp else s.id2url[code].accessedTime)
    ensures forall c | c in s.id2url && c != code :: res.0.id2url[c] == s.id2url[c]
  {
    if code !in s.id2url then (s, BadRequest(code))
    else
      var rec := s.id2url[code];
      (s.(id2url := s.id2url[code := Viewed(rec, stamp)]), Ok(rec.url))
  }

  /** Resolve keeps the invariant: it changes neither index's keys, nor any
      record's URL, nor the counter. */
  lemma ResolveKeepsLinked(s: Store, code: string, stamp: Option<Timestamp>)
    requires Linked(s)
    ensures Linked(Resolve(s, code, stamp).0)
  {
  }

  /** Stats: the record of a known code, unchanged; a bad request otherwise. */
  function Stats(s: Store, code: string): (r: Reply<Record>)
    ensures r.BadRequest? <==> code !in s.id2url
    ensures r.BadRequest? ==> r.input == code
    ensures r.Ok? ==> r.value == s.id2url[code]
  {
    if code !in s.id2url then BadRequest(code) else Ok(s.id2url[code])
  }

  /** Create-or-get keeps the invariant. A new URL gets the old counter as its
      ID and a record with no views under that ID's code, which was unused;
      no other entry of either index changes. */
  lemma CreateOrGetKeepsLinked(s: Store, url: string, isUrl: string -> bool, stamp: Option<Timestamp>)
    requires Linked(s)
    ensures Linked(CreateOrGet(s, url, isUrl, stamp).0)
    ensures isUrl(url) && url !in s.url2id ==>
              var t := CreateOrGet(s, url, isUrl, stamp).0;
              && Digits(s.counter) !in s.id2url
              && t.url2id == s.url2id[url := s.counter]
              && t.id2url == s.id2url[Digits(s.counter) := Record(url, 0, stamp)]
  {
    if isUrl(url) && url !in s.url2id {
      RegisterKeepsLinked(s, url, stamp);
    }
  }

  /** Registering a URL not yet stored keeps the invariant. */
  lemma RegisterKeepsLinked(s: Store, url: string, stamp: Option<Timestamp>)
    requires Linked(s) && url !in s.url2id
    ensures Digits(s.counter) !in s.id2url
    ensures Linked(Register(s, url, stamp))
  {
    FreshCode(s);
    var t := Register(s, url, stamp);
    var code := Digits(s.counter);
    assert t.url2id == s.url2id[url := s.counter];
    assert t.id2url == s.id2url[code := Record(url, 0, stamp)];
    forall u | u in t.url2id
      ensures Digits(t.url2id[u]) in t.id2url && t.id2url[Digits(t.url2id[u])].url == u
    {
      if u != url {
        assert Digits(s.url2id[u]) in s.id2url;
      }
    }
    forall c | c in t.id2url
      ensures t.id2url[c].url in t.url2id && Digits(t.url2id[t.id2url[c].url]) == c
    {
      if c != code {
        assert s.id2url[c].url != url;
      }
    }
  }

  /** Round trip: after create-or-get on a valid URL, resolving the returned
      code answers that URL. */
  lemma RoundTrip(s: Store, url: string, isUrl: string -> bool, t1: Option<Timestamp>, t2: Option<Timestamp>)
    requires Linked(s) && isUrl(url)
    ensures var (s1, r1) := CreateOrGet(s, url, isUrl, t1);
            r1.Ok? && Resolve(s1, r1.value, t2).1 == Ok(url)
  {
  }

  /** Create-or-get twice on the same URL gives the same answer, and the second
      call changes nothing. */
  lemma CreateOrGetIdempotent(s: Store, url: string, isUrl: string -> bool, t1: Option<Timestamp>, t2: Option<Timestamp>)
    ensures var (s1, r1) := CreateOrGet(s, url, isUrl, t1);
            CreateOrGet(s1, url, isUrl, t2) == (s1, r1)
  {
  }

  /** A code that is not the canonical numeral of some ID (the empty string, a
      character outside the alphabet, a leading zero digit) was never issued:
      resolve and stats reject it and nothing changes. */
  lemma UnissuedCodeRejected(s: Store, code: string, stamp: Option<Timestamp>)
    requires Linked(s) && !Canonical(code)
    ensures Resolve(s, code, stamp) == (s, BadRequest(code))
    ensures Stats(s, code) == BadRequest(code)
  {
    if code in s.id2url {
      IssuedCode(s, code);
    }
  }

  /** Creating other links never disturbs a record: a view counted by resolve
      is still there after any later create-or-get. */
  lemma ViewsSurviveCreate(s: Store, code: string, url: string, isUrl: string -> bool,
                           t1: Option<Timestamp>, t2: Option<Timestamp>)
    requires Linked(s) && code in s.id2url
    ensures var s1 := Resolve(s, code, t1).0;
            var s2 := CreateOrGet(s1, url, isUrl, t2).0;
            code in s2.id2url && s2.id2url[code].views == s.id2url[code].views + 1
  {
    var s1 := Resolve(s, code, t1).0;
    CreateOrGetKeepsLinked(s1, url, isUrl, t2);
  }

  /** Create-or-get on a list of URLs, one after another. */
  function CreateAll(s: Store, urls: seq<string>, isUrl: string -> bool, stamp: Option<Timestamp>): (t: Store)
    decreases |urls|
  {
    if urls == [] then s
    else CreateAll(CreateOrGet(s, urls[0], isUrl, stamp).0, urls[1..], isUrl, stamp)
  }

  /** After N creations of distinct new valid URLs, the counter has advanced by
      exactly N and N more codes exist. */
  lemma {:induction false} CreateAllCounts(s: Store, urls: seq<string>, isUrl: string -> bool, stamp: Option<Timestamp>)
    requires Linked(s)
    requires forall i | 0 <= i < |urls| :: isUrl(urls[i]) && urls[i] !in s.url2id
    requires forall i, j | 0 <= i < j < |urls| :: urls[i] != urls[j]
    ensures var t := CreateAll(s, urls, isUrl, stamp);
            && Linked(t)
            && t.counter == s.counter + |urls|
            && |t.id2url| == |s.id2url| + |urls|
    decreases |urls|
  {
    if urls != [] {
      var s1 := CreateOrGet(s, urls[0], isUrl, stamp).0;
      CreateOrGetKeepsLinked(s, urls[0], isUrl, stamp);
      assert forall i | 0 <= i < |urls[1..]| :: urls[1..][i] == urls[i + 1];
      CreateAllCounts(s1, urls[1..], isUrl, stamp);
    }
  }

  /** A fresh store: the first link gets code "4c92" with no views; each
      resolve answers its URL and counts one more view. */
  lemma FirstLinkScenario(isUrl: string -> bool, t0: Timestamp, t1: Timestamp, t2: Timestamp)
    requires isUrl("https://example.com/a")
    ensures var (s1, r1) := CreateOrGet(Empty(), "https://example.com/a", isUrl, Some(t0));
            var (s2, r2) := Resolve(s1, "4c92", Some(t1));
            var (s3, r3) := Resolve(s2, "4c92", Some(t2));
            && r1 == Ok("4c92")
            && s1.id2url["4c92"] == Record("https://example.com/a", 0, Some(t0))
            && r2 == Ok("https://example.com/a") && s2.id2url["4c92"].views == 1
            && r3 == Ok("https://example.com/a") && s3.id2url["4c92"].views == 2
            && s3.id2url["4c92"].accessedTime == Some(t2)
            && s3.counter == Start + 1
  {
    FirstCode();
  }
}
