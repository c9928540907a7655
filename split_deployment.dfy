/** The JSON variant (shortened_url.py) as deployed: ShortenedURL and Redirect
    each keep their own copy of the code index, and the only link between
    them is the id2url file. Redirect reloads the file before each request
    and writes its copy back after counting a view; ShortenedURL never
    reloads, and writes its own copy over the file whenever it registers a
    new URL. This module records that arrangement to exhibit what it does to
    view counts; the rest of the model uses one shared store instead. */
module SplitDeployment {
  import Base62
  import opened Links

  datatype Deployment = Deployment(
    post: Store,                          // ShortenedURL's fields
    redirectCopy: map<string, Record>,    // Redirect's id2url
    file: map<string, Record>)            // the contents of id2url.json

  /** A fresh process with no files on disk. */
  function Fresh(): (d: Deployment)
    ensures Linked(d.post) && d.post.counter == Start
    ensures d.post.url2id == map[] && d.post.id2url == map[]
    ensures d.redirectCopy == map[] && d.file == map[]
  {
    Deployment(Empty(), map[], map[])
  }

  /** ShortenedURL.on_post: create-or-get on its own fields; a registration
      is followed by a write of its whole id2url copy to the file. */
  function PostAsWritten(d: Deployment, url: string, isUrl: string -> bool)
    : (res: (Deployment, Reply<string>))
    ensures (res.0.post, res.1) == CreateOrGet(d.post, url, isUrl, None)
    ensures res.0.redirectCopy == d.redirectCopy
    ensures res.0.file == if isUrl(url) && url !in d.post.url2id then res.0.post.id2url else d.file
  {
    var (post', reply) := CreateOrGet(d.post, url, isUrl, None);
    if isUrl(url) && url !in d.post.url2id then (d.(post := post', file := post'.id2url), reply)
    else (d, reply)
  }

  /** Redirect.on_get: reload the file, then resolve on the reloaded copy;
      a counted view is followed by a write of the copy to the file. */
  function RedirectAsWritten(d: Deployment, code: string): (res: (Deployment, Reply<string>))
    ensures res.0.post == d.post
    ensures res.0.redirectCopy == res.0.file
    ensures res.1.BadRequest? <==> code !in d.file
    ensures code !in d.file ==> res.0.file == d.file && res.1 == BadRequest(code)
    ensures code in d.file ==>
              && res.1 == Ok(d.file[code].url)
              && res.0.file == d.file[code := Viewed(d.file[code], None)]
              && res.0.file[code].views == d.file[code].views + 1
  {
    var copy := d.file;
    if code !in copy then (d.(redirectCopy := copy), BadRequest(code))
    else
      var copy' := copy[code := Viewed(copy[code], None)];
      (d.(redirectCopy := copy', file := copy'), Ok(copy[code].url))
  }

  /** Post one URL, follow its short link once, post another URL: the file
      ends up with no view recorded for the first link, and ShortenedURL's
      copy has none either, so the view is lost for good. */
  lemma LostViewAsWritten(isUrl: string -> bool, a: string, b: string)
    requires isUrl(a) && isUrl(b) && a != b
    ensures var (d1, r1) := PostAsWritten(Fresh(), a, isUrl);
            var (d2, r2) := RedirectAsWritten(d1, "4c92");
            var (d3, r3) := PostAsWritten(d2, b, isUrl);
            && r1 == Ok("4c92") && r2 == Ok(a)
            && d2.file["4c92"].views == 1
            && "4c92" in d3.file && d3.file["4c92"].views == 0
            && d3.post.id2url["4c92"].views == 0
  {
    Base62.FirstCode();
    var (d1, r1) := PostAsWritten(Fresh(), a, isUrl);
    CreateOrGetKeepsLinked(Empty(), a, isUrl, None);
    var (d2, r2) := RedirectAsWritten(d1, "4c92");
    CreateOrGetKeepsLinked(d2.post, b, isUrl, None);
  }
}
