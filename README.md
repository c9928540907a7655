# Shortened-URL link store, in Dafny

This project models the core of a small URL-shortening service. The service has two
near-identical variants: the HTML service in `src/shortened_url.py` and the JSON service
in `shortened_url.py`. Their core has three parts:

- **The encoder.** `encode` turns a non-negative integer ID into a short code. It takes
  remainders modulo 62, maps each one to a symbol of `0-9a-zA-Z`, and reverses the
  collected symbols, so the most significant digit comes first.
- **The link store.** `url2id` maps each URL to its ID. `id2url` maps each code to a
  record `{url, views[, accessed_time]}`. A counter holds the next ID and starts at
  1,000,000.
- **The request handlers.** Create-or-get (`on_post`), resolve (`on_get_redirect` and
  `Redirect.on_get`), and stats (`on_get_stats`).

Modules:

- `Base62` (`base62.dfy`). `Encode` is the encoder loop, proved against the recursive
  specification `Digits`. `Value` reads a code back as a base-62 numeral. The lemmas
  prove the round trip, injectivity, the absence of a leading zero digit, and that every
  canonical numeral is some ID's code.
- `Links` (`links.dfy`). The store as a value (`Store`) with its invariant `Linked`. The
  three operations are functions of the store: `CreateOrGet`, `Resolve` and `Stats`. The
  lemmas cover what the store promises: the invariant is kept, a new code never
  overwrites a record, create-then-resolve returns the URL, create-or-get is idempotent,
  unissued codes are rejected, and the counter counts registrations.
- `ClassLevelService` (`class_level_service.dfy`). The HTML variant. Its state is class
  attributes shared by every route object. Here one `ShortenedURL` object holds that
  state and every route acts on it.
- `InstanceService` (`instance_service.dfy`). The JSON variant. `ShortenedURL` keeps the
  state in instance fields. `Redirect` holds a reference to the same `ShortenedURL`, so
  both routes share one store.
- `SplitDeployment` (`split_deployment.dfy`). The JSON variant as actually wired, with
  two separate copies of `id2url` joined only through the file. It exists to exhibit the
  finding below.

Each handler is a method that updates the object's fields. Its postcondition equates
the new store and its reply with the specification function, and also states the new
fields directly. The URL validator is the parameter `isUrl: string -> bool`. The clock
reading is the parameter `now: Timestamp`.

Facts about the code that the model keeps:

- The HTML variant sets `accessed_time` to the current time when it creates a record.
- The JSON variant records no access time. Its records carry `None`.
- Neither variant takes a lock.

## Model

| member | source | states |
|---|---|---|
| Base62.Encode | src/shortened_url.py:59-74 | For `id >= 0` the loop's result is `Digits(id)`, the base-62 numeral of `id` with the most significant digit first. For `id <= 0` the loop never runs and the result is `""`. |
| Base62.DigitOf | src/shortened_url.py:63-64 | The digit of a symbol is below 62, and indexing `characters` with it gives back the symbol. |
| Base62.SymbolOfDigit | shortened_url.py:41-42 | Each of the 62 entries of `characters` is an alphanumeric symbol whose digit is its own position, so the entries are pairwise distinct. |
| Base62.Digits | src/shortened_url.py:68-70 | Every character of a code is a digit, a lower-case letter or an upper-case letter. |
| Base62.DigitsInAlphabet | shortened_url.py:46-48 | Every character of a code is one of the 62 entries of `characters`. |
| Base62.Reversed | src/shortened_url.py:73-74 | The final `ret[::-1]` has the same length as `ret` and holds its elements in the opposite order. |
| Base62.ValueOfDigits | shortened_url.py:45-52 | Reading the code of `n` back as a base-62 numeral over `characters` gives `n`. |
| Base62.DigitsInjective | shortened_url.py:37-52 | Two IDs with the same code are equal. |
| Base62.NoLeadingZero | src/shortened_url.py:67-74 | The code is empty exactly for ID 0. For any other ID it does not start with `'0'`. |
| Base62.DigitsCanonical | shortened_url.py:45-52 | The code of a positive ID is canonical: non-empty, over the alphabet, no leading zero. |
| Base62.DigitsOfValue | src/shortened_url.py:67-74 | Every canonical numeral is the code of its own value, so the codes are exactly the canonical numerals. |
| Base62.FirstCode | src/shortened_url.py:36 | The first ID, 1,000,000, has code `"4c92"`. |
| Links.Empty | src/shortened_url.py:36-38 | The initial store has empty indexes and counter 1,000,000, and satisfies the store invariant. |
| Links.FreshCode | src/shortened_url.py:150-153 | When the invariant holds, the code of the current counter is not yet in `id2url`, so a registration overwrites no record. |
| Links.IdsDistinct | src/shortened_url.py:150-154 | When the invariant holds, two distinct stored URLs have distinct IDs, so IDs are never reused. |
| Links.IssuedCode | src/shortened_url.py:151-153 | Every code in `id2url` is canonical. Its value is an allocated ID in [1,000,000, counter), namely the ID of the URL it records. |
| Links.Register | src/shortened_url.py:151-154 | Allocation, as in both variants (also shortened_url.py:65-68). The new URL maps to the old counter. The code of that ID holds `{url, 0 views, stamp}`. The counter grows by 1. Every other entry of both indexes is unchanged. |
| Links.RegisterKeepsLinked | shortened_url.py:65-68 | Registering a URL not yet stored keeps the invariant, and the code it fills was unused. |
| Links.CreateOrGet | src/shortened_url.py:138-156 | An invalid URL gives a bad request naming it and changes nothing. A known URL changes nothing. The counter grows by one exactly for a new valid URL. A success answers the code of the URL's stored ID. |
| Links.CreateOrGetKeepsLinked | shortened_url.py:61-68 | Create-or-get keeps the invariant. For a new valid URL, `url2id` gains `url -> old counter` and `id2url` gains a record `{url, 0 views}` under that ID's previously unused code. Nothing else changes. |
| Links.Viewed | src/shortened_url.py:127-128 | The view bump, as in both variants (also shortened_url.py:95). The record keeps its URL and gains exactly one view. It takes the new access time when one is given, and keeps its old one otherwise. |
| Links.Resolve | src/shortened_url.py:117-131 | An unknown code gives a bad request and changes nothing. A known code answers its stored URL. That record keeps its URL, gains one view, and takes the new access time if the variant keeps one. All other records, `url2id` and the counter are unchanged. |
| Links.ResolveKeepsLinked | shortened_url.py:92-98 | Resolve keeps the store invariant. |
| Links.Stats | src/shortened_url.py:93-105 | A known code answers its stored record unchanged. An unknown code gives a bad request naming it. |
| Links.RoundTrip | shortened_url.py:61-98 | After create-or-get on a valid URL, resolving the returned code answers that URL. |
| Links.CreateOrGetIdempotent | shortened_url.py:61-63 | A second create-or-get of the same URL returns the same reply and leaves the store as the first call left it. |
| Links.UnissuedCodeRejected | src/shortened_url.py:117-125 | When the invariant holds, a code that is not canonical was never issued. That covers the empty string, an out-of-alphabet character and a leading zero. Resolve and stats reject it and nothing changes. |
| Links.ViewsSurviveCreate | src/shortened_url.py:150-156 | On one shared store, as the HTML variant has it, a view counted by resolve is still counted after any later create-or-get. This is the intended behaviour of the JSON variant too; its code as written loses the view (`SplitDeployment.LostViewAsWritten`, see Findings). |
| Links.CreateAllCounts | src/shortened_url.py:150-154 | After N creations of distinct new valid URLs, the counter has advanced by exactly N and `id2url` holds N more codes. The invariant still holds. |
| Links.FirstLinkScenario | src/shortened_url.py:115-156 | From a fresh store, the first URL gets code `"4c92"` with 0 views. Two resolves answer the URL, leave 2 views, and the last access time is that of the second resolve. |
| ClassLevelService.ShortenedURL.constructor | src/shortened_url.py:36-38 | The shared state starts with empty maps and counter 1,000,000. |
| ClassLevelService.ShortenedURL.OnPost | src/shortened_url.py:133-156 | The new fields and reply are those of `CreateOrGet` with the current time. Invalid and known URLs leave the object unchanged. A new URL sets `url2id[url]` to the old counter and adds `{url, 0, now}` under its fresh code. The counter grows by 1. The invariant is kept. |
| ClassLevelService.ShortenedURL.OnGetRedirect | src/shortened_url.py:115-131 | The new fields and reply are those of `Resolve`. An unknown code gives a bad request with no change. A known code gets exactly one more view and access time `now`, and its URL is the redirect target. Nothing else changes. |
| ClassLevelService.ShortenedURL.OnGetStats | src/shortened_url.py:89-113 | Answers `Stats` of the current store without changing it. A returned record is the one its URL's ID codes to, and it has an access time, since every record gets one at creation (line 153) and the page reads it unconditionally (line 105). |
| InstanceService.ShortenedURL.constructor | shortened_url.py:15-19 | The instance starts with counter 1,000,000 and empty maps. |
| InstanceService.ShortenedURL.OnPost | shortened_url.py:54-73 | The new fields and reply are those of `CreateOrGet` without a time stamp. Invalid and known URLs change nothing. A new URL gets the old counter and a record `{url, views: 0}` under its fresh code. The counter grows by 1. |
| InstanceService.Redirect.constructor | shortened_url.py:77-81 | The route object is bound to the store it reads. |
| InstanceService.Redirect.OnGet | shortened_url.py:90-98 | The new store and reply are those of `Resolve`. An unknown code gives a bad request with no change. A known code gets exactly one more view and redirects to its stored URL. No other record changes. |
| SplitDeployment.Fresh | shortened_url.py:17-19 | A new process with no files. ShortenedURL's store is empty with counter 1,000,000 and satisfies the invariant. Redirect's copy (line 78) and the file are empty. |
| SplitDeployment.PostAsWritten | shortened_url.py:61-70 | As wired: ShortenedURL's new fields and the reply are those of `CreateOrGet` without a time stamp, on its own copy only. A registration writes that whole `id2url` copy over the file; otherwise the file is unchanged. Redirect's copy is untouched. |
| SplitDeployment.RedirectAsWritten | shortened_url.py:83-98 | As wired: Redirect reloads its copy from the file (line 91), so afterwards its copy equals the file. An unknown code gives a bad request naming it and leaves the file unchanged. A known code redirects to its stored URL (line 98), and the file becomes the old file with only that record changed: same URL, one more view. ShortenedURL's fields are untouched. |
| SplitDeployment.LostViewAsWritten | shortened_url.py:31-35 | Post `a`, redirect once on `"4c92"`, then post `b`: the file and ShortenedURL's copy both show 0 views for `"4c92"`. |

## Left out

- Persistence: loading both JSON files in `__init__`, `sync2disk`, and `refresh`. The
  model keeps the in-memory state only. In the HTML variant every mutation is written
  back at once, so in one process `refresh` reloads what memory already holds.
  `SplitDeployment` models the JSON variant's file only as far as its finding needs.
  It writes a missing `id2url` file as the empty map: `refresh` then keeps Redirect's
  copy, which is still the empty map it started with, so reloading changes nothing.
- The counter stored under the key `'id'` of `url2id` when saving. The model keeps the
  counter as its own field. The validator rejects the URL `id`, so the key never meets
  a posted URL.
- Write failures, corrupt files and restarts: these are file I/O.
- `validators.url` is an external library. It is the parameter `isUrl`.
- `datetime.now().isoformat()` is the clock. It is the parameter `now`.
- HTTP and framework glue: the response status constants, HTML and JSON bodies, form
  and JSON request parsing (a request without a `url` field), the `on_get` form page,
  `create_app`/`get_app`, CORS, and the gunicorn logger.
- Concurrency. Several workers or processes sharing the state or the files are not
  modelled. The source takes no lock.
- InstanceService.Redirect.constructor: the deployed `Redirect.__init__` makes its own
  `id2url` copy and loads it from the file. The model binds the route to
  ShortenedURL's store instead. Only `SplitDeployment` keeps the two copies apart.
- InstanceService.Redirect.OnGet: the deployed `Redirect` reloads its copy from the
  file, updates it and writes it back. The model lets it act on ShortenedURL's store
  directly.
- In-place update of a record dict (`['views'] += 1`) is modelled by storing an
  updated record value in the map. Nothing else holds a reference to the record, so
  the aliasing is not observable.

## Findings

| source | as written | input that shows it | evidently intended | confidence | as-written member | corrected member |
|---|---|---|---|---|---|---|
| shortened_url.py:64-70 | `ShortenedURL.on_post` never reloads `id2url` but writes its own copy over `id2url.json` after each registration, discarding the views that `Redirect.on_get` saved there | POST URL `a`, GET its code `4c92` once, POST a different URL `b`: `id2url.json` and ShortenedURL's copy show 0 views for `4c92` | a counted view stays counted when other links are created | high; not executed | SplitDeployment.LostViewAsWritten | Links.ViewsSurviveCreate |
