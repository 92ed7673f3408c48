# Alcance Sol: offline persistence and caching, modelled in Dafny

Alcance Sol is an offline-first web app for reporting connectivity problems. This project
models the parts of it that keep working without a network:

- the on-device record store of `lib/storage.ts`: an IndexedDB database `alcance-sol-db`,
  version 1, with two object stores:
  - `messages`, keyed by `id`, with a `by-timestamp` index;
  - `session`, with a single record under the fixed key `current_session`;
- the helpers beside that store: `generateId`, `formatMessageContent` and
  `createWhatsAppLink`, including `encodeURIComponent`;
- the session state of `lib/AuthContext.tsx`: `user` and `loading`, the restore on mount,
  and the mock `login` and `logout`;
- the cache controller of `public/sw.js`: install, activate, the fetch policies and the
  `SKIP_WAITING` message;
- the record types and constant tables of `lib/types.ts`.

## Files and modules

| file | module | what it holds |
|---|---|---|
| `wrappers.dfy` | `Wrappers` | `Option`, `Result` and `Outcome` |
| `types.dfy` | `Types` | the record types, `MOTIVO_OPTIONS` and `MOCK_ANTENNAS` |
| `strings.dfy` | `Strings` | code-point lexicographic order on strings; decimal rendering and parsing |
| `timestamp_index.dfy` | `TimestampIndex` | the `by-timestamp` index as a sorted sequence of (timestamp, key) entries |
| `storage.dfy` | `Storage` | the database as a value (`Disk`); upgrade and open; the `LocalStore` class |
| `uri_component.dfy` | `UriComponent` | UTF-8 encoding; `encodeURIComponent` with a decoder as its partner |
| `storage_utils.dfy` | `StorageUtils` | ids; the report template; the WhatsApp link |
| `auth.dfy` | `Auth` | the `AuthProvider` class and login/reload/logout scenarios |
| `service_worker.dfy` | `ServiceWorker` | the cache buckets as a value; the `Worker` class with its handlers |

## How the model is built

The model follows the source's own structure.

- State the source updates in place is a class whose methods carry `modifies` clauses:
  - `Storage.LocalStore` holds the durable database and the module-level `dbInstance` handle;
  - `Auth.AuthProvider` holds `user` and `loading`, plus a reference to the store;
  - `ServiceWorker.Worker` holds the cache storage and the `skipWaiting`/`clients.claim` flags.
- Each method's `ensures` gives its whole new state in terms of an abstract view:
  - `Messages()` and `Sessions()` for the record store;
  - `OpenBucket`, `PutEntry`, `DeleteBucket` and `MatchAll` for the cache storage.
- Separate lemmas prove properties of those views:
  - the schema invariant;
  - sortedness of the index;
  - the newest-first listing;
  - generation isolation after the activation sweep.
- Pure helpers are functions. Each has a partner:
  - a parser for `generateId`, proved to invert it;
  - the source's template literal for the report text, which the line-based definition is proved equal to for any fields;
  - a line splitter for the report template, which gives back the report's lines when no field holds a line feed;
  - a decoder for `encodeURIComponent`, proved to invert it;
  - a link parser for `createWhatsAppLink`, which gives back the digits and the message.
- Two loops of the source are methods with loop invariants:
  - `messages.reverse()` in `listMessages` is `Storage.ReverseInPlace` on an array;
  - the deletion of old buckets in the activate handler is the loop in `ServiceWorker.Worker.DeleteStale`, which `ServiceWorker.Worker.Activate` calls.

Outside inputs become parameters:

- `openOk`: whether `openDB` is granted when no handle exists yet.
- `requestOk`: whether the store request succeeds. A failed request writes nothing, since an
  IndexedDB transaction is atomic.
- `now`: the value of `Date.now()`.
- `random36`: the text of `Math.random().toString(36)`.
- the network: a response or none.

A page reload is a fresh `LocalStore` built over the same `Disk`.

## Model

| member | source | states |
|---|---|---|
| Types.StatusRoundTrip | lib/types.ts:2 | the three statuses have three distinct names, "queued", "sent" and "failed", and parsing a name gives back its status |
| Types.ParseStatus | lib/types.ts:2 | a string names a status exactly when it is one of the three names |
| Types.MotivoOptionsDistinct | lib/types.ts:41-47 | there are five reason options, with pairwise distinct values and pairwise distinct labels |
| Types.MockAntennasWellFormed | lib/types.ts:50-72 | there are three antennas, with ids "1", "2" and "3" and positive radii |
| Strings.StrLessTransitive | lib/storage.ts:54 | the key order the index uses to break timestamp ties is transitive |
| Strings.StrLessTotal | lib/storage.ts:54 | any two distinct keys are ordered one way or the other |
| Strings.StrLessIrreflexive | lib/storage.ts:54 | no key is before itself |
| Strings.StrLessAsymmetric | lib/storage.ts:54 | two keys are never ordered both ways |
| Strings.NatToDecimal | lib/storage.ts:107 | `Date.now()` renders as a non-empty run of decimal digits |
| Strings.ParseDecimal | lib/storage.ts:107 | parsing succeeds exactly on non-empty digit strings |
| Strings.DecimalRoundTrip | lib/storage.ts:107 | parsing the decimal rendering of a number gives the number back |
| Strings.DecimalInjective | lib/storage.ts:107 | distinct numbers render differently |
| TimestampIndex.EntryLessTransitive | lib/storage.ts:31 | the index order (timestamp, then primary key) is transitive |
| TimestampIndex.EntryLessTotal | lib/storage.ts:31 | any two distinct index entries are ordered |
| TimestampIndex.EntryLessIrreflexive | lib/storage.ts:31 | no index entry is before itself |
| TimestampIndex.RemoveKey | lib/storage.ts:74 | removing a key's entries keeps exactly the entries with other keys |
| TimestampIndex.RemoveKeySorted | lib/storage.ts:74 | removing a key's entries keeps the index sorted |
| TimestampIndex.Insert | lib/storage.ts:49 | inserting an entry adds exactly that entry |
| TimestampIndex.InsertSorted | lib/storage.ts:49 | inserting an entry keeps the index sorted |
| Storage.UpgradeIdempotent | lib/storage.ts:26-38 | the upgrade creates only missing stores and keeps existing ones; running it, or the open, twice is the same as once |
| Storage.OpenEstablishesSchema | lib/storage.ts:25-39 | opening gives version 1 with both stores and the declared schema: key path `id` and index `by-timestamp` on `timestamp`, key path `email`; every record is kept |
| Storage.Upgrade | lib/storage.ts:26-38 | the upgrade keeps the version and any existing store as it is, and creates each missing store empty with its key path (`id` with the `by-timestamp` index on `timestamp`, or `email`) |
| Storage.Open | lib/storage.ts:25-39 | the open raises an older database to version 1, leaves a current one as it is, and keeps every message and session record |
| Storage.PutMessage | lib/storage.ts:49 | a put stores `m` under `m.id`, and the index drops the old entry for `m.id` and gains the entry (timestamp, id) of `m`; the schema is unchanged |
| Storage.RemoveMessage | lib/storage.ts:74 | a delete drops the record under `id` and exactly the index entries for `id`; the schema is unchanged |
| Storage.PutMessageOk | lib/storage.ts:46-50 | a put is an upsert under `m.id` and keeps the store's invariant: keys match ids, and the index is sorted and in step with the records |
| Storage.RemoveMessageOk | lib/storage.ts:71-75 | a delete removes exactly that id and keeps the invariant; deleting an absent id changes nothing |
| Storage.Scan | lib/storage.ts:54 | the index scan lists every stored record, each under its own key, at the position of its index entry, so in strictly ascending (timestamp, id) order |
| Storage.ReversedAt | lib/storage.ts:56 | position k of the reversal holds element n-1-k |
| Storage.ReverseInPlace | lib/storage.ts:56 | the array is reversed in place |
| Storage.NewestFirst | lib/storage.ts:52-57 | the listing holds every stored message exactly once, in descending (timestamp, id) order; an empty store lists nothing |
| Storage.NewestFirstTimestamps | lib/storage.ts:52-57 | along the listing timestamps never increase and no id repeats; with distinct timestamps they strictly decrease |
| Storage.LocalStore.constructor | lib/storage.ts:20 | a page starts with no open handle over whatever the device stores |
| Storage.LocalStore.GetDB | lib/storage.ts:22-42 | an existing handle is returned without reopening; otherwise the open either upgrades and connects, or fails and changes nothing |
| Storage.LocalStore.AddMessage | lib/storage.ts:46-50 | on success the messages become the old ones with `m` under `m.id`; on failure nothing changes; sessions are untouched |
| Storage.LocalStore.ListMessages | lib/storage.ts:52-57 | on success the result is the reversed index scan, so `NewestFirst` applies; the store is unchanged |
| Storage.LocalStore.GetMessage | lib/storage.ts:59-63 | on success the result is the record under `id`, or none when it is absent |
| Storage.LocalStore.UpdateMessage | lib/storage.ts:65-69 | the same upsert as `AddMessage` |
| Storage.LocalStore.DeleteMessage | lib/storage.ts:71-75 | on success the messages lose exactly `id`; on failure nothing changes |
| Storage.LocalStore.GetSession | lib/storage.ts:81-90 | the record under `current_session` when the open and the read succeed, and null otherwise, including on any failure |
| Storage.LocalStore.SetSession | lib/storage.ts:92-96 | on success the session store holds exactly one record: the session, with its email replaced by `current_session` |
| Storage.LocalStore.ClearSession | lib/storage.ts:98-102 | on success the session store is empty |
| Storage.PutThenGet | lib/storage.ts:46-69 | after a put, a get of that id gives the message; a second put with the same id wins; the messages end as the stored ones with only that id set to the second message |
| Storage.DeleteAbsent | lib/storage.ts:71-75 | deleting an absent id succeeds, and the messages afterwards equal the stored ones |
| Storage.SessionRoundTrip | lib/storage.ts:81-102 | a get after a set gives the session keyed by `current_session`, with `loggedIn` and `timestamp` kept; a get after a clear gives null |
| UriComponent.HexRoundTrip | lib/storage.ts:122 | every uppercase hex digit reads back as its value |
| UriComponent.Utf8 | lib/storage.ts:122 | a character encodes to 1 to 4 bytes, and to a single byte exactly when it is ASCII |
| UriComponent.Utf8FirstOfEncoding | lib/storage.ts:122 | the decoder reads the first character of an encoding back, with its length |
| UriComponent.Utf8RoundTrip | lib/storage.ts:122 | decoding the UTF-8 encoding of a string gives the string back |
| UriComponent.EscapesTriplets | lib/storage.ts:122 | byte i of the UTF-8 encoding becomes the triplet at position 3i: `%` followed by the uppercase hex digits of its high and low halves |
| UriComponent.EncodeURIComponent | lib/storage.ts:122 | every character takes one to twelve characters of output |
| UriComponent.EncodeConcat | lib/storage.ts:122 | the encoding of a concatenation is the concatenation of the encodings |
| UriComponent.EncodeSingle | lib/storage.ts:122 | a character is left unescaped exactly when it is unreserved; any other character becomes the %HH escapes of its UTF-8 bytes |
| UriComponent.EncodeWellEncoded | lib/storage.ts:121-127 | `encodeURIComponent` outputs only unreserved characters (RFC 2396 section 2.3) and uppercase %HH triplets |
| UriComponent.PercentDecodeEncoded | lib/storage.ts:122 | percent-decoding the encoding gives the UTF-8 bytes of the input |
| UriComponent.EncodeRoundTrip | lib/storage.ts:122 | decoding the encoding of any string gives the string back |
| UriComponent.EncodeUnreservedIdentity | lib/storage.ts:122 | a string of unreserved characters encodes to itself |
| StorageUtils.Substr | lib/storage.ts:107 | `substr(2, 9)` gives the characters from index 2 on, min(9, length - 2) of them, and none when the text is shorter than 3 |
| StorageUtils.GenerateId | lib/storage.ts:106-108 | an id is the decimal digits of the clock, a dash and at most nine suffix characters; exactly nine when the random text has at least eleven characters |
| StorageUtils.GenerateIdRoundTrip | lib/storage.ts:106-108 | an id splits at its first dash into the time and the random suffix |
| StorageUtils.GenerateIdInjective | lib/storage.ts:106-108 | equal ids come from the same time and the same suffix |
| StorageUtils.ContactShown | lib/storage.ts:115 | an empty alternative contact is shown as "Não informado"; a non-empty one is shown verbatim |
| StorageUtils.FormatMessageContent | lib/storage.ts:110-119 | for any field contents, line feeds included, the report text is the template literal: header, blank line, the labelled name, reason, contact (with its fallback) and message, blank line, footer |
| StorageUtils.LinesOfJoin | lib/storage.ts:110-119 | splitting line-feed-joined lines with no line feeds of their own gives the lines back |
| StorageUtils.FormatLines | lib/storage.ts:110-119 | when no field holds a line feed, the report text splits into exactly its eight lines: the header, a blank line, the four labelled fields inserted verbatim, a blank line and the footer |
| StorageUtils.FormatInjective | lib/storage.ts:110-119 | single-line reports give the same text only when name, reason and message agree and the shown contact agrees |
| StorageUtils.Digits | lib/storage.ts:124-125 | the cleaned phone number is the in-order subsequence of the ASCII digits: each digit is kept as often as it occurs, and nothing else remains |
| StorageUtils.DigitsIdempotent | lib/storage.ts:124-125 | cleaning an already cleaned number changes nothing |
| StorageUtils.CreateWhatsAppLink | lib/storage.ts:121-127 | the link is `https://wa.me/`, then only digits, then `?text=`, then a well-encoded text |
| StorageUtils.WhatsAppLinkRoundTrip | lib/storage.ts:121-127 | the link parses back into the cleaned digits and the original message; the part after `?text=` is well encoded |
| Auth.AuthProvider.constructor | lib/AuthContext.tsx:18-19 | on mount there is no user, and loading is true |
| Auth.AuthProvider.LoadSession | lib/AuthContext.tsx:21-37 | the user is set only when a stored session is found with `loggedIn`; loading ends false on every path |
| Auth.AuthProvider.Login | lib/AuthContext.tsx:39-62 | empty credentials give false and touch nothing; otherwise the session is written first, and only on success is `user` set to `{email, loggedIn: true, timestamp: now}` and true returned; on failure `user` is kept |
| Auth.AuthProvider.Logout | lib/AuthContext.tsx:64-71 | `user` becomes null only once the stored session is cleared; on error it is kept |
| Auth.LoginThenReload | lib/AuthContext.tsx:46-54 | after a login, the in-memory user has the typed email, while a reload restores the stored record, with email `current_session` |
| Auth.LoginTwiceThenReload | lib/storage.ts:92-96 | after two logins a reload restores only the second session |
| Auth.LogoutThenReload | lib/AuthContext.tsx:64-71 | after a logout there is no user, and a reload restores none |
| Auth.RestoreWithoutStore | lib/AuthContext.tsx:21-37 | when the store cannot be opened, the restore leaves no user and still ends loading |
| ServiceWorker.CacheNameValue | public/sw.js:4-8 | the current bucket is `alcance-sol-v1`, and the manifest has nine distinct paths |
| ServiceWorker.OpenBucket | public/sw.js:16 | `caches.open` returns an existing bucket unchanged, or creates an empty one at the end of the order |
| ServiceWorker.PutEntry | public/sw.js:79 | `cache.put` sets that URL's entry in that bucket only; bucket names and the other buckets are unchanged |
| ServiceWorker.DeleteBucket | public/sw.js:44 | `caches.delete` removes exactly that bucket and leaves the others and their entries alone |
| ServiceWorker.MatchIn | public/sw.js:85-90 | `caches.match` answers with the entry of the first bucket, in creation order, that holds the URL, and with nothing when none does |
| ServiceWorker.MatchOnly | public/sw.js:85-90 | when a single bucket holds the URL, `caches.match` answers with its entry |
| ServiceWorker.AddAll | public/sw.js:19 | `addAll` succeeds exactly when every URL fetches with a 2xx response other than a partial 206 one, and then stores them all; otherwise nothing is stored |
| ServiceWorker.Classify | public/sw.js:61-98 | cross-origin and `/api/` requests are skipped; the navigate mode is tested before the destination; script, style, image and font are static assets |
| ServiceWorker.StaleNames | public/sw.js:40-41 | the filter keeps exactly the names that start with `alcance-sol-` and differ from the current bucket's name (their order is the list's, by the definition; the contract states membership only, and the sweep's result does not depend on the order) |
| ServiceWorker.Worker.constructor | public/sw.js:1-8 | a worker starts for its origin over the buckets the browser already keeps, with no skip-waiting requested and no clients claimed |
| ServiceWorker.Worker.Install | public/sw.js:11-29 | the current bucket is opened; either the whole shell is stored and skip-waiting is requested, or the bucket stays as it was and no skip is requested |
| ServiceWorker.Worker.DeleteStale | public/sw.js:36-46 | the buckets end as `DeleteAll` of the stale names of the original list, one `caches.delete` after another; the other worker flags are untouched |
| ServiceWorker.Worker.Activate | public/sw.js:31-53 | exactly the buckets prefixed `alcance-sol-` other than the current one are deleted, keeping the name order; then the clients are claimed |
| ServiceWorker.SweepKeeps | public/sw.js:31-53 | after the sweep, the remaining buckets are exactly the non-stale ones, the current one included, with their entries; no older generation can answer a match |
| ServiceWorker.Worker.HandleFetch | public/sw.js:57-130 | skipped requests are not answered. Navigate and default requests are network first: a response is returned and cached. When the network fails, a navigation gets the match or else the cached `/`, and a default request gets the match only. Static assets get the current bucket's entry if there is one, else the network response, and a network response always refreshes the entry |
| ServiceWorker.Worker.HandleMessage | public/sw.js:133-137 | only a message of type `SKIP_WAITING` requests skip-waiting |
| ServiceWorker.OfflineShellPage | public/sw.js:11-95 | after a full install and activation, every shell page loads offline from the cache |
| ServiceWorker.OfflineOtherPage | public/sw.js:83-91 | offline, a page outside the shell falls back to the cached `/` |
| ServiceWorker.FailedInstallOffline | public/sw.js:11-29 | when one shell resource fails, no skip-waiting is requested and an offline navigation finds nothing |
| ServiceWorker.PartialShellOffline | public/sw.js:11-29 | a shell answered only with partial (206) responses is not installed: no skip-waiting is requested and an offline navigation finds nothing |

## Left out

- The race in `getDB` is not modelled.
  - The handle check at lib/storage.ts:23 happens before the awaited open.
  - Two concurrent first calls could therefore both open the database.
  - The model runs operations one at a time, so it makes no claim about concurrent opens.
- IndexedDB internals are not modelled: transactions, the `idb` wrapper, structured cloning and blocked or version-change events. Each store is a map.
- Storage.LocalStore.GetDB does not model a stored database newer than version 1. The engine rejects that open, which is the same failure as `openOk` false.
- String key order: IndexedDB compares keys by UTF-16 code units, while `Strings.StrLess` compares code points.
  - The two agree on the Basic Multilingual Plane.
  - They can differ for characters beyond it.
- UriComponent.EncodeURIComponent works on Unicode scalar values. JavaScript strings are UTF-16, and a lone surrogate makes the real function throw `URIError`. That path cannot arise in the model.
- The clock, randomness and logging are not modelled.
  - StorageUtils.GenerateId takes the clock as a natural number. A `Date.now()` before 1970 would render with a minus sign, and `Strings.NatToDecimal` does not switch to the exponent notation JavaScript uses from 10^21 on; no clock reaches either case. `Auth.AuthProvider.Login` stores the clock reading as an integer, as the timestamp field allows.
  - `Date.now()` and `Math.random().toString(36)` are parameters. The model does not check that the suffix looks like base 36.
  - The `console` logging is dropped.
- Concurrency in the service worker is sequenced:
  - the background revalidation of a static asset and the fire-and-forget `cache.put` are applied in sequence, before the response is returned;
  - install, activate and fetch for different generations do not interleave.
- ServiceWorker.Worker.HandleFetch ignores some Cache API details: the request method, `Vary` matching, response cloning and the rejections of `cache.put` (for non-GET requests or partial responses). Responses are opaque values keyed by URL.
- The browser lifecycle around the worker is not modelled: registration, update checks and when the events fire.
- Message status changes are not modelled. No code in the core file moves a message away from `queued`.
- StorageUtils.FormatLines and StorageUtils.FormatInjective need every field to be free of line feeds. A multi-line message, as the report form's text area allows, is covered only by the template equation of `StorageUtils.FormatMessageContent`: the text can then not be split back into fields at its line feeds.
- Auth.AuthProvider.LoadSession leaves out the `catch` branch of `loadSession`: `getSession` already turns every failure into null, so that branch is never taken.
- Storage.LocalStore.UpdateMessage is the same `put` as `AddMessage`. It is modelled by calling it, so both share one contract.
- `useAuth` and the React context plumbing are not modelled: they only pass the provider's values to components.
- `Antenna` coordinates and radii are real numbers. No floating-point arithmetic is modelled.
- The source's `label` field of a reason option is named `labelText`, because `label` is a reserved word in Dafny.
