# Upload ledger and quota engine of temp-file-share

temp-file-share is a self-hosted file drop. A client POSTs a file and gets a
download link back. Files disappear after a maximum age, and storage caps
bound how much a client, and the whole server, may hold. The repository ships
two servers that share this logic:

- `backend/backend.py` keys uploads by a bearer **token**: a header, a
  `token=` query parameter, or a fresh uuid. When a token's bucket would
  exceed the per-token cap, it **evicts** the token's oldest files.
- `backend/app.py` keys uploads by the client's **IP address**. It
  **rejects** an upload that would exceed the per-address cap, rate-limits
  uploads per address, and lists recent uploads on its index page.

This project models the core of both servers:

- the files database: key → ordered list of `{filename, size, time}` records;
- the upload directory;
- the expiry sweep that runs before every request;
- the clear operation;
- the per-key eviction and the global admission check;
- request routing, naming of stored files, and the recent-uploads view.

## How the model is laid out

| module | file | what it holds |
|---|---|---|
| `Wrappers` | wrappers.dfy | `Option` |
| `Text` | text.dfy | `str.strip`, `str.split`, `str.lower`/`upper` (ASCII), prefix tests |
| `Ledger` | ledger.dfy | Records, buckets and the ledger with `get`, `put` (`db[k] = v`), `del` and usage |
| `BlobStore` | blobs.dfy | The upload directory as `map<string, nat>` (file name → size) and its total |
| `Sorting` | sorting.dfy | Python's stable `list.sort(key=…)` |
| `Expiry` | expiry.dfy | `cleanup_old_files` (identical in both servers) |
| `Clearing` | clearing.dfy | The `/clear` loop, which deletes a bucket's files and sums what it freed |
| `Eviction` | eviction.dfy | The oldest-first eviction loop of `backend.py` |
| `Requests` | requests.dfy | Token and client-address extraction, download names, stored and displayed names, flags, static whitelist |
| `Recent` | recent.dfy | `get_recent_uploads` of `app.py` |
| `Service` | service.dfy | Limits, request bodies, fresh identifiers, the persisted state, responses, the sweep as the servers apply it |
| `TokenBackend` | token_backend.dfy | `backend.py`'s handler: ghost specification functions and the class `TokenServer` |
| `TokenScenarios` | token_scenarios.dfy | Worked request sequences on `backend.py`'s handler: first upload, eviction of an only file, rejection after eviction, oversize uploads, `/clear?token=` |
| `IpBackend` | ip_backend.dfy | `app.py`'s handler: ghost specification functions and the class `IpServer` |

### The ledger is an ordered list

The files database is a JSON object, which Python loads into an
insertion-ordered `dict`. The model keeps that order as `seq<Entry>` rather
than `map`, because two behaviours depend on it:

- the sweep visits buckets in key order, and that order matters when two
  records name the same file;
- the recent-uploads list breaks ties between equal times in ledger order,
  because Python's sort is stable.

Other rules of the model:

- `Get` returns the first entry with the key.
- `Put` keeps a present key's position, or appends a new key at the end.
- Keys stay distinct under every operation (`Ledger.PutDistinct`,
  `Ledger.DeleteDistinct`, `Expiry.SweptDistinct`).

### The servers are classes

Each server's persisted state is a class:

- `TokenServer` holds `db` (the saved files database) and `blobs` (the
  upload directory).
- `IpServer` holds the same two fields plus `last`, the process-wide
  `last_upload_time` table.

The fields change only where the source saves the database or writes or
deletes files. Each request method (`DoPost`, `DoGet`, `Upload`,
`CleanupOldFiles`) is proved equal to a ghost specification function of the
old state, for example `TokenPost` or `IpPost`. The lemmas state their
properties about those functions.

### Effects become parameters

- The clock becomes one integer `now` per request.
- The uuids a request draws arrive as a `Fresh` value: a new token, the
  `.hex` prefix, and the `str(uuid)` text.
- Request headers, the peer address and the body arrive as parameters.

### Where the model follows the code rather than the stated design

The model does what the code does in these cases. Each has a lemma.

- **Sweep and missing files.** The sweep drops an expired record only when
  its file still exists. A record whose file is gone stays in the ledger
  for ever (`Expiry.OrphanRecordStays`).
- **Sweep and saving.** The sweep saves only when it deleted a file.
  Removing an empty bucket alone is not saved (`Expiry.SweptFacts`,
  `Service.AfterSweepFacts`).
- **Global admission.** The global check measures the files physically in
  the upload directory, not the ledger's usage
  (`TokenBackend.TokenUploadAdmits`, `IpBackend.IpUploadAdmits`).
- **Freed bytes on clear.** `/clear` reports the sizes of the files it
  actually deleted, not the recorded sizes
  (`Clearing.ClearKeyFacts`: freed + what remains = what was there).
- **A 413 after eviction in `backend.py`.** The evictions are already saved
  when the global check rejects the upload. This can leave an empty bucket
  in the ledger (`TokenBackend.RejectionKeepsEviction`,
  `TokenScenarios.RejectedUploadLosesFile`).
- **Oversize uploads in `backend.py`.** An upload larger than the per-token
  cap by itself empties its bucket and is then admitted with a negative
  remaining allowance (`TokenScenarios.OversizeUpload`). The invariant kept
  is therefore "within the cap, or a single record"
  (`TokenBackend.TokenPostBounded`).
- **Routing of `/clear?token=…` in `backend.py`.** `do_POST` compares the
  whole path, so this path is routed to upload, not to clear
  (`TokenScenarios.ClearWithQueryUploads`).
- **Rate limit for a new address in `app.py`.** An address that never
  uploaded counts as having uploaded at time 0 (`IpBackend.RateLimited`).
- **Two programs, not one.** Eviction and rejection are not a flag. They
  are two separate programs, so they are two modules here.

## Model

| member | source | states |
|---|---|---|
| Text.Strip | backend/backend.py:187 | `strip()`: the result is the slice after the leading whitespace. Only whitespace is cut at the end. The result has no whitespace at either edge. |
| Text.StripTrimmed | backend/backend.py:192 | Stripping a string that has no edge whitespace returns it unchanged. |
| Text.IndexOf | backend/backend.py:188-189 | The first occurrence of a character, or `None` exactly when the character is absent. |
| Text.Split | backend/backend.py:190 | `split(sep)`: at least one part. No part contains the separator. Joining the parts with it rebuilds the input. |
| Text.FirstField | backend/app.py:95 | `split(',')[0]`: a prefix of the input without the separator, ending at the input's end or at a separator. |
| Text.SplitHead | backend/app.py:95 | The first part of `Split` is `FirstField`. |
| Text.Lower | backend/app.py:183 | `lower()` maps every character and keeps the length. |
| Text.Upper | backend/app.py:184 | `upper()` maps every character and keeps the length. |
| Text.LowerOfUpper | backend/app.py:183-184 | Lower-casing after upper-casing equals lower-casing the original. |
| Text.UpperOfLower | backend/app.py:183-184 | Upper-casing after lower-casing equals upper-casing the original. |
| Ledger.Get | backend/backend.py:242 | `db.get(key, [])`: empty when the key is absent, otherwise the bucket stored under the key. |
| Ledger.GetEntry | backend/backend.py:242 | With distinct keys, reading any entry's key returns that entry's bucket. |
| Ledger.Put | backend/backend.py:286 | `db[key] = files` keeps a present key's position, or appends the key at the end. |
| Ledger.PutGet | backend/backend.py:286 | After the assignment the key reads back the new bucket. Every other key reads as before. |
| Ledger.PutEntries | backend/backend.py:267 | Every entry after the assignment was already there or is the new one. |
| Ledger.PutDistinct | backend/backend.py:286 | Assignment keeps the keys distinct. |
| Ledger.Delete | backend/backend.py:230-231 | `del db[key]`: the key is gone, and every remaining entry was there with another key. |
| Ledger.DeleteGet | backend/backend.py:230-231 | After deletion the key reads as empty. Every other key reads as before. |
| Ledger.DeleteDistinct | backend/app.py:228-229 | Deletion keeps the keys distinct. |
| Ledger.DeleteKeys | backend/app.py:228-229 | `del db[key]` introduces no key the ledger did not have. |
| Ledger.UsageAppend | backend/backend.py:291 | The summed size of two concatenated buckets is the sum of their sizes. |
| BlobStore.GetCurrentUsed | backend/backend.py:181-182 | The loop returns the total size of the files in the upload directory. |
| BlobStore.TotalSizeRemove | backend/backend.py:170 | Deleting a present file lowers the total by exactly its size. |
| BlobStore.TotalSizeWrite | backend/backend.py:283-284 | Writing a file sets it to the new size. The total grows by at most that size. |
| BlobStore.TotalSizeShrink | backend/app.py:226 | Deleting files never raises the total. |
| Sorting.SortBy | backend/backend.py:260 | `sort(key=…)` returns a list sorted by the key that is a permutation of the input. |
| Sorting.SortByStable | backend/app.py:112 | The sort is stable: for every key value, the elements carrying it keep their input order. |
| Sorting.SortBySorted | backend/backend.py:260 | A list already in key order comes back unchanged. |
| Expiry.Survivors | backend/backend.py:167-173 | A record survives a bucket's pass iff its file is absent or it is not older than the maximum age. |
| Expiry.SweepFiles | backend/backend.py:166-173 | One bucket's pass keeps at most as many records as the bucket had. |
| Expiry.SweepFilesShrinks | backend/backend.py:166-173 | A bucket's pass only deletes files, and only files named in the bucket. |
| Expiry.SweepFilesKeeps | backend/backend.py:166-173 | A bucket's pass keeps only records of the bucket that are not doomed, and never raises its usage. |
| Expiry.SweepFilesChanges | backend/backend.py:166-173 | A pass that keeps every record changes nothing. One that drops a record deletes a file. |
| Expiry.SweepFilesFacts | backend/backend.py:166-173 | A bucket's pass only deletes files named in the bucket. It keeps only records that are not doomed, never raises usage, and deletes a file exactly when it drops a record. |
| Expiry.SweepFilesRemovesExpired | backend/backend.py:169-170 | Every file a bucket's pass deletes is named by an expired record of that bucket. |
| Expiry.SweepFilesExactly | backend/backend.py:166-173 | With distinct names, the pass keeps exactly the surviving records and deletes exactly the doomed names. |
| Expiry.Swept | backend/backend.py:165-177 | The outer loop over the buckets never leaves more buckets than there were; the proof rests on the contract of the pass over the rest of the ledger. |
| Expiry.SweptFacts | backend/backend.py:161-179 | The sweep only deletes files and leaves no empty bucket. `updated` holds iff a file was deleted. Without it, the sweep only drops empty buckets. |
| Expiry.SweptKeys | backend/backend.py:174-177 | The sweep introduces no key. |
| Expiry.SweptBuckets | backend/backend.py:174-175 | Every bucket after the sweep comes from a bucket of the same key with no more records and no more usage. |
| Expiry.SweptRemovesExpired | backend/backend.py:165-171 | Every file the sweep deletes is named by an expired record. |
| Expiry.SweptDistinct | backend/backend.py:174-177 | The sweep keeps the keys distinct. |
| Expiry.KeptNotDoomed | backend/app.py:69-73 | After the sweep, no kept record is both present and expired. |
| Expiry.NothingDoomed | backend/app.py:67-73 | A bucket pass with nothing doomed returns the bucket and the directory unchanged. |
| Expiry.NothingDoomedAnywhere | backend/app.py:65-79 | A sweep with nothing doomed and no empty bucket changes nothing and does not save. |
| Expiry.SweepIdempotent | backend/app.py:61-79 | A second sweep at the same moment changes nothing and does not save. |
| Expiry.SweptExactly | backend/app.py:61-79 | With globally distinct file names, the sweep keeps exactly the surviving records of non-empty buckets. It deletes exactly the doomed names. |
| Expiry.DoomedNamesPresent | backend/app.py:69 | Only files present in the upload directory are ever doomed. |
| Expiry.SweptUpdatedExactly | backend/app.py:71 | With distinct file names, the sweep saves iff some record was doomed. |
| Expiry.SweepAtTheHour | backend/backend.py:169 | The age test is strict: a one-hour file survives at 3599 s and at 3600 s. At 3601 s it goes, with its bucket. |
| Expiry.OrphanRecordStays | backend/backend.py:169 | An expired record whose file is missing stays in the ledger, and nothing is saved. |
| Expiry.SweepBucket | backend/backend.py:166-173 | The loop over one bucket computes the bucket pass. |
| Expiry.CleanupOldFiles | backend/backend.py:161-179 | The nested loop computes the sweep: new ledger, remaining files and the `updated` flag. |
| Clearing.ClearFiles | backend/backend.py:219-229 | The loop deletes every file the bucket names and leaves every other file present with its size. |
| Clearing.ClearFilesFacts | backend/backend.py:219-229 | Clearing deletes exactly the bucket's file names. The bytes freed plus what remains equals what was there. |
| Clearing.ClearBlobs | backend/backend.py:219-229 | The loop deletes exactly the bucket's file names. It returns the freed bytes, which plus what remains equals the old total. |
| Clearing.ClearKey | backend/backend.py:214-232 | After `/clear` the key reads as an empty bucket, an unknown key leaves the ledger as it was, and the remaining files keep their sizes. |
| Clearing.ClearKeyFacts | backend/app.py:215-236 | After clearing, the key has no records and none of its files remain. Freed plus remaining equals the old total. Other keys are untouched. |
| Eviction.Evict | backend/backend.py:257-267 | The evicted records followed by the kept records are the bucket sorted by time. |
| Eviction.PopCount | backend/backend.py:261-263 | The loop pops at most every record of the sorted bucket. |
| Eviction.PopCountStops | backend/backend.py:261-263 | Popping stops at the first point where the rest plus the upload fits, or when the bucket is empty. |
| Eviction.EvictFits | backend/backend.py:261 | After eviction the bucket is empty or fits with the upload. Putting back the last evicted record would not fit. |
| Eviction.PopCountAll | backend/backend.py:261 | An upload larger than the cap by itself pops every record. |
| Eviction.EvictWhole | backend/backend.py:258-267 | An upload larger than the cap by itself evicts the whole bucket, and every one of its file names. |
| Eviction.UsageSort | backend/backend.py:260 | Sorting keeps the bucket's usage. |
| Eviction.EvictUsage | backend/backend.py:263 | Kept usage plus evicted usage equals the bucket's usage. |
| Eviction.EvictOldestFirst | backend/backend.py:260-262 | No evicted record is newer than a kept one. |
| Eviction.EvictStable | backend/backend.py:260-262 | Among records with equal times, the earlier-inserted ones are evicted first. |
| Eviction.EvictInOrder | backend/backend.py:260-262 | For a bucket in time order, eviction removes exactly a prefix r1..rk and keeps the rest. |
| Eviction.EvictOldest | backend/backend.py:257-267 | The sort-and-pop loop returns the kept records of `Evict`. It deletes exactly the evicted names from the directory. |
| Eviction.PopOldest | backend/backend.py:261-266 | On the time-sorted bucket, the `while` loop pops exactly the records `PopCount` counts. It returns the remaining suffix and the directory without the popped names. |
| Eviction.PopFits | backend/backend.py:261 | On a sorted bucket, the loop stops at the first fit: the rest is empty or fits with the upload, and one record fewer popped would not fit. |
| Requests.FirstTokenPart | backend/backend.py:190-191 | Finds the first query part that starts with `token=`, or none when no part does. |
| Requests.GetTokenFromRequest | backend/backend.py:184-193 | A non-empty header wins, stripped. Without a header: without `?` there is no token, there is a token iff some query part starts with `token=`, and then it is the stripped value of the first such part. |
| Requests.QueryTokenRoundTrip | backend/backend.py:188-192 | `route?token=t` yields `t` when the route has no `?` and `t` has no `&` and no edge whitespace. |
| Requests.HeaderWins | backend/backend.py:185-187 | A non-empty header decides the token whatever the path says. |
| Requests.GetClientIp | backend/app.py:89-96 | `X-Real-IP` wins, stripped. Otherwise the forwarded value gives a result without a comma. Otherwise the peer address is used. |
| Requests.ForwardedClientHop | backend/app.py:93-95 | For `X-Forwarded-For: h1, h2, …` the client address is `h1` stripped. |
| Requests.DownloadName | backend/backend.py:338-339 | The name after `/download/`, up to the first `?` or the end. |
| Requests.DownloadLinkRoundTrip | backend/app.py:351 | The link `/download/<name>`, with or without a query, yields `<name>`. |
| Requests.DownloadPathRoutes | backend/app.py:308-351 | A download link is not `/`, `/index.html`, `/upload.sh` or a static path, so `do_GET` routes it to the download branch. That branch recovers the name. |
| Requests.CleanDisplayName | backend/app.py:141-144 | The displayed name is a suffix of the stored name, and empty only when the stored name is. |
| Requests.CleanDisplayNameCases | backend/app.py:142-144 | The name is shown unchanged iff it does not start with 32 lower-case hex digits and `_`, followed by at least one character. |
| Requests.StoredName | backend/app.py:269-277 | With a client filename, the stored name is the hex prefix, `_` and that filename. Without one, it is the uuid text followed by `.bin`. |
| Requests.NamingRoundTrip | backend/app.py:271-273 | A stored `<hex>_<client name>` is shown as the client's name. |
| Requests.BinNameShownAsIs | backend/app.py:274-277 | A stored `<uuid>.bin` is shown as stored. |
| Requests.CountryCodeToFlag | backend/app.py:180-184 | No flag iff the code is missing or is not two characters long. Otherwise the markup is the image prefix, the lower-case code, the middle, the upper-case label and the closing suffix. |
| Requests.FlagIgnoresCase | backend/app.py:183-184 | The flag does not depend on the code's case. |
| Requests.StaticAsset | backend/app.py:334-349 | Served iff the path is `styles.css` or `app.js` and the file exists. Served as `text/css` iff it is `styles.css`. |
| Recent.Tag | backend/app.py:108-111 | Every record of a bucket is paired with its key, in order. |
| Recent.FlattenMembers | backend/app.py:105-111 | A tagged record is collected iff its key's bucket holds the record. |
| Recent.FlattenKey | backend/app.py:107-111 | The collected records of one key are exactly its bucket, in order. |
| Recent.NewestFirst | backend/app.py:112 | The sort is a permutation of the collected records; its order is stated in `RecentNewestFirst`. |
| Recent.NewestFirstMembers | backend/app.py:112 | The sort neither drops nor invents a record. |
| Recent.Take | backend/app.py:113-114 | `[:limit]`: without a limit, everything. With one, the first `min(limit, n)` elements. |
| Recent.CollectUploads | backend/app.py:105-111 | The nested loop collects every record tagged with its key, in ledger order. |
| Recent.GetRecentUploads | backend/app.py:104-138 | The view is the newest-first rows, cut to the limit, or the placeholder. |
| Recent.RenderRows | backend/app.py:117-137 | The rendering loop produces one row per listed record, in the listed order. Each row carries that record's display name, size, time, expiry and key. |
| Recent.RecentUploads | backend/app.py:104-138 | A table has at least one row, no more rows than the ledger has records, and no more than the limit. |
| Recent.RecentPlaceholder | backend/app.py:113-116 | "No uploads yet" iff the ledger has no record or the limit is 0. |
| Recent.RecentNewestFirst | backend/app.py:112-114 | Rows come newest first. There are `min(limit, n)` of them. |
| Recent.RecentComplete | backend/app.py:104-138 | Without a limit, a record appears as a row iff it is in the ledger under that key. |
| Recent.RecentTiesInLedgerOrder | backend/app.py:112 | Records with equal times keep ledger order: the reversed sort is stable. |
| Recent.NewestFirstStable | backend/app.py:112 | For any sort key value, the records carrying it leave the newest-first sort in their collection order. |
| Service.AfterSweep | backend/backend.py:161-179 | The sweep run at the start of a request never adds a bucket and only deletes files: every file left keeps its size. |
| Service.AfterSweepFacts | backend/backend.py:178-179 | The directory after a request's sweep is the sweep's. The saved ledger changes only when a file was deleted. Keys stay distinct. |
| Service.Remaining | backend/backend.py:332 | `max(cap - used, 0)`: zero iff usage reaches the cap, otherwise usage plus the remainder is the cap. |
| TokenBackend.UploadKey | backend/backend.py:240-241 | The request's token if it has one, otherwise a fresh uuid's hex. |
| TokenBackend.EvictionStep | backend/backend.py:257-268 | Within the per-token cap nothing changes. Otherwise the step only deletes files: every file left keeps its size. |
| TokenBackend.Admit | backend/backend.py:269-291 | Admitted iff the files present plus the upload fit the global cap. A rejection is a 413 on the evicted state. An admission is reported for the key and writes only the new file. |
| TokenBackend.AdmitFacts | backend/backend.py:273-291 | An admission appends the new record to the key only, writes the file with its size, keeps every other file, stays within the global cap and reports a non-negative allocation. |
| TokenBackend.TokenUpload | backend/backend.py:239-297 | An upload answers 400 iff the form has no file field, and otherwise 413 or an upload reported for the request's key with the body's size. |
| TokenBackend.TokenReport | backend/backend.py:203-212 | The `/token` report gives the key's record count and used bytes, and `max(cap - used, 0)` remaining, which is 0 iff the usage reaches the cap. |
| TokenBackend.TokenPost | backend/backend.py:196-297 | `/token` answers a report or 400 and changes nothing beyond the sweep. `/clear` answers a clear report or 400. Every other path answers an upload or an error. |
| TokenBackend.TokenGet | backend/backend.py:299-352 | A GET changes nothing beyond the sweep. A download serves a file present after the sweep, with its size. |
| TokenBackend.EvictionStepFacts | backend/backend.py:257-268 | After the eviction step, the bucket is empty or fits with the upload. Other keys are untouched. Only files of the bucket are deleted, and the files left keep their sizes. |
| TokenBackend.TokenUploadAdmits | backend/backend.py:239-297 | Admitted iff the directory after eviction plus the upload fits the global cap. On success: the record is appended to the key and no other key changes, the file is stored with its size, every other file left by the eviction keeps its size, the global cap holds and the remaining allocation is non-negative. |
| TokenBackend.RejectionKeepsEviction | backend/backend.py:267-272 | A 413 leaves the evicted state saved: the kept records and the deleted files. |
| TokenBackend.EvictionStepBounded | backend/backend.py:257-268 | The eviction step keeps every bucket within the cap or a single record. |
| TokenBackend.AdmitBounded | backend/backend.py:285-287 | Appending after a fitting eviction keeps every bucket within the cap or a single record. |
| TokenBackend.SweptBounded | backend/backend.py:174-175 | The sweep keeps every bucket within the cap or a single record. |
| TokenBackend.UploadBounded | backend/backend.py:239-297 | An upload request keeps every bucket within the cap or a single record. |
| TokenBackend.TokenPostBounded | backend/backend.py:196-297 | Every POST keeps every bucket within the per-token cap or a single record. |
| TokenScenarios.FreshBucketSurvives | backend/backend.py:169 | A bucket with no expired record comes through the sweep unchanged, and so does the directory. |
| TokenScenarios.PostUploads | backend/backend.py:199-239 | Every POST path other than `/token` and `/clear` is an upload after the sweep. |
| TokenScenarios.ClearWithQueryUploads | backend/backend.py:214 | `POST /clear?token=t` is an upload for `t`, not a clear. |
| TokenScenarios.EvictSoleFile | backend/backend.py:257-268 | A token whose only file, with the upload, exceeds the cap is left with an empty bucket and that file deleted. |
| TokenScenarios.AdmitIntoEmpty | backend/backend.py:269-291 | With an empty directory and nothing under the key, an upload within the global cap becomes the key's only record and file. The remaining figures are the caps minus its size. |
| TokenScenarios.UploadRoute | backend/backend.py:196-268 | With a token header and an upload path, on a state the sweep leaves alone, a POST is the eviction step followed by admission. |
| TokenScenarios.FirstUpload | backend/backend.py:239-291 | The first upload into an empty server, within both caps, is stored as the token's only file. |
| TokenScenarios.ReplacesSoleFile | backend/backend.py:239-291 | When a token's unexpired only file and the upload together exceed the cap, the upload evicts that file and becomes the token's only one. |
| TokenScenarios.SixHundredMiBTwice | backend/backend.py:257-287 | With a 1 GiB per-token cap and 10 GiB overall, take any token and upload path, and two uploads of 600 MiB within the hour. The first is admitted as the token's only file. The second is admitted, deletes the first file and leaves the bucket holding only itself, at 600 MiB. |
| TokenScenarios.TwoUploadsReplace | backend/backend.py:239-291 | Take two uploads of one size under one token, the second within the first's lifetime, where one fits the per-token cap and two do not. The first becomes the only file. The second deletes it and becomes the only file. |
| TokenScenarios.RejectedUploadLosesFile | backend/backend.py:258-272 | An upload rejected by the global check still loses the token's older file and leaves an empty bucket. Other tokens are untouched. |
| TokenScenarios.OversizeUpload | backend/backend.py:258-291 | An upload larger than the per-token cap empties the bucket. If admitted, it is the bucket's sole record with a negative remaining allowance. |
| TokenScenarios.OversizeEvicts | backend/backend.py:257-268 | An upload over the per-token cap on its own empties the bucket and deletes every file it names. |
| TokenBackend.TokenServer.constructor | backend/backend.py:151-155 | The server starts from the loaded ledger and directory. |
| TokenBackend.TokenServer.CleanupOldFiles | backend/backend.py:161-179 | The sweep updates the fields as the sweep specification says. |
| TokenBackend.TokenServer.EvictIfOver | backend/backend.py:257-268 | The eviction step updates the fields as specified. |
| TokenBackend.TokenServer.Store | backend/backend.py:269-291 | The global check, write, append and response are as specified. |
| TokenBackend.TokenServer.Upload | backend/backend.py:239-297 | The upload path matches `TokenUpload`. |
| TokenBackend.TokenServer.DoPost | backend/backend.py:196-297 | `do_POST` matches `TokenPost`. |
| TokenBackend.TokenServer.DoGet | backend/backend.py:299-352 | `do_GET` matches `TokenGet`. |
| IpBackend.IpUpload | backend/app.py:238-291 | An upload answers 400, 413 or an upload reported for the address with the body's size. Any refusal leaves the state as it was. |
| IpBackend.RateLimited | backend/app.py:209-211 | A zero rate limit never limits. An address that never uploaded counts as having uploaded at time 0. Otherwise it is limited iff less than the window has passed since its last upload. |
| IpBackend.IpPost | backend/app.py:201-306 | 404 iff the path is neither `/upload` nor `/clear`. Only `/upload` touches the last-upload table. A 429 changes nothing beyond the sweep. |
| IpBackend.StaticResponse | backend/app.py:334-349 | A static request is a 404 or serves the requested whitelisted file, and it is served iff it is `styles.css` or `app.js` and present. |
| IpBackend.IpGet | backend/app.py:308-362 | A GET changes nothing beyond the sweep. A download serves a file present after the sweep, with its size. |
| IpBackend.IpUploadAdmits | backend/app.py:238-291 | Admitted iff the address's usage plus the upload fits its cap and the directory plus the upload fits the global cap. A rejection is a 413 with the state unchanged. On success: the record is appended to the address only, the file is stored, other files are unchanged, both caps hold and both remainders are non-negative. |
| IpBackend.SweptWithinCap | backend/app.py:61-79 | The sweep keeps every address within its cap. |
| IpBackend.UploadWithinCap | backend/app.py:258-285 | An upload keeps every address within its cap. |
| IpBackend.IpPostWithinCap | backend/app.py:201-306 | Every POST keeps every address within the per-address cap. |
| IpBackend.RateLimit | backend/app.py:209-213 | 429 iff the path is `/upload` and the address is rate-limited. A 429 changes nothing beyond the sweep. The last-upload time is set to now exactly on a successful upload. |
| IpBackend.TooSoonAfterUpload | backend/app.py:286 | Once an upload succeeds, the same address's next upload within the rate-limit window gets 429. |
| IpBackend.TwoGiBRejected | backend/app.py:258-262 | With a 1 GiB cap, a 2 GiB upload from an address without files is rejected with 413. Nothing changes. |
| IpBackend.IpClear | backend/app.py:215-236 | `/clear` empties the address's bucket and deletes its files. It reports freed bytes that account for the change in total. Other addresses and the rate-limit table are untouched. |
| IpBackend.UnexpiredFileKept | backend/app.py:67-73 | A file none of whose records has expired survives the sweep with its size. |
| IpBackend.DownloadServed | backend/app.py:350-362 | A download of a file present after the sweep returns that file. |
| IpBackend.AppendedNameUnique | backend/app.py:283-284 | After an upload under a name no record had, the new record is the only one with that name. |
| IpBackend.UploadThenDownload | backend/app.py:279-285 | A file just uploaded, under a new name, can be downloaded at once with its size. |
| IpBackend.IpServer.constructor | backend/app.py:49-53 | The server starts from the loaded ledger and directory with an empty rate-limit table. |
| IpBackend.IpServer.CleanupOldFiles | backend/app.py:61-79 | The sweep updates the fields as specified. The rate-limit table is unchanged. |
| IpBackend.IpServer.Upload | backend/app.py:238-306 | The upload path matches `IpUpload`. The rate-limit table is unchanged. |
| IpBackend.IpServer.DoPost | backend/app.py:201-306 | `do_POST`, with the address from `get_client_ip`, matches `IpPost` including the rate-limit table. |
| IpBackend.IpServer.DoGet | backend/app.py:308-364 | `do_GET` matches `IpGet`. |

## Left out

- HTTP plumbing is not modelled. This covers `BaseHTTPRequestHandler`, sockets, status lines, headers written, `cgi.FieldStorage` parsing and request logging. A request arrives as its path, the relevant headers and a `Body`.
- A non-integer or missing `Content-Length` raises in the source. The model has no such path, because it receives the body's size.
- JSON encoding and file I/O are not modelled. The persisted files database is the `db` field, and `load_db`/`save_db` are its reads and assignments. A corrupt database file, which raises in the source, is not modelled. Failed writes are not modelled either.
- File contents are not modelled. The upload directory is a map from name to size.
- `os.path.exists` on directories and on paths with `..` or `/` in a download name is not modelled. A download is served iff the name is a stored file.
- The `OSError` fallback of `getsize` during `/clear` is not modelled, because the model's directory always knows each file's size.
- `time.time()` is a float and the source calls it several times per request. The model uses one integer `now` per request.
- The uuids are parameters (`Fresh`).
- The periodic cleanup thread (`start_cleanup_thread`) is not modelled as a thread: each of its runs is the same `CleanupOldFiles` step.
- Interleaving of requests with each other and with that thread is not modelled. The source takes no lock, so the model treats every request as atomic.
- Presentation is not modelled: MB/GB floats, percentages, `datetime` strings, `disk_usage().free`, the HTML template and `escape`, and the text of `upload.sh`, `styles.css` and `app.js`. Responses carry byte counts and names instead.
- `get_country_display`, `lookup_country_code` (a network call), `is_private_ip` and `_geo_cache` are not modelled. Only the pure `country_code_to_flag` is.
- `Text.Lower`, `Text.Upper`: map ASCII letters only. Python's `lower`/`upper` are full Unicode, but country codes are ASCII.
- Strings are sequences of Unicode characters. No normalisation is modelled.
- Configuration is read as natural numbers of GB and an integer number of hours. Fractional GB values are not modelled. `Service.FromConfig` has no contract: it only multiplies by the unit constants.
- `Recent.Take` takes `Option<nat>`. The source only calls `get_recent_uploads()` without a limit, and negative Python slice limits are not modelled.
- `get_recent_uploads` reads fields with defaults (`entry.get('time', 0)` and similar). The model's records always carry every field.
- The `Content-Disposition` header and the `Content-Type` of responses are not modelled, except the static assets' type.
