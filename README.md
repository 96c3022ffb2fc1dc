# Certificate service model

A Dafny model of the certificate service: the HTTP handlers that issue and look up
course, track and achievement certificates, the verification service that finds a
certificate and reports its stored details, the storage service with its local
backend, the pure parts of certificate rendering (word wrap and truncation), and
the request constraints.

The model is split by module:

- `Common.dfy`: small stand-ins for the Python built-ins the service relies on:
  - `Wrappers`: `Option` and `Result`.
  - `Strings`:
    - `f"{n}"` and `f"{n:02d}"` number formatting;
    - `sep.join`, `s.split(",")` and `.upper()` on hex digits.
  - `Calendar`: the date `datetime.utcnow()` yields, the previous month, and `strftime('%Y%m%d')`.
- `Models.dfy`: the certificate kinds and request validation, with errors reported per field. A field with a default distinguishes missing (default) from an explicit null (rejected).
- `Storage.dfy`:
  - Storage keys `certificates/<year>/<MM>/<id>.pdf`, and a parse function that proves them injective.
  - Backend selection.
  - `class LocalStorage`: a map from keys to bytes that its methods update in place, with a parallel `<key>.meta` entry for metadata.
  - `upload_certificate` on that backend, and the local `file://` download URL.
- `Generator.dfy`:
  - `str.split()`.
  - `_wrap_text` as a method with a loop. It is proved equal to a fold of one step function, and the fold is proved to keep the words, to fit multi-word lines, and to be greedy.
  - The description and item truncation rules.
  - The batch rendering loop.
- `Verification.dfy`: `verify_certificate`, a method over a `LocalStorage` and an optional cache. It is proved equal to a specification function that states where the certificate is looked for and what comes back.
- `Endpoints.dfy`: `class CertificateApi`. It holds the cache (`cert:<id>` entries) and the batch-job records (`batch:<job>`) as maps, and has one method per handler. It also holds lemmas and scenario methods that tie the handlers together.

Outside parts become parameters:
- the PDF renderer (`render`, which may fail);
- the JSON decoding of `.meta` files (`decodeMeta`);
- which writes the file system accepts (`writable`; a refused write raises in the source);
- the current date (`now`) and its ISO text (`nowIso`);
- the random hex digits of generated IDs.

Some behaviour follows the code rather than its tests or comments:

- **Verification record fields.** The record's fields are read from the stored metadata (app/services/verification.py:99-110). tests/test_verification.py:54-58 expects fixed placeholder values ("Certificate Holder", "Certificate") instead. The model follows the code.
- **The verify endpoint's cache.** The verification service used by the verify endpoint is built without a cache (app/services/verification.py:132). So `VerifyEndpoint` always verifies with no cache, and the cached branch of `VerifyCertificate` is reached only when a cache is passed in.
- **Missing metadata on the cached path.** If the cached key has no metadata, the record is built from `None`, and app/services/verification.py:86 raises. The verify endpoint has no handler for that, so the outcome is `Failed` (a server error).
- **Local uploads and metadata.** The local backend ignores the metadata passed to `upload_certificate` and never writes a `.meta` entry (app/services/storage.py:297-314). A certificate filed there therefore cannot be verified (`Endpoints.LocalCertificatesUnverifiable`).
- **A cache hit in `generate_certificate`.** It answers `s3_key = "certificates/<id>.pdf"`, a key that storage never uses, and `public_url` is the cached storage key rather than a URL (app/api/endpoints.py:62-71, `Endpoints.GenerateTwice`).
- **A certificate that is not found.** The status handler answers 200 with status "not_found" (not a 404). Neither the status handler nor the download handler falls back to the previous month, which verification does (`Endpoints.StatusHasNoFallback`).

## Model

| member | source | states |
|---|---|---|
| Strings.Decimal | app/services/storage.py:294 | The year prints as a non-empty run of digits, one digit exactly when it is below 10. |
| Strings.DecimalRoundTrip | app/services/storage.py:294 | Reading the printed digits back gives the number. |
| Strings.DecimalOfFourDigits | app/api/endpoints.py:59 | Years 1000-9999 print as exactly four digits. |
| Strings.Pad2 | app/services/storage.py:294 | `:02d` of a month gives exactly two digits that read back as the month. |
| Strings.Join | app/services/generator.py:376 | `sep.join(parts)`: empty for no parts, the part itself for one, and otherwise the parts with `sep` between neighbours. Its properties are the rows below. |
| Strings.JoinAppend | app/services/generator.py:376 | Joining one more part appends the separator and the part. |
| Strings.JoinConcat | app/services/generator.py:376 | The join of two non-empty part lists is their joins separated by the separator. |
| Strings.SplitOn | app/services/verification.py:90 | `split(",")` always yields at least one piece. |
| Strings.SplitOnAfterSeparator | app/services/verification.py:90 | Text, a separator, and a piece without it split into the text's pieces plus that piece. |
| Strings.SplitOnWithoutSeparator | app/services/verification.py:90 | Text without the separator splits into itself alone. |
| Strings.SplitOnJoin | app/services/verification.py:90 | Splitting the join of separator-free pieces gives the pieces back. |
| Strings.UpperHex | app/api/endpoints.py:59 | Upper-casing hex digits keeps the length and maps each digit to its upper-case form. |
| Calendar.PrevMonth | app/services/verification.py:63-64 | The previous month lies in 1..12 and its month index is exactly one less (January goes to December of the year before). |
| Calendar.MonthIndexInjective | app/services/verification.py:63-64 | A month index determines year and month, so the previous month is unique. |
| Calendar.DateStamp | app/api/endpoints.py:59 | `%Y%m%d` gives digits only, eight of them for four-digit years. |
| Models.ParseCertificateType | app/models/certificate.py:10-14 | Exactly "track", "course" and "achievement" are accepted, each as the kind with that value. |
| Models.CertificateTypeRoundTrip | app/models/certificate.py:10-14 | A wire value parses to a kind exactly when it is that kind's value. |
| Models.RequestFieldNamesDistinct | app/models/certificate.py:20-28 | Distinct fields are reported under distinct wire names, so a field datatype loses nothing against field names. |
| Models.RequestErrors | app/models/certificate.py:20-28 | Each field is reported exactly when it breaks its rule: name 1..200, email present, known type, title 1..500, description at most 2000, and neither the item list nor the metadata an explicit null. |
| Models.ValidateRequest | app/models/certificate.py:17-28 | A payload with errors is rejected with all of them. An accepted request is valid and carries the payload's fields; a missing item list or mapping becomes empty. |
| Models.ValidateToPayload | app/models/certificate.py:17-28 | A request's own payload is accepted, unchanged, exactly when the request is valid. |
| Models.EmptyNameOrUnknownTypeRejected | app/models/certificate.py:20-22 | An empty name or the type "invalid" is rejected, naming that field. |
| Models.DefaultsAreEmpty | app/models/certificate.py:25-28 | Missing items and metadata (not null ones) default to empty. |
| Models.NullListOrMappingRejected | app/models/certificate.py:25-28 | An explicit null item list or metadata is rejected, naming that field. |
| Models.ValidateAll | app/models/certificate.py:75 | Valid payloads validate position by position. |
| Models.ValidateBatch | app/models/certificate.py:75-76 | A batch is accepted iff it has 1..100 valid entries and its mode is not null; a missing mode means asynchronous. A rejection reports the size error and whether the mode was null. Up to 100 entries it also reports exactly the invalid positions; over 100 it reports no positions, only the length. |
| Models.OverlongBatchReportsOnlySize | app/models/certificate.py:75 | A list of more than 100 entries is rejected with the size error alone, whatever its entries hold. |
| Storage.StorageKey | app/services/storage.py:294 | The key `certificates/<year>/<MM>/<id>.pdf`; its parse and injectivity are the rows below. |
| Storage.CertificateKey | app/services/storage.py:293-294 | The key for the year and month of `now`. |
| Storage.CertificateKeyParts | app/services/storage.py:293-294 | The key filed at `now` reads back as now's year, month and the ID. |
| Storage.StorageKeyRoundTrip | app/services/storage.py:294 | `certificates/<year>/<MM>/<id>.pdf` reads back as year, month and ID. |
| Storage.StorageKeyInjective | app/services/storage.py:294 | Distinct (year, month, ID) triples get distinct keys. |
| Storage.StorageKeyEndsInPdf | app/services/storage.py:294 | Every storage key ends in `.pdf`. |
| Storage.SelectBackend | app/services/storage.py:268-273 | "s3" selects S3 and "local" selects local storage. Any other name fails with "Unsupported storage backend: <name>". |
| Storage.MetaKey | app/services/storage.py:251 | The metadata entry of a key is the key followed by `.meta`. |
| Storage.MetaKeyInjective | app/services/storage.py:251 | Distinct keys have distinct metadata entries. |
| Storage.MetadataIn | app/services/storage.py:251-260 | The decoded metadata entry of a key, none when the entry is missing or does not decode. |
| Storage.CertificateUploadKeepsMetadata | app/services/storage.py:248-251 | Writing a certificate key changes no key's `.meta` metadata. |
| Storage.LocalStorage.constructor | app/services/storage.py:208-211 | The store opens on its base path with the files already present, the metadata decoder and the file system's write acceptance. |
| Storage.LocalStorage.Upload | app/services/storage.py:213-221 | An accepted write makes the file at the key the data, changes nothing else and returns the key. A refused write (the source raises) returns nothing and changes nothing. |
| Storage.LocalStorage.Download | app/services/storage.py:223-231 | Returns the file's contents exactly when the key is present, otherwise nothing. |
| Storage.LocalStorage.Delete | app/services/storage.py:233-241 | Returns true iff the key was present. Afterwards the key is gone and all other files are unchanged. |
| Storage.LocalStorage.Exists | app/services/storage.py:243-246 | True exactly when the key is present. |
| Storage.LocalStorage.GetMetadata | app/services/storage.py:248-260 | Metadata comes from the decoded `<key>.meta` entry. It is none when that entry is absent or does not decode. |
| Storage.UploadDownloadDelete | app/services/storage.py:213-246 | After an accepted upload, download returns the data and the key exists. After a refused one, the old file (if any) is what is read. Delete returns true iff a file was there; afterwards the key no longer exists, and the store differs from the original only by losing that key. |
| Storage.UploadCertificate | app/services/storage.py:292-294 | Files the PDF under `certificates/<year>/<MM>/<id>.pdf` for `now` and returns that key when the write is accepted; otherwise nothing is filed and no key returned. Only that file changes, and no metadata is written. |
| Storage.LocalPresignedUrl | app/services/storage.py:372-375 | The local download URL: `file://`, the base path, `/` and the key. |
| Storage.LocalPresignedUrlShape | app/services/storage.py:372-375 | A local URL starts with `file://` and ends with the key. |
| Storage.LocalPresignedUrlIgnoresExpiration | app/services/storage.py:360-375 | The expiry argument does not change a local URL. |
| Storage.LocalPresignedUrlInjective | app/services/storage.py:372-375 | Under one base path, distinct keys give distinct URLs. |
| Generator.IsSpace | app/services/generator.py:365 | The characters `str.split()` treats as whitespace: Python's `isspace` set, by code point. |
| Generator.SplitWords | app/services/generator.py:365 | `text.split()` yields only non-empty words without whitespace. |
| Generator.SplitWordsEmpty | app/services/generator.py:365 | There are no words exactly when the text is empty or all whitespace. |
| Generator.SplitJoinWords | app/services/generator.py:365 | Words joined by single spaces split back into the same words. |
| Generator.Step | app/services/generator.py:370-378 | One loop iteration: the word joins the current line when the line's length plus the word and a space fits; otherwise a non-empty current line is closed and the word starts a new one. |
| Generator.Fold | app/services/generator.py:369-378 | The loop state after consuming the words in order from empty. |
| Generator.WrapLines | app/services/generator.py:365-383 | The wrapped lines: the closed lines and the last open one, each joined by spaces. Its properties are the rows below. |
| Generator.StepInv | app/services/generator.py:370-378 | One loop iteration keeps the wrap invariant. The lines so far hold the words in order. No line is empty, and multi-word lines fit. Every line break was forced. |
| Generator.FoldInv | app/services/generator.py:370-378 | The invariant holds after the loop has consumed any word sequence. |
| Generator.WrapGroupsFlatten | app/services/generator.py:365-383 | The words of the output lines, concatenated, are the input words in order. |
| Generator.JoinLines | app/services/generator.py:376-381 | Joining the lines with spaces equals joining all their words with spaces. |
| Generator.WrapPreservesWords | app/services/generator.py:365-383 | Joining all lines with spaces and splitting gives back the original words. |
| Generator.GroupOfWords | app/services/generator.py:376-381 | Each output line splits back into exactly the words placed on it. |
| Generator.WrapLineBounds | app/services/generator.py:371-381 | No line is empty, and a line of two or more words is at most `max_chars` long. |
| Generator.WrapIsGreedy | app/services/generator.py:371-378 | A line starts only when the next word did not fit: previous line + space + its first word reaches `max_chars` (from the third line on, exceeds it). |
| Generator.WrapText | app/services/generator.py:355-383 | The loop computes the wrap specification. Its lines re-split into the text's words, and all-whitespace text gives no lines. |
| Generator.DescriptionLines | app/services/generator.py:272-279 | An absent or empty description draws nothing. Otherwise the first at most 3 lines of its wrap at 60 are drawn. |
| Generator.ListItems | app/services/generator.py:223-232 | The first min(n, 5) items are shown, in order. A "... and N more" line, with N = n - 5, appears exactly when there are more than 5. |
| Generator.ListItemsAccountsForAll | app/services/generator.py:227-232 | The shown count plus the number in the "more" line equals the item count. |
| Generator.GenerateBatch | app/services/generator.py:385-402 | Succeeds iff every request renders, and then yields one document per request, in order. |
| Verification.CacheEntry | app/services/verification.py:45 | A certificate's cache entry is `cert:<id>`. |
| Verification.CacheEntryInjective | app/services/verification.py:45 | Distinct certificates have distinct cache entries. |
| Verification.CachedKey | app/services/verification.py:45-48 | A key is used from the cache exactly when a cache is present and holds a non-empty `cert:<id>` value. |
| Verification.ProbeKeys | app/services/verification.py:54-70 | The first probe is this month's key. A second probe exists exactly when the day is before the 5th. |
| Verification.ProbeKeysMonths | app/services/verification.py:56-65 | The first probe names this month. The second, when present, is a different key naming the month just before. |
| Verification.FirstPresent | app/services/verification.py:59-70 | The chosen probe is present and every earlier probe is absent. With no choice, all probes are absent. |
| Verification.FetchMetadata | app/services/verification.py:121-128 | Metadata counts only when stored and non-empty. |
| Verification.GetMetadata | app/services/verification.py:112-128 | Never fails; returns the stored metadata when non-empty, otherwise none. |
| Verification.TextField | app/services/verification.py:101-104 | A missing field gives its default. A stored string is used as is, and any other stored value is unusable. |
| Verification.ParseItems | app/services/verification.py:86-90 | A stored list passes unchanged, and a non-empty string is split at commas. Missing or empty gives no items. |
| Verification.ParseIssuedDate | app/services/verification.py:93-97 | A non-empty stored string is the issue date. Missing or empty means the moment of verification, and a list is unusable. |
| Verification.ParseDescription | app/services/verification.py:105 | Any falsy description reads as none. A non-empty string is kept, and a list is unusable. |
| Verification.BuildRecord | app/services/verification.py:99-110 | A record is built iff every field is usable, email non-empty and type known. It then carries the ID, both URLs, and the fields read from the metadata. |
| Verification.VerificationUrl | app/services/verification.py:83 | The user-facing URL `<base>/<id>`. |
| Verification.VerificationUrlInjective | app/services/verification.py:83 | Under one base URL, distinct certificates have distinct verification URLs. |
| Verification.RecordOutcome | app/services/verification.py:99-110 | The outcome once metadata is found: the record built from it with both URLs, or a failure when a field is unusable. |
| Verification.VerifyOutcomeOf | app/services/verification.py:32-110 | The specification of verification: a cached key is read without an existence check (no metadata is a failure); otherwise the first filed probe key with metadata gives its record, and anything else is not found. Its properties are the lemmas below. |
| Verification.VerifyCertificate | app/services/verification.py:32-110 | The outcome equals the specification `VerifyOutcomeOf`: a cached key with metadata gives its record, and a cached key without metadata fails. Otherwise the first present probe with metadata gives its record, else not found. A record carries the ID and `<base>/<id>`. |
| Verification.NoFallbackLateInMonth | app/services/verification.py:60-70 | From the 5th on, a miss in this month is not found, whatever the previous month holds. |
| Verification.FallbackEarlyInMonth | app/services/verification.py:61-66 | Before the 5th, a certificate only under the previous month (with metadata) is read from there. |
| Verification.VerifiedFromProbedKey | app/services/verification.py:54-80 | Without a cached key, a verified record's download URL points at a probed key that is filed. |
| Verification.MissingMetadataNotVerified | app/services/verification.py:72-75 | With no metadata anywhere, a cached key fails and an uncached lookup is not found. |
| Verification.CachedKeyNotChecked | app/services/verification.py:45-51 | A cached key is trusted without an existence check: removing its file changes nothing. |
| Verification.KeyOfJanuary2024 | app/services/verification.py:56 | The key for January 2024 is `certificates/2024/01/X.pdf`. |
| Verification.KeyOfDecember2023 | app/services/verification.py:65 | The key for December 2023 is `certificates/2023/12/X.pdf`. |
| Verification.JanuaryFallsBackToDecember | app/services/verification.py:62-65 | On 2 January 2024 the probes are January 2024, then December 2023. |
| Verification.MidMonthProbesOnlyThisMonth | app/services/verification.py:62-70 | On 10 March 2024 only March 2024 is probed. |
| Endpoints.StampedId | app/api/endpoints.py:59 | A generated ID: the prefix, `-`, the date as `%Y%m%d`, `-`, and the upper-cased hex digits; its shape is the next row. |
| Endpoints.CertificateIdShape | app/api/endpoints.py:59 | A generated ID is `CERT-`, the eight-digit date, `-`, and eight upper-case hex digits: 22 characters. |
| Endpoints.AssignedId | app/api/endpoints.py:58-59 | A supplied non-empty ID is kept; otherwise a `CERT-` ID is generated. |
| Endpoints.IssuedIds | app/api/endpoints.py:159-162 | Each batch request gets its ID by the single-request rule, position by position. |
| Endpoints.JoinItems | app/api/endpoints.py:84 | The items joined by commas, "" for no items; its round trip is `Endpoints.ItemsRoundTrip`. |
| Endpoints.FlattenMetadata | app/api/endpoints.py:78-86 | Exactly the seven fields are stored. An absent description is "". Items are "" exactly for no items (or one empty item), and the issue date defaults to now. |
| Endpoints.MetadataRoundTrip | app/api/endpoints.py:78-86 | Verification reading the flattened metadata rebuilds the request's fields. The exceptions: an empty description reads as none, and the issue date is the stored text. |
| Endpoints.ItemsRoundTrip | app/api/endpoints.py:84 | Comma-free items survive the comma join and split, and only no items join to "". |
| Endpoints.FileAll | app/api/endpoints.py:169-171 | The files after writing each key in turn, a later write to a key winning. |
| Endpoints.FileAllContents | app/api/endpoints.py:159-171 | After a run of uploads every uploaded key is filed and other files are untouched. A key uploaded once holds its document. |
| Endpoints.FileAllStep | app/api/endpoints.py:169-171 | One more upload extends the run by that key. |
| Endpoints.RedisHealth | app/api/endpoints.py:367-375 | "healthy" iff configured and the ping succeeds; "unhealthy" iff configured and it fails; else "not_configured". |
| Endpoints.S3Health | app/api/endpoints.py:376-384 | "error" exactly when looking the access key up raises; otherwise "configured" exactly when an access key is set, and "not_configured" when none is. |
| Endpoints.HSet | app/api/endpoints.py:140-147 | A hash write with a mapping adds the hash if needed, sets each given field, keeps the hash's other fields and leaves every other hash alone. |
| Endpoints.QueuedRecord | app/api/endpoints.py:142-146 | The fields written for a queued job: the total as decimal text, status "queued" and the creation time. |
| Endpoints.CertificateApi.constructor | app/api/endpoints.py:39-43 | The API connects to the storage and to a cache and job store holding whatever they already hold, stale entries included. |
| Endpoints.CertificateApi.ResolvedKey | app/api/endpoints.py:237-245 | The key the status and download handlers look at: the cached key when the cache holds a non-empty one, else this month's key. |
| Endpoints.CertificateApi.GenerateCertificate | app/api/endpoints.py:56-117 | A cache hit answers "cached" with no upload. A render failure or a refused write gives 500 with files and cache unchanged. Otherwise the PDF is filed under the month key, then cached, and "completed" is returned with its URL. Cached keys that were filed stay filed. |
| Endpoints.CertificateApi.GenerateBatch | app/api/endpoints.py:132-203 | Async merges the queued job into its hash (when there is a cache) and files nothing. Sync files each request in order and answers one completed response per request. The first render failure or refused write gives 500 with the earlier files kept. |
| Endpoints.CertificateApi.QueueBatch | app/api/endpoints.py:135-154 | Answers "queued" with the total. Only when a cache is configured are total, status and creation time merged into the job's hash. |
| Endpoints.CertificateApi.Fileable | app/api/endpoints.py:164-171 | A batch request can be filed when it renders and the file system accepts the write at its key. |
| Endpoints.CertificateApi.RenderAndFile | app/api/endpoints.py:164-171 | One request is filed under its month key exactly when it renders and the write is accepted; otherwise nothing changes. |
| Endpoints.CertificateApi.FileBatch | app/api/endpoints.py:157-184 | The loop's files equal the run of uploads of the filed prefix. It stops at the first request that fails to render or whose write is refused, and on success its responses equal one completed response per ID in order. |
| Endpoints.CertificateApi.GetCertificateStatus | app/api/endpoints.py:284-314 | "completed" with the key's URL iff the cached-or-current-month key is filed. Otherwise "not_found" with "Certificate not found". |
| Endpoints.CertificateApi.GetDownloadUrl | app/api/endpoints.py:236-263 | A URL with `expires_in` 3600 iff the cached-or-current-month key is filed, else 404 "Certificate not found". |
| Endpoints.CertificateApi.GetBatchStatus | app/api/endpoints.py:333-347 | No cache gives 503 "Redis not available". A missing or empty job gives 404 "Batch job not found", and otherwise the job record is returned. |
| Endpoints.CertificateApi.VerifyEndpoint | app/api/endpoints.py:217-223 | Verification without a cache: a record is returned, not found is 404 "Certificate not found or invalid.", and a failure is 500 "Internal server error" from the app-wide handler. |
| Endpoints.CompletedResponses | app/api/endpoints.py:176-184 | One "completed" response per ID, in order, each with its month key and that key's URL. |
| Endpoints.KeysOf | app/api/endpoints.py:169-171 | The batch's keys, one per ID, in order. |
| Endpoints.PdfsOf | app/api/endpoints.py:164-166 | The batch's documents, one per request, in order. |
| Endpoints.StatusHasNoFallback | app/api/endpoints.py:291-314 | Early in a month, a certificate filed only under the previous month is "not_found" for the status handler, while verification's probe finds it. |
| Endpoints.LocalCertificatesUnverifiable | app/services/storage.py:297-314 | A certificate just filed on the local backend, with no `.meta` entries around, verifies as not found. |
| Endpoints.BatchFilesEveryRequest | app/api/endpoints.py:159-171 | After a completed sync batch every request's key is filed and earlier files remain. A request whose ID does not recur later holds its own document. |
| Endpoints.QueuedJobIsReported | app/api/endpoints.py:138-147 | A queued batch is then reported by batch status with its total, status and creation time when a cache is configured, or 503 without one. |
| Endpoints.GenerateTwice | app/api/endpoints.py:62-71 | With a cache, generating the same ID twice gives "completed" and then "cached". The second answer has `s3_key` `certificates/<id>.pdf` and the stored key as `public_url`. |
| Endpoints.GenerateThenStatus | app/api/endpoints.py:87-111 | Without a cache, a certificate just generated (and accepted by the file system) is reported "completed" with the same URL. |
| Endpoints.StaleEntryHidesCertificate | app/api/endpoints.py:237-245 | A cached key that is no longer filed makes status "not_found" and download 404 even when this month's key is filed, and generating that ID again answers "cached" and files nothing. |

## Left out

- S3 backend: the `S3Storage` backend, the boto3 upload with metadata, and real presigned URLs are not part of this model (remote service). Only the local backend is modelled.
- Redis: connection failures, the TTL of cached keys and the `hset`/`hgetall` wire formats are not modelled. The cache is a map that is either configured or not; a hash is a map of string fields.
- Metrics, routing, async: Prometheus metrics, FastAPI routing and response models, `generated_at`/`created_at` timestamps in responses, and async execution are not modelled.
- PDF rendering: ReportLab drawing, fonts, coordinates and the logo are not modelled. Rendering is the parameter `render`, which may fail. The type dispatch at app/services/generator.py:131 names a `CertificateType.COLLECTION` member that does not exist, so as written every render raises. The model does not pick a mapping for it, and the items list is modelled as its own function.
- Clock and IDs: the clock and `uuid4` are parameters. One `now` stands for every `utcnow()` call in a handler.
- Issue date parsing: `datetime.fromisoformat` is not modelled, so a stored issue date is kept as text, and a malformed date string is not a failure in the model.
- Email syntax: the `EmailStr` syntax is not modelled; only a missing email is rejected (and an empty one is refused in verification records).
- Stored metadata shapes: JSON decoding of `.meta` files is the parameter `decodeMeta`. Stored values are strings, lists of strings or null; numbers and top-level non-object JSON are not modelled.
- Paths: filesystem path normalisation and `absolute()` are not modelled. The local URL is `file://<base>/<key>` with the base path taken as given.
- Storage.LocalStorage.Upload: only writes refused on opening the file are modelled. A write that fails after the open (a full disk) leaves the file truncated or partly written in the source; the model has no such outcome.
- Storage.LocalStorage.Exists: the store is a flat map from keys to files. `Path.exists()` is also true for a directory, and an ID containing `/` makes one key a directory prefix of another; neither is representable here.
- Configuration: settings, environment variables and the verify base URL's default are parameters.
- Endpoints.CertificateApi.GenerateCertificate: the 500 detail is "Failed to generate certificate" without the exception text that follows it in the source.
- Endpoints.CertificateApi.GenerateBatch: the 500 detail is "Failed to generate batch certificates" without the exception text.
- Endpoints.CertificateApi.VerifyEndpoint: the app-wide handler (app/main.py:58-68) answers 500 "Internal server error"; its `type` field, the exception's class name, is not modelled.
