/**
 * The HTTP endpoints' decision logic: certificate ID assignment, the cache
 * short-circuit and write-back of generation, synchronous and queued batches,
 * status and download-URL lookups, batch-job status, verification and the
 * health report. The cache (Redis) is a pair of maps on the API object; the
 * store is the local backend; rendering, the clock and the random part of IDs
 * are parameters.
 */
module Endpoints {
  import opened Wrappers
  import opened Strings
  import opened Calendar
  import opened Models
  import opened Storage
  import opened Verification

  /** A response body, or an HTTP error status with its detail text. */
  datatype HttpResult<T> = Ok(body: T) | HttpError(code: int, detail: string)

  datatype CertificateResponse = CertificateResponse(certificateId: string, s3Key: string, publicUrl: string, status: string)

  datatype BatchResponse = BatchResponse(
    jobId: string, totalCertificates: nat, status: string, certificates: Option<seq<CertificateResponse>>)

  datatype CertificateStatus = CertificateStatus(
    certificateId: string, status: string, errorMessage: Option<string>, downloadUrl: Option<string>)

  datatype DownloadInfo = DownloadInfo(certificateId: string, downloadUrl: string, expiresIn: int)

  /** Eight lower-case hexadecimal digits: the leading part of a random UUID's hex form. */
  predicate IsHex8(hex: string) {
    |hex| == 8 && forall i :: 0 <= i < |hex| ==> IsLowerHex(hex[i])
  }

  /** `<prefix>-<YYYYMMDD>-<HEX8>`, the hex part upper-cased. */
  function StampedId(prefix: string, now: DateTime, hex: string): string
    requires now.Valid() && IsHex8(hex)
  {
    prefix + "-" + DateStamp(now) + "-" + UpperHex(hex)
  }

  /** A generated certificate ID: `CERT-`, the date as eight digits, `-`, eight upper-case hex digits. */
  lemma CertificateIdShape(now: DateTime, hex: string)
    requires now.Valid() && 1000 <= now.year && IsHex8(hex)
    ensures var id := StampedId("CERT", now, hex);
            && |id| == 22
            && id[..5] == "CERT-"
            && id[5..13] == DateStamp(now) && AllDigits(id[5..13])
            && id[13] == '-'
            && (forall i :: 14 <= i < 22 ==> IsUpperHex(id[i]))
  {
    var id := StampedId("CERT", now, hex);
    var stamp, upper := DateStamp(now), UpperHex(hex);
    assert id == "CERT-" + stamp + "-" + upper;
    assert id[5..13] == stamp;
    forall i | 14 <= i < 22 ensures IsUpperHex(id[i]) {
      assert id[i] == upper[i - 14];
    }
  }

  /** The ID a request is issued under: a supplied non-empty ID is kept, otherwise one is generated. */
  function AssignedId(supplied: Option<string>, now: DateTime, hex: string): (id: string)
    requires now.Valid() && IsHex8(hex)
    ensures supplied.Some? && supplied.value != "" ==> id == supplied.value
    ensures supplied.None? || supplied.value == "" ==> id == StampedId("CERT", now, hex)
  {
    if supplied.Some? && supplied.value != "" then supplied.value else StampedId("CERT", now, hex)
  }

  function WithId(request: CertificateRequest, id: string): CertificateRequest {
    request.(certificateId := Some(id))
  }

  /** The IDs of a batch's requests, each assigned as for a single request. */
  function IssuedIds(requests: seq<CertificateRequest>, now: DateTime, hexes: seq<string>): (ids: seq<string>)
    requires now.Valid() && |hexes| == |requests| && forall i :: 0 <= i < |hexes| ==> IsHex8(hexes[i])
    ensures |ids| == |requests|
    ensures forall i :: 0 <= i < |ids| ==> ids[i] == AssignedId(requests[i].certificateId, now, hexes[i])
  {
    seq(|requests|, i requires 0 <= i < |requests| => AssignedId(requests[i].certificateId, now, hexes[i]))
  }

  /** Items joined by commas; no items give the empty string. */
  function JoinItems(items: seq<string>): string {
    if items == [] then "" else Join(",", items)
  }

  /**
   * The metadata filed with a generated certificate: the request's own fields as
   * strings, an absent description as "", the items comma-joined, and the issue
   * date (the current moment when the request has none).
   */
  function FlattenMetadata(request: CertificateRequest, nowIso: string): (m: map<string, string>)
    ensures m.Keys == {"user_name", "user_email", "certificate_type", "title", "description", "items_completed", "issued_date"}
    ensures m["description"] == request.description.GetOr("")
    ensures m["items_completed"] == "" <==> request.itemsCompleted == [] || request.itemsCompleted == [""]
    ensures m["issued_date"] == request.issuedDate.GetOr(nowIso)
  {
    map[
      "user_name" := request.userName,
      "user_email" := request.userEmail,
      "certificate_type" := request.certificateType.Value(),
      "title" := request.title,
      "description" := request.description.GetOr(""),
      "items_completed" := JoinItems(request.itemsCompleted),
      "issued_date" := request.issuedDate.GetOr(nowIso)]
  }

  /** Metadata written as strings reads back as text values. */
  function AsStored(m: map<string, string>): Metadata {
    map k | k in m :: Text(m[k])
  }

  /**
   * Reading back the flattened metadata gives the request: the items when none
   * holds a comma (and the list is not the single empty item), the description
   * with an empty one read as none.
   */
  lemma MetadataRoundTrip(
    request: CertificateRequest, nowIso: string, certificateId: string,
    verificationUrl: string, downloadUrl: string, now: DateTime)
    requires ValidRequest(request) && request.userEmail != ""
    requires forall i :: 0 <= i < |request.itemsCompleted| ==> Excludes(request.itemsCompleted[i], ',')
    requires request.itemsCompleted != [""]
    requires request.issuedDate.GetOr(nowIso) != ""
    ensures BuildRecord(certificateId, AsStored(FlattenMetadata(request, nowIso)), verificationUrl, downloadUrl, now)
            == Some(VerificationRecord(
                 certificateId, request.userName, request.userEmail, request.certificateType, request.title,
                 if request.description == Some("") then None else request.description,
                 request.itemsCompleted, Stamped(request.issuedDate.GetOr(nowIso)), verificationUrl, downloadUrl))
  {
    var m := FlattenMetadata(request, nowIso);
    var data := AsStored(m);
    assert data["user_name"] == Text(request.userName);
    assert data["user_email"] == Text(request.userEmail);
    assert data["certificate_type"] == Text(request.certificateType.Value());
    assert data["title"] == Text(request.title);
    assert data["description"] == Text(request.description.GetOr(""));
    assert data["items_completed"] == Text(JoinItems(request.itemsCompleted));
    assert data["issued_date"] == Text(request.issuedDate.GetOr(nowIso));
    CertificateTypeRoundTrip(request.certificateType, request.certificateType.Value());
    ItemsRoundTrip(request.itemsCompleted);
    assert ParseItems(data) == request.itemsCompleted;
    assert TextField(data, "user_name", "") == Some(request.userName);
    assert TextField(data, "user_email", "") == Some(request.userEmail);
    assert TextField(data, "certificate_type", "track") == Some(request.certificateType.Value());
    assert TextField(data, "title", "") == Some(request.title);
    assert ParseDescription(data) == Some(if request.description == Some("") then None else request.description);
    assert ParseIssuedDate(data, now) == Some(Stamped(request.issuedDate.GetOr(nowIso)));
  }

  /** Comma-joined items split back into the items, and no items join to "". */
  lemma ItemsRoundTrip(items: seq<string>)
    requires forall i :: 0 <= i < |items| ==> Excludes(items[i], ',')
    requires items != [""]
    ensures JoinItems(items) == "" <==> items == []
    ensures items != [] ==> SplitOn(JoinItems(items), ',') == items
  {
    if items != [] {
      SplitOnJoin(items, ',');
      assert [','] == ",";
      if |items| > 1 {
        var init := items[..|items| - 1];
        assert items == init + [items[|items| - 1]];
        JoinAppend(",", init, items[|items| - 1]);
      }
    }
  }

  /** Certificate files written one after another, a later write to the same key winning. */
  function FileAll(files: map<string, Bytes>, keys: seq<string>, pdfs: seq<Bytes>): map<string, Bytes>
    requires |keys| == |pdfs|
  {
    if keys == [] then files
    else FileAll(files, keys[..|keys| - 1], pdfs[..|pdfs| - 1])[keys[|keys| - 1] := pdfs[|pdfs| - 1]]
  }

  /**
   * After a run of writes every written key is filed, nothing else is added or
   * changed, and a key written once holds what was written.
   */
  lemma {:induction false} FileAllContents(files: map<string, Bytes>, keys: seq<string>, pdfs: seq<Bytes>)
    requires |keys| == |pdfs|
    ensures forall k :: k in FileAll(files, keys, pdfs) <==> k in files || k in keys
    ensures forall k :: k in files && k !in keys ==> FileAll(files, keys, pdfs)[k] == files[k]
    ensures forall i :: 0 <= i < |keys| && LastWrite(keys, i) ==> FileAll(files, keys, pdfs)[keys[i]] == pdfs[i]
  {
    if keys != [] {
      var n := |keys| - 1;
      var ks, ps := keys[..n], pdfs[..n];
      FileAllContents(files, ks, ps);
      assert keys == ks + [keys[n]];
      forall i | 0 <= i < |keys| && LastWrite(keys, i)
        ensures FileAll(files, keys, pdfs)[keys[i]] == pdfs[i]
      {
        if i < n {
          assert keys[n] != keys[i];
          assert LastWrite(ks, i);
        }
      }
    }
  }

  /** One more write extends the run. */
  lemma FileAllStep(
    current: map<string, Bytes>, files: map<string, Bytes>, keys: seq<string>, pdfs: seq<Bytes>, k: string, p: Bytes)
    requires |keys| == |pdfs| && current == FileAll(files, keys, pdfs)
    ensures FileAll(files, keys + [k], pdfs + [p]) == current[k := p]
  {
    assert (keys + [k])[..|keys|] == keys;
    assert (pdfs + [p])[..|pdfs|] == pdfs;
  }

  /** No later position holds the same key. */
  predicate LastWrite(keys: seq<string>, i: int)
    requires 0 <= i < |keys|
  {
    forall j :: i < j < |keys| ==> keys[j] != keys[i]
  }

  /** The Redis status reported by the health check. */
  function RedisHealth(configured: bool, pingSucceeds: bool): (status: string)
    ensures status == "healthy" <==> configured && pingSucceeds
    ensures status == "unhealthy" <==> configured && !pingSucceeds
    ensures status == "not_configured" <==> !configured
  {
    if configured then (if pingSucceeds then "healthy" else "unhealthy") else "not_configured"
  }

  /**
   * The storage status reported by the health check: configured when an access
   * key is set, and "error" when looking the key up raises (a secret file that
   * cannot be read).
   */
  function S3Health(accessKeyId: Option<string>, lookupFails: bool): (status: string)
    ensures status == "error" <==> lookupFails
    ensures status == "configured" <==> !lookupFails && accessKeyId.Some? && accessKeyId.value != ""
    ensures status == "not_configured" <==> !lookupFails && !(accessKeyId.Some? && accessKeyId.value != "")
  {
    if lookupFails then "error"
    else if accessKeyId.Some? && accessKeyId.value != "" then "configured"
    else "not_configured"
  }

  /**
   * A hash write with a mapping: the fields are merged into the hash at `key`,
   * replacing the ones already there and keeping the others.
   */
  function HSet(hashes: map<string, map<string, string>>, key: string, fields: map<string, string>)
    : (r: map<string, map<string, string>>)
    ensures r.Keys == hashes.Keys + {key}
    ensures forall k :: k in hashes && k != key ==> r[k] == hashes[k]
    ensures forall f :: f in fields ==> f in r[key] && r[key][f] == fields[f]
    ensures forall f :: f in r[key] && f !in fields ==> key in hashes && f in hashes[key] && r[key][f] == hashes[key][f]
  {
    hashes[key := (if key in hashes then hashes[key] else map[]) + fields]
  }

  /** The record of a queued batch job. */
  function QueuedRecord(total: nat, createdAt: string): map<string, string> {
    map["total" := Decimal(total), "status" := "queued", "created_at" := createdAt]
  }

  /** The API with its cache: `cache` holds `cert:<id>` entries, `jobs` the `batch:<job>` records. */
  class CertificateApi {
    const storage: LocalStorage
    const cacheConfigured: bool
    const render: CertificateRequest -> Option<Bytes>
    const verifyBaseUrl: string
    var cache: map<string, string>
    var jobs: map<string, map<string, string>>

    /**
     * Connects to the storage and to a cache that may already hold entries,
     * stale ones included: nothing requires a cached key to be filed.
     */
    constructor (
      storage: LocalStorage, cacheConfigured: bool, render: CertificateRequest -> Option<Bytes>,
      verifyBaseUrl: string, cache: map<string, string>, jobs: map<string, map<string, string>>)
      ensures this.storage == storage && this.cacheConfigured == cacheConfigured
      ensures this.render == render && this.verifyBaseUrl == verifyBaseUrl
      ensures this.cache == cache && this.jobs == jobs
    {
      this.storage := storage;
      this.cacheConfigured := cacheConfigured;
      this.render := render;
      this.verifyBaseUrl := verifyBaseUrl;
      this.cache := cache;
      this.jobs := jobs;
    }

    /** The cache as the handlers see it: absent when no cache is configured. */
    function Cache(): Option<map<string, string>>
      reads this
    {
      if cacheConfigured then Some(cache) else None
    }

    /** Every non-empty cached key names a filed certificate. */
    predicate CachedKeysFiled()
      reads this, storage
    {
      forall e :: e in cache && cache[e] != "" ==> cache[e] in storage.files
    }

    /** The key the status and download handlers look at: the cached key, or this month's key. */
    function ResolvedKey(certificateId: string, now: DateTime): string
      requires now.Valid()
      reads this
    {
      match CachedKey(Cache(), certificateId)
      case Some(key) => key
      case None => CertificateKey(now, certificateId)
    }

    /**
     * `generate_certificate`: a cached ID answers "cached" at once; otherwise the
     * certificate is rendered and filed, and only then is its key cached. A
     * failed rendering or a refused write is a server error that caches nothing.
     */
    method GenerateCertificate(request: CertificateRequest, now: DateTime, hex: string, nowIso: string)
      returns (r: HttpResult<CertificateResponse>)
      requires now.Valid() && IsHex8(hex)
      modifies this, storage
      ensures jobs == old(jobs)
      ensures old(CachedKeysFiled()) ==> CachedKeysFiled()
      ensures var id := AssignedId(request.certificateId, now, hex);
              var cached := CachedKey(old(Cache()), id);
              cached.Some? ==>
                && r == Ok(CertificateResponse(id, "certificates/" + id + ".pdf", cached.value, "cached"))
                && cache == old(cache) && storage.files == old(storage.files)
      ensures var id := AssignedId(request.certificateId, now, hex);
              CachedKey(old(Cache()), id).None?
              && (render(WithId(request, id)).None? || !storage.writable(CertificateKey(now, id))) ==>
                && r == HttpError(500, "Failed to generate certificate")
                && cache == old(cache) && storage.files == old(storage.files)
      ensures var id := AssignedId(request.certificateId, now, hex);
              var key := CertificateKey(now, id);
              CachedKey(old(Cache()), id).None? && render(WithId(request, id)).Some? && storage.writable(key) ==>
                && r == Ok(CertificateResponse(id, key, LocalPresignedUrl(storage.basePath, key, UrlExpiry), "completed"))
                && storage.files == old(storage.files)[key := render(WithId(request, id)).value]
                && cache == (if cacheConfigured then old(cache)[CacheEntry(id) := key] else old(cache))
    {
      var id := AssignedId(request.certificateId, now, hex);
      if cacheConfigured {
        var entry := CacheEntry(id);
        if entry in cache && cache[entry] != "" {
          return Ok(CertificateResponse(id, "certificates/" + id + ".pdf", cache[entry], "cached"));
        }
      }
      var issued := WithId(request, id);
      var pdf := render(issued);
      if pdf.None? {
        return HttpError(500, "Failed to generate certificate");
      }
      var metadata := FlattenMetadata(issued, nowIso);
      var key := UploadCertificate(storage, pdf.value, id, now, metadata);
      if key.None? {
        return HttpError(500, "Failed to generate certificate");
      }
      if cacheConfigured {
        cache := cache[CacheEntry(id) := key.value];
      }
      var url := LocalPresignedUrl(storage.basePath, key.value, UrlExpiry);
      r := Ok(CertificateResponse(id, key.value, url, "completed"));
    }

    /**
     * `generate_batch_certificates`: a queued batch only records the job (when a
     * cache is configured); a synchronous one renders and files each request in
     * order, stopping at the first failed rendering or refused write with the
     * earlier files kept, and never consults or writes the cache.
     */
    method GenerateBatch(batch: BatchRequest, now: DateTime, jobHex: string, idHexes: seq<string>, nowIso: string)
      returns (r: HttpResult<BatchResponse>, ghost ids: seq<string>, ghost filed: nat)
      requires now.Valid() && IsHex8(jobHex)
      requires |idHexes| == |batch.certificates| && forall i :: 0 <= i < |idHexes| ==> IsHex8(idHexes[i])
      modifies this, storage
      ensures cache == old(cache)
      ensures old(CachedKeysFiled()) ==> CachedKeysFiled()
      ensures ids == IssuedIds(batch.certificates, now, idHexes)
      ensures batch.asyncProcessing ==>
                && r == Ok(BatchResponse(StampedId("BATCH", now, jobHex), |batch.certificates|, "queued", None))
                && storage.files == old(storage.files)
                && jobs == (if cacheConfigured
                            then HSet(old(jobs), "batch:" + StampedId("BATCH", now, jobHex),
                                      QueuedRecord(|batch.certificates|, nowIso))
                            else old(jobs))
      ensures !batch.asyncProcessing ==>
                && jobs == old(jobs)
                && filed <= |ids|
                && (forall i :: 0 <= i < filed ==>
                      render(WithId(batch.certificates[i], ids[i])).Some? && storage.writable(CertificateKey(now, ids[i])))
                && storage.files == FileAll(old(storage.files), KeysOf(ids[..filed], now),
                                            PdfsOf(batch.certificates[..filed], ids[..filed], render))
      ensures !batch.asyncProcessing && r.Ok? ==>
                && filed == |ids|
                && r == Ok(BatchResponse(StampedId("BATCH", now, jobHex), |batch.certificates|, "completed",
                                         Some(CompletedResponses(ids, storage.basePath, now))))
      ensures !batch.asyncProcessing && r.HttpError? ==>
                && r == HttpError(500, "Failed to generate batch certificates")
                && filed < |ids| && !Fileable(batch.certificates[filed], ids[filed], now)
    {
      var issued := IssuedIds(batch.certificates, now, idHexes);
      ids := issued;
      var jobId := StampedId("BATCH", now, jobHex);
      if batch.asyncProcessing {
        r := QueueBatch(jobId, |batch.certificates|, nowIso);
        filed := 0;
        return;
      }
      var generated;
      generated, filed := FileBatch(batch.certificates, issued, now);
      if generated.None? {
        return HttpError(500, "Failed to generate batch certificates"), ids, filed;
      }
      r := Ok(BatchResponse(jobId, |batch.certificates|, "completed", generated));
    }

    /**
     * The asynchronous branch: the job's record is merged into its hash as
     * queued when a cache is configured.
     */
    method QueueBatch(jobId: string, total: nat, nowIso: string) returns (r: HttpResult<BatchResponse>)
      modifies this
      ensures cache == old(cache)
      ensures r == Ok(BatchResponse(jobId, total, "queued", None))
      ensures jobs == (if cacheConfigured then HSet(old(jobs), "batch:" + jobId, QueuedRecord(total, nowIso)) else old(jobs))
    {
      if cacheConfigured {
        jobs := HSet(jobs, "batch:" + jobId, QueuedRecord(total, nowIso));
      }
      r := Ok(BatchResponse(jobId, total, "queued", None));
    }

    /** Whether a request both renders and is accepted by the file system under its key. */
    predicate Fileable(request: CertificateRequest, id: string, now: DateTime)
      requires now.Valid()
    {
      render(WithId(request, id)).Some? && storage.writable(CertificateKey(now, id))
    }

    /** One request of a synchronous batch: rendered, then filed without metadata. */
    method RenderAndFile(request: CertificateRequest, id: string, now: DateTime) returns (key: Option<string>)
      requires now.Valid()
      modifies storage
      ensures key.Some? <==> Fileable(request, id, now)
      ensures key.Some? ==>
                && key.value == CertificateKey(now, id)
                && storage.files == old(storage.files)[key.value := render(WithId(request, id)).value]
      ensures key.None? ==> storage.files == old(storage.files)
    {
      var pdf := render(WithId(request, id));
      if pdf.None? {
        return None;
      }
      key := UploadCertificate(storage, pdf.value, id, now, map[]);
    }

    /** The synchronous batch loop: render and file each request in order until one fails. */
    method FileBatch(requests: seq<CertificateRequest>, ids: seq<string>, now: DateTime)
      returns (generated: Option<seq<CertificateResponse>>, ghost filed: nat)
      requires now.Valid() && |ids| == |requests|
      modifies storage
      ensures old(CachedKeysFiled()) ==> CachedKeysFiled()
      ensures filed <= |ids|
      ensures forall i :: 0 <= i < filed ==>
                render(WithId(requests[i], ids[i])).Some? && storage.writable(CertificateKey(now, ids[i]))
      ensures storage.files == FileAll(old(storage.files), KeysOf(ids[..filed], now),
                                       PdfsOf(requests[..filed], ids[..filed], render))
      ensures generated.None? ==> filed < |ids| && !Fileable(requests[filed], ids[filed], now)
      ensures generated.Some? ==> filed == |ids| && generated.value == CompletedResponses(ids, storage.basePath, now)
    {
      var responses: seq<CertificateResponse> := [];
      var i := 0;
      while i < |ids|
        invariant i <= |ids|
        invariant forall j :: 0 <= j < i ==>
                    render(WithId(requests[j], ids[j])).Some? && storage.writable(CertificateKey(now, ids[j]))
        invariant old(storage.files).Keys <= storage.files.Keys
        invariant responses == CompletedResponses(ids[..i], storage.basePath, now)
        invariant storage.files == FileAll(old(storage.files), KeysOf(ids[..i], now),
                                           PdfsOf(requests[..i], ids[..i], render))
      {
        ghost var before := storage.files;
        var key := RenderAndFile(requests[i], ids[i], now);
        if key.None? {
          return None, i;
        }
        BatchStep(requests, ids, now, storage.basePath, render, i);
        FileAllStep(before, old(storage.files), KeysOf(ids[..i], now), PdfsOf(requests[..i], ids[..i], render),
                    CertificateKey(now, ids[i]), render(WithId(requests[i], ids[i])).value);
        var url := LocalPresignedUrl(storage.basePath, key.value, UrlExpiry);
        responses := responses + [CertificateResponse(ids[i], key.value, url, "completed")];
        i := i + 1;
      }
      assert ids[..|ids|] == ids;
      return Some(responses), i;
    }

    /** `get_certificate_status`: "completed" with a URL when the resolved key is filed, "not_found" otherwise. */
    method GetCertificateStatus(certificateId: string, now: DateTime) returns (s: CertificateStatus)
      requires now.Valid()
      ensures s.certificateId == certificateId
      ensures s.status == "completed" <==> ResolvedKey(certificateId, now) in storage.files
      ensures s.status == "completed" ==>
                s.downloadUrl == Some(LocalPresignedUrl(storage.basePath, ResolvedKey(certificateId, now), UrlExpiry))
                && s.errorMessage.None?
      ensures s.status != "completed" ==>
                s.status == "not_found" && s.errorMessage == Some("Certificate not found") && s.downloadUrl.None?
    {
      var key := CertificateKey(now, certificateId);
      if cacheConfigured {
        var entry := CacheEntry(certificateId);
        if entry in cache && cache[entry] != "" {
          key := cache[entry];
        }
      }
      var found := storage.Exists(key);
      if found {
        var url := LocalPresignedUrl(storage.basePath, key, UrlExpiry);
        s := CertificateStatus(certificateId, "completed", None, Some(url));
      } else {
        s := CertificateStatus(certificateId, "not_found", Some("Certificate not found"), None);
      }
    }

    /** `get_certificate_download_url`: a fresh one-hour URL when the resolved key is filed, 404 otherwise. */
    method GetDownloadUrl(certificateId: string, now: DateTime) returns (r: HttpResult<DownloadInfo>)
      requires now.Valid()
      ensures r.Ok? <==> ResolvedKey(certificateId, now) in storage.files
      ensures r.Ok? ==>
                r.body == DownloadInfo(
                  certificateId, LocalPresignedUrl(storage.basePath, ResolvedKey(certificateId, now), UrlExpiry), 3600)
      ensures r.HttpError? ==> r == HttpError(404, "Certificate not found")
    {
      var key := CertificateKey(now, certificateId);
      if cacheConfigured {
        var entry := CacheEntry(certificateId);
        if entry in cache && cache[entry] != "" {
          key := cache[entry];
        }
      }
      var found := storage.Exists(key);
      if !found {
        return HttpError(404, "Certificate not found");
      }
      r := Ok(DownloadInfo(certificateId, LocalPresignedUrl(storage.basePath, key, UrlExpiry), 3600));
    }

    /** `get_batch_status`: 503 without a cache, 404 for an unknown or empty job, else the job record. */
    method GetBatchStatus(jobId: string) returns (r: HttpResult<map<string, string>>)
      ensures !cacheConfigured ==> r == HttpError(503, "Redis not available")
      ensures cacheConfigured && ("batch:" + jobId !in jobs || jobs["batch:" + jobId] == map[]) ==>
                r == HttpError(404, "Batch job not found")
      ensures cacheConfigured && "batch:" + jobId in jobs && jobs["batch:" + jobId] != map[] ==>
                r == Ok(jobs["batch:" + jobId])
    {
      if !cacheConfigured {
        return HttpError(503, "Redis not available");
      }
      var jobInfo := if "batch:" + jobId in jobs then jobs["batch:" + jobId] else map[];
      if jobInfo == map[] {
        return HttpError(404, "Batch job not found");
      }
      r := Ok(jobInfo);
    }

    /**
     * The verify endpoint: verification runs without a cache; not found is 404
     * and a failure inside verification reaches the app-wide handler, which
     * answers 500 "Internal server error".
     */
    method VerifyEndpoint(certificateId: string, now: DateTime) returns (r: HttpResult<VerificationRecord>)
      requires now.Valid()
      ensures var outcome := VerifyOutcomeOf(
                storage.files, storage.decodeMeta, storage.basePath, verifyBaseUrl, None, certificateId, now);
              && (outcome.Verified? ==> r == Ok(outcome.record))
              && (outcome.NotFound? ==> r == HttpError(404, "Certificate not found or invalid."))
              && (outcome.Failed? ==> r == HttpError(500, "Internal server error"))
    {
      var outcome := VerifyCertificate(storage, None, verifyBaseUrl, certificateId, now);
      match outcome
      case Verified(record) => r := Ok(record);
      case NotFound => r := HttpError(404, "Certificate not found or invalid.");
      case Failed => r := HttpError(500, "Internal server error");
    }
  }

  /** The responses of a completed synchronous batch: one per ID, in order, each naming its key and URL. */
  function CompletedResponses(ids: seq<string>, basePath: string, now: DateTime): (rs: seq<CertificateResponse>)
    requires now.Valid()
    ensures |rs| == |ids|
    ensures forall i :: 0 <= i < |ids| ==>
              rs[i] == CertificateResponse(
                ids[i], CertificateKey(now, ids[i]),
                LocalPresignedUrl(basePath, CertificateKey(now, ids[i]), UrlExpiry), "completed")
  {
    seq(|ids|, i requires 0 <= i < |ids| =>
      CertificateResponse(ids[i], CertificateKey(now, ids[i]),
                          LocalPresignedUrl(basePath, CertificateKey(now, ids[i]), UrlExpiry), "completed"))
  }

  /** Growing a batch prefix by one request extends its keys, documents and responses by one. */
  lemma BatchStep(
    requests: seq<CertificateRequest>, ids: seq<string>, now: DateTime, basePath: string,
    render: CertificateRequest -> Option<Bytes>, i: int)
    requires now.Valid() && |requests| == |ids| && 0 <= i < |ids|
    requires forall j :: 0 <= j <= i ==> render(WithId(requests[j], ids[j])).Some?
    ensures KeysOf(ids[..i + 1], now) == KeysOf(ids[..i], now) + [CertificateKey(now, ids[i])]
    ensures PdfsOf(requests[..i + 1], ids[..i + 1], render)
            == PdfsOf(requests[..i], ids[..i], render) + [render(WithId(requests[i], ids[i])).value]
    ensures CompletedResponses(ids[..i + 1], basePath, now)
            == CompletedResponses(ids[..i], basePath, now)
               + [CertificateResponse(ids[i], CertificateKey(now, ids[i]),
                                      LocalPresignedUrl(basePath, CertificateKey(now, ids[i]), UrlExpiry), "completed")]
  {
  }

  /** The keys the requests of a batch are filed under. */
  function KeysOf(ids: seq<string>, now: DateTime): (keys: seq<string>)
    requires now.Valid()
    ensures |keys| == |ids|
    ensures forall i :: 0 <= i < |ids| ==> keys[i] == CertificateKey(now, ids[i])
  {
    seq(|ids|, i requires 0 <= i < |ids| => CertificateKey(now, ids[i]))
  }

  /** The rendered documents of a batch whose every request renders. */
  function PdfsOf(requests: seq<CertificateRequest>, ids: seq<string>, render: CertificateRequest -> Option<Bytes>)
    : (pdfs: seq<Bytes>)
    requires |requests| == |ids|
    requires forall i :: 0 <= i < |ids| ==> render(WithId(requests[i], ids[i])).Some?
    ensures |pdfs| == |ids|
    ensures forall i :: 0 <= i < |ids| ==> pdfs[i] == render(WithId(requests[i], ids[i])).value
  {
    seq(|ids|, i requires 0 <= i < |ids| => render(WithId(requests[i], ids[i])).value)
  }

  /**
   * Unlike verification, the status handler has no fallback: early in a month,
   * with no cache, a certificate filed only under the previous month is
   * reported "not_found" although verification's probe finds its file.
   */
  method StatusHasNoFallback(api: CertificateApi, certificateId: string, now: DateTime) returns (s: CertificateStatus)
    requires now.Valid() && now.day < FallbackDays && !api.cacheConfigured
    requires CertificateKey(now, certificateId) !in api.storage.files
    requires var prev := PrevMonth(now.year, now.month); StorageKey(prev.0, prev.1, certificateId) in api.storage.files
    ensures s.status == "not_found"
    ensures FirstPresent(ProbeKeys(certificateId, now), api.storage.files) == Some(1)
  {
    s := api.GetCertificateStatus(certificateId, now);
    var keys := ProbeKeys(certificateId, now);
    assert keys[1..] == [keys[1]];
  }

  /**
   * The local backend never writes a `.meta` entry, so a certificate just filed
   * there cannot be verified unless metadata was already present by other means.
   */
  lemma LocalCertificatesUnverifiable(
    files: map<string, Bytes>, decode: Bytes -> Option<Metadata>, basePath: string,
    verifyBaseUrl: string, certificateId: string, now: DateTime, pdf: Bytes)
    requires now.Valid()
    requires forall k :: MetaKey(k) !in files
    ensures VerifyOutcomeOf(files[CertificateKey(now, certificateId) := pdf], decode, basePath, verifyBaseUrl,
                            None, certificateId, now) == NotFound
  {
    var key := CertificateKey(now, certificateId);
    var after := files[key := pdf];
    forall k ensures MetadataIn(after, decode, k).None? {
      CertificateUploadKeepsMetadata(files, decode, now.year, now.month, certificateId, pdf, k);
    }
  }

  /** Each request of a completed synchronous batch is filed; one whose ID recurs later holds the later document. */
  lemma BatchFilesEveryRequest(
    files: map<string, Bytes>, requests: seq<CertificateRequest>, ids: seq<string>, now: DateTime,
    render: CertificateRequest -> Option<Bytes>)
    requires now.Valid() && |requests| == |ids|
    requires forall i :: 0 <= i < |ids| ==> render(WithId(requests[i], ids[i])).Some?
    ensures var after := FileAll(files, KeysOf(ids, now), PdfsOf(requests, ids, render));
            && (forall i :: 0 <= i < |ids| ==> CertificateKey(now, ids[i]) in after)
            && (forall i :: 0 <= i < |ids| && (forall j :: i < j < |ids| ==> ids[j] != ids[i]) ==>
                  after[CertificateKey(now, ids[i])] == render(WithId(requests[i], ids[i])).value)
            && (forall k :: k in files ==> k in after)
  {
    var keys := KeysOf(ids, now);
    FileAllContents(files, keys, PdfsOf(requests, ids, render));
    forall i | 0 <= i < |ids| && (forall j :: i < j < |ids| ==> ids[j] != ids[i])
      ensures LastWrite(keys, i)
    {
      forall j | i < j < |keys| ensures keys[j] != keys[i] {
        if keys[j] == keys[i] {
          StorageKeyInjective(now.year, now.month, ids[j], now.year, now.month, ids[i]);
        }
      }
    }
    assert forall i :: 0 <= i < |ids| ==> keys[i] in keys;
  }

  /** A queued batch is afterwards reported by the batch-status handler with its record. */
  method QueuedJobIsReported(
    api: CertificateApi, batch: BatchRequest, now: DateTime, jobHex: string, idHexes: seq<string>, nowIso: string)
    returns (queued: HttpResult<BatchResponse>, status: HttpResult<map<string, string>>)
    requires now.Valid() && IsHex8(jobHex) && batch.asyncProcessing
    requires |idHexes| == |batch.certificates| && forall i :: 0 <= i < |idHexes| ==> IsHex8(idHexes[i])
    modifies api, api.storage
    ensures queued.Ok? && queued.body.status == "queued"
    ensures api.cacheConfigured ==>
              && status.Ok?
              && "total" in status.body && status.body["total"] == Decimal(|batch.certificates|)
              && "status" in status.body && status.body["status"] == "queued"
              && "created_at" in status.body && status.body["created_at"] == nowIso
    ensures !api.cacheConfigured ==> status == HttpError(503, "Redis not available")
  {
    ghost var ids, filed;
    queued, ids, filed := api.GenerateBatch(batch, now, jobHex, idHexes, nowIso);
    if api.cacheConfigured {
      assert "total" in QueuedRecord(|batch.certificates|, nowIso);
    }
    status := api.GetBatchStatus(queued.body.jobId);
  }

  /**
   * Generating the same supplied ID twice with a cache: the second call is
   * answered from the cache, its `s3_key` is `certificates/<id>.pdf` and its
   * `public_url` is the stored key itself, not a URL.
   */
  method GenerateTwice(api: CertificateApi, request: CertificateRequest, now: DateTime, hex: string, nowIso: string)
    returns (first: HttpResult<CertificateResponse>, second: HttpResult<CertificateResponse>)
    requires now.Valid() && IsHex8(hex) && api.cacheConfigured
    requires request.certificateId.Some? && request.certificateId.value != ""
    requires CachedKey(api.Cache(), request.certificateId.value).None?
    requires api.Fileable(request, request.certificateId.value, now)
    modifies api, api.storage
    ensures var id := request.certificateId.value;
            && first.Ok? && first.body.status == "completed" && first.body.s3Key == CertificateKey(now, id)
            && second == Ok(CertificateResponse(id, "certificates/" + id + ".pdf", CertificateKey(now, id), "cached"))
  {
    var id := request.certificateId.value;
    first := api.GenerateCertificate(request, now, hex, nowIso);
    StorageKeyEndsInPdf(now.year, now.month, id);
    assert CertificateKey(now, id) != "";
    second := api.GenerateCertificate(request, now, hex, nowIso);
  }

  /** Without a cache, a certificate just generated is reported completed by the status handler. */
  method GenerateThenStatus(api: CertificateApi, request: CertificateRequest, now: DateTime, hex: string, nowIso: string)
    returns (generated: HttpResult<CertificateResponse>, status: CertificateStatus)
    requires now.Valid() && IsHex8(hex) && !api.cacheConfigured
    requires api.Fileable(request, AssignedId(request.certificateId, now, hex), now)
    modifies api, api.storage
    ensures generated.Ok? && generated.body.status == "completed"
    ensures status.status == "completed" && status.certificateId == generated.body.certificateId
    ensures status.downloadUrl == Some(generated.body.publicUrl)
  {
    generated := api.GenerateCertificate(request, now, hex, nowIso);
    status := api.GetCertificateStatus(generated.body.certificateId, now);
  }

  /**
   * A cache entry whose key is no longer filed hides the certificate from the
   * status and download handlers even when this month's key is filed, and a
   * new request for that ID is answered from the cache without filing anything.
   */
  method StaleEntryHidesCertificate(
    api: CertificateApi, request: CertificateRequest, now: DateTime, hex: string, nowIso: string)
    returns (status: CertificateStatus, download: HttpResult<DownloadInfo>, again: HttpResult<CertificateResponse>)
    requires now.Valid() && IsHex8(hex) && api.cacheConfigured
    requires request.certificateId.Some? && request.certificateId.value != ""
    requires var id := request.certificateId.value;
             && CacheEntry(id) in api.cache && api.cache[CacheEntry(id)] != ""
             && api.cache[CacheEntry(id)] !in api.storage.files
             && CertificateKey(now, id) in api.storage.files
    modifies api, api.storage
    ensures status.status == "not_found"
    ensures download == HttpError(404, "Certificate not found")
    ensures again.Ok? && again.body.status == "cached"
    ensures api.storage.files == old(api.storage.files) && api.cache == old(api.cache)
  {
    var id := request.certificateId.value;
    status := api.GetCertificateStatus(id, now);
    download := api.GetDownloadUrl(id, now);
    again := api.GenerateCertificate(request, now, hex, nowIso);
  }
}
