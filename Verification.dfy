/**
 * Certificate verification: find where a certificate is filed (a cached key,
 * or the current month, or, early in a month, the month before), read its
 * metadata, and turn the metadata into a verification record.
 */
module Verification {
  import opened Wrappers
  import opened Strings
  import opened Calendar
  import opened Models
  import opened Storage

  /** Expiry, in seconds, of the download URLs handed out. */
  const UrlExpiry := 3600

  /** Before this day of the month the previous month is probed as well. */
  const FallbackDays := 5

  /** The cache entry holding a certificate's storage key. */
  function CacheEntry(certificateId: string): string {
    "cert:" + certificateId
  }

  /** Distinct certificates have distinct cache entries. */
  lemma CacheEntryInjective(id1: string, id2: string)
    requires CacheEntry(id1) == CacheEntry(id2)
    ensures id1 == id2
  {
    assert CacheEntry(id1)[5..] == id1;
    assert CacheEntry(id2)[5..] == id2;
  }

  /** The cached storage key: a configured cache holding a non-empty value for the certificate. */
  function CachedKey(cache: Option<map<string, string>>, certificateId: string): (key: Option<string>)
    ensures key.Some? <==>
              cache.Some? && CacheEntry(certificateId) in cache.value && cache.value[CacheEntry(certificateId)] != ""
    ensures key.Some? ==> key.value == cache.value[CacheEntry(certificateId)]
  {
    if cache.Some? && CacheEntry(certificateId) in cache.value && cache.value[CacheEntry(certificateId)] != ""
    then Some(cache.value[CacheEntry(certificateId)])
    else None
  }

  /**
   * The keys probed, in order, when there is no cached key: this month's key,
   * then, before the 5th, the key for the month before (December of the
   * previous year in January).
   */
  function ProbeKeys(certificateId: string, now: DateTime): (keys: seq<string>)
    requires now.Valid()
    ensures 1 <= |keys| <= 2
    ensures keys[0] == CertificateKey(now, certificateId)
    ensures |keys| == 2 <==> now.day < FallbackDays
  {
    var current := StorageKey(now.year, now.month, certificateId);
    if now.day < FallbackDays then
      var prev := PrevMonth(now.year, now.month);
      [current, StorageKey(prev.0, prev.1, certificateId)]
    else
      [current]
  }

  /** The probed keys name distinct months: this one and, when there are two, the one just before it. */
  lemma ProbeKeysMonths(certificateId: string, now: DateTime)
    requires now.Valid()
    ensures var keys := ProbeKeys(certificateId, now);
            ParseStorageKey(keys[0]) == Some(KeyParts(now.year, now.month, certificateId))
            && (|keys| == 2 ==>
                  && keys[0] != keys[1]
                  && ParseStorageKey(keys[1]).Some?
                  && var p := ParseStorageKey(keys[1]).value;
                     p.certificateId == certificateId && 1 <= p.month <= 12
                     && MonthIndex(p.year, p.month) == MonthIndex(now.year, now.month) - 1)
  {
    var keys := ProbeKeys(certificateId, now);
    CertificateKeyParts(now, certificateId);
    if |keys| == 2 {
      var prev := PrevMonth(now.year, now.month);
      StorageKeyRoundTrip(prev.0, prev.1, certificateId);
      if keys[0] == keys[1] {
        StorageKeyInjective(now.year, now.month, certificateId, prev.0, prev.1, certificateId);
        assert false;
      }
    }
  }

  /**
   * The position of the first key that is filed, if any: every key before it is
   * absent, and when there is none every key is absent.
   */
  function FirstPresent(keys: seq<string>, files: map<string, Bytes>): (r: Option<nat>)
    ensures r.Some? ==> r.value < |keys| && keys[r.value] in files
    ensures r.Some? ==> forall j :: 0 <= j < r.value ==> keys[j] !in files
    ensures r.None? ==> forall j :: 0 <= j < |keys| ==> keys[j] !in files
  {
    if keys == [] then None
    else if keys[0] in files then Some(0)
    else
      match FirstPresent(keys[1..], files)
      case None => None
      case Some(i) => Some(i + 1)
  }

  /**
   * The metadata verification works from: what the store holds for the key,
   * an empty mapping counting as none.
   */
  function FetchMetadata(files: map<string, Bytes>, decode: Bytes -> Option<Metadata>, key: string): (m: Option<Metadata>)
    ensures m.Some? <==> MetadataIn(files, decode, key).Some? && MetadataIn(files, decode, key).value != map[]
    ensures m.Some? ==> m == MetadataIn(files, decode, key)
  {
    var stored := MetadataIn(files, decode, key);
    if stored.Some? && stored.value != map[] then stored else None
  }

  /** `VerificationService.get_metadata`: never fails; empty or missing metadata is none. */
  method GetMetadata(storage: LocalStorage, key: string) returns (metadata: Option<Metadata>)
    ensures metadata == FetchMetadata(storage.files, storage.decodeMeta, key)
    ensures metadata.Some? ==> metadata.value != map[]
  {
    var stored := storage.GetMetadata(key);
    if stored.Some? && stored.value != map[] {
      return stored;
    }
    return None;
  }

  /** When a certificate was issued: the stored text, or the moment of verification when none is stored. */
  datatype IssuedDate = Stamped(text: string) | IssuedNow(at: DateTime)

  /** What verification reports about a certificate. */
  datatype VerificationRecord = VerificationRecord(
    certificateId: string,
    userName: string,
    userEmail: string,
    certificateType: CertificateType,
    title: string,
    description: Option<string>,
    itemsCompleted: seq<string>,
    issuedDate: IssuedDate,
    verificationUrl: string,
    downloadUrl: string)

  /** Python truthiness of a stored value. */
  predicate Truthy(v: MetaValue) {
    match v
    case Text(s) => s != ""
    case TextList(items) => items != []
    case Null => false
  }

  /** A string field read with a default; a stored non-string is unusable. */
  function TextField(data: Metadata, name: string, default: string): (r: Option<string>)
    ensures name !in data ==> r == Some(default)
    ensures name in data ==> (r.Some? <==> data[name].Text?)
    ensures name in data && r.Some? ==> data[name] == Text(r.value)
  {
    if name !in data then Some(default)
    else match data[name]
      case Text(s) => Some(s)
      case _ => None
  }

  /** Completed items: a stored list as is, a non-empty string split at commas, anything else none. */
  function ParseItems(data: Metadata): (items: seq<string>)
    ensures "items_completed" in data && data["items_completed"].TextList? ==> items == data["items_completed"].items
    ensures "items_completed" in data && data["items_completed"].Text? && data["items_completed"].text != "" ==>
              items == SplitOn(data["items_completed"].text, ',')
    ensures "items_completed" !in data || !Truthy(data["items_completed"]) ==> items == []
  {
    if "items_completed" !in data then []
    else match data["items_completed"]
      case TextList(l) => l
      case Text(s) => if s == "" then [] else SplitOn(s, ',')
      case Null => []
  }

  /** The issue date: a non-empty stored string as is, nothing (or an empty value) the current moment. */
  function ParseIssuedDate(data: Metadata, now: DateTime): (r: Option<IssuedDate>)
    ensures "issued_date" !in data || !Truthy(data["issued_date"]) ==> r == Some(IssuedNow(now))
    ensures "issued_date" in data && Truthy(data["issued_date"]) ==>
              (r.Some? <==> data["issued_date"].Text?)
              && (r.Some? ==> r.value == Stamped(data["issued_date"].text))
  {
    if "issued_date" !in data || !Truthy(data["issued_date"]) then Some(IssuedNow(now))
    else match data["issued_date"]
      case Text(s) => Some(Stamped(s))
      case _ => None
  }

  /** The description: a non-empty stored string, or none for anything falsy. */
  function ParseDescription(data: Metadata): (r: Option<Option<string>>)
    ensures "description" !in data || !Truthy(data["description"]) ==> r == Some(None)
    ensures "description" in data && Truthy(data["description"]) ==>
              (r.Some? <==> data["description"].Text?)
              && (r.Some? ==> r.value == Some(data["description"].text))
  {
    if "description" !in data || !Truthy(data["description"]) then Some(None)
    else match data["description"]
      case Text(s) => Some(Some(s))
      case _ => None
  }

  /**
   * The record built from stored metadata. It is refused when a field cannot be
   * used: a non-string name, email, type or title, an empty email, an unknown
   * type, a list where the issue date or description should be.
   */
  function BuildRecord(
    certificateId: string, data: Metadata, verificationUrl: string, downloadUrl: string, now: DateTime)
    : (r: Option<VerificationRecord>)
    ensures r.Some? <==>
              && TextField(data, "user_name", "").Some?
              && TextField(data, "user_email", "").Some? && TextField(data, "user_email", "").value != ""
              && TextField(data, "certificate_type", "track").Some?
              && ParseCertificateType(TextField(data, "certificate_type", "track").value).Some?
              && TextField(data, "title", "").Some?
              && ParseDescription(data).Some?
              && ParseIssuedDate(data, now).Some?
    ensures r.Some? ==>
              && r.value.certificateId == certificateId
              && r.value.verificationUrl == verificationUrl
              && r.value.downloadUrl == downloadUrl
              && Some(r.value.userName) == TextField(data, "user_name", "")
              && Some(r.value.userEmail) == TextField(data, "user_email", "")
              && Some(r.value.certificateType.Value()) == TextField(data, "certificate_type", "track")
              && Some(r.value.title) == TextField(data, "title", "")
              && Some(r.value.description) == ParseDescription(data)
              && r.value.itemsCompleted == ParseItems(data)
              && Some(r.value.issuedDate) == ParseIssuedDate(data, now)
  {
    var items := ParseItems(data);
    var issued := ParseIssuedDate(data, now);
    var userName := TextField(data, "user_name", "");
    var userEmail := TextField(data, "user_email", "");
    var kind := TextField(data, "certificate_type", "track");
    var title := TextField(data, "title", "");
    var description := ParseDescription(data);
    if issued.None? || userName.None? || userEmail.None? || userEmail.value == "" || kind.None?
       || ParseCertificateType(kind.value).None? || title.None? || description.None?
    then None
    else
      Some(VerificationRecord(
        certificateId, userName.value, userEmail.value, ParseCertificateType(kind.value).value,
        title.value, description.value, items, issued.value, verificationUrl, downloadUrl))
  }

  /** The result of a verification: a record, nothing found, or a failure (an exception in the service). */
  datatype VerifyOutcome = Verified(record: VerificationRecord) | NotFound | Failed

  function VerificationUrl(verifyBaseUrl: string, certificateId: string): string {
    verifyBaseUrl + "/" + certificateId
  }

  /** Under one base URL, distinct certificates have distinct verification URLs. */
  lemma VerificationUrlInjective(verifyBaseUrl: string, id1: string, id2: string)
    requires VerificationUrl(verifyBaseUrl, id1) == VerificationUrl(verifyBaseUrl, id2)
    ensures id1 == id2
  {
    var n := |verifyBaseUrl| + 1;
    assert VerificationUrl(verifyBaseUrl, id1)[n..] == id1;
    assert VerificationUrl(verifyBaseUrl, id2)[n..] == id2;
  }

  /** The outcome of reading a record from found metadata. */
  function RecordOutcome(
    certificateId: string, data: Metadata, verifyBaseUrl: string, basePath: string, key: string, now: DateTime)
    : VerifyOutcome
  {
    match BuildRecord(certificateId, data, VerificationUrl(verifyBaseUrl, certificateId),
                      LocalPresignedUrl(basePath, key, UrlExpiry), now)
    case Some(record) => Verified(record)
    case None => Failed
  }

  /**
   * What verification yields, stated by where the certificate is found: a cached
   * key is trusted without an existence check and must have metadata (its
   * absence is a failure); otherwise the first filed probe key is used, and a
   * miss or missing metadata means not found.
   */
  function VerifyOutcomeOf(
    files: map<string, Bytes>, decode: Bytes -> Option<Metadata>, basePath: string,
    verifyBaseUrl: string, cache: Option<map<string, string>>, certificateId: string, now: DateTime)
    : VerifyOutcome
    requires now.Valid()
  {
    var cached := CachedKey(cache, certificateId);
    if cached.Some? then
      match FetchMetadata(files, decode, cached.value)
      case None => Failed
      case Some(data) => RecordOutcome(certificateId, data, verifyBaseUrl, basePath, cached.value, now)
    else
      var keys := ProbeKeys(certificateId, now);
      match FirstPresent(keys, files)
      case None => NotFound
      case Some(i) =>
        match FetchMetadata(files, decode, keys[i])
        case None => NotFound
        case Some(data) => RecordOutcome(certificateId, data, verifyBaseUrl, basePath, keys[i], now)
  }

  /** `VerificationService.verify_certificate` over the local store and an optional cache. */
  method VerifyCertificate(
    storage: LocalStorage, cache: Option<map<string, string>>, verifyBaseUrl: string,
    certificateId: string, now: DateTime)
    returns (r: VerifyOutcome)
    requires now.Valid()
    ensures r == VerifyOutcomeOf(storage.files, storage.decodeMeta, storage.basePath, verifyBaseUrl, cache, certificateId, now)
    ensures r.Verified? ==>
              r.record.certificateId == certificateId
              && r.record.verificationUrl == verifyBaseUrl + "/" + certificateId
  {
    var certificateData: Option<Metadata> := None;
    var key: Option<string> := None;

    if cache.Some? {
      var entry := CacheEntry(certificateId);
      if entry in cache.value && cache.value[entry] != "" {
        key := Some(cache.value[entry]);
        var metadata := GetMetadata(storage, key.value);
        if metadata.Some? {
          certificateData := metadata;
        }
      }
    }

    if key.None? {
      var k := StorageKey(now.year, now.month, certificateId);
      var found := storage.Exists(k);
      if !found {
        if now.day < FallbackDays {
          var prev := PrevMonth(now.year, now.month);
          k := StorageKey(prev.0, prev.1, certificateId);
          found := storage.Exists(k);
          if !found {
            return NotFound;
          }
        } else {
          return NotFound;
        }
      }
      var metadata := GetMetadata(storage, k);
      if metadata.None? {
        return NotFound;
      }
      key := Some(k);
      certificateData := metadata;
    }

    if certificateData.None? {
      return Failed;
    }
    r := RecordOutcome(certificateId, certificateData.value, verifyBaseUrl, storage.basePath, key.value, now);
  }

  /** From the 5th on, a certificate missing from this month is not found, whatever earlier months hold. */
  lemma NoFallbackLateInMonth(
    files: map<string, Bytes>, decode: Bytes -> Option<Metadata>, basePath: string,
    verifyBaseUrl: string, certificateId: string, now: DateTime)
    requires now.Valid() && now.day >= FallbackDays
    requires CertificateKey(now, certificateId) !in files
    ensures VerifyOutcomeOf(files, decode, basePath, verifyBaseUrl, None, certificateId, now) == NotFound
  {
  }

  /**
   * Before the 5th, a certificate filed only under the previous month (with
   * metadata) is read from there.
   */
  lemma FallbackEarlyInMonth(
    files: map<string, Bytes>, decode: Bytes -> Option<Metadata>, basePath: string,
    verifyBaseUrl: string, certificateId: string, now: DateTime)
    requires now.Valid() && now.day < FallbackDays
    requires CertificateKey(now, certificateId) !in files
    requires var prev := PrevMonth(now.year, now.month);
             StorageKey(prev.0, prev.1, certificateId) in files
             && FetchMetadata(files, decode, StorageKey(prev.0, prev.1, certificateId)).Some?
    ensures var prev := PrevMonth(now.year, now.month);
            var key := StorageKey(prev.0, prev.1, certificateId);
            VerifyOutcomeOf(files, decode, basePath, verifyBaseUrl, None, certificateId, now)
            == RecordOutcome(certificateId, FetchMetadata(files, decode, key).value, verifyBaseUrl, basePath, key, now)
  {
    var keys := ProbeKeys(certificateId, now);
    assert keys[1..] == [keys[1]];
    assert FirstPresent(keys, files) == Some(1);
  }

  /**
   * Without a cached key, a verified certificate was found under one of the probe
   * keys and its download URL points there.
   */
  lemma VerifiedFromProbedKey(
    files: map<string, Bytes>, decode: Bytes -> Option<Metadata>, basePath: string,
    verifyBaseUrl: string, cache: Option<map<string, string>>, certificateId: string, now: DateTime)
    requires now.Valid() && CachedKey(cache, certificateId).None?
    requires VerifyOutcomeOf(files, decode, basePath, verifyBaseUrl, cache, certificateId, now).Verified?
    ensures var keys := ProbeKeys(certificateId, now);
            var record := VerifyOutcomeOf(files, decode, basePath, verifyBaseUrl, cache, certificateId, now).record;
            exists i :: 0 <= i < |keys| && keys[i] in files
                        && record.downloadUrl == LocalPresignedUrl(basePath, keys[i], UrlExpiry)
  {
    var keys := ProbeKeys(certificateId, now);
    var i := FirstPresent(keys, files).value;
    assert keys[i] in files;
  }

  /** Missing metadata is never verified: on the cached path it is a failure, otherwise not found. */
  lemma MissingMetadataNotVerified(
    files: map<string, Bytes>, decode: Bytes -> Option<Metadata>, basePath: string,
    verifyBaseUrl: string, cache: Option<map<string, string>>, certificateId: string, now: DateTime)
    requires now.Valid()
    requires forall k :: FetchMetadata(files, decode, k).None?
    ensures var r := VerifyOutcomeOf(files, decode, basePath, verifyBaseUrl, cache, certificateId, now);
            (CachedKey(cache, certificateId).Some? ==> r == Failed)
            && (CachedKey(cache, certificateId).None? ==> r == NotFound)
  {
  }

  /** A cached key is trusted: removing its file changes nothing, as no existence check is made. */
  lemma CachedKeyNotChecked(
    files: map<string, Bytes>, decode: Bytes -> Option<Metadata>, basePath: string,
    verifyBaseUrl: string, cache: Option<map<string, string>>, certificateId: string, now: DateTime)
    requires now.Valid() && CachedKey(cache, certificateId).Some?
    ensures var key := CachedKey(cache, certificateId).value;
            VerifyOutcomeOf(files - {key}, decode, basePath, verifyBaseUrl, cache, certificateId, now)
            == VerifyOutcomeOf(files, decode, basePath, verifyBaseUrl, cache, certificateId, now)
  {
    var key := CachedKey(cache, certificateId).value;
    assert |MetaKey(key)| > |key|;
    assert MetadataIn(files - {key}, decode, key) == MetadataIn(files, decode, key);
  }

  lemma KeyOfJanuary2024()
    ensures StorageKey(2024, 1, "X") == "certificates/2024/01/X.pdf"
  {
    assert DigitChar(0) == '0' && DigitChar(1) == '1' && DigitChar(2) == '2' && DigitChar(4) == '4';
    assert Decimal(2) == "2" && Decimal(20) == "20" && Decimal(202) == "202" && Decimal(2024) == "2024";
    assert Decimal(1) == "1" && Pad2(1) == "01";
    assert "certificates/" + "2024" + "/" + "01" + "/" + "X" + ".pdf" == "certificates/2024/01/X.pdf";
  }

  lemma KeyOfDecember2023()
    ensures StorageKey(2023, 12, "X") == "certificates/2023/12/X.pdf"
  {
    assert DigitChar(0) == '0' && DigitChar(1) == '1' && DigitChar(2) == '2' && DigitChar(3) == '3';
    assert Decimal(2) == "2" && Decimal(20) == "20" && Decimal(202) == "202" && Decimal(2023) == "2023";
    assert Decimal(12) == "12" && Pad2(12) == "12";
    assert "certificates/" + "2023" + "/" + "12" + "/" + "X" + ".pdf" == "certificates/2023/12/X.pdf";
  }

  /** On 2 January 2024 the probes are January 2024, then December 2023. */
  lemma JanuaryFallsBackToDecember()
    ensures ProbeKeys("X", DateTime(2024, 1, 2))
            == ["certificates/2024/01/X.pdf", "certificates/2023/12/X.pdf"]
  {
    KeyOfJanuary2024();
    KeyOfDecember2023();
    assert PrevMonth(2024, 1) == (2023, 12);
  }

  /** On 10 March 2024 only March is probed. */
  lemma MidMonthProbesOnlyThisMonth()
    ensures ProbeKeys("X", DateTime(2024, 3, 10)) == ["certificates/2024/03/X.pdf"]
  {
    assert DigitChar(0) == '0' && DigitChar(2) == '2' && DigitChar(3) == '3' && DigitChar(4) == '4';
    assert Decimal(2) == "2" && Decimal(20) == "20" && Decimal(202) == "202";
    assert Decimal(2024) == "2024";
    assert Decimal(3) == "3" && Pad2(3) == "03";
    assert StorageKey(2024, 3, "X") == "certificates/" + "2024" + "/" + "03" + "/" + "X" + ".pdf";
    assert "certificates/" + "2024" + "/" + "03" + "/" + "X" + ".pdf" == "certificates/2024/03/X.pdf";
    assert ProbeKeys("X", DateTime(2024, 3, 10)) == [StorageKey(2024, 3, "X")];
  }
}
