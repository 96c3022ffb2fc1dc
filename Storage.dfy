/**
 * Certificate storage: where a certificate is filed, which backend is used,
 * and the local-filesystem backend, which is a map from keys to file contents
 * with each key's metadata kept in a parallel `<key>.meta` entry.
 */
module Storage {
  import opened Wrappers
  import opened Strings
  import opened Calendar

  type Bytes = seq<bv8>

  /** A metadata value as stored: a string, a list of strings, or null. */
  datatype MetaValue = Text(text: string) | TextList(items: seq<string>) | Null

  type Metadata = map<string, MetaValue>

  const KeyPrefix: string := "certificates/"
  const KeySuffix: string := ".pdf"

  /** `certificates/<year>/<MM>/<certificate_id>.pdf`, the month zero-padded. */
  function StorageKey(year: nat, month: nat, certificateId: string): string {
    KeyPrefix + Decimal(year) + "/" + Pad2(month) + "/" + certificateId + KeySuffix
  }

  /** The key a certificate issued at `now` is filed under. */
  function CertificateKey(now: DateTime, certificateId: string): string
    requires now.Valid()
  {
    StorageKey(now.year, now.month, certificateId)
  }

  /** The key of a certificate names the year and month it was issued in, and its ID. */
  lemma CertificateKeyParts(now: DateTime, certificateId: string)
    requires now.Valid()
    ensures ParseStorageKey(CertificateKey(now, certificateId)) == Some(KeyParts(now.year, now.month, certificateId))
  {
    StorageKeyRoundTrip(now.year, now.month, certificateId);
  }

  datatype KeyParts = KeyParts(year: nat, month: nat, certificateId: string)

  /** The position of the first `c` in `s`, or `|s|` when there is none. */
  function IndexOf(s: string, c: char): (i: nat)
    ensures i <= |s|
    ensures i < |s| ==> s[i] == c
    ensures forall j :: 0 <= j < i ==> s[j] != c
  {
    if s == [] then 0 else if s[0] == c then 0 else 1 + IndexOf(s[1..], c)
  }

  lemma IndexOfAfterPrefix(a: string, c: char, b: string)
    requires Excludes(a, c)
    ensures IndexOf(a + [c] + b, c) == |a|
  {
    var s := a + [c] + b;
    assert s[|a|] == c;
    assert forall j :: 0 <= j < |a| ==> s[j] == a[j];
  }

  /** Reads the part of a key after the year's slash: a two-digit month, a slash, the ID and `.pdf`. */
  function ParseKeyTail(tail: string): Option<(nat, string)> {
    if !(|tail| >= 3 + |KeySuffix|) then None
    else if !(AllDigits(tail[..2]) && tail[2] == '/' && tail[|tail| - |KeySuffix|..] == KeySuffix) then None
    else Some((ParseDecimal(tail[..2]), tail[3..|tail| - |KeySuffix|]))
  }

  /** Reads a storage key back into its year, month and certificate ID. */
  function ParseStorageKey(key: string): Option<KeyParts> {
    if !(|key| >= |KeyPrefix| && key[..|KeyPrefix|] == KeyPrefix) then None
    else
      var rest := key[|KeyPrefix|..];
      var slash := IndexOf(rest, '/');
      if slash == |rest| || !AllDigits(rest[..slash]) then None
      else
        match ParseKeyTail(rest[slash + 1..])
        case None => None
        case Some((month, certificateId)) => Some(KeyParts(ParseDecimal(rest[..slash]), month, certificateId))
  }

  lemma DigitsExcludeSlash(s: string)
    requires AllDigits(s)
    ensures Excludes(s, '/')
  {
    forall i | 0 <= i < |s| ensures s[i] != '/' {
      assert IsDigit(s[i]);
    }
  }

  /** The part of a key after the year and its slash reads back as its month and ID. */
  lemma KeyTailRoundTrip(month: nat, certificateId: string)
    requires month < 100
    ensures ParseKeyTail(Pad2(month) + "/" + certificateId + KeySuffix) == Some((month, certificateId))
  {
    var m := Pad2(month);
    var tail := m + "/" + certificateId + KeySuffix;
    assert tail[..2] == m;
    assert tail[|tail| - |KeySuffix|..] == KeySuffix;
    assert tail[3..|tail| - |KeySuffix|] == certificateId;
  }

  /** After the prefix, a key splits at its first slash into the year's digits and the tail. */
  lemma KeyRestParts(d: string, tail: string)
    requires AllDigits(d)
    ensures var key := KeyPrefix + d + "/" + tail;
            && |key| >= |KeyPrefix| && key[..|KeyPrefix|] == KeyPrefix
            && var rest := key[|KeyPrefix|..];
               IndexOf(rest, '/') == |d| && rest[..|d|] == d && rest[|d| + 1..] == tail
  {
    var key := KeyPrefix + d + "/" + tail;
    assert key[..|KeyPrefix|] == KeyPrefix;
    var rest := key[|KeyPrefix|..];
    assert rest == d + ['/'] + tail;
    DigitsExcludeSlash(d);
    IndexOfAfterPrefix(d, '/', tail);
    assert rest[..|d|] == d;
    assert rest[|d| + 1..] == tail;
  }

  lemma StorageKeyRoundTrip(year: nat, month: nat, certificateId: string)
    requires month < 100
    ensures ParseStorageKey(StorageKey(year, month, certificateId)) == Some(KeyParts(year, month, certificateId))
  {
    var d := Decimal(year);
    var tail := Pad2(month) + "/" + certificateId + KeySuffix;
    assert StorageKey(year, month, certificateId) == KeyPrefix + d + "/" + tail;
    KeyRestParts(d, tail);
    KeyTailRoundTrip(month, certificateId);
    DecimalRoundTrip(year);
  }

  /** Distinct (year, month, ID) triples are filed under distinct keys. */
  lemma StorageKeyInjective(y1: nat, m1: nat, id1: string, y2: nat, m2: nat, id2: string)
    requires m1 < 100 && m2 < 100
    requires StorageKey(y1, m1, id1) == StorageKey(y2, m2, id2)
    ensures y1 == y2 && m1 == m2 && id1 == id2
  {
    StorageKeyRoundTrip(y1, m1, id1);
    StorageKeyRoundTrip(y2, m2, id2);
  }

  /** Storage keys end in `.pdf`. */
  lemma StorageKeyEndsInPdf(year: nat, month: nat, certificateId: string)
    ensures var key := StorageKey(year, month, certificateId);
            |key| >= 4 && key[|key| - 4..] == ".pdf"
  {
  }

  datatype BackendKind = S3 | Local

  /** The configured backend name selects the backend; any other name is an error. */
  function SelectBackend(setting: string): (r: Result<BackendKind, string>)
    ensures r == Success(S3) <==> setting == "s3"
    ensures r == Success(Local) <==> setting == "local"
    ensures r.Failure? ==> r.error == "Unsupported storage backend: " + setting
  {
    if setting == "s3" then Success(S3)
    else if setting == "local" then Success(Local)
    else Failure("Unsupported storage backend: " + setting)
  }

  /** The parallel entry that holds a key's metadata. */
  function MetaKey(key: string): string {
    key + ".meta"
  }

  /** Each key has a metadata entry of its own. */
  lemma MetaKeyInjective(k1: string, k2: string)
    requires MetaKey(k1) == MetaKey(k2)
    ensures k1 == k2
  {
    assert |k1| == |k2|;
    assert MetaKey(k1)[..|k1|] == k1;
    assert MetaKey(k2)[..|k2|] == k2;
  }

  /**
   * Metadata of `key` in a file map: absent when there is no `.meta` entry,
   * otherwise whatever decoding it yields (absent when it does not parse).
   */
  function MetadataIn(files: map<string, Bytes>, decode: Bytes -> Option<Metadata>, key: string): Option<Metadata> {
    if MetaKey(key) in files then decode(files[MetaKey(key)]) else None
  }

  /** Writing a certificate key never changes any key's metadata: `.pdf` keys are not `.meta` keys. */
  lemma {:induction false} CertificateUploadKeepsMetadata(
    files: map<string, Bytes>, decode: Bytes -> Option<Metadata>,
    year: nat, month: nat, certificateId: string, data: Bytes, key: string)
    ensures MetadataIn(files[StorageKey(year, month, certificateId) := data], decode, key)
            == MetadataIn(files, decode, key)
  {
    var k := StorageKey(year, month, certificateId);
    StorageKeyEndsInPdf(year, month, certificateId);
    var mk := MetaKey(key);
    assert mk[|mk| - 1] == 'a';
    assert k[|k| - 1] == 'f';
    assert mk != k;
  }

  /**
   * The local backend: a directory under `basePath`, modelled as a map from keys
   * (relative paths) to file contents. JSON decoding of `.meta` files is the
   * parameter `decodeMeta`, and which writes the file system accepts is the
   * parameter `writable`.
   */
  class LocalStorage {
    const basePath: string
    const decodeMeta: Bytes -> Option<Metadata>
    /**
     * Whether the file system accepts a write at a key. Only failures on opening
     * the file (a bad name, a missing permission) are covered: they raise
     * before anything is written.
     */
    const writable: string -> bool
    var files: map<string, Bytes>

    /** Opens the directory with whatever files it already holds. */
    constructor (
      basePath: string, decodeMeta: Bytes -> Option<Metadata>, writable: string -> bool,
      existing: map<string, Bytes>)
      ensures this.basePath == basePath && this.decodeMeta == decodeMeta && this.writable == writable
      ensures files == existing
    {
      this.basePath := basePath;
      this.decodeMeta := decodeMeta;
      this.writable := writable;
      files := existing;
    }

    /**
     * Writes (or overwrites) the file at `key` and returns the key; a write the
     * file system refuses raises, which is `None` here, and changes nothing.
     */
    method Upload(data: Bytes, key: string) returns (stored: Option<string>)
      modifies this
      ensures writable(key) ==> stored == Some(key) && files == old(files)[key := data]
      ensures !writable(key) ==> stored.None? && files == old(files)
    {
      if !writable(key) {
        return None;
      }
      files := files[key := data];
      stored := Some(key);
    }

    /** The contents at `key`, or nothing when there is no such file. */
    method Download(key: string) returns (data: Option<Bytes>)
      ensures data.Some? <==> key in files
      ensures data.Some? ==> data.value == files[key]
    {
      if key in files {
        data := Some(files[key]);
      } else {
        data := None;
      }
    }

    /** Removes the file at `key`; reports whether there was one. */
    method Delete(key: string) returns (deleted: bool)
      modifies this
      ensures deleted <==> key in old(files)
      ensures files == old(files) - {key}
    {
      if key in files {
        files := files - {key};
        deleted := true;
      } else {
        deleted := false;
      }
    }

    method Exists(key: string) returns (present: bool)
      ensures present <==> key in files
    {
      present := key in files;
    }

    /** Metadata from the parallel `<key>.meta` entry; absent or unparsable gives nothing. */
    method GetMetadata(key: string) returns (metadata: Option<Metadata>)
      ensures metadata == MetadataIn(files, decodeMeta, key)
      ensures MetaKey(key) !in files ==> metadata.None?
    {
      var metaKey := key + ".meta";
      if metaKey !in files {
        return None;
      }
      metadata := decodeMeta(files[metaKey]);
    }
  }

  /**
   * Upload, read back, delete: the local store behaves as a map. A refused
   * write leaves whatever was at the key, which the delete then removes.
   */
  method UploadDownloadDelete(store: LocalStorage, key: string, data: Bytes)
    returns (stored: Option<string>, read: Option<Bytes>, found: bool, deleted: bool, foundAfter: bool)
    modifies store
    ensures store.writable(key) ==> stored == Some(key) && read == Some(data) && found && deleted
    ensures !store.writable(key) ==>
              && stored.None? && found == deleted == (key in old(store.files))
              && (found ==> read == Some(old(store.files)[key]))
    ensures !foundAfter
    ensures store.files == old(store.files) - {key}
  {
    stored := store.Upload(data, key);
    read := store.Download(key);
    found := store.Exists(key);
    deleted := store.Delete(key);
    foundAfter := store.Exists(key);
  }

  /**
   * `StorageService.upload_certificate` on the local backend: the certificate is
   * filed under the current month's key; the metadata argument is accepted and
   * not written anywhere. A refused write files nothing and yields no key.
   */
  method UploadCertificate(
    store: LocalStorage, pdf: Bytes, certificateId: string, now: DateTime, metadata: map<string, string>)
    returns (key: Option<string>)
    requires now.Valid()
    modifies store
    ensures store.writable(CertificateKey(now, certificateId)) ==>
              && key == Some(CertificateKey(now, certificateId))
              && store.files == old(store.files)[key.value := pdf]
    ensures !store.writable(CertificateKey(now, certificateId)) ==> key.None? && store.files == old(store.files)
    ensures forall k :: MetadataIn(store.files, store.decodeMeta, k) == MetadataIn(old(store.files), store.decodeMeta, k)
  {
    var k := StorageKey(now.year, now.month, certificateId);
    key := store.Upload(pdf, k);
    forall k' ensures MetadataIn(store.files, store.decodeMeta, k') == MetadataIn(old(store.files), store.decodeMeta, k') {
      CertificateUploadKeepsMetadata(old(store.files), store.decodeMeta, now.year, now.month, certificateId, pdf, k');
    }
  }

  /** The local backend's download URL: `file://` and the file's path; the expiry plays no part. */
  function LocalPresignedUrl(basePath: string, key: string, expiration: int): string {
    "file://" + basePath + "/" + key
  }

  /** A local URL is a `file://` URL ending in the key. */
  lemma LocalPresignedUrlShape(basePath: string, key: string, expiration: int)
    ensures var url := LocalPresignedUrl(basePath, key, expiration);
            |url| >= 7 + |key| && url[..7] == "file://" && url[|url| - |key|..] == key
  {
    var url := LocalPresignedUrl(basePath, key, expiration);
    assert url[..7] == "file://";
    assert url[|url| - |key|..] == key;
  }

  /** The expiry argument has no effect on a local URL. */
  lemma LocalPresignedUrlIgnoresExpiration(basePath: string, key: string, e1: int, e2: int)
    ensures LocalPresignedUrl(basePath, key, e1) == LocalPresignedUrl(basePath, key, e2)
  {
  }

  /** Under one base path, distinct keys get distinct URLs. */
  lemma LocalPresignedUrlInjective(basePath: string, k1: string, k2: string, e1: int, e2: int)
    requires LocalPresignedUrl(basePath, k1, e1) == LocalPresignedUrl(basePath, k2, e2)
    ensures k1 == k2
  {
    var prefix := "file://" + basePath + "/";
    assert LocalPresignedUrl(basePath, k1, e1) == prefix + k1;
    assert LocalPresignedUrl(basePath, k2, e2) == prefix + k2;
    assert (prefix + k1)[|prefix|..] == k1;
    assert (prefix + k2)[|prefix|..] == k2;
  }
}
