/**
 * The request models of the certificate API: the certificate kinds and the
 * field constraints that requests must meet before any processing happens.
 * A payload is what arrives as JSON (every field may be absent); validation
 * turns it into a request or reports the names of the offending fields.
 */
module Models {
  import opened Wrappers

  /** The three certificate kinds and their wire values. */
  datatype CertificateType = Track | Course | Achievement {
    function Value(): string {
      match this
      case Track => "track"
      case Course => "course"
      case Achievement => "achievement"
    }
  }

  /** Reads a wire value; anything but the three known values is rejected. */
  function ParseCertificateType(s: string): (r: Option<CertificateType>)
    ensures r.Some? <==> s == "track" || s == "course" || s == "achievement"
    ensures r.Some? ==> r.value.Value() == s
  {
    if s == "track" then Some(Track)
    else if s == "course" then Some(Course)
    else if s == "achievement" then Some(Achievement)
    else None
  }

  lemma CertificateTypeRoundTrip(t: CertificateType, s: string)
    ensures ParseCertificateType(s) == Some(t) <==> s == t.Value()
  {
  }

  /** A validated certificate request. Issued date and metadata values are kept opaque. */
  datatype CertificateRequest = CertificateRequest(
    userName: string,
    userEmail: string,
    certificateType: CertificateType,
    title: string,
    description: Option<string>,
    itemsCompleted: seq<string>,
    issuedDate: Option<string>,
    certificateId: Option<string>,
    metadata: map<string, string>)

  const MaxUserName := 200
  const MaxTitle := 500
  const MaxDescription := 2000
  const MinBatch := 1
  const MaxBatch := 100

  predicate ValidRequest(r: CertificateRequest) {
    && 1 <= |r.userName| <= MaxUserName
    && 1 <= |r.title| <= MaxTitle
    && (r.description.Some? ==> |r.description.value| <= MaxDescription)
  }

  /**
   * A field whose JSON value may be missing, an explicit null, or present.
   * Only fields that have a default and no null in their type need the
   * difference: for them a missing field takes the default and a null is
   * a validation error.
   */
  datatype Field<+T> = Absent | Null | Present(value: T) {
    /** The value of a field that was sent, or the default of one that was not. */
    function GetOr(default: T): T {
      if Present? then value else default
    }
  }

  /**
   * A request as received. For an `Option` field, `None` is a missing field or
   * a null; the two are treated alike there.
   */
  datatype RequestPayload = RequestPayload(
    userName: Option<string>,
    userEmail: Option<string>,
    certificateType: Option<string>,
    title: Option<string>,
    description: Option<string>,
    itemsCompleted: Field<seq<string>>,
    issuedDate: Option<string>,
    certificateId: Option<string>,
    metadata: Field<map<string, string>>)

  predicate LengthWithin(field: Option<string>, lo: nat, hi: nat) {
    field.Some? && lo <= |field.value| <= hi
  }

  /** The fields of a request, named in a validation error by their wire names. */
  datatype RequestField =
    | UserName | UserEmail | Kind | Title | Description | ItemsCompleted | Metadata
  {
    function Name(): string {
      match this
      case UserName => "user_name"
      case UserEmail => "user_email"
      case Kind => "certificate_type"
      case Title => "title"
      case Description => "description"
      case ItemsCompleted => "items_completed"
      case Metadata => "metadata"
    }
  }

  /** Distinct fields are reported under distinct names. */
  lemma RequestFieldNamesDistinct(f: RequestField, g: RequestField)
    ensures f.Name() == g.Name() <==> f == g
  {
    if f != g {
      assert |f.Name()| != |g.Name()|;
    }
  }

  /** The fields that fail their constraint. */
  function RequestErrors(p: RequestPayload): (errors: set<RequestField>)
    ensures UserName in errors <==> !LengthWithin(p.userName, 1, MaxUserName)
    ensures UserEmail in errors <==> p.userEmail.None?
    ensures Kind in errors <==>
              (p.certificateType.None? || ParseCertificateType(p.certificateType.value).None?)
    ensures Title in errors <==> !LengthWithin(p.title, 1, MaxTitle)
    ensures Description in errors <==> !(p.description.None? || |p.description.value| <= MaxDescription)
    ensures ItemsCompleted in errors <==> p.itemsCompleted.Null?
    ensures Metadata in errors <==> p.metadata.Null?
  {
    set f: RequestField | Fails(p, f)
  }

  /** Whether one field of the payload breaks its constraint. */
  predicate Fails(p: RequestPayload, f: RequestField) {
    match f
    case UserName => !LengthWithin(p.userName, 1, MaxUserName)
    case UserEmail => p.userEmail.None?
    case Kind => p.certificateType.None? || ParseCertificateType(p.certificateType.value).None?
    case Title => !LengthWithin(p.title, 1, MaxTitle)
    case Description => p.description.Some? && |p.description.value| > MaxDescription
    case ItemsCompleted => p.itemsCompleted.Null?
    case Metadata => p.metadata.Null?
  }

  /**
   * Validation of one request: a payload with any failing field is rejected with
   * all of them; otherwise a missing list or mapping defaults to empty.
   */
  function ValidateRequest(p: RequestPayload): (r: Result<CertificateRequest, set<RequestField>>)
    ensures r.Failure? ==> r.error != {} && r.error == RequestErrors(p)
    ensures r.Success? ==> ValidRequest(r.value)
    ensures r.Success? ==>
              && Some(r.value.userName) == p.userName
              && Some(r.value.userEmail) == p.userEmail
              && Some(r.value.certificateType.Value()) == p.certificateType
              && Some(r.value.title) == p.title
              && r.value.description == p.description
              && r.value.itemsCompleted == p.itemsCompleted.GetOr([])
              && r.value.issuedDate == p.issuedDate
              && r.value.certificateId == p.certificateId
              && r.value.metadata == p.metadata.GetOr(map[])
  {
    var errors := RequestErrors(p);
    if errors != {} then Failure(errors)
    else
      Success(CertificateRequest(
        p.userName.value, p.userEmail.value,
        ParseCertificateType(p.certificateType.value).value,
        p.title.value, p.description, p.itemsCompleted.GetOr([]),
        p.issuedDate, p.certificateId, p.metadata.GetOr(map[])))
  }

  /** The payload that carries exactly the fields of a request. */
  function ToPayload(r: CertificateRequest): RequestPayload {
    RequestPayload(
      Some(r.userName), Some(r.userEmail), Some(r.certificateType.Value()), Some(r.title),
      r.description, Present(r.itemsCompleted), r.issuedDate, r.certificateId, Present(r.metadata))
  }

  /** The constraints accept exactly the valid requests, and accept them unchanged. */
  lemma ValidateToPayload(r: CertificateRequest)
    ensures ValidateRequest(ToPayload(r)) == Success(r) <==> ValidRequest(r)
  {
    CertificateTypeRoundTrip(r.certificateType, r.certificateType.Value());
  }

  /** An empty name, or an unknown kind, is rejected before any processing. */
  lemma EmptyNameOrUnknownTypeRejected(p: RequestPayload)
    requires p.userName == Some("") || p.certificateType == Some("invalid")
    ensures ValidateRequest(p).Failure?
    ensures p.userName == Some("") ==> UserName in ValidateRequest(p).error
    ensures p.certificateType == Some("invalid") ==> Kind in ValidateRequest(p).error
  {
  }

  /** Defaults: a missing list and a missing mapping are empty. */
  lemma DefaultsAreEmpty(p: RequestPayload)
    requires p.itemsCompleted.Absent? && p.metadata.Absent?
    requires ValidateRequest(p).Success?
    ensures ValidateRequest(p).value.itemsCompleted == []
    ensures ValidateRequest(p).value.metadata == map[]
  {
  }

  /** An explicit null for the list or the mapping is rejected, whatever else the payload holds. */
  lemma NullListOrMappingRejected(p: RequestPayload)
    requires p.itemsCompleted.Null? || p.metadata.Null?
    ensures ValidateRequest(p).Failure?
    ensures p.itemsCompleted.Null? ==> ItemsCompleted in ValidateRequest(p).error
    ensures p.metadata.Null? ==> Metadata in ValidateRequest(p).error
  {
  }

  datatype BatchRequest = BatchRequest(certificates: seq<CertificateRequest>, asyncProcessing: bool)

  /** A batch as received: the list is required, the mode has a default and is not nullable. */
  datatype BatchPayload = BatchPayload(certificates: Option<seq<RequestPayload>>, asyncProcessing: Field<bool>)

  predicate AllValid(ps: seq<RequestPayload>) {
    forall i :: 0 <= i < |ps| ==> ValidateRequest(ps[i]).Success?
  }

  function ValidateAll(ps: seq<RequestPayload>): (rs: seq<CertificateRequest>)
    requires AllValid(ps)
    ensures |rs| == |ps|
    ensures forall i :: 0 <= i < |ps| ==> rs[i] == ValidateRequest(ps[i]).value
  {
    if ps == [] then [] else [ValidateRequest(ps[0]).value] + ValidateAll(ps[1..])
  }

  /**
   * Why a batch payload was rejected: the list's size, the positions of
   * invalid entries, and a null processing mode.
   */
  datatype BatchErrors = BatchErrors(sizeError: bool, invalidEntries: set<nat>, modeError: bool)

  /**
   * Validation of a batch: 1 to 100 entries, each a valid request, and a
   * processing mode that is not null; a missing mode means asynchronous. A
   * list of more than 100 entries reports only its length, not its invalid entries.
   */
  function ValidateBatch(p: BatchPayload): (r: Result<BatchRequest, BatchErrors>)
    ensures r.Success? <==>
              p.certificates.Some? && MinBatch <= |p.certificates.value| <= MaxBatch
              && AllValid(p.certificates.value) && !p.asyncProcessing.Null?
    ensures r.Success? ==>
              && |r.value.certificates| == |p.certificates.value|
              && (forall i :: 0 <= i < |r.value.certificates| ==>
                    ValidRequest(r.value.certificates[i])
                    && Success(r.value.certificates[i]) == ValidateRequest(p.certificates.value[i]))
              && r.value.asyncProcessing == p.asyncProcessing.GetOr(true)
    ensures r.Failure? ==>
              (r.error.sizeError <==> !(p.certificates.Some? && MinBatch <= |p.certificates.value| <= MaxBatch))
    ensures r.Failure? ==> (r.error.modeError <==> p.asyncProcessing.Null?)
    ensures r.Failure? && p.certificates.Some? && |p.certificates.value| <= MaxBatch ==>
              forall i: nat :: i in r.error.invalidEntries <==>
                i < |p.certificates.value| && ValidateRequest(p.certificates.value[i]).Failure?
    ensures r.Failure? && p.certificates.Some? && |p.certificates.value| > MaxBatch ==>
              r.error.invalidEntries == {}
  {
    if p.certificates.None? then Failure(BatchErrors(true, {}, p.asyncProcessing.Null?))
    else
      var ps := p.certificates.value;
      // An over-long list is refused for its length alone; errors of entries
      // checked before the limit was passed are not reported.
      var bad := if |ps| > MaxBatch then {} else set i: nat | i < |ps| && ValidateRequest(ps[i]).Failure?;
      var sizeOk := MinBatch <= |ps| <= MaxBatch;
      if sizeOk && bad == {} && !p.asyncProcessing.Null? then
        assert AllValid(ps) by {
          forall i | 0 <= i < |ps| ensures ValidateRequest(ps[i]).Success? {
            assert i !in bad;
          }
        }
        Success(BatchRequest(ValidateAll(ps), p.asyncProcessing.GetOr(true)))
      else
        Failure(BatchErrors(!sizeOk, bad, p.asyncProcessing.Null?))
  }

  /** A list over the limit is rejected for its size alone, whatever its entries hold. */
  lemma OverlongBatchReportsOnlySize(p: BatchPayload)
    requires p.certificates.Some? && |p.certificates.value| > MaxBatch
    ensures ValidateBatch(p) == Failure(BatchErrors(true, {}, p.asyncProcessing.Null?))
  {
  }
}
