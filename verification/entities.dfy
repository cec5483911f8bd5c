/**
 * The record schemas of the complaint pipeline: the raw schema a bronze row is
 * validated against (field names, aliases, which fields are optional, the two
 * categorical validators), the silver record the ingestion stage persists, and
 * the gold record with its binary `escalation_risk` validator.
 *
 * A raw row is what `row.to_dict()` gives: a map from column name to cell. A
 * cell is either pandas' missing value (a float NaN) or text. A field whose
 * column is absent from the row is missing; a field whose cell is NaN is not:
 * pydantic's `str` coercion turns NaN into the text "nan", and its `int` and
 * `datetime` coercions refuse it. Parsing text into an integer or a timestamp
 * is the validation library's business and is taken as a parameter.
 */
module Entities {
  import opened Wrappers

  /** One cell of a raw table: pandas' missing value (NaN) or text. */
  datatype Cell = NaN | Text(text: string)

  /** `str(v)` as pydantic's `str` coercion applies it to a cell: NaN becomes "nan". */
  function StrOf(c: Cell): string {
    match c
    case NaN => "nan"
    case Text(s) => s
  }

  /** One raw row, keyed by column name. */
  type Row = map<string, Cell>

  /** A point in time, as the validation library's datetime coercion produces it. */
  type Timestamp = int

  /** The validation library's coercions of text into an integer and into a datetime. */
  datatype Coercions = Coercions(toInt: string -> Option<int>, toDatetime: string -> Option<Timestamp>)

  const TimelyResponseChoices: seq<string> := ["Yes", "No"]
  const ConsumerDisputedChoices: seq<string> := ["Yes", "No", "N/A"]

  /** The fields of the raw schema, in declaration order. */
  datatype Field =
    | ComplaintId | DateReceived | Product | SubProduct | Issue | ConsumerComplaintNarrative
    | CompanyResponseToConsumer | TimelyResponse | ConsumerDisputed
    | Company | State | SubmittedVia

  /** The field's own name in the raw schema. */
  function Name(f: Field): string {
    match f
    case ComplaintId => "Complaint_ID"
    case DateReceived => "Date_received"
    case Product => "Product"
    case SubProduct => "Sub_product"
    case Issue => "Issue"
    case ConsumerComplaintNarrative => "Consumer_complaint_narrative"
    case CompanyResponseToConsumer => "Company_response_to_consumer"
    case TimelyResponse => "Timely_response"
    case ConsumerDisputed => "Consumer_disputed"
    case Company => "Company"
    case State => "State"
    case SubmittedVia => "Submitted_via"
  }

  /** The column name the field is read from; a field declared without an alias uses its name. */
  function Alias(f: Field): string {
    match f
    case ComplaintId => "Complaint ID"
    case DateReceived => "Date received"
    case Product => "Product"
    case SubProduct => "Sub-product"
    case Issue => "Issue"
    case ConsumerComplaintNarrative => "Consumer complaint narrative"
    case CompanyResponseToConsumer => "Company response to consumer"
    case TimelyResponse => "Timely response?"
    case ConsumerDisputed => "Consumer disputed?"
    case Company => "Company"
    case State => "State"
    case SubmittedVia => "Submitted via"
  }

  /** The three fields that default to None when missing. */
  predicate IsOptional(f: Field) {
    f == SubProduct || f == ConsumerDisputed || f == State
  }

  /** The field a column alias belongs to, if any. */
  function FieldByAlias(column: string): (r: Option<Field>)
    ensures r.Some? ==> Alias(r.value) == column
    ensures r.None? ==> forall f: Field :: Alias(f) != column
  {
    if column == "Complaint ID" then Some(ComplaintId)
    else if column == "Date received" then Some(DateReceived)
    else if column == "Product" then Some(Product)
    else if column == "Sub-product" then Some(SubProduct)
    else if column == "Issue" then Some(Issue)
    else if column == "Consumer complaint narrative" then Some(ConsumerComplaintNarrative)
    else if column == "Company response to consumer" then Some(CompanyResponseToConsumer)
    else if column == "Timely response?" then Some(TimelyResponse)
    else if column == "Consumer disputed?" then Some(ConsumerDisputed)
    else if column == "Company" then Some(Company)
    else if column == "State" then Some(State)
    else if column == "Submitted via" then Some(SubmittedVia)
    else None
  }

  /** The field a name belongs to, if any. */
  function FieldByName(column: string): Option<Field> {
    if column == "Complaint_ID" then Some(ComplaintId)
    else if column == "Date_received" then Some(DateReceived)
    else if column == "Product" then Some(Product)
    else if column == "Sub_product" then Some(SubProduct)
    else if column == "Issue" then Some(Issue)
    else if column == "Consumer_complaint_narrative" then Some(ConsumerComplaintNarrative)
    else if column == "Company_response_to_consumer" then Some(CompanyResponseToConsumer)
    else if column == "Timely_response" then Some(TimelyResponse)
    else if column == "Consumer_disputed" then Some(ConsumerDisputed)
    else if column == "Company" then Some(Company)
    else if column == "State" then Some(State)
    else if column == "Submitted_via" then Some(SubmittedVia)
    else None
  }

  /** A field's name leads back to the field (checked six fields at a time). */
  lemma NameKey(f: Field)
    ensures FieldByName(Name(f)) == Some(f)
  {
    match f
    case ComplaintId | DateReceived | Product | SubProduct | Issue | ConsumerComplaintNarrative =>
      NameKeyEarly(f);
    case CompanyResponseToConsumer | TimelyResponse | ConsumerDisputed | Company | State | SubmittedVia =>
      NameKeyLate(f);
  }

  lemma NameKeyEarly(f: Field)
    requires f.ComplaintId? || f.DateReceived? || f.Product? || f.SubProduct? || f.Issue? || f.ConsumerComplaintNarrative?
    ensures FieldByName(Name(f)) == Some(f)
  {
    match f
    case ComplaintId =>
    case DateReceived =>
    case Product =>
    case SubProduct =>
    case Issue =>
    case ConsumerComplaintNarrative =>
  }

  lemma NameKeyLate(f: Field)
    requires f.CompanyResponseToConsumer? || f.TimelyResponse? || f.ConsumerDisputed? || f.Company? || f.State? || f.SubmittedVia?
    ensures FieldByName(Name(f)) == Some(f)
  {
    match f
    case CompanyResponseToConsumer =>
    case TimelyResponse =>
    case ConsumerDisputed =>
    case Company =>
    case State =>
    case SubmittedVia =>
  }

  /** A field's alias leads back to the field (checked six fields at a time). */
  lemma AliasKey(f: Field)
    ensures FieldByAlias(Alias(f)) == Some(f)
  {
    match f
    case ComplaintId | DateReceived | Product | SubProduct | Issue | ConsumerComplaintNarrative =>
      AliasKeyEarly(f);
    case CompanyResponseToConsumer | TimelyResponse | ConsumerDisputed | Company | State | SubmittedVia =>
      AliasKeyLate(f);
  }

  lemma AliasKeyEarly(f: Field)
    requires f.ComplaintId? || f.DateReceived? || f.Product? || f.SubProduct? || f.Issue? || f.ConsumerComplaintNarrative?
    ensures FieldByAlias(Alias(f)) == Some(f)
  {
    match f
    case ComplaintId =>
    case DateReceived =>
    case Product =>
    case SubProduct =>
    case Issue =>
    case ConsumerComplaintNarrative =>
  }

  lemma AliasKeyLate(f: Field)
    requires f.CompanyResponseToConsumer? || f.TimelyResponse? || f.ConsumerDisputed? || f.Company? || f.State? || f.SubmittedVia?
    ensures FieldByAlias(Alias(f)) == Some(f)
  {
    match f
    case CompanyResponseToConsumer =>
    case TimelyResponse =>
    case ConsumerDisputed =>
    case Company =>
    case State =>
    case SubmittedVia =>
  }

  /** A field's name is the alias of that field or of none (checked three fields at a time). */
  lemma NameAsAlias(f: Field)
    ensures FieldByAlias(Name(f)) == Some(f) || FieldByAlias(Name(f)).None?
  {
    match f
    case ComplaintId | DateReceived | Product =>
      NameAsAliasGroup1(f);
    case SubProduct | Issue | ConsumerComplaintNarrative =>
      NameAsAliasGroup2(f);
    case CompanyResponseToConsumer | TimelyResponse | ConsumerDisputed =>
      NameAsAliasGroup3(f);
    case Company | State | SubmittedVia =>
      NameAsAliasGroup4(f);
  }

  lemma NameAsAliasGroup1(f: Field)
    requires f.ComplaintId? || f.DateReceived? || f.Product?
    ensures FieldByAlias(Name(f)) == Some(f) || FieldByAlias(Name(f)).None?
  {
    match f
    case ComplaintId =>
    case DateReceived =>
    case Product =>
  }

  lemma NameAsAliasGroup2(f: Field)
    requires f.SubProduct? || f.Issue? || f.ConsumerComplaintNarrative?
    ensures FieldByAlias(Name(f)) == Some(f) || FieldByAlias(Name(f)).None?
  {
    match f
    case SubProduct =>
    case Issue =>
    case ConsumerComplaintNarrative =>
  }

  lemma NameAsAliasGroup3(f: Field)
    requires f.CompanyResponseToConsumer? || f.TimelyResponse? || f.ConsumerDisputed?
    ensures FieldByAlias(Name(f)) == Some(f) || FieldByAlias(Name(f)).None?
  {
    match f
    case CompanyResponseToConsumer =>
    case TimelyResponse =>
    case ConsumerDisputed =>
  }

  lemma NameAsAliasGroup4(f: Field)
    requires f.Company? || f.State? || f.SubmittedVia?
    ensures FieldByAlias(Name(f)) == Some(f) || FieldByAlias(Name(f)).None?
  {
    match f
    case Company =>
    case State =>
    case SubmittedVia =>
  }

  /** Another field's name and alias differ from this field's name and alias. */
  lemma OtherFieldKeys(f: Field, g: Field)
    requires g != f
    ensures Alias(g) != Alias(f) && Alias(g) != Name(f) && Name(g) != Alias(f) && Name(g) != Name(f)
  {
    NameKey(f);
    NameKey(g);
    AliasKey(f);
    AliasKey(g);
    NameAsAlias(f);
    NameAsAlias(g);
  }

  /** No two fields share a name or an alias, and a name is only ever the alias of its own field. */
  lemma NamesAndAliasesDistinct()
    ensures forall f: Field, g: Field :: Name(f) == Name(g) ==> f == g
    ensures forall f: Field, g: Field :: Alias(f) == Alias(g) ==> f == g
    ensures forall f: Field, g: Field :: Name(f) == Alias(g) ==> f == g
  {
    forall f: Field, g: Field | f != g
      ensures Name(f) != Name(g) && Alias(f) != Alias(g) && Name(f) != Alias(g)
    {
      OtherFieldKeys(f, g);
    }
  }

  /** What the validator finds for a field: nothing, or the cell under its alias or, failing that, its name. */
  datatype Found = Absent | Present(cell: Cell)

  function Lookup(row: Row, f: Field): (found: Found)
    ensures found.Absent? <==> Alias(f) !in row && Name(f) !in row
    ensures Alias(f) in row ==> found == Present(row[Alias(f)])
    ensures Alias(f) !in row && Name(f) in row ==> found == Present(row[Name(f)])
  {
    if Alias(f) in row then Present(row[Alias(f)])
    else if Name(f) in row then Present(row[Name(f)])
    else Absent
  }

  /** Why one field of a row was rejected. */
  datatype FieldError =
    | FieldRequired(field: Field)
    | NotAnInteger(field: Field, text: string)
    | NotADatetime(field: Field, text: string)
    | NotAChoice(field: Field, text: string)
    | NotBinary(value: int)

  /** A row that passed validation, under the raw schema's field names. */
  datatype RawRecord = RawRecord(
    complaintId: int,
    dateReceived: Timestamp,
    product: string,
    subProduct: Option<string>,
    issue: string,
    consumerComplaintNarrative: string,
    companyResponseToConsumer: string,
    timelyResponse: string,
    consumerDisputed: Option<string>,
    company: string,
    state: Option<string>,
    submittedVia: string)

  /** A required `str` field: a missing field is an error, a NaN cell reads as "nan". */
  function RequiredText(row: Row, f: Field): Result<string, FieldError> {
    match Lookup(row, f)
    case Absent => Failure(FieldRequired(f))
    case Present(c) => Success(StrOf(c))
  }

  /** An `Optional[str]` field: a missing field gives None, a NaN cell reads as "nan". */
  function OptionalText(row: Row, f: Field): Option<string> {
    match Lookup(row, f)
    case Absent => None
    case Present(c) => Some(StrOf(c))
  }

  /** A required `int` field: the coercion refuses NaN. */
  function RequiredInt(row: Row, f: Field, coerce: Coercions): Result<int, FieldError> {
    match Lookup(row, f)
    case Absent => Failure(FieldRequired(f))
    case Present(NaN) => Failure(NotAnInteger(f, "nan"))
    case Present(Text(s)) =>
      match coerce.toInt(s)
      case Some(n) => Success(n)
      case None => Failure(NotAnInteger(f, s))
  }

  /** A required `datetime` field: the coercion refuses NaN. */
  function RequiredDatetime(row: Row, f: Field, coerce: Coercions): Result<Timestamp, FieldError> {
    match Lookup(row, f)
    case Absent => Failure(FieldRequired(f))
    case Present(NaN) => Failure(NotADatetime(f, "nan"))
    case Present(Text(s)) =>
      match coerce.toDatetime(s)
      case Some(t) => Success(t)
      case None => Failure(NotADatetime(f, s))
  }

  /** The validator of `Timely_response`: the value must be one of the two choices, and is kept as it is. */
  function CheckTimelyResponse(value: string): (r: Result<string, FieldError>)
    ensures r.Success? <==> value == "Yes" || value == "No"
    ensures r.Success? ==> r.value == value
    ensures r.Failure? ==> r.error == NotAChoice(TimelyResponse, value)
  {
    if value !in TimelyResponseChoices then Failure(NotAChoice(TimelyResponse, value)) else Success(value)
  }

  /** The validator of `Consumer_disputed`: None passes, any other value must be one of the three choices. */
  function CheckConsumerDisputed(value: Option<string>): (r: Result<Option<string>, FieldError>)
    ensures r.Success? <==> value == None || value == Some("Yes") || value == Some("No") || value == Some("N/A")
    ensures r.Success? ==> r.value == value
    ensures r.Failure? ==> r.error == NotAChoice(ConsumerDisputed, value.value)
  {
    if value.Some? && value.value !in ConsumerDisputedChoices then Failure(NotAChoice(ConsumerDisputed, value.value))
    else Success(value)
  }

  /** The validator of the gold record's `escalation_risk`: it must be 0 or 1. */
  function CheckEscalationRisk(value: int): (r: Result<int, FieldError>)
    ensures r.Success? <==> value == 0 || value == 1
    ensures r.Success? ==> r.value == value
  {
    if value !in [0, 1] then Failure(NotBinary(value)) else Success(value)
  }

  function ErrorsOf<T>(r: Result<T, FieldError>): seq<FieldError> {
    if r.Success? then [] else [r.error]
  }

  function TimelyField(row: Row): Result<string, FieldError> {
    match RequiredText(row, TimelyResponse)
    case Failure(e) => Failure(e)
    case Success(s) => CheckTimelyResponse(s)
  }

  function DisputedField(row: Row): Result<Option<string>, FieldError> {
    CheckConsumerDisputed(OptionalText(row, ConsumerDisputed))
  }

  /** Every field error of a row, in the order the fields are declared. */
  function Errors(row: Row, coerce: Coercions): seq<FieldError> {
    ErrorsOf(RequiredInt(row, ComplaintId, coerce))
    + ErrorsOf(RequiredDatetime(row, DateReceived, coerce))
    + ErrorsOf(RequiredText(row, Product))
    + ErrorsOf(RequiredText(row, Issue))
    + ErrorsOf(RequiredText(row, ConsumerComplaintNarrative))
    + ErrorsOf(RequiredText(row, CompanyResponseToConsumer))
    + ErrorsOf(TimelyField(row))
    + ErrorsOf(DisputedField(row))
    + ErrorsOf(RequiredText(row, Company))
    + ErrorsOf(RequiredText(row, SubmittedVia))
  }

  /** The row supplies the field, under its alias or its name. */
  ghost predicate Has(row: Row, f: Field) {
    Lookup(row, f).Present?
  }

  /** The row supplies the field with text, not NaN. */
  ghost predicate HasText(row: Row, f: Field) {
    Has(row, f) && Lookup(row, f).cell.Text?
  }

  /** The text a supplied field reads as. */
  function ValueOf(row: Row, f: Field): string
    requires Has(row, f)
  {
    StrOf(Lookup(row, f).cell)
  }

  /**
   * The raw schema stated field by field: every required field supplied, the
   * id and the date as text that coerces, `Timely_response` one of its
   * choices, and `Consumer_disputed` missing or one of its choices.
   */
  ghost predicate Conforms(row: Row, coerce: Coercions) {
    && HasText(row, ComplaintId) && coerce.toInt(ValueOf(row, ComplaintId)).Some?
    && HasText(row, DateReceived) && coerce.toDatetime(ValueOf(row, DateReceived)).Some?
    && Has(row, Product)
    && Has(row, Issue)
    && Has(row, ConsumerComplaintNarrative)
    && Has(row, CompanyResponseToConsumer)
    && Has(row, TimelyResponse) && ValueOf(row, TimelyResponse) in TimelyResponseChoices
    && (Has(row, ConsumerDisputed) ==> ValueOf(row, ConsumerDisputed) in ConsumerDisputedChoices)
    && Has(row, Company)
    && Has(row, SubmittedVia)
  }

  /** Validation of one raw row: the record when every field passes, otherwise every field error, in field order. */
  function Validate(row: Row, coerce: Coercions): (r: Result<RawRecord, seq<FieldError>>)
    ensures r.Failure? ==> r.error != []
    ensures r.Success? ==> r.value.timelyResponse in TimelyResponseChoices
    ensures r.Success? ==> r.value.consumerDisputed.None? || r.value.consumerDisputed.value in ConsumerDisputedChoices
  {
    var errors := Errors(row, coerce);
    if errors != [] then Failure(errors)
    else
      Success(RawRecord(
        RequiredInt(row, ComplaintId, coerce).value,
        RequiredDatetime(row, DateReceived, coerce).value,
        RequiredText(row, Product).value,
        OptionalText(row, SubProduct),
        RequiredText(row, Issue).value,
        RequiredText(row, ConsumerComplaintNarrative).value,
        RequiredText(row, CompanyResponseToConsumer).value,
        TimelyField(row).value,
        DisputedField(row).value,
        RequiredText(row, Company).value,
        OptionalText(row, State),
        RequiredText(row, SubmittedVia).value))
  }

  /**
   * A row is accepted exactly when it conforms to the schema; a rejected row
   * carries at least one error, and an accepted record holds exactly the
   * values the row supplies (a NaN cell read as "nan"), with optional fields
   * the row does not supply as None.
   */
  lemma ValidateMeaning(row: Row, coerce: Coercions)
    ensures Validate(row, coerce).Success? <==> Conforms(row, coerce)
    ensures Validate(row, coerce).Failure? ==> |Validate(row, coerce).error| > 0
    ensures Validate(row, coerce).Success? ==>
      && Some(Validate(row, coerce).value.complaintId) == coerce.toInt(ValueOf(row, ComplaintId))
      && Some(Validate(row, coerce).value.dateReceived) == coerce.toDatetime(ValueOf(row, DateReceived))
      && Validate(row, coerce).value.product == ValueOf(row, Product)
      && Validate(row, coerce).value.subProduct == (if Has(row, SubProduct) then Some(ValueOf(row, SubProduct)) else None)
      && Validate(row, coerce).value.issue == ValueOf(row, Issue)
      && Validate(row, coerce).value.consumerComplaintNarrative == ValueOf(row, ConsumerComplaintNarrative)
      && Validate(row, coerce).value.companyResponseToConsumer == ValueOf(row, CompanyResponseToConsumer)
      && Validate(row, coerce).value.timelyResponse == ValueOf(row, TimelyResponse)
      && Validate(row, coerce).value.consumerDisputed == (if Has(row, ConsumerDisputed) then Some(ValueOf(row, ConsumerDisputed)) else None)
      && Validate(row, coerce).value.company == ValueOf(row, Company)
      && Validate(row, coerce).value.state == (if Has(row, State) then Some(ValueOf(row, State)) else None)
      && Validate(row, coerce).value.submittedVia == ValueOf(row, SubmittedVia)
  {
  }

  /** A `Timely_response` outside its two choices rejects the row, and the error names the value. */
  lemma TimelyOutsideChoicesRejected(row: Row, coerce: Coercions)
    requires Has(row, TimelyResponse) && ValueOf(row, TimelyResponse) !in TimelyResponseChoices
    ensures Validate(row, coerce).Failure?
    ensures NotAChoice(TimelyResponse, ValueOf(row, TimelyResponse)) in Validate(row, coerce).error
  {
    assert NotAChoice(TimelyResponse, ValueOf(row, TimelyResponse)) in ErrorsOf(TimelyField(row));
  }

  /** A present `Consumer_disputed` outside its three choices rejects the row, and the error names the value. */
  lemma DisputedOutsideChoicesRejected(row: Row, coerce: Coercions)
    requires Has(row, ConsumerDisputed) && ValueOf(row, ConsumerDisputed) !in ConsumerDisputedChoices
    ensures Validate(row, coerce).Failure?
    ensures NotAChoice(ConsumerDisputed, ValueOf(row, ConsumerDisputed)) in Validate(row, coerce).error
  {
    assert NotAChoice(ConsumerDisputed, ValueOf(row, ConsumerDisputed)) in ErrorsOf(DisputedField(row));
  }

  /** Every field that is not optional is required: a row lacking one is rejected with `FieldRequired`. */
  lemma MissingRequiredFieldRejected(row: Row, f: Field, coerce: Coercions)
    requires !IsOptional(f) && Lookup(row, f) == Absent
    ensures Validate(row, coerce).Failure?
    ensures FieldRequired(f) in Validate(row, coerce).error
  {
    var e := Errors(row, coerce);
    match f
    case ComplaintId => assert e[0] == FieldRequired(f);
    case DateReceived =>
      assert ErrorsOf(RequiredDatetime(row, DateReceived, coerce)) == [FieldRequired(f)];
    case Product => assert ErrorsOf(RequiredText(row, f)) == [FieldRequired(f)];
    case Issue => assert ErrorsOf(RequiredText(row, f)) == [FieldRequired(f)];
    case ConsumerComplaintNarrative => assert ErrorsOf(RequiredText(row, f)) == [FieldRequired(f)];
    case CompanyResponseToConsumer => assert ErrorsOf(RequiredText(row, f)) == [FieldRequired(f)];
    case TimelyResponse => assert ErrorsOf(TimelyField(row)) == [FieldRequired(f)];
    case Company => assert ErrorsOf(RequiredText(row, f)) == [FieldRequired(f)];
    case SubmittedVia => assert e[|e| - 1] == FieldRequired(f);
  }

  /** The three optional fields may be missing from an accepted row (their column absent); they then come out as None. */
  lemma MissingOptionalFieldsAreNone(row: Row, coerce: Coercions)
    requires Validate(row, coerce).Success?
    ensures Lookup(row, SubProduct) == Absent ==> Validate(row, coerce).value.subProduct == None
    ensures Lookup(row, ConsumerDisputed) == Absent ==> Validate(row, coerce).value.consumerDisputed == None
    ensures Lookup(row, State) == Absent ==> Validate(row, coerce).value.state == None
  {
    ValidateMeaning(row, coerce);
  }

  /**
   * A NaN cell is not a missing field. Under the id or the date the coercion
   * refuses it; under `Timely_response` or `Consumer_disputed` it reads as
   * "nan", which no choice matches. Either way the row is rejected.
   */
  lemma NanRejectedByTypedAndChoiceFields(row: Row, f: Field, coerce: Coercions)
    requires Lookup(row, f) == Present(NaN)
    requires f == ComplaintId || f == DateReceived || f == TimelyResponse || f == ConsumerDisputed
    ensures Validate(row, coerce).Failure?
    ensures f == ComplaintId ==> NotAnInteger(f, "nan") in Validate(row, coerce).error
    ensures f == DateReceived ==> NotADatetime(f, "nan") in Validate(row, coerce).error
    ensures f == TimelyResponse || f == ConsumerDisputed ==> NotAChoice(f, "nan") in Validate(row, coerce).error
  {
    var e := Errors(row, coerce);
    match f
    case ComplaintId => assert e[0] == NotAnInteger(f, "nan");
    case DateReceived => assert ErrorsOf(RequiredDatetime(row, DateReceived, coerce)) == [NotADatetime(f, "nan")];
    case TimelyResponse => assert ErrorsOf(TimelyField(row)) == [NotAChoice(f, "nan")];
    case ConsumerDisputed => assert ErrorsOf(DisputedField(row)) == [NotAChoice(f, "nan")];
  }

  /** In every other field a NaN cell passes validation, as the text "nan". */
  lemma NanReadsAsText(row: Row, coerce: Coercions)
    requires Validate(row, coerce).Success?
    ensures var r := Validate(row, coerce).value;
      && (Lookup(row, Product) == Present(NaN) ==> r.product == "nan")
      && (Lookup(row, SubProduct) == Present(NaN) ==> r.subProduct == Some("nan"))
      && (Lookup(row, Issue) == Present(NaN) ==> r.issue == "nan")
      && (Lookup(row, ConsumerComplaintNarrative) == Present(NaN) ==> r.consumerComplaintNarrative == "nan")
      && (Lookup(row, CompanyResponseToConsumer) == Present(NaN) ==> r.companyResponseToConsumer == "nan")
      && (Lookup(row, Company) == Present(NaN) ==> r.company == "nan")
      && (Lookup(row, State) == Present(NaN) ==> r.state == Some("nan"))
      && (Lookup(row, SubmittedVia) == Present(NaN) ==> r.submittedVia == "nan")
  {
    ValidateMeaning(row, coerce);
  }

  /** Each field's parse depends on the row only through that field's `Lookup`. */
  lemma SameLookupSameField(r1: Row, r2: Row, f: Field, coerce: Coercions)
    requires Lookup(r1, f) == Lookup(r2, f)
    ensures RequiredText(r1, f) == RequiredText(r2, f) && OptionalText(r1, f) == OptionalText(r2, f)
    ensures RequiredInt(r1, f, coerce) == RequiredInt(r2, f, coerce)
    ensures RequiredDatetime(r1, f, coerce) == RequiredDatetime(r2, f, coerce)
  {
  }

  /** Validation sees a row only through `Lookup`: rows that agree on every field validate alike. */
  lemma SameLookupsSameValidation(r1: Row, r2: Row, coerce: Coercions)
    requires forall g: Field :: Lookup(r1, g) == Lookup(r2, g)
    ensures Validate(r1, coerce) == Validate(r2, coerce)
  {
    SameLookupSameField(r1, r2, ComplaintId, coerce);
    SameLookupSameField(r1, r2, DateReceived, coerce);
    SameLookupSameField(r1, r2, Product, coerce);
    SameLookupSameField(r1, r2, SubProduct, coerce);
    SameLookupSameField(r1, r2, Issue, coerce);
    SameLookupSameField(r1, r2, ConsumerComplaintNarrative, coerce);
    SameLookupSameField(r1, r2, CompanyResponseToConsumer, coerce);
    SameLookupSameField(r1, r2, TimelyResponse, coerce);
    SameLookupSameField(r1, r2, ConsumerDisputed, coerce);
    SameLookupSameField(r1, r2, Company, coerce);
    SameLookupSameField(r1, r2, State, coerce);
    SameLookupSameField(r1, r2, SubmittedVia, coerce);
    assert TimelyField(r1) == TimelyField(r2) && DisputedField(r1) == DisputedField(r2);
    assert Errors(r1, coerce) == Errors(r2, coerce);
  }

  /** A field may be supplied under its alias or under its own name: validation does not tell them apart. */
  lemma AliasOrNameAlike(row: Row, f: Field, c: Cell, coerce: Coercions)
    requires Alias(f) !in row && Name(f) !in row
    ensures Validate(row[Alias(f) := c], coerce) == Validate(row[Name(f) := c], coerce)
  {
    AliasOrNameSameLookups(row, f, c, row[Alias(f) := c], row[Name(f) := c]);
    SameLookupsSameValidation(row[Alias(f) := c], row[Name(f) := c], coerce);
  }

  /** Adding a cell under a field's alias or under its name gives the same lookup for every field. */
  lemma AliasOrNameSameLookups(row: Row, f: Field, c: Cell, byAlias: Row, byName: Row)
    requires Alias(f) !in row && Name(f) !in row
    requires byAlias == row[Alias(f) := c] && byName == row[Name(f) := c]
    ensures forall g: Field :: Lookup(byAlias, g) == Lookup(byName, g)
  {
    forall g: Field ensures Lookup(byAlias, g) == Lookup(byName, g) {
      if g != f {
        OtherFieldKeys(f, g);
        UpdateElsewhere(row, Alias(f), c, Alias(g), Name(g));
        UpdateElsewhere(row, Name(f), c, Alias(g), Name(g));
      }
    }
  }

  /** A cell added under a key that is neither of two others leaves the lookup by those two unchanged. */
  lemma UpdateElsewhere(row: Row, key: string, c: Cell, alias: string, name: string)
    requires key != alias && key != name
    ensures (alias in row[key := c]) == (alias in row) && (name in row[key := c]) == (name in row)
    ensures alias in row ==> row[key := c][alias] == row[alias]
    ensures name in row ==> row[key := c][name] == row[name]
  {
  }
}
