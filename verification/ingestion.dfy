/**
 * The bronze-to-silver ingestion stage: validation of one chunk (drop rows
 * without a narrative, rename the columns to field names, validate row by row
 * and re-key each accepted record to the twelve silver columns), and the run
 * that appends every validated chunk, in source order, to one Parquet writer
 * whose schema is fixed by the first chunk.
 */
module Ingestion {
  import opened Wrappers
  import opened Entities

  /** The raw column whose missing values are dropped before validation. */
  const NarrativeColumn: string := "Consumer complaint narrative"

  /** pandas' default missing-value markers: `read_csv` reads a field spelled as one of them as NaN. */
  const DefaultNaValues: set<string> := {
    "", "#N/A", "#N/A N/A", "#NA", "-1.#IND", "-1.#QNAN", "-NaN", "-nan", "1.#IND", "1.#QNAN",
    "<NA>", "N/A", "NA", "NULL", "NaN", "None", "n/a", "nan", "null"}

  /** The cell `read_csv` makes of one CSV field under its default missing-value handling. */
  function ReadCell(field: string): (c: Cell)
    ensures c.NaN? <==> field in DefaultNaValues
    ensures c.Text? ==> c.text == field
  {
    if field in DefaultNaValues then NaN else Text(field)
  }

  /**
   * "N/A" is one of the `Consumer disputed?` choices, but also one of pandas'
   * missing-value markers: a CSV field spelled so reaches validation as NaN,
   * reads as "nan", and the row is rejected.
   */
  lemma DisputedNaMarkerRejected(row: Row, coerce: Coercions)
    requires Lookup(row, ConsumerDisputed) == Present(ReadCell("N/A"))
    ensures "N/A" in ConsumerDisputedChoices
    ensures Validate(row, coerce).Failure?
    ensures NotAChoice(ConsumerDisputed, "nan") in Validate(row, coerce).error
  {
    NanRejectedByTypedAndChoiceFields(row, ConsumerDisputed, coerce);
  }

  /** A chunk as the CSV reader yields it: a header and rows of cells. */
  datatype ChunkData = ChunkData(columns: seq<string>, rows: seq<seq<Cell>>)

  ghost predicate Rectangular(columns: seq<string>, rows: seq<seq<Cell>>) {
    forall k :: 0 <= k < |rows| ==> |rows[k]| == |columns|
  }

  /** The first position of `column` in `columns`. */
  function IndexOf(columns: seq<string>, column: string): (k: nat)
    requires column in columns
    ensures k < |columns| && columns[k] == column
    ensures forall j :: 0 <= j < k ==> columns[j] != column
  {
    if columns[0] == column then 0 else 1 + IndexOf(columns[1..], column)
  }

  /** The rows whose cell at position `k` holds a value, in their original order. */
  function WithValueAt(rows: seq<seq<Cell>>, k: nat): (kept: seq<seq<Cell>>)
    requires forall j :: 0 <= j < |rows| ==> k < |rows[j]|
    ensures |kept| <= |rows|
    ensures forall j :: 0 <= j < |kept| ==> kept[j] in rows
  {
    if rows == [] then []
    else (if rows[0][k].NaN? then [] else [rows[0]]) + WithValueAt(rows[1..], k)
  }

  /** The column name `rename(columns=column_map)` gives: a field alias becomes the field's name. */
  function RenameColumn(column: string): (renamed: string)
    ensures forall f: Field :: column == Alias(f) ==> renamed == Name(f)
    ensures (forall f: Field :: column != Alias(f)) ==> renamed == column
  {
    NamesAndAliasesDistinct();
    match FieldByAlias(column)
    case Some(f) => Name(f)
    case None => column
  }

  function RenamedColumns(columns: seq<string>): (r: seq<string>)
    ensures |r| == |columns|
    ensures forall k :: 0 <= k < |columns| ==> r[k] == RenameColumn(columns[k])
  {
    seq(|columns|, k requires 0 <= k < |columns| => RenameColumn(columns[k]))
  }

  /** `row.to_dict()`: each column maps to its cell, a later duplicate column winning. */
  function RowDict(columns: seq<string>, cells: seq<Cell>): (d: Row)
    requires |columns| == |cells|
    ensures forall c :: c in d <==> c in columns
  {
    if columns == [] then map[]
    else
      assert columns == columns[..|columns| - 1] + [columns[|columns| - 1]];
      RowDict(columns[..|columns| - 1], cells[..|cells| - 1])[columns[|columns| - 1] := cells[|cells| - 1]]
  }

  /** `row.to_dict()` maps a column to its own cell when no later column repeats it. */
  lemma {:induction false} RowDictCell(columns: seq<string>, cells: seq<Cell>, k: nat)
    requires |columns| == |cells| && k < |columns|
    requires forall j :: k < j < |columns| ==> columns[j] != columns[k]
    ensures columns[k] in RowDict(columns, cells) && RowDict(columns, cells)[columns[k]] == cells[k]
    decreases |columns|
  {
    if k < |columns| - 1 {
      RowDictCell(columns[..|columns| - 1], cells[..|cells| - 1], k);
    }
  }

  /** A silver record, with the twelve column names of the validated schema. */
  datatype SilverRecord = SilverRecord(
    complaintId: int,
    dateReceived: Timestamp,
    product: string,
    subProduct: Option<string>,
    issue: string,
    narrative: string,
    companyResponse: string,
    timelyResponse: string,
    consumerDisputed: Option<string>,
    company: string,
    state: Option<string>,
    submittedVia: string)

  /** The re-keying of an accepted record into the silver columns. */
  function ToSilver(r: RawRecord): (s: SilverRecord)
    ensures FromSilver(s) == r
  {
    SilverRecord(r.complaintId, r.dateReceived, r.product, r.subProduct, r.issue,
                 r.consumerComplaintNarrative, r.companyResponseToConsumer, r.timelyResponse,
                 r.consumerDisputed, r.company, r.state, r.submittedVia)
  }

  /** The re-keying read backwards. */
  function FromSilver(s: SilverRecord): RawRecord {
    RawRecord(s.complaintId, s.dateReceived, s.product, s.subProduct, s.issue,
              s.narrative, s.companyResponse, s.timelyResponse,
              s.consumerDisputed, s.company, s.state, s.submittedVia)
  }

  /** The re-keying loses nothing: every field of the accepted record reaches the silver record. */
  lemma ReKeyingIsLossless(r: RawRecord)
    ensures FromSilver(ToSilver(r)) == r
    ensures var s := ToSilver(r);
      && s.complaintId == r.complaintId && s.dateReceived == r.dateReceived
      && s.product == r.product && s.subProduct == r.subProduct && s.issue == r.issue
      && s.narrative == r.consumerComplaintNarrative && s.companyResponse == r.companyResponseToConsumer
      && s.timelyResponse == r.timelyResponse && s.consumerDisputed == r.consumerDisputed
      && s.company == r.company && s.state == r.state && s.submittedVia == r.submittedVia
  {
  }

  /** The silver records of the rows that validate, in row order. */
  function Accepted(columns: seq<string>, rows: seq<seq<Cell>>, coerce: Coercions): seq<SilverRecord>
    requires Rectangular(columns, rows)
  {
    if rows == [] then []
    else
      var last := rows[|rows| - 1];
      Accepted(columns, rows[..|rows| - 1], coerce)
      + match Validate(RowDict(columns, last), coerce)
        case Success(raw) => [ToSilver(raw)]
        case Failure(_) => []
  }

  /** How many rows fail validation. */
  function Rejected(columns: seq<string>, rows: seq<seq<Cell>>, coerce: Coercions): nat
    requires Rectangular(columns, rows)
  {
    if rows == [] then 0
    else
      Rejected(columns, rows[..|rows| - 1], coerce)
      + if Validate(RowDict(columns, rows[|rows| - 1]), coerce).Failure? then 1 else 0
  }

  /** What validating a chunk yields: the silver records and the two drop counts. */
  datatype ChunkOutcome = ChunkOutcome(records: seq<SilverRecord>, missingNarrative: nat, invalid: nat)

  /** The reason a chunk cannot be validated: `dropna` names a column the chunk lacks. */
  datatype ChunkError = KeyError(column: string)

  /** `validate_chunk` as a function of the chunk it is given. */
  function ValidateFrame(chunk: ChunkData, coerce: Coercions): (r: Result<ChunkOutcome, ChunkError>)
    requires Rectangular(chunk.columns, chunk.rows)
    ensures r.Failure? <==> NarrativeColumn !in chunk.columns
    ensures r.Failure? ==> r.error == KeyError(NarrativeColumn)
    ensures r.Success? ==> |r.value.records| + r.value.missingNarrative + r.value.invalid == |chunk.rows|
  {
    if NarrativeColumn !in chunk.columns then Failure(KeyError(NarrativeColumn))
    else
      var kept := WithValueAt(chunk.rows, IndexOf(chunk.columns, NarrativeColumn));
      var columns := RenamedColumns(chunk.columns);
      AcceptedPlusRejected(columns, kept, coerce);
      Success(ChunkOutcome(Accepted(columns, kept, coerce), |chunk.rows| - |kept|, Rejected(columns, kept, coerce)))
  }

  /** A pandas DataFrame chunk, which `validate_chunk` changes in place. */
  class Frame {
    var columns: seq<string>
    var rows: seq<seq<Cell>>

    ghost predicate Valid()
      reads this
    {
      Rectangular(columns, rows)
    }

    constructor (columns: seq<string>, rows: seq<seq<Cell>>)
      requires Rectangular(columns, rows)
      ensures Valid() && this.columns == columns && this.rows == rows
    {
      this.columns := columns;
      this.rows := rows;
    }

    /** `dropna(subset=[column], inplace=True)`; false when the column is missing (pandas raises KeyError). */
    method DropMissing(column: string) returns (found: bool)
      requires Valid()
      modifies this
      ensures Valid() && columns == old(columns)
      ensures found <==> column in columns
      ensures found ==> rows == WithValueAt(old(rows), IndexOf(columns, column))
      ensures !found ==> rows == old(rows)
    {
      found := column in columns;
      if found {
        rows := WithValueAt(rows, IndexOf(columns, column));
      }
    }

    /** `rename(columns=column_map, inplace=True)` with the alias-to-name map of the raw schema. */
    method RenameColumns()
      requires Valid()
      modifies this
      ensures Valid() && rows == old(rows)
      ensures columns == RenamedColumns(old(columns))
    {
      columns := RenamedColumns(columns);
    }
  }

  /**
   * `validate_chunk`: drop the rows without a narrative, rename the columns,
   * then validate the rows one by one, keeping the accepted records in order
   * and counting the rejected ones.
   */
  method ValidateChunk(chunk: Frame, coerce: Coercions) returns (r: Result<ChunkOutcome, ChunkError>)
    requires chunk.Valid()
    modifies chunk
    ensures r == ValidateFrame(ChunkData(old(chunk.columns), old(chunk.rows)), coerce)
    ensures chunk.Valid()
    ensures NarrativeColumn in old(chunk.columns) ==>
      && chunk.columns == RenamedColumns(old(chunk.columns))
      && chunk.rows == WithValueAt(old(chunk.rows), IndexOf(old(chunk.columns), NarrativeColumn))
    ensures NarrativeColumn !in old(chunk.columns) ==> chunk.columns == old(chunk.columns) && chunk.rows == old(chunk.rows)
  {
    ghost var before := ChunkData(chunk.columns, chunk.rows);
    var initialCount := |chunk.rows|;
    var found := chunk.DropMissing(NarrativeColumn);
    if !found {
      return Failure(KeyError(NarrativeColumn));
    }
    chunk.RenameColumns();
    var validated, invalidCount := ValidateRows(chunk.columns, chunk.rows, coerce);
    r := Success(ChunkOutcome(validated, initialCount - |chunk.rows|, invalidCount));
    ValidateFrameAccepts(before, coerce);
  }

  /** What `ValidateFrame` gives for a chunk that has the narrative column. */
  lemma ValidateFrameAccepts(chunk: ChunkData, coerce: Coercions)
    requires Rectangular(chunk.columns, chunk.rows) && NarrativeColumn in chunk.columns
    ensures var kept := WithValueAt(chunk.rows, IndexOf(chunk.columns, NarrativeColumn));
      var columns := RenamedColumns(chunk.columns);
      var out := ValidateFrame(chunk, coerce);
      && out.Success?
      && out.value.records == Accepted(columns, kept, coerce)
      && out.value.missingNarrative == |chunk.rows| - |kept|
      && out.value.invalid == Rejected(columns, kept, coerce)
  {
  }

  /**
   * The row loop of `validate_chunk`: each row, as a dict keyed by the
   * (renamed) header, is validated; accepted records are re-keyed and kept in
   * row order, rejected rows are counted.
   */
  method ValidateRows(columns: seq<string>, rows: seq<seq<Cell>>, coerce: Coercions)
    returns (validated: seq<SilverRecord>, invalidCount: nat)
    requires Rectangular(columns, rows)
    ensures validated == Accepted(columns, rows, coerce)
    ensures invalidCount == Rejected(columns, rows, coerce)
    ensures |validated| + invalidCount == |rows|
  {
    validated, invalidCount := [], 0;
    var i := 0;
    while i < |rows|
      invariant i <= |rows|
      invariant validated == Accepted(columns, rows[..i], coerce)
      invariant invalidCount == Rejected(columns, rows[..i], coerce)
    {
      AcceptedStep(columns, rows, i, coerce);
      var outcome := Validate(RowDict(columns, rows[i]), coerce);
      if outcome.Success? {
        validated := validated + [ToSilver(outcome.value)];
      } else {
        invalidCount := invalidCount + 1;
      }
      i := i + 1;
    }
    assert rows[..i] == rows;
    AcceptedPlusRejected(columns, rows, coerce);
  }

  /** One more row: the records and the rejection count of a prefix grow by that row's outcome. */
  lemma AcceptedStep(columns: seq<string>, rows: seq<seq<Cell>>, i: nat, coerce: Coercions)
    requires Rectangular(columns, rows) && i < |rows|
    ensures Rectangular(columns, rows[..i]) && Rectangular(columns, rows[..i + 1])
    ensures var outcome := Validate(RowDict(columns, rows[i]), coerce);
      && Accepted(columns, rows[..i + 1], coerce)
         == Accepted(columns, rows[..i], coerce) + (if outcome.Success? then [ToSilver(outcome.value)] else [])
      && Rejected(columns, rows[..i + 1], coerce)
         == Rejected(columns, rows[..i], coerce) + (if outcome.Success? then 0 else 1)
  {
    assert rows[..i + 1][..i] == rows[..i];
    assert rows[..i + 1][i] == rows[i];
  }

  /** How many rows lack a value at position `k`. */
  function MissingAt(rows: seq<seq<Cell>>, k: nat): nat
    requires forall j :: 0 <= j < |rows| ==> k < |rows[j]|
  {
    if rows == [] then 0 else (if rows[0][k].NaN? then 1 else 0) + MissingAt(rows[1..], k)
  }

  /** The narrative filter keeps exactly the rows that hold a narrative, and drops the others. */
  lemma {:induction false} NarrativeFilter(rows: seq<seq<Cell>>, k: nat)
    requires forall j :: 0 <= j < |rows| ==> k < |rows[j]|
    ensures forall j :: 0 <= j < |WithValueAt(rows, k)| ==> WithValueAt(rows, k)[j][k] != NaN
    ensures forall r :: r in rows && r[k] != NaN ==> r in WithValueAt(rows, k)
    ensures |rows| - |WithValueAt(rows, k)| == MissingAt(rows, k)
  {
    if rows != [] {
      NarrativeFilter(rows[1..], k);
      forall r | r in rows && r[k] != NaN ensures r in WithValueAt(rows, k) {
        if r != rows[0] {
          assert r in rows[1..];
        }
      }
    }
  }

  /** Every row left after the filter is either accepted or counted as invalid. */
  lemma {:induction false} AcceptedPlusRejected(columns: seq<string>, rows: seq<seq<Cell>>, coerce: Coercions)
    requires Rectangular(columns, rows)
    ensures |Accepted(columns, rows, coerce)| + Rejected(columns, rows, coerce) == |rows|
  {
    if rows != [] {
      AcceptedPlusRejected(columns, rows[..|rows| - 1], coerce);
    }
  }

  /** Validation is row by row: the records of two runs of rows are the records of each, in order. */
  lemma {:induction false} AcceptedConcat(columns: seq<string>, a: seq<seq<Cell>>, b: seq<seq<Cell>>, coerce: Coercions)
    requires Rectangular(columns, a) && Rectangular(columns, b)
    ensures Rectangular(columns, a + b)
    ensures Accepted(columns, a + b, coerce) == Accepted(columns, a, coerce) + Accepted(columns, b, coerce)
    ensures Rejected(columns, a + b, coerce) == Rejected(columns, a, coerce) + Rejected(columns, b, coerce)
  {
    if b != [] {
      var b' := b[..|b| - 1];
      assert (a + b)[..|a + b| - 1] == a + b';
      AcceptedConcat(columns, a, b', coerce);
    } else {
      assert a + b == a;
    }
  }

  /** One row contributes its silver record when it validates and nothing otherwise. */
  lemma AcceptedOne(columns: seq<string>, row: seq<Cell>, coerce: Coercions)
    requires |row| == |columns|
    ensures Rectangular(columns, [row])
    ensures Accepted(columns, [row], coerce) ==
      match Validate(RowDict(columns, row), coerce)
      case Success(raw) => [ToSilver(raw)]
      case Failure(_) => []
  {
    assert [row][..0] == [];
  }

  /** The narrative filter commutes with splitting the rows. */
  lemma {:induction false} WithValueAtConcat(a: seq<seq<Cell>>, b: seq<seq<Cell>>, k: nat)
    requires forall j :: 0 <= j < |a| ==> k < |a[j]|
    requires forall j :: 0 <= j < |b| ==> k < |b[j]|
    ensures forall j :: 0 <= j < |a + b| ==> k < |(a + b)[j]|
    ensures WithValueAt(a + b, k) == WithValueAt(a, k) + WithValueAt(b, k)
  {
    var ab := a + b;
    forall j | 0 <= j < |ab| ensures k < |ab[j]| {
      if j < |a| {
        assert ab[j] == a[j];
      } else {
        assert ab[j] == b[j - |a|];
      }
    }
    if a == [] {
      assert ab == b;
    } else {
      assert ab[0] == a[0] && ab[1..] == a[1..] + b;
      WithValueAtConcat(a[1..], b, k);
      var head := if a[0][k].NaN? then [] else [a[0]];
      assert WithValueAt(ab, k) == head + WithValueAt(a[1..] + b, k);
      assert WithValueAt(a, k) == head + WithValueAt(a[1..], k);
      assert head + (WithValueAt(a[1..], k) + WithValueAt(b, k)) == head + WithValueAt(a[1..], k) + WithValueAt(b, k);
    }
  }

  /** A raw header: no column is spelled as a field's own name unless that name is also its alias. */
  ghost predicate RawColumn(column: string) {
    forall f: Field :: column == Name(f) ==> Name(f) == Alias(f)
  }

  ghost predicate RawHeader(columns: seq<string>) {
    forall k :: 0 <= k < |columns| ==> RawColumn(columns[k])
  }

  /** Only an alias that is also its field's name can come out of the rename as an alias. */
  lemma RenamedToAlias(c: string, f: Field)
    requires RenameColumn(c) == Alias(f)
    ensures c == Alias(f) && Alias(f) == Name(f)
  {
    NamesAndAliasesDistinct();
    match FieldByAlias(c)
    case Some(g) => assert Name(g) == Alias(f);
    case None =>
  }

  /** A column renamed to a field's name was that field's alias, or already its name and no alias. */
  lemma RenamedToName(c: string, f: Field)
    requires RenameColumn(c) == Name(f)
    ensures c == Alias(f) || (c == Name(f) && FieldByAlias(c).None?)
  {
    NamesAndAliasesDistinct();
    match FieldByAlias(c)
    case Some(g) => assert Name(g) == Name(f);
    case None =>
  }

  /** Adding one raw column to a row dict, and its renamed column to the renamed dict, keeps the two lookups equal. */
  lemma LookupStep(d: Row, d2: Row, c: string, x: Cell, f: Field)
    requires Lookup(d2, f) == Lookup(d, f) && RawColumn(c)
    requires Alias(f) != Name(f) ==> Alias(f) !in d2 && Name(f) !in d
    ensures Lookup(d2[RenameColumn(c) := x], f) == Lookup(d[c := x], f)
  {
    if c == Alias(f) {
      assert RenameColumn(c) == Name(f);
    }
    if RenameColumn(c) == Alias(f) {
      RenamedToAlias(c, f);
    }
    if RenameColumn(c) == Name(f) {
      RenamedToName(c, f);
    }
  }

  /** After the rename no column is an alias that differs from its field's name. */
  lemma RenamedHeaderLacksAlias(columns: seq<string>, f: Field)
    requires Alias(f) != Name(f)
    ensures Alias(f) !in RenamedColumns(columns)
  {
    forall j | 0 <= j < |columns| ensures RenamedColumns(columns)[j] != Alias(f) {
      if RenameColumn(columns[j]) == Alias(f) {
        RenamedToAlias(columns[j], f);
      }
    }
  }

  /** Renaming a raw header to field names does not change what the validator finds for any field. */
  lemma {:induction false} RenameKeepsLookup(columns: seq<string>, cells: seq<Cell>, f: Field)
    requires |columns| == |cells| && RawHeader(columns)
    ensures Lookup(RowDict(RenamedColumns(columns), cells), f) == Lookup(RowDict(columns, cells), f)
  {
    if columns != [] {
      var n := |columns| - 1;
      var prefix, cs := columns[..n], cells[..n];
      assert RenamedColumns(columns)[..n] == RenamedColumns(prefix);
      assert RawHeader(prefix);
      RenameKeepsLookup(prefix, cs, f);
      if Alias(f) != Name(f) {
        RenamedHeaderLacksAlias(prefix, f);
        assert Name(f) !in prefix by {
          forall j | 0 <= j < n ensures prefix[j] != Name(f) {
            assert RawColumn(prefix[j]);
          }
        }
      }
      assert RawColumn(columns[n]);
      LookupStep(RowDict(prefix, cs), RowDict(RenamedColumns(prefix), cs), columns[n], cells[n], f);
    }
  }

  /** Renaming the header before validation is transparent: the same rows are accepted, with the same records. */
  lemma {:induction false} RenameIsTransparent(columns: seq<string>, rows: seq<seq<Cell>>, coerce: Coercions)
    requires Rectangular(columns, rows) && RawHeader(columns)
    ensures Accepted(RenamedColumns(columns), rows, coerce) == Accepted(columns, rows, coerce)
    ensures Rejected(RenamedColumns(columns), rows, coerce) == Rejected(columns, rows, coerce)
  {
    if rows != [] {
      var row := rows[|rows| - 1];
      RenameIsTransparent(columns, rows[..|rows| - 1], coerce);
      forall g: Field
        ensures Lookup(RowDict(RenamedColumns(columns), row), g) == Lookup(RowDict(columns, row), g)
      {
        RenameKeepsLookup(columns, row, g);
      }
      SameLookupsSameValidation(RowDict(RenamedColumns(columns), row), RowDict(columns, row), coerce);
    }
  }

  /**
   * What a chunk with a raw header yields, without the rename: the records of
   * its rows that hold a narrative and validate, in order; the rows without a
   * narrative and the rows that fail validation are counted, and every row is
   * accounted for exactly once.
   */
  lemma ChunkOutcomeRowwise(chunk: ChunkData, coerce: Coercions)
    requires Rectangular(chunk.columns, chunk.rows) && RawHeader(chunk.columns)
    requires NarrativeColumn in chunk.columns
    ensures var k := IndexOf(chunk.columns, NarrativeColumn);
      var kept := WithValueAt(chunk.rows, k);
      var out := ValidateFrame(chunk, coerce);
      && out.Success?
      && out.value.records == Accepted(chunk.columns, kept, coerce)
      && out.value.invalid == Rejected(chunk.columns, kept, coerce)
      && out.value.missingNarrative == MissingAt(chunk.rows, k)
      && |out.value.records| + out.value.invalid + out.value.missingNarrative == |chunk.rows|
  {
    var k := IndexOf(chunk.columns, NarrativeColumn);
    var kept := WithValueAt(chunk.rows, k);
    RenameIsTransparent(chunk.columns, kept, coerce);
    NarrativeFilter(chunk.rows, k);
    AcceptedPlusRejected(chunk.columns, kept, coerce);
  }

  // ----- The Parquet side: schemas, tables, the writer and the file it writes -----

  /** The Arrow type inferred for a silver column. */
  datatype ColumnType = Int64 | TimestampNs | Utf8 | NullType

  type Schema = seq<(string, ColumnType)>

  /** The three optional text columns of a silver record. */
  datatype OptionalColumn = SubProductColumn | ConsumerDisputedColumn | StateColumn

  function OptionalValue(r: SilverRecord, c: OptionalColumn): Option<string> {
    match c
    case SubProductColumn => r.subProduct
    case ConsumerDisputedColumn => r.consumerDisputed
    case StateColumn => r.state
  }

  /** Every value in the optional column is None. */
  predicate AllNone(records: seq<SilverRecord>, c: OptionalColumn) {
    forall k :: 0 <= k < |records| ==> OptionalValue(records[k], c).None?
  }

  /** An optional text column is typed null when every value in it is None, and text otherwise. */
  function OptionalColumnType(records: seq<SilverRecord>, c: OptionalColumn): (t: ColumnType)
    ensures t == NullType <==> AllNone(records, c)
    ensures t != NullType ==> t == Utf8
  {
    if AllNone(records, c) then NullType else Utf8
  }

  /**
   * The schema `pa.Table.from_pandas` gives the frame built from a list of
   * silver records: no columns at all for an empty list, otherwise the twelve
   * silver columns in order.
   */
  function SchemaOf(records: seq<SilverRecord>): (s: Schema)
    ensures records == [] <==> s == []
    ensures records != [] ==> |s| == 12 && s[0] == ("complaint_id", Int64) && s[5] == ("narrative", Utf8)
  {
    if records == [] then []
    else
      [("complaint_id", Int64), ("date_received", TimestampNs), ("product", Utf8),
       ("sub_product", OptionalColumnType(records, SubProductColumn)),
       ("issue", Utf8), ("narrative", Utf8), ("company_response", Utf8), ("timely_response", Utf8),
       ("consumer_disputed", OptionalColumnType(records, ConsumerDisputedColumn)),
       ("company", Utf8),
       ("state", OptionalColumnType(records, StateColumn)),
       ("submitted_via", Utf8)]
  }

  /**
   * Two non-empty lists of records get the same schema exactly when each
   * optional column is all None in both or in neither; that is when a writer
   * opened on one accepts a table of the other.
   */
  lemma SchemaAgreement(a: seq<SilverRecord>, b: seq<SilverRecord>)
    requires a != [] && b != []
    ensures SchemaOf(a) == SchemaOf(b) <==> forall c: OptionalColumn :: AllNone(a, c) == AllNone(b, c)
  {
    if SchemaOf(a) == SchemaOf(b) {
      assert SchemaOf(a)[3] == SchemaOf(b)[3] && SchemaOf(a)[8] == SchemaOf(b)[8] && SchemaOf(a)[10] == SchemaOf(b)[10];
      forall c: OptionalColumn ensures AllNone(a, c) == AllNone(b, c) {
        match c
        case SubProductColumn =>
        case ConsumerDisputedColumn =>
        case StateColumn =>
      }
    }
  }

  /** An Arrow table: a schema and its rows. */
  datatype Table = Table(schema: Schema, rows: seq<SilverRecord>)

  function FromPandas(records: seq<SilverRecord>): Table {
    Table(SchemaOf(records), records)
  }

  /** The silver Parquet file on disk. */
  class SilverFile {
    var onDisk: bool
    var rows: seq<SilverRecord>

    ghost predicate Valid()
      reads this
    {
      !onDisk ==> rows == []
    }

    constructor (onDisk: bool, rows: seq<SilverRecord>)
      requires !onDisk ==> rows == []
      ensures Valid() && this.onDisk == onDisk && this.rows == rows
    {
      this.onDisk := onDisk;
      this.rows := rows;
    }

    /** `os.remove` on the file's path. */
    method Remove()
      requires onDisk
      modifies this
      ensures Valid() && !onDisk
    {
      onDisk := false;
      rows := [];
    }
  }

  /** `pq.ParquetWriter`: a file opened with a fixed schema that tables are appended to. */
  class ParquetWriter {
    const file: SilverFile
    const schema: Schema
    var closeCount: nat

    /** Opening the writer creates (or truncates) the file. */
    constructor (file: SilverFile, schema: Schema)
      modifies file
      ensures this.file == file && this.schema == schema && closeCount == 0
      ensures file.Valid() && file.onDisk && file.rows == []
    {
      this.file := file;
      this.schema := schema;
      closeCount := 0;
      file.onDisk := true;
      file.rows := [];
    }

    /** `write_table`: refused (pyarrow raises ValueError) unless the table has the writer's schema. */
    method WriteTable(t: Table) returns (ok: bool)
      requires closeCount == 0 && file.Valid() && file.onDisk
      modifies file
      ensures ok <==> t.schema == schema
      ensures file.Valid() && file.onDisk
      ensures file.rows == if ok then old(file.rows) + t.rows else old(file.rows)
    {
      ok := t.schema == schema;
      if ok {
        file.rows := file.rows + t.rows;
      }
    }

    /** `close`: finalises the file; the count records how often it happens. */
    method Close()
      modifies this
      ensures closeCount == old(closeCount) + 1
    {
      closeCount := closeCount + 1;
    }
  }

  // ----- The ingestion run -----

  /** One step of the chunked CSV reader: a chunk, or a read that raised. */
  datatype Read = Chunk(data: ChunkData) | ReadFailed

  /** The exception a run ends with. */
  datatype IngestError =
    | ConfigUnreadable
    | SilverPathUnbound
    | ReadError(chunk: nat)
    | ChunkRejected(chunk: nat, cause: ChunkError)
    | SchemaMismatch(chunk: nat)

  ghost predicate WellFormedStream(stream: seq<Read>) {
    forall k :: 0 <= k < |stream| && stream[k].Chunk? ==> Rectangular(stream[k].data.columns, stream[k].data.rows)
  }

  /** What the loop body learns about a chunk before it touches the writer: the read raised, or what `validate_chunk` returned. */
  datatype Fetched = ReadRaised | Validated(result: Result<ChunkOutcome, ChunkError>)

  function Fetch(read: Read, coerce: Coercions): Fetched
    requires read.Chunk? ==> Rectangular(read.data.columns, read.data.rows)
  {
    match read
    case ReadFailed => ReadRaised
    case Chunk(data) => Validated(ValidateFrame(data, coerce))
  }

  /** What the loop learns about every chunk of the stream, in order. */
  function FetchAll(stream: seq<Read>, coerce: Coercions): (fs: seq<Fetched>)
    requires WellFormedStream(stream)
    ensures |fs| == |stream|
    ensures forall k :: 0 <= k < |stream| ==> fs[k] == Fetch(stream[k], coerce)
  {
    seq(|stream|, k requires 0 <= k < |stream| => Fetch(stream[k], coerce))
  }

  /** The loop's state: the writer's schema once there is a writer, the rows in the file, the running total, the exception. */
  datatype Progress = Progress(writerSchema: Option<Schema>, written: seq<SilverRecord>, total: nat, error: Option<IngestError>)

  const Start: Progress := Progress(None, [], 0, None)

  /** One iteration of the chunk loop, given what was fetched for chunk `i`. */
  function Step(p: Progress, i: nat, f: Fetched): (q: Progress)
    requires i > 0 ==> p.writerSchema.Some?
    ensures i > 0 ==> q.writerSchema == p.writerSchema
    ensures f.ReadRaised? ==> q.error == Some(ReadError(i))
    ensures f.Validated? && f.result.Failure? ==> q.error == Some(ChunkRejected(i, f.result.error))
    ensures Validates(f) && i == 0 ==> q.error.None? && q.writerSchema == Some(SchemaOf(FetchedRecords(f)))
    ensures Validates(f) && i > 0 ==> (q.error.None? <==> SchemaOf(FetchedRecords(f)) == p.writerSchema.value)
    ensures q.error.None? ==>
      && Validates(f) && q.writerSchema.Some?
      && q.written == p.written + FetchedRecords(f) && q.total == p.total + |FetchedRecords(f)|
    ensures q.error.Some? ==> q.written == p.written && q.total == p.total
  {
    match f
    case ReadRaised => p.(error := Some(ReadError(i)))
    case Validated(Failure(e)) => p.(error := Some(ChunkRejected(i, e)))
    case Validated(Success(out)) =>
      var table := FromPandas(out.records);
      var schema := if i == 0 then table.schema else p.writerSchema.value;
      if table.schema != schema then Progress(Some(schema), p.written, p.total, Some(SchemaMismatch(i)))
      else Progress(Some(schema), p.written + table.rows, p.total + |out.records|, None)
  }

  /** The chunk loop from chunk `i` on, stopping at the first exception. */
  function Walk(fs: seq<Fetched>, i: nat, p: Progress): (r: Progress)
    requires i <= |fs|
    requires i > 0 && p.error.None? ==> p.writerSchema.Some?
    ensures i > 0 ==> r.writerSchema == p.writerSchema
    ensures r.error.None? ==> p.error.None?
    decreases |fs| - i
  {
    if i == |fs| || p.error.Some? then p
    else Walk(fs, i + 1, Step(p, i, fs[i]))
  }

  /** What a run leaves behind: the exception raised, the file on disk, the writer's schema and the total written. */
  datatype RunOutcome = RunOutcome(
    raised: Option<IngestError>, fileExists: bool, fileRows: seq<SilverRecord>,
    writerSchema: Option<Schema>, totalRowsWritten: nat)

  /**
   * `run_data_ingestion` as a function of whether the configuration could be
   * read, the chunks the reader yields and the file already on disk.
   */
  function Run(configRead: bool, stream: seq<Read>, coerce: Coercions, existed: bool, oldRows: seq<SilverRecord>): (r: RunOutcome)
    requires WellFormedStream(stream)
    ensures !configRead ==> r.raised == Some(SilverPathUnbound) && r.fileExists == existed && r.fileRows == oldRows
    ensures configRead && r.raised.Some? && r.totalRowsWritten == 0 ==> !r.fileExists
  {
    RunOn(configRead, FetchAll(stream, coerce), existed, oldRows)
  }

  /** The same run, given what the loop fetches for each chunk. */
  function RunOn(configRead: bool, fs: seq<Fetched>, existed: bool, oldRows: seq<SilverRecord>): (r: RunOutcome)
    ensures !configRead ==> r.raised == Some(SilverPathUnbound) && r.fileExists == existed && r.fileRows == oldRows
    ensures configRead && r.raised.Some? && r.totalRowsWritten == 0 ==> !r.fileExists
  {
    if !configRead then RunOutcome(Some(SilverPathUnbound), existed, oldRows, None, 0)
    else
      var p := Walk(fs, 0, Start);
      var onDisk := p.writerSchema.Some? || existed;
      var rows := if p.writerSchema.Some? then p.written else oldRows;
      if p.error.Some? && p.total == 0 && onDisk then RunOutcome(p.error, false, [], p.writerSchema, 0)
      else RunOutcome(p.error, onDisk, rows, p.writerSchema, p.total)
  }

  /** The writer matches the loop state: no writer before the first chunk, then one on `silver` holding the rows written. */
  ghost predicate WriterMatches(writer: ParquetWriter?, silver: SilverFile, p: Progress)
    reads writer, silver
  {
    && silver.Valid()
    && (writer == null <==> p.writerSchema.None?)
    && (writer != null ==>
          && writer.file == silver && p.writerSchema == Some(writer.schema)
          && writer.closeCount == 0 && silver.onDisk && silver.rows == p.written)
  }

  /**
   * The body of the chunk loop: validate chunk `i`, open the writer on the
   * first chunk, append the table and add its length to the running total.
   */
  method IngestChunk(i: nat, read: Read, coerce: Coercions, silver: SilverFile, writer: ParquetWriter?,
                     ghost p: Progress, total: nat)
    returns (raised: Option<IngestError>, writer': ParquetWriter?, total': nat)
    requires read.Chunk? ==> Rectangular(read.data.columns, read.data.rows)
    requires i == 0 ==> p == Start
    requires i > 0 ==> p.writerSchema.Some?
    requires p.error.None? && total == p.total && WriterMatches(writer, silver, p)
    modifies silver
    ensures var q := Step(p, i, Fetch(read, coerce));
      && raised == q.error && total' == q.total && WriterMatches(writer', silver, q)
    ensures writer' == writer || (writer == null && fresh(writer'))
    ensures writer' == null ==> silver.onDisk == old(silver.onDisk) && silver.rows == old(silver.rows)
  {
    writer', total', raised := writer, total, None;
    match read
    case ReadFailed =>
      assert Fetch(read, coerce) == ReadRaised;
      raised := Some(ReadError(i));
    case Chunk(data) =>
      var chunk := new Frame(data.columns, data.rows);
      var validated := ValidateChunk(chunk, coerce);
      assert Fetch(read, coerce) == Validated(validated);
      if validated.Failure? {
        raised := Some(ChunkRejected(i, validated.error));
      } else {
        var table := FromPandas(validated.value.records);
        if i == 0 {
          writer' := new ParquetWriter(silver, table.schema);
        }
        assert writer'.schema == if i == 0 then table.schema else p.writerSchema.value;
        ghost var q := Step(p, i, Validated(validated));
        assert q.writerSchema == Some(writer'.schema);
        var ok := writer'.WriteTable(table);
        if !ok {
          raised := Some(SchemaMismatch(i));
          assert q.error == raised && q.written == p.written;
        } else {
          total' := total + |validated.value.records|;
          assert q.error.None? && q.written == p.written + table.rows;
        }
      }
  }

  /**
   * `run_data_ingestion`: validate the chunks in order, open the writer on the
   * first chunk with that chunk's schema, append each validated chunk, and on
   * an exception remove the file when no row was written; the writer, if
   * there is one, is closed exactly once on every path.
   */
  method RunDataIngestion(configRead: bool, stream: seq<Read>, coerce: Coercions, silver: SilverFile)
    returns (raised: Option<IngestError>, writer: ParquetWriter?)
    requires WellFormedStream(stream) && silver.Valid()
    modifies silver
    ensures silver.Valid()
    ensures var out := Run(configRead, stream, coerce, old(silver.onDisk), old(silver.rows));
      && raised == out.raised
      && silver.onDisk == out.fileExists && silver.rows == out.fileRows
      && (writer == null <==> out.writerSchema.None?)
      && (writer != null ==> fresh(writer) && writer.file == silver && out.writerSchema == Some(writer.schema))
    ensures writer != null ==> writer.closeCount == 1
  {
    writer := null;
    var totalRowsWritten := 0;
    var pathBound := false;
    raised := None;
    ghost var fs := FetchAll(stream, coerce);
    ghost var p := Start;
    if !configRead {
      raised := Some(ConfigUnreadable);
    } else {
      pathBound := true;
      var i := 0;
      while i < |stream| && raised.None?
        invariant i <= |stream|
        invariant i == 0 ==> p == Start
        invariant i > 0 && p.error.None? ==> p.writerSchema.Some?
        invariant Walk(fs, i, p) == Walk(fs, 0, Start)
        invariant raised == p.error && totalRowsWritten == p.total
        invariant WriterMatches(writer, silver, p)
        invariant writer != null ==> fresh(writer)
        invariant writer == null ==> silver.onDisk == old(silver.onDisk) && silver.rows == old(silver.rows)
        decreases |stream| - i
      {
        raised, writer, totalRowsWritten := IngestChunk(i, stream[i], coerce, silver, writer, p, totalRowsWritten);
        p := Step(p, i, fs[i]);
        i := i + 1;
      }
    }
    if raised.Some? && totalRowsWritten == 0 {
      if !pathBound {
        raised := Some(SilverPathUnbound);
      } else if silver.onDisk {
        silver.Remove();
      }
    }
    if writer != null {
      writer.Close();
    }
  }

  // ----- What a run does, stated over the specification -----

  /** The records a chunk contributes when it validates. */
  function RecordsOf(read: Read, coerce: Coercions): seq<SilverRecord>
    requires read.Chunk? ==> Rectangular(read.data.columns, read.data.rows)
  {
    match read
    case ReadFailed => []
    case Chunk(data) =>
      match ValidateFrame(data, coerce)
      case Success(out) => out.records
      case Failure(_) => []
  }

  /** The records of all chunks, chunk after chunk. */
  function ChunkRecords(stream: seq<Read>, coerce: Coercions): seq<SilverRecord>
    requires WellFormedStream(stream)
  {
    if stream == [] then [] else RecordsOf(stream[0], coerce) + ChunkRecords(stream[1..], coerce)
  }

  /** A chunk that the reader yielded and that validated. */
  ghost predicate ChunkValidates(read: Read, coerce: Coercions)
    requires read.Chunk? ==> Rectangular(read.data.columns, read.data.rows)
  {
    read.Chunk? && ValidateFrame(read.data, coerce).Success?
  }

  /** The same three notions over what was fetched. */
  function FetchedRecords(f: Fetched): seq<SilverRecord> {
    if f.Validated? && f.result.Success? then f.result.value.records else []
  }

  function AllFetchedRecords(fs: seq<Fetched>): seq<SilverRecord> {
    if fs == [] then [] else FetchedRecords(fs[0]) + AllFetchedRecords(fs[1..])
  }

  predicate Validates(f: Fetched) {
    f.Validated? && f.result.Success?
  }

  /** The records of the fetched chunks are the records of the chunks. */
  lemma {:induction false} FetchAllRecords(stream: seq<Read>, coerce: Coercions)
    requires WellFormedStream(stream)
    ensures AllFetchedRecords(FetchAll(stream, coerce)) == ChunkRecords(stream, coerce)
  {
    if stream != [] {
      var fs := FetchAll(stream, coerce);
      var rest := stream[1..];
      assert WellFormedStream(rest) by {
        forall k | 0 <= k < |rest| ensures rest[k] == stream[k + 1] { }
      }
      assert fs[1..] == FetchAll(rest, coerce) by {
        forall k | 0 <= k < |rest| ensures fs[1..][k] == Fetch(rest[k], coerce) {
          assert rest[k] == stream[k + 1];
        }
      }
      assert FetchedRecords(fs[0]) == RecordsOf(stream[0], coerce);
      FetchAllRecords(rest, coerce);
    }
  }

  /** A fetched chunk validated exactly when the chunk did. */
  lemma FetchAllValidates(stream: seq<Read>, coerce: Coercions)
    requires WellFormedStream(stream)
    ensures forall k :: 0 <= k < |stream| ==> (Validates(FetchAll(stream, coerce)[k]) <==> ChunkValidates(stream[k], coerce))
  {
    var fs := FetchAll(stream, coerce);
    forall k | 0 <= k < |stream| ensures Validates(fs[k]) <==> ChunkValidates(stream[k], coerce) {
      assert fs[k] == Fetch(stream[k], coerce);
    }
  }

  /** One iteration appends the chunk's records when it raises nothing, and appends nothing when it raises. */
  lemma StepFacts(p: Progress, i: nat, f: Fetched)
    requires i > 0 ==> p.writerSchema.Some?
    requires p.total == |p.written| && (p.writerSchema.None? ==> p.written == [])
    ensures var q := Step(p, i, f);
      && q.total == |q.written|
      && (q.writerSchema.None? ==> q.written == [])
      && (i > 0 ==> q.writerSchema == p.writerSchema)
      && (q.error.None? ==> Validates(f) && q.written == p.written + FetchedRecords(f))
      && (q.error.Some? ==> q.written == p.written)
  {
  }

  /** The records of the chunks from `i` on: those of chunk `i`, then those of the rest. */
  lemma FetchedFrom(fs: seq<Fetched>, i: nat)
    requires i < |fs|
    ensures AllFetchedRecords(fs[i..]) == FetchedRecords(fs[i]) + AllFetchedRecords(fs[i + 1..])
  {
    assert fs[i..][0] == fs[i] && fs[i..][1..] == fs[i + 1..];
  }

  /**
   * The chunk loop keeps the running total equal to the number of rows
   * written, writes nothing before a writer exists, and never changes the
   * writer's schema once it is set.
   */
  lemma {:induction false} WalkGrows(fs: seq<Fetched>, i: nat, p: Progress)
    requires i <= |fs|
    requires i > 0 && p.error.None? ==> p.writerSchema.Some?
    requires p.total == |p.written| && (p.writerSchema.None? ==> p.written == [])
    ensures var q := Walk(fs, i, p);
      && q.total == |q.written|
      && (q.writerSchema.None? ==> q.written == [])
      && (i > 0 ==> q.writerSchema == p.writerSchema)
    decreases |fs| - i
  {
    if i < |fs| && p.error.None? {
      var p' := Step(p, i, fs[i]);
      StepFacts(p, i, fs[i]);
      WalkGrows(fs, i + 1, p');
      assert Walk(fs, i, p) == Walk(fs, i + 1, p');
      GrowsFromNext(i, p, p', Walk(fs, i + 1, p'));
    }
  }

  /** The invariant of `WalkGrows` carried back over one step, from the walk after it to the walk before it. */
  lemma GrowsFromNext(i: nat, p: Progress, next: Progress, q: Progress)
    requires i > 0 ==> next.writerSchema == p.writerSchema
    requires q.total == |q.written| && (q.writerSchema.None? ==> q.written == [])
    requires q.writerSchema == next.writerSchema
    ensures q.total == |q.written| && (q.writerSchema.None? ==> q.written == [])
    ensures i > 0 ==> q.writerSchema == p.writerSchema
  {
  }

  /** Prefix bookkeeping for one loop step: either nothing was appended, or `r` was and `q` lies between `a + r` and `a + r + rest`. */
  lemma PrefixStep<T>(a: seq<T>, r: seq<T>, rest: seq<T>, q: seq<T>)
    requires q == a || a + r <= q <= a + r + rest
    ensures a <= q <= a + (r + rest)
  {
    assert a + r + rest == a + (r + rest);
  }

  /** The chunk loop appends and never rewrites: what it writes is a prefix of the remaining chunks' records. */
  lemma {:induction false} WalkAppends(fs: seq<Fetched>, i: nat, p: Progress)
    requires i <= |fs|
    requires i > 0 && p.error.None? ==> p.writerSchema.Some?
    requires p.total == |p.written| && (p.writerSchema.None? ==> p.written == [])
    ensures var q := Walk(fs, i, p);
      p.written <= q.written <= p.written + AllFetchedRecords(fs[i..])
    decreases |fs| - i
  {
    if i == |fs| {
      assert fs[i..] == [];
    } else if p.error.None? {
      FetchedFrom(fs, i);
      var p' := Step(p, i, fs[i]);
      StepFacts(p, i, fs[i]);
      WalkAppends(fs, i + 1, p');
      assert Walk(fs, i, p) == Walk(fs, i + 1, p');
      PrefixStep(p.written, FetchedRecords(fs[i]), AllFetchedRecords(fs[i + 1..]), Walk(fs, i + 1, p').written);
    }
  }

  /** A loop that raises nothing appended the records of every remaining chunk, in order, each of which validated. */
  lemma {:induction false} WalkCompletes(fs: seq<Fetched>, i: nat, p: Progress)
    requires i <= |fs|
    requires i > 0 && p.error.None? ==> p.writerSchema.Some?
    requires p.total == |p.written| && (p.writerSchema.None? ==> p.written == [])
    ensures var q := Walk(fs, i, p);
      q.error.None? ==>
        && p.error.None?
        && q.written == p.written + AllFetchedRecords(fs[i..])
        && forall k :: i <= k < |fs| ==> Validates(fs[k])
    decreases |fs| - i
  {
    if i == |fs| {
      assert fs[i..] == [];
    } else if p.error.None? {
      var p' := Step(p, i, fs[i]);
      StepFacts(p, i, fs[i]);
      WalkCompletes(fs, i + 1, p');
      assert Walk(fs, i, p) == Walk(fs, i + 1, p');
      CompletesFromNext(fs, i, p, p', Walk(fs, i + 1, p'));
    }
  }

  /** The step case of `WalkCompletes`: what the loop completes from `i + 1` on, plus chunk `i`. */
  lemma CompletesFromNext(fs: seq<Fetched>, i: nat, p: Progress, next: Progress, q: Progress)
    requires i < |fs|
    requires next.error.None? ==> Validates(fs[i]) && next.written == p.written + FetchedRecords(fs[i])
    requires q.error.None? ==>
      && next.error.None?
      && q.written == next.written + AllFetchedRecords(fs[i + 1..])
      && forall k :: i + 1 <= k < |fs| ==> Validates(fs[k])
    ensures q.error.None? ==>
      && q.written == p.written + AllFetchedRecords(fs[i..])
      && forall k :: i <= k < |fs| ==> Validates(fs[k])
  {
    if q.error.None? {
      FetchedFrom(fs, i);
      assert p.written + FetchedRecords(fs[i]) + AllFetchedRecords(fs[i + 1..])
          == p.written + AllFetchedRecords(fs[i..]);
    }
  }

  /**
   * A run that raises nothing has read and validated every chunk; it wrote
   * the records of all chunks, in source order, through one writer opened on
   * the first chunk, and its running total is their number. With no chunk at
   * all there is no writer and the file on disk is left as it was.
   */
  lemma RunSuccess(configRead: bool, stream: seq<Read>, coerce: Coercions, existed: bool, oldRows: seq<SilverRecord>)
    requires WellFormedStream(stream)
    ensures var out := Run(configRead, stream, coerce, existed, oldRows);
      out.raised.None? ==>
        && configRead
        && (forall k :: 0 <= k < |stream| ==> ChunkValidates(stream[k], coerce))
        && out.totalRowsWritten == |ChunkRecords(stream, coerce)|
        && (out.writerSchema.Some? <==> |stream| > 0)
        && (|stream| > 0 ==> out.fileExists && out.fileRows == ChunkRecords(stream, coerce))
        && (|stream| == 0 ==> out.fileExists == existed && out.fileRows == oldRows)
  {
    FetchAllRecords(stream, coerce);
    FetchAllValidates(stream, coerce);
    RunOnSuccess(configRead, FetchAll(stream, coerce), existed, oldRows);
  }

  /** The same, stated over what the loop fetches. */
  lemma RunOnSuccess(configRead: bool, fs: seq<Fetched>, existed: bool, oldRows: seq<SilverRecord>)
    ensures var out := RunOn(configRead, fs, existed, oldRows);
      out.raised.None? ==>
        && configRead
        && (forall k :: 0 <= k < |fs| ==> Validates(fs[k]))
        && out.totalRowsWritten == |AllFetchedRecords(fs)|
        && (out.writerSchema.Some? <==> |fs| > 0)
        && (|fs| > 0 ==> out.fileExists && out.fileRows == AllFetchedRecords(fs))
        && (|fs| == 0 ==> out.fileExists == existed && out.fileRows == oldRows)
  {
    WalkGrows(fs, 0, Start);
    WalkCompletes(fs, 0, Start);
    assert fs[0..] == fs;
    if configRead && |fs| > 0 {
      var p1 := Step(Start, 0, fs[0]);
      assert Walk(fs, 0, Start) == Walk(fs, 1, p1);
      if p1.error.None? {
        WalkGrows(fs, 1, p1);
      }
    }
  }

  /** The writer's schema is that of the first chunk's validated records, and nothing else sets it. */
  lemma WriterSchemaFromFirstChunk(configRead: bool, stream: seq<Read>, coerce: Coercions, existed: bool, oldRows: seq<SilverRecord>)
    requires WellFormedStream(stream)
    ensures var out := Run(configRead, stream, coerce, existed, oldRows);
      out.writerSchema.Some? ==>
        && configRead && |stream| > 0 && ChunkValidates(stream[0], coerce)
        && out.writerSchema == Some(SchemaOf(ValidateFrame(stream[0].data, coerce).value.records))
  {
    var fs := FetchAll(stream, coerce);
    RunOnWriterSchema(configRead, fs, existed, oldRows);
    if |stream| > 0 {
      assert fs[0] == Fetch(stream[0], coerce);
    }
  }

  /** The same, stated over what the loop fetches. */
  lemma RunOnWriterSchema(configRead: bool, fs: seq<Fetched>, existed: bool, oldRows: seq<SilverRecord>)
    ensures var out := RunOn(configRead, fs, existed, oldRows);
      out.writerSchema.Some? ==>
        && configRead && |fs| > 0 && Validates(fs[0])
        && out.writerSchema == Some(SchemaOf(FetchedRecords(fs[0])))
  {
    if configRead && |fs| > 0 {
      var p1 := Step(Start, 0, fs[0]);
      assert Walk(fs, 0, Start) == Walk(fs, 1, p1);
      if p1.error.None? {
        WalkGrows(fs, 1, p1);
      }
    }
  }

  /**
   * A run that raises removes the file exactly when no row was written; a file
   * that stays holds the rows written so far, a prefix of the records of the
   * chunks. A run whose configuration cannot be read raises the unbound-path
   * error from its own cleanup and leaves the file on disk as it was.
   */
  lemma RunFailureCleanup(configRead: bool, stream: seq<Read>, coerce: Coercions, existed: bool, oldRows: seq<SilverRecord>)
    requires WellFormedStream(stream)
    ensures var out := Run(configRead, stream, coerce, existed, oldRows);
      && (configRead && out.raised.Some? ==>
            && (out.fileExists <==> out.totalRowsWritten > 0)
            && (out.fileExists ==> |out.fileRows| == out.totalRowsWritten && out.fileRows <= ChunkRecords(stream, coerce)))
      && (!configRead ==>
            out.raised == Some(SilverPathUnbound) && out.fileExists == existed && out.fileRows == oldRows)
  {
    FetchAllRecords(stream, coerce);
    RunOnFailure(configRead, FetchAll(stream, coerce), existed, oldRows);
  }

  /** The same, stated over what the loop fetches. */
  lemma RunOnFailure(configRead: bool, fs: seq<Fetched>, existed: bool, oldRows: seq<SilverRecord>)
    ensures var out := RunOn(configRead, fs, existed, oldRows);
      && (configRead && out.raised.Some? ==>
            && (out.fileExists <==> out.totalRowsWritten > 0)
            && (out.fileExists ==> |out.fileRows| == out.totalRowsWritten && out.fileRows <= AllFetchedRecords(fs)))
      && (!configRead ==>
            out.raised == Some(SilverPathUnbound) && out.fileExists == existed && out.fileRows == oldRows)
  {
    WalkGrows(fs, 0, Start);
    WalkAppends(fs, 0, Start);
    assert fs[0..] == fs;
  }

  /**
   * A source that holds only its header is read as one chunk without rows:
   * the writer is opened with the schema of an empty table, so the run ends
   * without an exception and with an empty silver file, whatever was on disk
   * before.
   */
  lemma HeaderOnlySourceTruncates(columns: seq<string>, coerce: Coercions, existed: bool, oldRows: seq<SilverRecord>)
    requires NarrativeColumn in columns
    ensures WellFormedStream([Chunk(ChunkData(columns, []))])
    ensures var out := Run(true, [Chunk(ChunkData(columns, []))], coerce, existed, oldRows);
      && out.raised.None? && out.fileExists && out.fileRows == []
      && out.writerSchema == Some([]) && out.totalRowsWritten == 0
  {
    var chunk := ChunkData(columns, []);
    var fs := FetchAll([Chunk(chunk)], coerce);
    var out := ValidateFrame(chunk, coerce);
    assert fs[0] == Validated(out);
    assert out.Success? && out.value.records == [];
    var p1 := Step(Start, 0, fs[0]);
    assert p1 == Progress(Some([]), [], 0, None);
    assert Walk(fs, 0, Start) == Walk(fs, 1, p1) == p1;
  }

  /**
   * A source without even a header makes the reader raise before any chunk:
   * the run ends with that exception, nothing written, and a silver file
   * left from an earlier run is removed.
   */
  lemma EmptySourceRemovesFile(coerce: Coercions, existed: bool, oldRows: seq<SilverRecord>)
    ensures WellFormedStream([ReadFailed])
    ensures var out := Run(true, [ReadFailed], coerce, existed, oldRows);
      && out.raised == Some(ReadError(0)) && !out.fileExists
      && out.writerSchema.None? && out.totalRowsWritten == 0
  {
    var fs := FetchAll([ReadFailed], coerce);
    assert fs[0] == ReadRaised;
    var p1 := Step(Start, 0, fs[0]);
    assert Walk(fs, 0, Start) == Walk(fs, 1, p1) == p1;
  }

  /**
   * A later chunk whose rows all fail (or all lack a narrative) gives an empty
   * table with no columns, which the writer opened on a non-empty first chunk
   * refuses: the run raises a schema mismatch and the file keeps the first
   * chunk's rows.
   */
  lemma EmptyLaterChunkAborts(c0: ChunkData, c1: ChunkData, coerce: Coercions, existed: bool, oldRows: seq<SilverRecord>)
    requires Rectangular(c0.columns, c0.rows) && Rectangular(c1.columns, c1.rows)
    requires ValidateFrame(c0, coerce).Success? && ValidateFrame(c0, coerce).value.records != []
    requires ValidateFrame(c1, coerce).Success? && ValidateFrame(c1, coerce).value.records == []
    ensures WellFormedStream([Chunk(c0), Chunk(c1)])
    ensures var out := Run(true, [Chunk(c0), Chunk(c1)], coerce, existed, oldRows);
      && out.raised == Some(SchemaMismatch(1))
      && out.fileExists && out.fileRows == ValidateFrame(c0, coerce).value.records
  {
    var stream := [Chunk(c0), Chunk(c1)];
    forall k | 0 <= k < |stream| && stream[k].Chunk?
      ensures Rectangular(stream[k].data.columns, stream[k].data.rows)
    {
      assert stream[k] == if k == 0 then Chunk(c0) else Chunk(c1);
    }
    var fs := FetchAll(stream, coerce);
    assert fs[0] == Fetch(stream[0], coerce) && fs[1] == Fetch(stream[1], coerce);
    RunOnMismatch(fs, existed, oldRows);
  }

  /** The same, stated over what the loop fetches. */
  lemma RunOnMismatch(fs: seq<Fetched>, existed: bool, oldRows: seq<SilverRecord>)
    requires |fs| == 2 && Validates(fs[0]) && Validates(fs[1])
    requires FetchedRecords(fs[0]) != [] && FetchedRecords(fs[1]) == []
    ensures var out := RunOn(true, fs, existed, oldRows);
      && out.raised == Some(SchemaMismatch(1))
      && out.fileExists && out.fileRows == FetchedRecords(fs[0])
  {
    MismatchOnEmptySecond(fs);
  }

  /** The loop over a non-empty first table and an empty second one stops at the second with a schema mismatch. */
  lemma MismatchOnEmptySecond(fs: seq<Fetched>)
    requires |fs| == 2 && Validates(fs[0]) && Validates(fs[1])
    requires FetchedRecords(fs[0]) != [] && FetchedRecords(fs[1]) == []
    ensures var r0 := FetchedRecords(fs[0]);
      Walk(fs, 0, Start) == Progress(Some(SchemaOf(r0)), r0, |r0|, Some(SchemaMismatch(1)))
  {
    var r0 := FetchedRecords(fs[0]);
    var p1 := Step(Start, 0, fs[0]);
    assert p1 == Progress(Some(SchemaOf(r0)), r0, |r0|, None);
    var p2 := Step(p1, 1, fs[1]);
    assert Walk(fs, 0, Start) == Walk(fs, 1, p1) == Walk(fs, 2, p2);
  }

  /**
   * The mirror case: after a first chunk that kept no record, the writer's
   * schema is that of an empty table, so a second chunk with records is
   * refused. Nothing was written, so the cleanup removes the file.
   */
  lemma EmptyFirstChunkAborts(c0: ChunkData, c1: ChunkData, coerce: Coercions, existed: bool, oldRows: seq<SilverRecord>)
    requires Rectangular(c0.columns, c0.rows) && Rectangular(c1.columns, c1.rows)
    requires ValidateFrame(c0, coerce).Success? && ValidateFrame(c0, coerce).value.records == []
    requires ValidateFrame(c1, coerce).Success? && ValidateFrame(c1, coerce).value.records != []
    ensures WellFormedStream([Chunk(c0), Chunk(c1)])
    ensures var out := Run(true, [Chunk(c0), Chunk(c1)], coerce, existed, oldRows);
      && out.raised == Some(SchemaMismatch(1)) && !out.fileExists && out.totalRowsWritten == 0
  {
    var stream := [Chunk(c0), Chunk(c1)];
    forall k | 0 <= k < |stream| && stream[k].Chunk?
      ensures Rectangular(stream[k].data.columns, stream[k].data.rows)
    {
      assert stream[k] == if k == 0 then Chunk(c0) else Chunk(c1);
    }
    var fs := FetchAll(stream, coerce);
    assert fs[0] == Fetch(stream[0], coerce) && fs[1] == Fetch(stream[1], coerce);
    RunOnMismatchAfterEmpty(fs, existed, oldRows);
  }

  /** The same, stated over what the loop fetches. */
  lemma RunOnMismatchAfterEmpty(fs: seq<Fetched>, existed: bool, oldRows: seq<SilverRecord>)
    requires |fs| == 2 && Validates(fs[0]) && Validates(fs[1])
    requires FetchedRecords(fs[0]) == [] && FetchedRecords(fs[1]) != []
    ensures var out := RunOn(true, fs, existed, oldRows);
      && out.raised == Some(SchemaMismatch(1)) && !out.fileExists && out.totalRowsWritten == 0
  {
    var p1 := Step(Start, 0, fs[0]);
    assert p1.writerSchema == Some([]) && p1.error.None? && p1.total == 0;
    var p2 := Step(p1, 1, fs[1]);
    assert p2.error == Some(SchemaMismatch(1)) && p2.total == 0;
    assert Walk(fs, 0, Start) == Walk(fs, 1, p1) == Walk(fs, 2, p2);
  }

  /**
   * The converse of `RunSuccess`: when the configuration is read, every
   * chunk validates and every chunk's table has the first chunk's schema,
   * the run raises nothing.
   */
  lemma RunSucceedsOnAgreeingChunks(stream: seq<Read>, coerce: Coercions, existed: bool, oldRows: seq<SilverRecord>)
    requires WellFormedStream(stream)
    requires forall k :: 0 <= k < |stream| ==> ChunkValidates(stream[k], coerce)
    requires forall k :: 0 <= k < |stream| ==> SchemaOf(RecordsOf(stream[k], coerce)) == SchemaOf(RecordsOf(stream[0], coerce))
    ensures Run(true, stream, coerce, existed, oldRows).raised.None?
  {
    var fs := FetchAll(stream, coerce);
    FetchAllValidates(stream, coerce);
    var s := if stream == [] then [] else SchemaOf(RecordsOf(stream[0], coerce));
    forall k | 0 <= k < |fs| ensures Validates(fs[k]) && SchemaOf(FetchedRecords(fs[k])) == s {
      assert fs[k] == Fetch(stream[k], coerce);
      assert FetchedRecords(fs[k]) == RecordsOf(stream[k], coerce);
    }
    WalkSucceeds(fs, 0, Start, s);
  }

  /** The loop raises nothing over validated chunks that all give tables of the writer's schema. */
  lemma {:induction false} WalkSucceeds(fs: seq<Fetched>, i: nat, p: Progress, s: Schema)
    requires i <= |fs| && p.error.None?
    requires i > 0 ==> p.writerSchema == Some(s)
    requires forall k :: 0 <= k < |fs| ==> Validates(fs[k]) && SchemaOf(FetchedRecords(fs[k])) == s
    ensures Walk(fs, i, p).error.None?
    decreases |fs| - i
  {
    if i < |fs| {
      var p' := Step(p, i, fs[i]);
      assert Walk(fs, i, p) == Walk(fs, i + 1, p');
      WalkSucceeds(fs, i + 1, p', s);
    }
  }

  /** Every row of every chunk, chunk after chunk. */
  function AllRows(stream: seq<Read>): seq<seq<Cell>> {
    if stream == [] then []
    else (if stream[0].Chunk? then stream[0].data.rows else []) + AllRows(stream[1..])
  }

  /** Chunks that all carry the same raw header, which includes the narrative column. */
  ghost predicate UniformHeader(stream: seq<Read>, columns: seq<string>) {
    && RawHeader(columns) && NarrativeColumn in columns
    && forall k :: 0 <= k < |stream| ==>
         stream[k].Chunk? && stream[k].data.columns == columns && Rectangular(columns, stream[k].data.rows)
  }

  /** The records of one chunk with the shared raw header: its rows that hold a narrative and validate. */
  lemma RecordsOfRowwise(read: Read, columns: seq<string>, coerce: Coercions)
    requires read.Chunk? && read.data.columns == columns && Rectangular(columns, read.data.rows)
    requires RawHeader(columns) && NarrativeColumn in columns
    ensures RecordsOf(read, coerce) == Accepted(columns, WithValueAt(read.data.rows, IndexOf(columns, NarrativeColumn)), coerce)
  {
    ChunkOutcomeRowwise(read.data, coerce);
  }

  /** Filtering and validating two runs of rows one after the other gives the records of each, in order. */
  lemma RowwiseConcat(columns: seq<string>, a: seq<seq<Cell>>, b: seq<seq<Cell>>, k: nat, coerce: Coercions)
    requires Rectangular(columns, a) && Rectangular(columns, b) && k < |columns|
    ensures Rectangular(columns, a + b)
    ensures Accepted(columns, WithValueAt(a + b, k), coerce)
         == Accepted(columns, WithValueAt(a, k), coerce) + Accepted(columns, WithValueAt(b, k), coerce)
  {
    assert Rectangular(columns, a + b);
    WithValueAtConcat(a, b, k);
    AcceptedConcat(columns, WithValueAt(a, k), WithValueAt(b, k), coerce);
  }

  /**
   * Chunking does not change the result: over chunks that share a header, the
   * records of the chunks are those of the whole source's rows that hold a
   * narrative and validate, in source order.
   */
  lemma {:induction false} ChunkRecordsRowwise(stream: seq<Read>, columns: seq<string>, coerce: Coercions)
    requires UniformHeader(stream, columns)
    ensures WellFormedStream(stream) && Rectangular(columns, AllRows(stream))
    ensures var k := IndexOf(columns, NarrativeColumn);
      ChunkRecords(stream, coerce) == Accepted(columns, WithValueAt(AllRows(stream), k), coerce)
  {
    var k := IndexOf(columns, NarrativeColumn);
    if stream != [] {
      var rest := stream[1..];
      assert UniformHeader(rest, columns) by {
        forall j | 0 <= j < |rest| ensures rest[j] == stream[j + 1] { }
      }
      ChunkRecordsRowwise(rest, columns, coerce);
      RecordsOfRowwise(stream[0], columns, coerce);
      RowwiseConcat(columns, stream[0].data.rows, AllRows(rest), k, coerce);
      assert AllRows(stream) == stream[0].data.rows + AllRows(rest);
    }
  }

  /**
   * The silver file of a successful run over chunks sharing a header holds
   * exactly the source rows that carry a narrative and validate, re-keyed, in
   * source order across all chunk boundaries.
   */
  lemma SilverKeepsSourceOrder(stream: seq<Read>, columns: seq<string>, coerce: Coercions, existed: bool, oldRows: seq<SilverRecord>)
    requires UniformHeader(stream, columns) && |stream| > 0
    ensures WellFormedStream(stream) && Rectangular(columns, AllRows(stream))
    ensures var out := Run(true, stream, coerce, existed, oldRows);
      out.raised.None? ==>
        && out.fileExists
        && out.fileRows == Accepted(columns, WithValueAt(AllRows(stream), IndexOf(columns, NarrativeColumn)), coerce)
        && out.totalRowsWritten == |out.fileRows|
  {
    ChunkRecordsRowwise(stream, columns, coerce);
    RunSuccess(true, stream, coerce, existed, oldRows);
  }
}
