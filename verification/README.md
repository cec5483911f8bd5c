# Complaint escalation pipeline: a verified model of its data core

This project models in Dafny the data core of a pipeline that predicts which
consumer complaints will escalate. It covers four parts:

- **Entities** (`entities.dfy`): the raw record schema. This is the twelve
  fields with their aliases, the three optional fields that default to None,
  the two categorical validators on `Timely_response` and
  `Consumer_disputed`, and population by alias or by field name. It also has
  the binary check on the gold record's `escalation_risk`. Validation of one
  raw row is a function that returns the record, or every field error in
  field order.
- **Ingestion** (`ingestion.dfy`): the bronze-to-silver stage.
  - `validate_chunk` works on a `Frame` class whose `dropna` and `rename`
    change it in place. Its row loop is a method proved against the
    functions `Accepted` and `Rejected`.
  - `run_data_ingestion` is a method over a stream of chunk reads, a
    `SilverFile` on disk and a `ParquetWriter` class. It is proved equal to
    the function `Run`. The lemmas then state what a run promises: source
    order, one writer schema fixed by the first chunk, cleanup on failure,
    and the writer closed once.
- **GoldLayer** (`labeling.dfy`): the label rule, the narrative
  normalisation, and their in-place application to the silver table
  (`GoldFrame`). The normalisation is lower-casing, collapsing whitespace
  runs and stripping the ends. It is proved equal to
  `' '.join(s.lower().split())`, clean in shape, and idempotent.
- **FeatureFusion** (`fusion.dfy`): the lazy feature builder.
  - The temporary label and the width of the feature matrix are modelled.
  - The `range(0, n, 100)` chunking is proved to tile the rows exactly.
  - The loop that stacks the target-encoded, one-hot and embedding blocks
    writes each chunk into the matching rows of a preallocated `array2`. It
    is proved to store every fused row in its own row of the matrix.

`wrappers.dfy` holds the `Option` and `Result` datatypes.

Several things are parameters of the model rather than part of it:

- pydantic's coercion of text to an integer or a datetime;
- the fitting of the two encoders;
- the sentence-embedding model;
- whether the configuration file could be read.

Some consequences of the code are easy to miss. The model states each one:

- **An empty chunk and a non-empty one do not mix.** A chunk that keeps no
  row gives `pd.DataFrame([])`, which has no columns, so its Arrow schema
  is the empty one.
  - After a first chunk that kept at least one record, a later chunk with
    no valid row makes `write_table` raise. The run stops with a schema
    mismatch, and the file keeps the first chunk's rows
    (`Ingestion.EmptyLaterChunkAborts`).
  - After a first chunk that kept no record, the writer has the empty
    schema. A later chunk with a valid row is then refused. Nothing was
    written, so the cleanup removes the file
    (`Ingestion.EmptyFirstChunkAborts`).
  - Chunks that all keep no row agree with each other, and such a run
    raises nothing. In general a run raises nothing when every chunk
    validates and every chunk's table has the first chunk's schema
    (`Ingestion.RunSucceedsOnAgreeingChunks`).
- **The reader never yields zero chunks.** A source with no header at all
  makes `read_csv` raise before the loop. The run then re-raises, and the
  cleanup removes any file an earlier run left at the silver path
  (`Ingestion.EmptySourceRemovesFile`). A source with only a header is read
  as one chunk without rows. That chunk opens the writer with the schema of
  an empty table, which truncates the file, and the run ends without an
  exception (`Ingestion.HeaderOnlySourceTruncates`).
- **A missing value is NaN, and NaN is not a missing field.** `read_csv`
  reads an empty field, and every other default missing-value marker, as
  NaN. `dropna` removes the rows whose narrative is NaN, so an empty
  narrative never reaches validation. In any other column a NaN cell is
  still present in `row.to_dict()`. pydantic's `str` coercion turns it into
  the text "nan", so an optional text field comes out as `Some("nan")`, not
  None. The `int` and `datetime` coercions refuse it, and "nan" is none of
  the categorical choices (`Entities.NanRejectedByTypedAndChoiceFields`,
  `Entities.NanReadsAsText`).
- **"N/A" in `Consumer disputed?` is rejected.** "N/A" is one of the three
  choices the validator lists, but it is also a default missing-value
  marker of `read_csv`. A row that spells it so reaches validation with NaN
  and is rejected (`Ingestion.DisputedNaMarkerRejected`).
- **Rows are not filtered on narrative length.** No code checks the length
  of a narrative; any text that is not a missing-value marker is kept.
- **Cleanup can raise its own error.** Suppose the configuration cannot be
  read before the silver path is bound (`data_ingestion.py` line 114). Then
  the cleanup in the `except` block raises an unbound-local error itself,
  and no file is touched. `Ingestion.IngestError.SilverPathUnbound` models
  this.
- **Cleanup can delete an earlier run's file.** Once the path is bound, a
  failure with no row written removes any file at that path. That includes
  one left by an earlier run.
- **The feature builder refuses an empty table.** Fitting the encoders
  (`feature_selector.py` lines 51-58) raises on a table without rows, so no
  matrix is built and no encoder is saved
  (`FeatureFusion.ProcessFeaturesLazy`).

## Model

| member | source | states |
|---|---|---|
| Entities.FieldByAlias | src/complaint_priority/entity/data_entities.py:24-39 | the field whose CSV column alias is the given column; None exactly when no field has that alias |
| Entities.NamesAndAliasesDistinct | src/complaint_priority/entity/data_entities.py:24-39 | no two fields share a name or an alias, and a field name is the alias of no other field |
| Entities.Lookup | src/complaint_priority/entity/data_entities.py:41-43 | a field is found under its alias or, with population by field name allowed, under its name; it is absent iff the row has neither key; the cell found is the row's cell under the alias when that key exists, and otherwise the cell under the name |
| Entities.CheckTimelyResponse | src/complaint_priority/entity/data_entities.py:47-52 | accepts exactly "Yes" and "No" and returns the value unchanged; any other value fails with an error naming it |
| Entities.CheckConsumerDisputed | src/complaint_priority/entity/data_entities.py:54-59 | accepts exactly None, "Yes", "No" and "N/A" and returns the value unchanged; any other value fails with an error naming it |
| Entities.CheckEscalationRisk | src/complaint_priority/entity/data_entities.py:108-112 | accepts exactly 0 and 1, unchanged |
| Entities.Validate | src/complaint_priority/entity/data_entities.py:17-59 | a rejected row carries at least one error; an accepted record has a Timely_response among its choices and a Consumer_disputed that is None or among its choices |
| Entities.ValidateMeaning | src/complaint_priority/entity/data_entities.py:17-59 | a row validates iff every required field is present, the id and date coerce, Timely_response is a choice, and Consumer_disputed is absent or a choice; a rejection lists at least one error; an accepted record holds each field's value as pydantic's `str` reads the cell (NaN as "nan"), each of the twelve fields stated, with absent optional fields as None |
| Entities.TimelyOutsideChoicesRejected | src/complaint_priority/entity/data_entities.py:47-52 | a Timely_response outside {Yes, No} rejects the row, with an error naming the value |
| Entities.DisputedOutsideChoicesRejected | src/complaint_priority/entity/data_entities.py:54-59 | a present Consumer_disputed outside {Yes, No, N/A} rejects the row, with an error naming the value |
| Entities.MissingRequiredFieldRejected | src/complaint_priority/entity/data_entities.py:24-39 | each of the nine non-optional fields is required: a row with neither its alias nor its name as a column is rejected with FieldRequired for that field |
| Entities.MissingOptionalFieldsAreNone | src/complaint_priority/entity/data_entities.py:24-39 | Sub_product, Consumer_disputed and State whose column is absent from an accepted row come out as None |
| Entities.NanRejectedByTypedAndChoiceFields | src/complaint_priority/entity/data_entities.py:24-59 | a NaN cell under the id or the date fails the coercion, and under Timely_response or Consumer_disputed reads as "nan", which is no choice; the row is rejected with the matching error |
| Entities.NanReadsAsText | src/complaint_priority/entity/data_entities.py:26-39 | in every other field of an accepted row a NaN cell comes out as the text "nan" (as Some("nan") in an optional field), not as None |
| Entities.SameLookupsSameValidation | src/complaint_priority/entity/data_entities.py:17-43 | validation depends on a row only through what it finds for each field: rows that agree on every field validate alike |
| Entities.AliasOrNameAlike | src/complaint_priority/entity/data_entities.py:42-43 | with population by field name allowed, supplying a field under its alias or under its name validates the same |
| Ingestion.ReadCell | src/complaint_priority/data/data_ingestion.py:130-137 | a CSV field becomes NaN iff it is one of pandas' default missing-value markers (the empty field among them), and otherwise the field's text |
| Ingestion.DisputedNaMarkerRejected | src/complaint_priority/data/data_ingestion.py:130-137 | "N/A" is a Consumer_disputed choice, yet a row that spells it so reaches validation as NaN and is rejected with NotAChoice "nan" |
| Ingestion.WithValueAt | src/complaint_priority/data/data_ingestion.py:37 | the rows kept are rows of the input, no more of them than there were |
| Ingestion.RenameColumn | src/complaint_priority/data/data_ingestion.py:46 | a column that is some field's alias becomes that field's name; any other column is left as it is |
| Ingestion.RowDictCell | src/complaint_priority/data/data_ingestion.py:56 | in the dict of a row, a column that no later column repeats maps to its own cell |
| Ingestion.RowDict | src/complaint_priority/data/data_ingestion.py:56 | the dict of a row has exactly the header's columns as keys |
| Ingestion.ToSilver | src/complaint_priority/data/data_ingestion.py:59-73 | the silver record of an accepted record reads back as that record |
| Ingestion.ReKeyingIsLossless | src/complaint_priority/data/data_ingestion.py:59-73 | re-keying an accepted record into the silver columns loses no field: each of the twelve silver fields equals its raw field, and reading the silver record back gives the record |
| Ingestion.Frame.DropMissing | src/complaint_priority/data/data_ingestion.py:36-37 | in place, keeps exactly the rows holding a value in the column, in order, with the header unchanged; a missing column is reported (pandas raises KeyError) and nothing changes |
| Ingestion.Frame.RenameColumns | src/complaint_priority/data/data_ingestion.py:46 | in place, renames every field alias in the header to the field's name and leaves the rows unchanged |
| Ingestion.NarrativeFilter | src/complaint_priority/data/data_ingestion.py:36-37 | the narrative filter keeps every row holding a narrative and only those, and drops exactly the missing ones |
| Ingestion.ValidateRows | src/complaint_priority/data/data_ingestion.py:49-80 | the row loop keeps the re-keyed records of the rows that validate, in row order, counts the others, and accounts for every row |
| Ingestion.ValidateFrame | src/complaint_priority/data/data_ingestion.py:18-86 | a chunk fails iff it lacks the narrative column, and then with KeyError on that column; otherwise records, missing-narrative count and invalid count add up to the chunk's row count |
| Ingestion.ValidateChunk | src/complaint_priority/data/data_ingestion.py:18-86 | validate_chunk returns what ValidateFrame gives for the frame as passed in; the frame is left with its narrative-less rows dropped and its columns renamed, or unchanged when the narrative column is absent (KeyError) |
| Ingestion.AcceptedPlusRejected | src/complaint_priority/data/data_ingestion.py:49-78 | every row left after the narrative filter is either accepted or counted invalid |
| Ingestion.AcceptedConcat | src/complaint_priority/data/data_ingestion.py:52-78 | validation is row by row: the records and rejections of two runs of rows are those of each run, in order |
| Ingestion.WithValueAtConcat | src/complaint_priority/data/data_ingestion.py:37 | the narrative filter commutes with splitting the rows |
| Ingestion.RenameIsTransparent | src/complaint_priority/data/data_ingestion.py:44-56 | on a raw header, renaming the columns to field names before validation accepts the same rows with the same records and rejects the same number |
| Ingestion.ChunkOutcomeRowwise | src/complaint_priority/data/data_ingestion.py:18-86 | a chunk with a raw header yields the records of its rows that hold a narrative and validate, in order; the missing-narrative and invalid counts add up with the records to the chunk's row count |
| Ingestion.SchemaOf | src/complaint_priority/data/data_ingestion.py:149 | an empty list of records gives a frame with no columns; otherwise the twelve silver columns, starting with an integer complaint_id, with a text narrative |
| Ingestion.SchemaAgreement | src/complaint_priority/data/data_ingestion.py:149-157 | two non-empty chunks get the same Arrow schema (so the writer opened on one accepts the other) iff each optional column is all None in both or in neither |
| Ingestion.ParquetWriter.constructor | src/complaint_priority/data/data_ingestion.py:153 | opening the writer creates or truncates the file and fixes the schema |
| Ingestion.ParquetWriter.WriteTable | src/complaint_priority/data/data_ingestion.py:157 | appends the table's rows iff its schema is the writer's; otherwise the file is unchanged and the call fails |
| Ingestion.ParquetWriter.Close | src/complaint_priority/data/data_ingestion.py:172-175 | closing counts one more close of the writer |
| Ingestion.SilverFile.Remove | src/complaint_priority/data/data_ingestion.py:167-168 | the file is gone from disk |
| Ingestion.Step | src/complaint_priority/data/data_ingestion.py:140-159 | one loop iteration: a raised read and a rejected chunk raise their exceptions; a validated chunk 0 raises nothing and fixes the writer's schema to its table's; a later validated chunk raises nothing iff its table has the writer's schema; without an exception the chunk's records are appended and counted, with one nothing is written; after chunk 0 the writer's schema never changes |
| Ingestion.StepFacts | src/complaint_priority/data/data_ingestion.py:140-159 | one loop iteration keeps the running total equal to the rows written; it appends the chunk's records when it raises nothing and appends nothing when it raises |
| Ingestion.Walk | src/complaint_priority/data/data_ingestion.py:140-160 | the loop from a chunk on keeps the writer's schema once it exists and ends without an exception only if it started without one |
| Ingestion.IngestChunk | src/complaint_priority/data/data_ingestion.py:140-159 | the loop body: validates the chunk, opens the writer on chunk 0 with that chunk's schema, appends and adds to the total, matching one step of Run |
| Ingestion.Run | src/complaint_priority/data/data_ingestion.py:88-176 | an unreadable configuration raises the unbound-path error and leaves the file as it was; a failed run that wrote no row leaves no file |
| Ingestion.RunOn | src/complaint_priority/data/data_ingestion.py:88-176 | the same two promises, over what the loop fetched for each chunk |
| Ingestion.RunDataIngestion | src/complaint_priority/data/data_ingestion.py:88-176 | the exception raised, the file on disk and the writer are those of Run; the writer, if one was opened, is closed exactly once |
| Ingestion.WalkGrows | src/complaint_priority/data/data_ingestion.py:140-159 | the chunk loop keeps the total equal to the rows written, writes nothing before a writer exists, and never changes the writer's schema |
| Ingestion.WalkAppends | src/complaint_priority/data/data_ingestion.py:140-159 | the loop only appends: what it has written is a prefix of the records of the chunks, in order |
| Ingestion.WalkCompletes | src/complaint_priority/data/data_ingestion.py:140-160 | a loop that raises nothing validated every chunk and wrote all their records, in order |
| Ingestion.RunSuccess | src/complaint_priority/data/data_ingestion.py:88-162 | a run that raises nothing read and validated every chunk and wrote all their records in source order through one writer; its total is their count; RunSucceedsOnAgreeingChunks gives the converse (a stream of no chunk, which the reader never yields, would leave the file as it was) |
| Ingestion.RunSucceedsOnAgreeingChunks | src/complaint_priority/data/data_ingestion.py:88-162 | a run whose configuration is read, whose chunks all validate and whose chunks' tables all have the first chunk's schema raises nothing |
| Ingestion.WalkSucceeds | src/complaint_priority/data/data_ingestion.py:140-160 | the chunk loop raises nothing over validated chunks whose tables all have the writer's schema |
| Ingestion.WriterSchemaFromFirstChunk | src/complaint_priority/data/data_ingestion.py:149-153 | a writer exists only if the first chunk validated, and its schema is that of the first chunk's records |
| Ingestion.RunFailureCleanup | src/complaint_priority/data/data_ingestion.py:164-170 | a failed run leaves a file iff it wrote a row, and that file holds a prefix of the chunks' records; a configuration failure raises the unbound-path error and leaves the file as it was |
| Ingestion.HeaderOnlySourceTruncates | src/complaint_priority/data/data_ingestion.py:130-159 | a source holding only a header with the narrative column is one chunk without rows: the run raises nothing, opens the writer with the empty schema and leaves an empty file, whatever was on disk |
| Ingestion.EmptySourceRemovesFile | src/complaint_priority/data/data_ingestion.py:130-170 | a source without a header makes the reader raise at chunk 0: the run re-raises, opens no writer, writes nothing and removes any file at the silver path |
| Ingestion.EmptyLaterChunkAborts | src/complaint_priority/data/data_ingestion.py:149-157 | a second chunk with no valid row after a non-empty first one raises a schema mismatch, and the file keeps the first chunk's rows |
| Ingestion.EmptyFirstChunkAborts | src/complaint_priority/data/data_ingestion.py:149-170 | after a first chunk that kept no record, a second chunk with records raises a schema mismatch; nothing was written, so the file is removed |
| Ingestion.ChunkRecordsRowwise | src/complaint_priority/data/data_ingestion.py:127-160 | chunking changes nothing: over chunks sharing a header, the chunks' records are those of the whole source's rows that hold a narrative and validate, in source order |
| Ingestion.SilverKeepsSourceOrder | src/complaint_priority/data/data_ingestion.py:88-162 | the silver file of a successful run holds exactly the source rows that hold a narrative and validate, re-keyed, in source order across chunk boundaries |
| GoldLayer.EscalationRisk | src/complaint_priority/features/build_features.py:47-50 | the label is 0 or 1 |
| GoldLayer.LabelOnValidatedValues | src/complaint_priority/features/build_features.py:44-50 | on validated values the label is 1 iff disputed ("Yes") or not timely ("No"), 0 iff timely and not disputed; the featured-record check accepts it |
| GoldLayer.LowerCase | src/complaint_priority/features/build_features.py:66 | same length, each character lowered, no upper-case letter left, an already lower-case string unchanged |
| GoldLayer.SkipSpaces | src/complaint_priority/features/build_features.py:67 | a suffix of the input whose dropped characters are all whitespace and which starts with a non-space; the input itself when it starts with one |
| GoldLayer.StripRight | src/complaint_priority/features/build_features.py:67 | a prefix of the input whose dropped characters are all whitespace and which ends with a non-space |
| GoldLayer.Collapse | src/complaint_priority/features/build_features.py:67 | the substitution never lengthens the text, empties only the empty text, and starts with whitespace iff the input does |
| GoldLayer.CollapseShape | src/complaint_priority/features/build_features.py:67 | after the regex substitution every whitespace character past the first is a single plain space after a non-space (all of them when the input starts with a non-space), and no upper-case letter is brought in |
| GoldLayer.WordsCollapse | src/complaint_priority/features/build_features.py:67 | the substitution keeps the whitespace-separated words of the text |
| GoldLayer.NormalizeNarrative | src/complaint_priority/features/build_features.py:66-67 | normalisation never lengthens a narrative |
| GoldLayer.NormalizedShape | src/complaint_priority/features/build_features.py:66-67 | a normalised narrative has no upper-case letter, no whitespace other than single spaces, and no whitespace at either end |
| GoldLayer.NormalizedIsClean | src/complaint_priority/features/build_features.py:66-67 | the same shape spelled out character by character |
| GoldLayer.NormalizeIsJoinOfWords | src/complaint_priority/features/build_features.py:66-67 | normalisation equals the reference definition `' '.join(s.lower().split())` |
| GoldLayer.NormalizeIdempotent | src/complaint_priority/features/build_features.py:66-67 | normalising a normalised narrative changes nothing |
| GoldLayer.GoldFrame.ApplyLabelingRules | src/complaint_priority/features/build_features.py:47-50 | adds a 0/1 label column, which is 1 iff the row is disputed or not timely; rows and their order are unchanged |
| GoldLayer.GoldFrame.PreprocessNarratives | src/complaint_priority/features/build_features.py:66-67 | replaces each narrative by its normalised form; every other field, the label column and the row count are unchanged |
| GoldLayer.BuildGoldLayer | src/complaint_priority/features/build_features.py:71-93 | one gold row per silver row, in order, each equal to its silver row except for the narrative, which is normalised and already normal; the label is accepted by the binary check |
| FeatureFusion.TempLabel | src/complaint_priority/features/feature_selector.py:51-52 | the temporary label is 0 or 1 |
| FeatureFusion.TempLabelIsEscalationRisk | src/complaint_priority/features/feature_selector.py:51-52 | the temporary label the target encoder is fitted against is the gold layer's escalation label |
| FeatureFusion.FusedRow | src/complaint_priority/features/feature_selector.py:81 | a fused row is as wide as the three transforms' outputs together |
| FeatureFusion.FusedRowLayout | src/complaint_priority/features/feature_selector.py:63-81 | with well-shaped transforms a fused row has the matrix width 384 + 3 + w: target-encoded columns first, then one-hot, then the embedding |
| FeatureFusion.ChunksFromCount | src/complaint_priority/features/feature_selector.py:69 | the number of chunks is the least count of 100-row steps reaching the row count |
| FeatureFusion.ChunksTile | src/complaint_priority/features/feature_selector.py:69-70 | the chunks of range(0, n, size) with end min(start + size, n) are non-empty, at most size rows each, contiguous, disjoint and in order, and cover [0, n) exactly; there are none for n = 0 |
| FeatureFusion.BlocksJoin | src/complaint_priority/features/feature_selector.py:69-82 | the blocks of two adjacent row ranges stack into the block of their union |
| FeatureFusion.BlocksStackToFusedRows | src/complaint_priority/features/feature_selector.py:69-82 | chunking does not change the matrix: the chunks' blocks stacked in order are the fused rows of the whole table, one per row, in row order |
| FeatureFusion.StoreBlock | src/complaint_priority/features/feature_selector.py:82 | the slice assignment sets exactly the block's rows of the matrix and leaves every other entry |
| FeatureFusion.StoreChunk | src/complaint_priority/features/feature_selector.py:80-82 | storing a chunk's block extends the stored prefix of rows from the chunk's start to its end and leaves every row outside the chunk unchanged |
| FeatureFusion.FillMatrix | src/complaint_priority/features/feature_selector.py:69-82 | the loop visits the chunks in order; on success every row's fused features sit in the matrix row of the same index; a block of the wrong width stops it at that chunk, with the earlier chunks stored |
| FeatureFusion.ProcessFeaturesLazy | src/complaint_priority/features/feature_selector.py:49-86 | an empty table fails with NoSamples before any matrix or encoder exists; otherwise encoders fitted once on the whole table (target encoder against the temporary label), matrix of size rows x (384 + 3 + one-hot width); succeeds iff every fused row has that width, and then every row is stored and the encoders saved |
| FeatureFusion.WellShapedRowsFit | src/complaint_priority/features/feature_selector.py:63-81 | when the encoders and the model give widths 3, w and 384 on every row, every fused row fits the matrix |

## Left out

- **File I/O is not modelled.** Reading the CSV, Parquet and YAML files,
  writing Parquet, `joblib.dump`, directory creation and logging (including
  `tqdm`) are all absent. Reading the configuration is the boolean
  `configRead`. Each chunk read is a `Read` value, which may have failed.
  The file on disk is the `SilverFile` object.
- **pydantic's type coercion is a parameter.** The coercion of text to an
  integer or a datetime is `Coercions`, and only its success or failure is
  modelled.
- **The CSV reader's work is not modelled.** Its dtype map, the `usecols`
  selection and the zip decompression are absent. The model starts from the
  header and cells the reader yields. A cell is NaN or text; `ReadCell`
  states which fields pandas' default missing-value markers turn into NaN.
  Because of `usecols`, a real reader raises on a header that lacks the
  narrative column. The model keeps `validate_chunk`'s own KeyError for
  such a chunk all the same.
- **The column map is derived, not read.** `pydantic_column_map` is derived
  from the field declarations as `RenameColumn`. The model proves the
  rename transparent on raw headers (`Ingestion.RenameIsTransparent`).
  Headers that spell a column as a field name which is not also its alias
  are outside that lemma's precondition.
- **Arrow schema inference covers only the nulls.** Only the shape of the
  schema is modelled: no columns for an empty frame, and a null type for an
  optional column that is all None. Arrow's other type inference and
  pandas metadata are left out.
- **The gold file's output is not modelled.** `BuildGoldLayer` returns the
  gold rows instead of writing Parquet. `astype(str)` is the identity,
  because silver narratives are already text.
- **`narrative_length` is not modelled.** The featured schema declares it,
  but no code fills it.
- **The encoders and the embedding model are parameters.** The target
  encoder's statistics, the one-hot categories and the sentence-embedding
  model are functions. Each transform is taken as row by row. The per-chunk
  block is the rows' fused rows stacked.
- **numpy's conversions and broadcasting are not modelled.** The matrix
  holds `real`, not float32. `flush` is not modelled. A block whose width
  differs from the matrix's is treated as an error, although numpy would
  broadcast a width-1 block.
- **FeatureFusion reads the silver table.** It reads the un-normalised
  silver narratives, not the gold ones, as the source does.
- GoldLayer.LowerCase: lowers ASCII letters only; Unicode case mapping is
  not modelled.
- GoldLayer.Collapse: whitespace is the ASCII part of Python's whitespace
  class (codes 9–13 and 28–32); Unicode whitespace is not modelled.
- Ingestion.RunDataIngestion: a configuration that fails after the silver
  path is bound is not modelled separately. It behaves like a first chunk
  read that raises, which the model covers.
