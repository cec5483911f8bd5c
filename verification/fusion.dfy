/**
 * Feature fusion: encoders fitted once on the whole silver table, then the
 * table walked in fixed-size chunks, each row turned into
 * [target-encoded | one-hot | text embedding] and written into the matching
 * row of a preallocated matrix.
 */
module FeatureFusion {
  import opened Wrappers
  import opened Ingestion
  import GoldLayer

  /** Width of the sentence embedding of a narrative. */
  const EmbeddingDim: nat := 384
  /** One target-encoded value for each of company, issue and sub-product. */
  const TargetEncodedDim: nat := 3
  /** Rows per chunk of the transform loop. */
  const ChunkSize: nat := 100

  /** The temporary label the target encoder is fitted against. */
  function TempLabel(r: SilverRecord): (t: int)
    ensures t == 0 || t == 1
  {
    if r.consumerDisputed == Some("Yes") || r.timelyResponse == "No" then 1 else 0
  }

  /** The temporary label is the gold layer's escalation label. */
  lemma TempLabelIsEscalationRisk(r: SilverRecord)
    ensures TempLabel(r) == GoldLayer.EscalationRisk(r.consumerDisputed, r.timelyResponse)
  {
  }

  /** The temporary label of every row, in order. */
  function TempLabels(rows: seq<SilverRecord>): (labels: seq<int>)
    ensures |labels| == |rows|
    ensures forall i :: 0 <= i < |rows| ==> labels[i] == TempLabel(rows[i])
  {
    seq(|rows|, i requires 0 <= i < |rows| => TempLabel(rows[i]))
  }

  // ---------------------------------------------------------------------------
  // Collaborators: fitted encoders and the embedding model, as opaque functions
  // ---------------------------------------------------------------------------

  /** The columns the target encoder reads: company, issue, sub-product. */
  type TargetInput = (string, string, Option<string>)
  /** The columns the one-hot encoder reads: product, state. */
  type OneHotInput = (string, Option<string>)

  function TargetInputOf(r: SilverRecord): TargetInput {
    (r.company, r.issue, r.subProduct)
  }

  function OneHotInputOf(r: SilverRecord): OneHotInput {
    (r.product, r.state)
  }

  datatype TargetEncoder = TargetEncoder(transform: TargetInput -> seq<real>)
  datatype OneHotEncoder = OneHotEncoder(featureNamesOut: seq<string>, transform: OneHotInput -> seq<real>)

  /** How the encoders are fitted, and the sentence-embedding model. */
  datatype Collaborators = Collaborators(
    fitTarget: (seq<TargetInput>, seq<int>) -> TargetEncoder,
    fitOneHot: seq<OneHotInput> -> OneHotEncoder,
    embed: string -> seq<real>)

  /** Output widths the fitted encoders and the model produce on `rows`. */
  ghost predicate WellShaped(te: TargetEncoder, ohe: OneHotEncoder, embed: string -> seq<real>, rows: seq<SilverRecord>) {
    forall r :: r in rows ==>
      && |te.transform(TargetInputOf(r))| == TargetEncodedDim
      && |ohe.transform(OneHotInputOf(r))| == |ohe.featureNamesOut|
      && |embed(r.narrative)| == EmbeddingDim
  }

  /** Columns of the feature matrix. */
  function TotalFeatureDim(oneHotWidth: nat): nat {
    EmbeddingDim + TargetEncodedDim + oneHotWidth
  }

  /** One row of features: the horizontal stack of the three transforms. */
  function FusedRow(te: TargetEncoder, ohe: OneHotEncoder, embed: string -> seq<real>, r: SilverRecord): (row: seq<real>)
    ensures |row| == |te.transform(TargetInputOf(r))| + |ohe.transform(OneHotInputOf(r))| + |embed(r.narrative)|
  {
    te.transform(TargetInputOf(r)) + ohe.transform(OneHotInputOf(r)) + embed(r.narrative)
  }

  /**
   * With well-shaped transforms a fused row has the matrix's width, columns
   * [0,3) are target-encoded, [3,3+w) one-hot and [3+w,3+w+384) the embedding.
   */
  lemma FusedRowLayout(te: TargetEncoder, ohe: OneHotEncoder, embed: string -> seq<real>, r: SilverRecord)
    requires |te.transform(TargetInputOf(r))| == TargetEncodedDim
    requires |ohe.transform(OneHotInputOf(r))| == |ohe.featureNamesOut|
    requires |embed(r.narrative)| == EmbeddingDim
    ensures var row := FusedRow(te, ohe, embed, r);
      var w := |ohe.featureNamesOut|;
      && |row| == TotalFeatureDim(w)
      && (forall j :: 0 <= j < 3 ==> row[j] == te.transform(TargetInputOf(r))[j])
      && (forall j :: 3 <= j < 3 + w ==> row[j] == ohe.transform(OneHotInputOf(r))[j - 3])
      && (forall j :: 3 + w <= j < 3 + w + 384 ==> row[j] == embed(r.narrative)[j - 3 - w])
  {
  }

  // ---------------------------------------------------------------------------
  // Chunk tiling: range(0, n, size) with end = min(start + size, n)
  // ---------------------------------------------------------------------------

  function Min(a: nat, b: nat): nat {
    if a <= b then a else b
  }

  /** The half-open row range [lo, hi) of one chunk. */
  datatype Span = Span(lo: nat, hi: nat)

  predicate InSpan(s: Span, i: int) {
    s.lo <= i < s.hi
  }

  /** The chunks that start at `start`, `start + size`, ... below `n`, each ending at `min(start + size, n)`. */
  function ChunksFrom(start: nat, n: nat, size: nat): seq<Span>
    requires size > 0
    decreases n - start
  {
    if start >= n then [] else [Span(start, Min(start + size, n))] + ChunksFrom(start + size, n, size)
  }

  /** The chunks of `range(0, n, size)`. */
  function Chunks(n: nat, size: nat): seq<Span>
    requires size > 0
  {
    ChunksFrom(0, n, size)
  }

  /** Every chunk is a non-empty range inside [start, n) of at most `size` rows. */
  ghost predicate Bounded(cs: seq<Span>, start: nat, n: nat, size: nat) {
    forall k :: 0 <= k < |cs| ==> start <= cs[k].lo < cs[k].hi <= n && cs[k].hi - cs[k].lo <= size
  }

  /** Each chunk starts where the previous one ended. */
  ghost predicate Contiguous(cs: seq<Span>) {
    forall k, l :: 0 <= k && l == k + 1 && l < |cs| ==> cs[k].hi == cs[l].lo
  }

  /** Later chunks lie wholly after earlier ones, so no row is in two chunks. */
  ghost predicate Ordered(cs: seq<Span>) {
    forall k, l :: 0 <= k < l < |cs| ==> cs[k].hi <= cs[l].lo
  }

  ghost predicate Covered(cs: seq<Span>, i: int) {
    exists k :: 0 <= k < |cs| && InSpan(cs[k], i)
  }

  /** Every row of [start, n) lies in some chunk. */
  ghost predicate Covers(cs: seq<Span>, start: nat, n: nat) {
    forall i :: start <= i < n ==> Covered(cs, i)
  }

  lemma {:induction false} ChunksFromBounded(start: nat, n: nat, size: nat)
    requires size > 0
    ensures (ChunksFrom(start, n, size) == []) == (start >= n)
    ensures Bounded(ChunksFrom(start, n, size), start, n, size)
    ensures ChunksFrom(start, n, size) != [] ==>
      ChunksFrom(start, n, size)[0].lo == start && ChunksFrom(start, n, size)[|ChunksFrom(start, n, size)| - 1].hi == n
    decreases n - start
  {
    if start < n {
      var rest := ChunksFrom(start + size, n, size);
      ChunksFromBounded(start + size, n, size);
      var cs := [Span(start, Min(start + size, n))] + rest;
      assert ChunksFrom(start, n, size) == cs;
      forall k | 0 <= k < |cs| ensures start <= cs[k].lo < cs[k].hi <= n && cs[k].hi - cs[k].lo <= size {
        if k > 0 {
          assert cs[k] == rest[k - 1];
        }
      }
      if rest != [] {
        assert cs[|cs| - 1] == rest[|rest| - 1];
      }
    }
  }

  lemma {:induction false} ChunksFromContiguous(start: nat, n: nat, size: nat)
    requires size > 0
    ensures Contiguous(ChunksFrom(start, n, size)) && Ordered(ChunksFrom(start, n, size))
    decreases n - start
  {
    if start < n {
      var rest := ChunksFrom(start + size, n, size);
      ChunksFromContiguous(start + size, n, size);
      ChunksFromBounded(start + size, n, size);
      var cs := [Span(start, Min(start + size, n))] + rest;
      assert ChunksFrom(start, n, size) == cs;
      forall k, l | 0 <= k && l == k + 1 && l < |cs| ensures cs[k].hi == cs[l].lo {
        assert cs[l] == rest[l - 1];
        if k > 0 {
          assert cs[k] == rest[k - 1];
        }
      }
      forall k, l | 0 <= k < l < |cs| ensures cs[k].hi <= cs[l].lo {
        assert cs[l] == rest[l - 1];
        if k > 0 {
          assert cs[k] == rest[k - 1];
        }
      }
    }
  }

  lemma {:induction false} ChunksFromCovers(start: nat, n: nat, size: nat)
    requires size > 0
    ensures Covers(ChunksFrom(start, n, size), start, n)
    decreases n - start
  {
    if start < n {
      var rest := ChunksFrom(start + size, n, size);
      ChunksFromCovers(start + size, n, size);
      var cs := [Span(start, Min(start + size, n))] + rest;
      assert ChunksFrom(start, n, size) == cs;
      forall i | start <= i < n ensures Covered(cs, i) {
        if i < Min(start + size, n) {
          assert InSpan(cs[0], i);
        } else {
          assert Covered(rest, i);
          var k :| 0 <= k < |rest| && InSpan(rest[k], i);
          assert cs[k + 1] == rest[k];
        }
      }
    }
  }

  /** The number of chunks from `start` is the least count whose `size`-row steps reach `n`. */
  lemma {:induction false} ChunksFromCount(start: nat, n: nat, size: nat)
    requires size > 0
    ensures start + |ChunksFrom(start, n, size)| * size >= n
    ensures ChunksFrom(start, n, size) != [] ==> start + (|ChunksFrom(start, n, size)| - 1) * size < n
    decreases n - start
  {
    if start < n {
      var rest := ChunksFrom(start + size, n, size);
      ChunksFromCount(start + size, n, size);
      assert |ChunksFrom(start, n, size)| == 1 + |rest|;
      assert (1 + |rest|) * size == size + |rest| * size;
      if rest != [] {
        assert |rest| * size == size + (|rest| - 1) * size;
      }
    }
  }

  /**
   * The chunks of [0, n) are ceil(n / size) non-empty ranges of at most
   * `size` rows, contiguous and disjoint, that cover [0, n) exactly, the first
   * starting at 0 and the last ending at n; there are none when n is 0.
   */
  lemma ChunksTile(n: nat, size: nat)
    requires size > 0
    ensures (Chunks(n, size) == []) == (n == 0)
    ensures |Chunks(n, size)| * size >= n && (n > 0 ==> (|Chunks(n, size)| - 1) * size < n)
    ensures Bounded(Chunks(n, size), 0, n, size)
    ensures Contiguous(Chunks(n, size)) && Ordered(Chunks(n, size)) && Covers(Chunks(n, size), 0, n)
    ensures Chunks(n, size) != [] ==> Chunks(n, size)[0].lo == 0 && Chunks(n, size)[|Chunks(n, size)| - 1].hi == n
  {
    ChunksFromBounded(0, n, size);
    ChunksFromContiguous(0, n, size);
    ChunksFromCovers(0, n, size);
    ChunksFromCount(0, n, size);
  }

  // ---------------------------------------------------------------------------
  // The chunked transform loop
  // ---------------------------------------------------------------------------

  /**
   * Why the fusion stops: the encoders cannot be fitted on a table without
   * rows, or numpy refuses to store a block whose width is not the matrix's
   * (the rows of that chunk).
   */
  datatype FusionError = NoSamples | BlockShapeMismatch(start: nat, end: nat)

  /** The per-chunk block: the fused rows of `rows[start..end]`, in order. */
  function FusedBlock(te: TargetEncoder, ohe: OneHotEncoder, embed: string -> seq<real>, rows: seq<SilverRecord>, start: nat, end: nat): (block: seq<seq<real>>)
    requires start <= end <= |rows|
    ensures |block| == end - start
    ensures forall k :: 0 <= k < |block| ==> block[k] == FusedRow(te, ohe, embed, rows[start + k])
  {
    seq(end - start, k requires 0 <= k < end - start => FusedRow(te, ohe, embed, rows[start + k]))
  }

  /** The blocks of the given chunks, stacked vertically in order. */
  function StackedBlocks(te: TargetEncoder, ohe: OneHotEncoder, embed: string -> seq<real>, rows: seq<SilverRecord>, cs: seq<Span>): (stack: seq<seq<real>>)
    requires forall k :: 0 <= k < |cs| ==> cs[k].lo <= cs[k].hi <= |rows|
  {
    if cs == [] then [] else FusedBlock(te, ohe, embed, rows, cs[0].lo, cs[0].hi) + StackedBlocks(te, ohe, embed, rows, cs[1..])
  }

  /** Two adjacent blocks stack into the block of their union. */
  lemma BlocksJoin(te: TargetEncoder, ohe: OneHotEncoder, embed: string -> seq<real>, rows: seq<SilverRecord>, lo: nat, mid: nat, hi: nat)
    requires lo <= mid <= hi <= |rows|
    ensures FusedBlock(te, ohe, embed, rows, lo, mid) + FusedBlock(te, ohe, embed, rows, mid, hi) == FusedBlock(te, ohe, embed, rows, lo, hi)
  {
    var left, right := FusedBlock(te, ohe, embed, rows, lo, mid), FusedBlock(te, ohe, embed, rows, mid, hi);
    forall k | 0 <= k < hi - lo ensures (left + right)[k] == FusedRow(te, ohe, embed, rows[lo + k]) {
      if k >= mid - lo {
        assert (left + right)[k] == right[k - (mid - lo)];
      }
    }
  }

  /** The blocks of the chunks from `start` stack into the block of `rows[start..]`. */
  lemma {:induction false} StackedFrom(te: TargetEncoder, ohe: OneHotEncoder, embed: string -> seq<real>, rows: seq<SilverRecord>, start: nat)
    requires start <= |rows|
    ensures Bounded(ChunksFrom(start, |rows|, ChunkSize), start, |rows|, ChunkSize)
    ensures StackedBlocks(te, ohe, embed, rows, ChunksFrom(start, |rows|, ChunkSize)) == FusedBlock(te, ohe, embed, rows, start, |rows|)
    decreases |rows| - start
  {
    var n := |rows|;
    ChunksFromBounded(start, n, ChunkSize);
    if start < n {
      var end := Min(start + ChunkSize, n);
      var rest := ChunksFrom(start + ChunkSize, n, ChunkSize);
      var cs := [Span(start, end)] + rest;
      assert ChunksFrom(start, n, ChunkSize) == cs;
      assert cs[1..] == rest;
      if start + ChunkSize <= n {
        StackedFrom(te, ohe, embed, rows, start + ChunkSize);
      } else {
        assert rest == [];
      }
      BlocksJoin(te, ohe, embed, rows, start, end, n);
    }
  }

  /**
   * Chunking does not change the matrix: the blocks of the chunks of
   * `range(0, n, 100)`, stacked in order, are the fused rows of the whole
   * table, one for each row and in row order.
   */
  lemma BlocksStackToFusedRows(te: TargetEncoder, ohe: OneHotEncoder, embed: string -> seq<real>, rows: seq<SilverRecord>)
    ensures Bounded(Chunks(|rows|, ChunkSize), 0, |rows|, ChunkSize)
    ensures var stack := StackedBlocks(te, ohe, embed, rows, Chunks(|rows|, ChunkSize));
      |stack| == |rows| && forall i :: 0 <= i < |rows| ==> stack[i] == FusedRow(te, ohe, embed, rows[i])
  {
    StackedFrom(te, ohe, embed, rows, 0);
  }

  /**
   * The slice assignment `matrix[start:start + |block|, :] = block`: those
   * rows take the block's rows, every other entry keeps its value.
   */
  method StoreBlock(matrix: array2<real>, start: nat, block: seq<seq<real>>)
    requires start + |block| <= matrix.Length0
    requires forall k :: 0 <= k < |block| ==> |block[k]| == matrix.Length1
    modifies matrix
    ensures forall i, j :: 0 <= i < matrix.Length0 && 0 <= j < matrix.Length1 ==>
      matrix[i, j] == if start <= i < start + |block| then block[i - start][j] else old(matrix[i, j])
  {
    forall i, j | start <= i < start + |block| && 0 <= j < matrix.Length1 {
      matrix[i, j] := block[i - start][j];
    }
  }

  /** Every row of `rows[..upTo]` has the matrix's width and sits in the matrix row of the same index. */
  ghost predicate RowsStored(matrix: array2<real>, te: TargetEncoder, ohe: OneHotEncoder, embed: string -> seq<real>, rows: seq<SilverRecord>, upTo: nat)
    requires upTo <= |rows| && upTo <= matrix.Length0
    reads matrix
  {
    && (forall i :: 0 <= i < upTo ==> |FusedRow(te, ohe, embed, rows[i])| == matrix.Length1)
    && (forall i, j :: 0 <= i < upTo && 0 <= j < matrix.Length1 ==> matrix[i, j] == FusedRow(te, ohe, embed, rows[i])[j])
  }

  /** One iteration's store: the block of `rows[start..end]` fills its rows and extends the stored prefix to `end`. */
  method StoreChunk(matrix: array2<real>, te: TargetEncoder, ohe: OneHotEncoder, embed: string -> seq<real>, rows: seq<SilverRecord>,
                    start: nat, end: nat, block: seq<seq<real>>)
    requires start <= end <= |rows| == matrix.Length0
    requires block == FusedBlock(te, ohe, embed, rows, start, end)
    requires forall k :: 0 <= k < |block| ==> |block[k]| == matrix.Length1
    requires RowsStored(matrix, te, ohe, embed, rows, start)
    modifies matrix
    ensures RowsStored(matrix, te, ohe, embed, rows, end)
    ensures forall i, j :: 0 <= i < matrix.Length0 && 0 <= j < matrix.Length1 && !(start <= i < end) ==>
      matrix[i, j] == old(matrix[i, j])
  {
    StoreBlock(matrix, start, block);
    forall i | 0 <= i < end ensures |FusedRow(te, ohe, embed, rows[i])| == matrix.Length1 {
      if i >= start {
        assert block[i - start] == FusedRow(te, ohe, embed, rows[i]);
      }
    }
  }

  /** A block with a row of the wrong width has a source row of the wrong width in its span. */
  lemma MisshapedRowInChunk(te: TargetEncoder, ohe: OneHotEncoder, embed: string -> seq<real>, rows: seq<SilverRecord>,
                            start: nat, end: nat, dim: nat)
    requires start <= end <= |rows|
    requires exists k :: 0 <= k < end - start && |FusedBlock(te, ohe, embed, rows, start, end)[k]| != dim
    ensures exists i :: start <= i < end && |FusedRow(te, ohe, embed, rows[i])| != dim
  {
    var block := FusedBlock(te, ohe, embed, rows, start, end);
    var k :| 0 <= k < end - start && |block[k]| != dim;
    assert block[k] == FusedRow(te, ohe, embed, rows[start + k]);
  }

  /** The left part of a split sequence is a prefix of the whole. */
  lemma PrefixOfWhole<T>(a: seq<T>, b: seq<T>, whole: seq<T>)
    requires a + b == whole
    ensures a <= whole
  {
    assert whole[..|a|] == a;
  }

  /**
   * The loop `for start in range(0, n, 100)`: visits the chunks of `Chunks`
   * in order and stores each chunk's block in the matching rows. It stops at
   * the first block whose width is not the matrix's, with the rows of the
   * earlier chunks stored.
   */
  method FillMatrix(matrix: array2<real>, te: TargetEncoder, ohe: OneHotEncoder, embed: string -> seq<real>, rows: seq<SilverRecord>)
    returns (error: Option<FusionError>, ghost visited: seq<Span>)
    requires matrix.Length0 == |rows|
    modifies matrix
    ensures error.None? ==> visited == Chunks(|rows|, ChunkSize) && RowsStored(matrix, te, ohe, embed, rows, |rows|)
    ensures error.Some? ==>
      && visited != [] && visited <= Chunks(|rows|, ChunkSize)
      && error.value == BlockShapeMismatch(visited[|visited| - 1].lo, visited[|visited| - 1].hi)
      && error.value.start < error.value.end <= |rows|
      && (exists i :: error.value.start <= i < error.value.end && |FusedRow(te, ohe, embed, rows[i])| != matrix.Length1)
      && RowsStored(matrix, te, ohe, embed, rows, error.value.start)
  {
    var n := |rows|;
    var dim := matrix.Length1;
    visited := [];
    var start: nat := 0;
    while start < n
      invariant visited + ChunksFrom(start, n, ChunkSize) == Chunks(n, ChunkSize)
      invariant RowsStored(matrix, te, ohe, embed, rows, Min(start, n))
      decreases n - start
    {
      var end := Min(start + ChunkSize, n);
      var block := FusedBlock(te, ohe, embed, rows, start, end);
      ghost var rest := ChunksFrom(start + ChunkSize, n, ChunkSize);
      assert ChunksFrom(start, n, ChunkSize) == [Span(start, end)] + rest;
      assert visited + ([Span(start, end)] + rest) == (visited + [Span(start, end)]) + rest;
      visited := visited + [Span(start, end)];
      if exists k :: 0 <= k < |block| && |block[k]| != dim {
        MisshapedRowInChunk(te, ohe, embed, rows, start, end, dim);
        PrefixOfWhole(visited, rest, Chunks(n, ChunkSize));
        return Some(BlockShapeMismatch(start, end)), visited;
      }
      StoreChunk(matrix, te, ohe, embed, rows, start, end, block);
      assert Min(start + ChunkSize, n) == end;
      start := start + ChunkSize;
    }
    assert Min(start, n) == n;
    return None, visited;
  }

  /** The inputs the two encoders are fitted on: their columns of every row. */
  function TargetInputs(rows: seq<SilverRecord>): (inputs: seq<TargetInput>)
    ensures |inputs| == |rows| && forall i :: 0 <= i < |rows| ==> inputs[i] == TargetInputOf(rows[i])
  {
    seq(|rows|, i requires 0 <= i < |rows| => TargetInputOf(rows[i]))
  }

  function OneHotInputs(rows: seq<SilverRecord>): (inputs: seq<OneHotInput>)
    ensures |inputs| == |rows| && forall i :: 0 <= i < |rows| ==> inputs[i] == OneHotInputOf(rows[i])
  {
    seq(|rows|, i requires 0 <= i < |rows| => OneHotInputOf(rows[i]))
  }

  /**
   * Fits the two encoders once on the whole table (the target encoder against
   * the temporary label), allocates a zero-filled |rows| x (384 + 3 + w)
   * matrix, fills it chunk by chunk and then persists the encoders. A block
   * of the wrong width stops the run before anything is persisted. Fitting
   * the encoders raises on a table without rows, so an empty table stops the
   * run before any matrix exists.
   */
  method ProcessFeaturesLazy(rows: seq<SilverRecord>, c: Collaborators)
    returns (error: Option<FusionError>, matrix: array2?<real>, saved: Option<(TargetEncoder, OneHotEncoder)>)
    ensures rows == [] <==> error == Some(NoSamples)
    ensures rows == [] ==> matrix == null && saved == None
    ensures rows != [] ==>
      var te := c.fitTarget(TargetInputs(rows), TempLabels(rows));
      var ohe := c.fitOneHot(OneHotInputs(rows));
      && matrix != null && fresh(matrix)
      && matrix.Length0 == |rows| && matrix.Length1 == TotalFeatureDim(|ohe.featureNamesOut|)
      && (error.None? <==> forall i :: 0 <= i < |rows| ==> |FusedRow(te, ohe, c.embed, rows[i])| == matrix.Length1)
      && (error.None? ==> saved == Some((te, ohe)) && RowsStored(matrix, te, ohe, c.embed, rows, |rows|))
      && (error.Some? ==>
            && saved == None && error.value.BlockShapeMismatch? && error.value.start < |rows|
            && RowsStored(matrix, te, ohe, c.embed, rows, error.value.start))
  {
    if rows == [] {
      return Some(NoSamples), null, None;
    }
    var te := c.fitTarget(TargetInputs(rows), TempLabels(rows));
    var ohe := c.fitOneHot(OneHotInputs(rows));
    var m := new real[|rows|, TotalFeatureDim(|ohe.featureNamesOut|)]((i, j) => 0.0);
    ghost var visited;
    error, visited := FillMatrix(m, te, ohe, c.embed, rows);
    matrix := m;
    saved := if error.None? then Some((te, ohe)) else None;
  }

  /** With well-shaped encoders and model, the transform loop stores every chunk. */
  lemma WellShapedRowsFit(te: TargetEncoder, ohe: OneHotEncoder, embed: string -> seq<real>, rows: seq<SilverRecord>)
    requires WellShaped(te, ohe, embed, rows)
    ensures forall i :: 0 <= i < |rows| ==> |FusedRow(te, ohe, embed, rows[i])| == TotalFeatureDim(|ohe.featureNamesOut|)
  {
    forall i | 0 <= i < |rows| ensures |FusedRow(te, ohe, embed, rows[i])| == TotalFeatureDim(|ohe.featureNamesOut|) {
      assert rows[i] in rows;
    }
  }
}
