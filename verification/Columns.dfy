/** The column generators of benchmark/parquet_format_benchmark.cpp. */
module Columns {
  import opened Records

  /** The string `value_<n>`. */
  datatype Label = Label(n: int)

  const TWO31: int := 0x8000_0000
  const TWO32: int := 0x1_0000_0000

  /** `static_cast<int32_t>`. */
  function Int32(x: int): (r: int)
    ensures -TWO31 <= r < TWO31 && (-TWO31 <= x < TWO31 ==> r == x)
  {
    (x + TWO31) % TWO32 - TWO31
  }

  /** `x % c` for the non-negative numbers of the generators. */
  function Residue(x: nat, c: nat): (r: nat)
    requires c > 0
    ensures r < c && (x < c ==> r == x)
    decreases x
  {
    if x < c then x else Residue(x - c, c)
  }

  lemma {:induction false} ResidueIsMod(x: nat, c: nat)
    requires c > 0
    ensures Residue(x, c) == x % c
    decreases x
  {
    if x >= c {
      ResidueIsMod(x - c, c);
      var q, r := (x - c) / c, (x - c) % c;
      assert x == c * (q + 1) + r;
      DivisionIs(x, c, q + 1, r);
    }
  }

  /** Division with remainder is unique. */
  lemma DivisionIs(x: int, c: int, q: int, r: int)
    requires c > 0 && x == c * q + r && 0 <= r < c
    ensures x / c == q && x % c == r
  {
    var p, s := x / c, x % c;
    assert c * (q - p) == s - r;
    assert -c < s - r < c;
    NoMultiple(c, q - p);
  }

  lemma NoMultiple(c: int, k: int)
    requires c > 0 && -c < c * k < c
    ensures k == 0
  {
    assert k >= 1 ==> c * k >= c;
    assert k <= -1 ==> c * k <= -c;
  }

  /** Adding to the residue is adding to the number. */
  lemma {:induction false} ResidueInside(x: nat, r: nat, c: nat)
    requires c > 0
    ensures Residue(Residue(x, c) + r, c) == Residue(x + r, c)
    decreases x
  {
    if x >= c { ResidueInside(x - c, r, c); }
  }

  /** A column whose value at row `x` of the file is `g(x)`. */
  function Column<T>(g: nat -> T, offset: nat, rows: nat): (r: seq<T>)
    ensures |r| == rows && forall i :: 0 <= i < rows ==> r[i] == g(offset + i)
  {
    seq(rows, i requires 0 <= i < rows => g(offset + i))
  }

  /** The plain string column. */
  function Strings(c: nat, offset: nat, rows: nat): (r: seq<Label>)
    requires c > 0
    ensures |r| == rows && forall i :: 0 <= i < rows ==> r[i] == Label(Residue(offset + i, c))
  {
    seq(rows, i requires 0 <= i < rows => Label(Residue(offset + i, c)))
  }

  /** The flat int32 column. */
  function Ints(c: nat, offset: nat, rows: nat): (r: seq<int>)
    requires c > 0
    ensures |r| == rows && forall i :: 0 <= i < rows ==> r[i] == Int32(Residue(offset + i, c) * 7)
  {
    seq(rows, i requires 0 <= i < rows => Int32(Residue(offset + i, c) * 7))
  }

  /** The int32 indices of a dictionary column. */
  function Indices(c: nat, offset: nat, rows: nat): (r: seq<int>)
    requires c > 0
    ensures |r| == rows && forall i :: 0 <= i < rows ==> r[i] == Int32(Residue(offset + i, c))
  {
    seq(rows, i requires 0 <= i < rows => Int32(Residue(offset + i, c)))
  }

  method MakeStringColumn(rows: nat, offset: nat, c: nat) returns (column: seq<Label>)
    requires c > 0
    ensures column == Strings(c, offset, rows)
  {
    column := [];
    var i := 0;
    while i < rows
      invariant 0 <= i <= rows && column == Strings(c, offset, i)
    {
      ResidueIsMod(offset + i, c);
      var value := (offset + i) % c;
      column := column + [Label(value)];
      i := i + 1;
    }
  }

  method MakeInt32Column(rows: nat, offset: nat, c: nat) returns (column: seq<int>)
    requires c > 0
    ensures column == Ints(c, offset, rows)
  {
    column := [];
    var i := 0;
    while i < rows
      invariant 0 <= i <= rows && column == Ints(c, offset, i)
    {
      ResidueIsMod(offset + i, c);
      column := column + [Int32(((offset + i) % c) * 7)];
      i := i + 1;
    }
  }

  /** Dictionary-encoded values. */
  datatype Encoded<T> = Encoded(indices: seq<int>, values: seq<T>)

  /** `DictionaryArray::FromArrays` refuses indices outside the dictionary. */
  predicate InBounds(indices: seq<int>, n: nat) {
    forall i :: 0 <= i < |indices| ==> 0 <= indices[i] < n
  }

  function Decode<T>(e: Encoded<T>): (r: seq<T>)
    requires InBounds(e.indices, |e.values|)
    ensures |r| == |e.indices| && forall i :: 0 <= i < |r| ==> r[i] == e.values[e.indices[i]]
  {
    seq(|e.indices|, i requires 0 <= i < |e.indices| => e.values[e.indices[i]])
  }

  method MakeDictionaryColumn<T>(values: seq<T>, rows: nat, offset: nat) returns (r: Option<Encoded<T>>)
    requires values != []
    ensures var indices := Indices(|values|, offset, rows);
      r == if InBounds(indices, |values|) then Some(Encoded(indices, values)) else None
  {
    var indices := [];
    var i := 0;
    while i < rows
      invariant 0 <= i <= rows && indices == Indices(|values|, offset, i)
    {
      ResidueIsMod(offset + i, |values|);
      indices := indices + [Int32((offset + i) % |values|)];
      i := i + 1;
    }
    r := if InBounds(indices, |values|) then Some(Encoded(indices, values)) else None;
  }

  /** The index of row `x` survives the cast. */
  predicate Fits(x: nat, c: nat)
    requires c > 0
  {
    Residue(x, c) < TWO31
  }

  ghost predicate IndicesFit(offset: nat, rows: nat, c: nat)
    requires c > 0
  {
    forall x :: offset <= x < offset + rows ==> Fits(x, c)
  }

  lemma FittingIndex(x: nat, c: nat)
    requires c > 0
    ensures Int32(Residue(x, c)) == Residue(x, c) <==> Fits(x, c)
  {
  }

  lemma FittingInBounds(offset: nat, rows: nat, c: nat)
    requires c > 0 && IndicesFit(offset, rows, c)
    ensures InBounds(Indices(c, offset, rows), c)
    ensures forall i :: 0 <= i < rows ==> Indices(c, offset, rows)[i] == Residue(offset + i, c)
  {
    forall i | 0 <= i < rows ensures Indices(c, offset, rows)[i] == Residue(offset + i, c) {
      assert Fits(offset + i, c);
      FittingIndex(offset + i, c);
    }
  }

  lemma AlphabetEntry(rotation: nat, j: nat, c: nat)
    requires c > 0 && j < c
    ensures Strings(c, rotation, c)[j] == Label(Residue(j + rotation, c))
  {
  }

  lemma PlainFits(offset: nat, rows: nat, c: nat, i: nat)
    requires c > 0 && i < rows && InBounds(Indices(c, offset, rows), c)
    requires Decode(Encoded(Indices(c, offset, rows), Strings(c, 0, c)))[i] == Label(Residue(offset + i, c))
    ensures Fits(offset + i, c)
  {
    var e := Encoded(Indices(c, offset, rows), Strings(c, 0, c));
    AlphabetEntry(0, e.indices[i], c);
    FittingIndex(offset + i, c);
  }

  lemma PlainAt(offset: nat, rows: nat, c: nat, i: nat)
    requires c > 0 && i < rows && Indices(c, offset, rows)[i] == Residue(offset + i, c)
    ensures Strings(c, 0, c)[Indices(c, offset, rows)[i]] == Label(Residue(offset + i, c))
  {
    AlphabetEntry(0, Residue(offset + i, c), c);
  }

  /** The dictionary column over the alphabet `value_0 ...` is the plain column exactly when every index
      fits 32 bits. */
  lemma DictionaryIsPlain(offset: nat, rows: nat, c: nat)
    requires c > 0
    ensures var e := Encoded(Indices(c, offset, rows), Strings(c, 0, c));
      (InBounds(e.indices, c) && Decode(e) == Strings(c, offset, rows)) <==> IndicesFit(offset, rows, c)
  {
    var e := Encoded(Indices(c, offset, rows), Strings(c, 0, c));
    if IndicesFit(offset, rows, c) {
      FittingInBounds(offset, rows, c);
      forall i | 0 <= i < rows ensures Decode(e)[i] == Label(Residue(offset + i, c)) {
        PlainAt(offset, rows, c, i);
      }
    }
    if InBounds(e.indices, c) && Decode(e) == Strings(c, offset, rows) {
      forall x | offset <= x < offset + rows ensures Fits(x, c) {
        PlainFits(offset, rows, c, x - offset);
      }
    }
  }

  /** Rotating the alphabet and shifting the indices the other way cancel. */
  lemma RotationCancels(x: nat, rotation: nat, c: nat)
    requires rotation < c
    ensures Residue(Residue(x + c - rotation, c) + rotation, c) == Residue(x, c)
  {
    ResidueInside(x + c - rotation, rotation, c);
  }

  lemma FittingIsPlain(offset: nat, rows: nat, c: nat, rotation: nat)
    requires rotation < c && IndicesFit(offset + c - rotation, rows, c)
    ensures var e := Encoded(Indices(c, offset + c - rotation, rows), Strings(c, rotation, c));
      InBounds(e.indices, c) && Decode(e) == Strings(c, offset, rows)
  {
    var shifted := offset + c - rotation;
    var e := Encoded(Indices(c, shifted, rows), Strings(c, rotation, c));
    FittingInBounds(shifted, rows, c);
    forall i | 0 <= i < rows ensures Decode(e)[i] == Label(Residue(offset + i, c)) {
      RotatedAt(offset + i, c, rotation, e.indices[i]);
    }
  }

  /** The rotated dictionary decodes to the plain column, whatever the offset and the number of rows,
      exactly when every index fits 32 bits. */
  lemma RotatedIsPlain(offset: nat, rows: nat, c: nat, rotation: nat)
    requires rotation < c
    ensures var e := Encoded(Indices(c, offset + c - rotation, rows), Strings(c, rotation, c));
      (InBounds(e.indices, c) && Decode(e) == Strings(c, offset, rows)) <==> IndicesFit(offset + c - rotation, rows, c)
  {
    var shifted := offset + c - rotation;
    var e := Encoded(Indices(c, shifted, rows), Strings(c, rotation, c));
    if IndicesFit(shifted, rows, c) {
      FittingIsPlain(offset, rows, c, rotation);
    }
    if InBounds(e.indices, c) && Decode(e) == Strings(c, offset, rows) {
      PlainIsFitting(offset, rows, c, rotation);
    }
  }

  lemma PlainIsFitting(offset: nat, rows: nat, c: nat, rotation: nat)
    requires rotation < c
    requires var e := Encoded(Indices(c, offset + c - rotation, rows), Strings(c, rotation, c));
      InBounds(e.indices, c) && Decode(e) == Strings(c, offset, rows)
    ensures IndicesFit(offset + c - rotation, rows, c)
  {
    var shifted := offset + c - rotation;
    var e := Encoded(Indices(c, shifted, rows), Strings(c, rotation, c));
    forall x | shifted <= x < shifted + rows ensures Fits(x, c) {
      var i := x - shifted;
      assert Decode(e)[i] == Strings(c, offset, rows)[i];
      RotatedFits(offset + i, c, rotation, e.indices[i]);
    }
  }

  lemma RotatedFits(x: nat, c: nat, rotation: nat, index: nat)
    requires rotation < c && index < c && index == Int32(Residue(x + c - rotation, c))
    requires Strings(c, rotation, c)[index] == Label(Residue(x, c))
    ensures Fits(x + c - rotation, c)
  {
    AlphabetEntry(rotation, index, c);
    RotationCancels(x, rotation, c);
    SameResidue(index, Residue(x + c - rotation, c), rotation, c);
    FittingIndex(x + c - rotation, c);
  }

  lemma SameResidue(j: nat, k: nat, r: nat, c: nat)
    requires j < c && k < c && r < c && Residue(j + r, c) == Residue(k + r, c)
    ensures j == k
  {
    assert Residue(j + r, c) == if j + r < c then j + r else j + r - c;
    assert Residue(k + r, c) == if k + r < c then k + r else k + r - c;
  }

  lemma RotatedAt(x: nat, c: nat, rotation: nat, index: nat)
    requires rotation < c && index == Residue(x + c - rotation, c)
    ensures Strings(c, rotation, c)[index] == Label(Residue(x, c))
  {
    AlphabetEntry(rotation, index, c);
    RotationCancels(x, rotation, c);
  }

  /** How far the alphabet of a batch is rotated. */
  function Rotation(rows: nat, offset: nat, c: nat): (r: nat)
    requires c > 0
    ensures r < c
  {
    if rows == 0 then 0 else QuotientNat(offset, rows); (offset / rows) % c
  }

  /** The alphabet of the `j`-th full batch is rotated by `j` entries. */
  lemma RotationOf(size: nat, j: nat, c: nat)
    requires size > 0 && c > 0
    ensures Rotation(size, j * size, c) == j % c == Residue(j, c)
  {
    DivisionIs(j * size, size, j, 0);
    ResidueIsMod(j, c);
  }

  lemma AlphabetMoves(j: nat, c: nat, i: nat)
    requires i < c
    ensures Strings(c, Residue(j + 1, c), c)[i] == Strings(c, Residue(j, c), c)[if i + 1 < c then i + 1 else 0]
  {
    AlphabetEntry(Residue(j + 1, c), i, c);
    AlphabetEntry(Residue(j, c), if i + 1 < c then i + 1 else 0, c);
    ResidueInside(j + 1, i, c);
    ResidueInside(j, if i + 1 < c then i + 1 else 0, c);
  }

  /** From one full batch to the next the dictionary moves on by one entry: its first entry becomes the last. */
  lemma DictionaryMovesOn(size: nat, j: nat, c: nat, i: nat)
    requires size > 0 && i < c
    ensures var now, next := Rotation(size, j * size, c), Rotation(size, (j + 1) * size, c);
      Strings(c, next, c)[i] == Strings(c, now, c)[if i + 1 < c then i + 1 else 0]
    ensures Strings(c, Rotation(size, 0, c), c)[i] == Label(i)
  {
    RotationOf(size, j, c);
    RotationOf(size, j + 1, c);
    AlphabetMoves(j, c, i);
    RotationOf(size, 0, c);
    AlphabetEntry(0, i, c);
  }

  /** The rotated dictionary and the shifted indices of a batch. */
  function Changing(rows: nat, offset: nat, c: nat): (r: Option<Encoded<Label>>)
    requires c > 0
  {
    var rotation := Rotation(rows, offset, c);
    var indices := Indices(c, offset + c - rotation, rows);
    if InBounds(indices, c) then Some(Encoded(indices, Strings(c, rotation, c))) else None
  }

  method MakeChangingDictionaryStringColumn(rows: nat, offset: nat, c: nat) returns (r: Option<Encoded<Label>>)
    requires c > 0
    ensures r == Changing(rows, offset, c)
    ensures r.Some? ==> InBounds(r.value.indices, |r.value.values|)
    ensures (r.Some? && Decode(r.value) == Strings(c, offset, rows)) <==>
      IndicesFit(offset + c - Rotation(rows, offset, c), rows, c)
  {
    var rotation := Rotation(rows, offset, c);
    var values := MakeStringColumn(c, rotation, c);
    r := MakeDictionaryColumn(values, rows, offset + c - rotation);
    RotatedIsPlain(offset, rows, c, rotation);
  }

  /** An alphabet of up to 2^31 entries always fits. */
  lemma SmallIndicesFit(offset: nat, rows: nat, c: nat)
    requires 0 < c <= TWO31
    ensures IndicesFit(offset, rows, c)
  {
  }

  /** The cardinalities of the benchmark's string columns. */
  const STRING_CARDINALITY: nat := 1000
  const LOW_STRING_CARDINALITY: nat := 10

  /** With one more entry than 2^31 the last index becomes negative, and the column is not the plain one. */
  lemma TooManyEntries()
    ensures var c := TWO31 + 1; var e := Encoded(Indices(c, TWO31, 1), Strings(c, 0, c));
      !IndicesFit(TWO31, 1, c) && !(InBounds(e.indices, c) && Decode(e) == Strings(c, TWO31, 1))
  {
    var c := TWO31 + 1;
    assert !Fits(TWO31, c);
    DictionaryIsPlain(TWO31, 1, c);
  }

  /** The benchmark's own cardinalities never come near this. */
  lemma BenchmarkFits(offset: nat, rows: nat)
    ensures IndicesFit(offset, rows, STRING_CARDINALITY) && IndicesFit(offset, rows, LOW_STRING_CARDINALITY)
  {
    SmallIndicesFit(offset, rows, STRING_CARDINALITY);
    SmallIndicesFit(offset, rows, LOW_STRING_CARDINALITY);
  }

  /** The cast forgets multiples of 2^32. */
  lemma {:induction false} WrapsAround(y: int, k: nat)
    ensures Int32(y + TWO32 * k) == Int32(y)
    decreases k
  {
    if k > 0 {
      WrapsAround(y + TWO32, k - 1);
      assert y + TWO32 + TWO32 * (k - 1) == y + TWO32 * k;
      assert (y + TWO32 + TWO31) % TWO32 == (y + TWO31) % TWO32;
    }
  }

  lemma WrappedTimes(x: nat)
    ensures Int32(Int32(x) * 7) == Int32(x * 7)
  {
    var k := (x + TWO31) / TWO32;
    assert x == Int32(x) + TWO32 * k;
    WrapsAround(Int32(x) * 7, 7 * k);
  }

  ghost predicate NoneNegative(offset: nat, rows: nat, c: nat)
    requires c > 0
  {
    forall x :: offset <= x < offset + rows ==> Int32(Residue(x, c)) >= 0
  }

  /** The int32 dictionary decodes to the flat int32 column whenever Arrow takes it, and Arrow takes it exactly
      when no index becomes negative. An index beyond 2^32 wraps around to an entry of the same value. */
  lemma DictionaryIsFlat(offset: nat, rows: nat, c: nat)
    requires c > 0
    ensures var e := Encoded(Indices(c, offset, rows), Ints(c, 0, c));
      && (InBounds(e.indices, c) <==> NoneNegative(offset, rows, c))
      && (InBounds(e.indices, c) ==> Decode(e) == Ints(c, offset, rows))
  {
    var e := Encoded(Indices(c, offset, rows), Ints(c, 0, c));
    forall i | 0 <= i < rows ensures e.indices[i] == Int32(Residue(offset + i, c)) < c {
      WrappedBelow(Residue(offset + i, c));
    }
    forall x | offset <= x < offset + rows ensures e.indices[x - offset] == Int32(Residue(x, c)) {
      assert offset + (x - offset) == x;
    }
    if InBounds(e.indices, c) {
      forall i | 0 <= i < rows ensures Decode(e)[i] == Int32(Residue(offset + i, c) * 7) {
        var j := e.indices[i];
        assert Ints(c, 0, c)[j] == Int32(Residue(j, c) * 7) && Residue(j, c) == j;
        WrappedTimes(Residue(offset + i, c));
      }
    }
  }

  lemma WrappedBelow(x: nat)
    ensures Int32(x) <= x
  {
  }

  /** The int32 dictionary column. */
  function FlatDictionary(rows: nat, offset: nat, c: nat): (r: Option<Encoded<int>>)
    requires c > 0
  {
    var indices := Indices(c, offset, rows);
    if InBounds(indices, c) then Some(Encoded(indices, Ints(c, 0, c))) else None
  }

  method MakeDictionaryInt32Column(rows: nat, offset: nat, c: nat) returns (r: Option<Encoded<int>>)
    requires c > 0
    ensures r == FlatDictionary(rows, offset, c)
    ensures r.Some? <==> NoneNegative(offset, rows, c)
    ensures r.Some? ==> InBounds(r.value.indices, |r.value.values|) && Decode(r.value) == Ints(c, offset, rows)
  {
    var values := MakeInt32Column(c, 0, c);
    r := MakeDictionaryColumn(values, rows, offset);
    DictionaryIsFlat(offset, rows, c);
  }

  lemma QuotientNat(x: int, c: int)
    requires c > 0 && x >= 0
    ensures x / c >= 0
  {
  }

  lemma ColumnConcat<T>(g: nat -> T, offset: nat, a: nat, b: nat)
    ensures Column(g, offset, a) + Column(g, offset + a, b) == Column(g, offset, a + b)
  {
  }

  /** The rows of a batch. */
  datatype Cut = Cut(offset: nat, rows: nat)

  /** How rows `offset` to `total` are cut into batches. */
  function Cuts(size: nat, total: nat, offset: nat): (r: seq<Cut>)
    requires size > 0
    decreases if offset < total then total - offset else 0
  {
    if offset >= total then []
    else [Cut(offset, if size < total - offset then size else total - offset)] + Cuts(size, total, offset + size)
  }

  lemma CeilingStep(x: int, size: int)
    requires size > 0 && x > 0
    ensures (x + size - 1) / size == 1 + if x > size then (x - 1) / size else 0
  {
    DivisionIs(x - 1 + size, size, (x - 1) / size + 1, (x - 1) % size);
    if x <= size { DivisionIs(x - 1, size, 0, x - 1); }
  }

  /** The number of batches is the ceiling division. */
  lemma {:induction false} CutsCount(size: nat, total: nat, offset: nat)
    requires size > 0
    ensures |Cuts(size, total, offset)| == if offset < total then (total - offset + size - 1) / size else 0
    decreases if offset < total then total - offset else 0
  {
    if offset < total {
      CutsCount(size, total, offset + size);
      CeilingStep(total - offset, size);
    }
  }

  lemma CutsFromStart(size: nat, total: nat)
    requires size > 0
    ensures |Cuts(size, total, 0)| == (total + size - 1) / size
  {
    CutsCount(size, total, 0);
    if total == 0 { DivisionIs(size - 1, size, 0, size - 1); }
  }

  /** Batches that hold what their rows are to hold make up the column. */
  lemma {:induction false} CutsMakeUp<T>(g: nat -> T, decoded: seq<seq<T>>, size: nat, total: nat, offset: nat)
    requires size > 0 && offset <= total && |decoded| == |Cuts(size, total, offset)|
    requires forall k :: 0 <= k < |decoded| ==>
      decoded[k] == Column(g, Cuts(size, total, offset)[k].offset, Cuts(size, total, offset)[k].rows)
    ensures Flatten(decoded) == Column(g, offset, total - offset)
    decreases total - offset
  {
    if offset < total {
      var cuts := Cuts(size, total, offset);
      var rows := cuts[0].rows;
      var next := if offset + size < total then offset + size else total;
      assert Cuts(size, total, next) == cuts[1..];
      forall k | 0 <= k < |decoded| - 1 ensures decoded[1..][k] == Column(g, cuts[1..][k].offset, cuts[1..][k].rows) {
        assert cuts[1..][k] == cuts[k+1];
      }
      CutsMakeUp(g, decoded[1..], size, total, next);
      ColumnConcat(g, offset, rows, total - next);
    }
  }

  /** `MakeBatches` with fresh batches: `make` builds the batch of an offset and a number of rows. */
  method MakeBatches<B>(make: (nat, nat) -> Option<B>, size: nat, total: nat) returns (r: Option<seq<B>>)
    requires size > 0
    ensures |Cuts(size, total, 0)| == (total + size - 1) / size
    ensures r.Some? <==> forall cut :: cut in Cuts(size, total, 0) ==> make(cut.offset, cut.rows).Some?
    ensures r.Some? ==> Made(make, Cuts(size, total, 0), r.value)
  {
    CutsFromStart(size, total);
    ghost var cuts := Cuts(size, total, 0);
    var batches: seq<B> := [];
    var offset := 0;
    while offset < total
      invariant |batches| <= |cuts| && Made(make, cuts[..|batches|], batches)
      invariant cuts[|batches|..] == Cuts(size, total, offset)
      decreases if offset < total then total - offset else 0
    {
      var rows := if size < total - offset then size else total - offset;
      assert cuts[|batches|] == cuts[|batches|..][0] == Cut(offset, rows);
      var batch := make(offset, rows);
      if batch.None? {
        assert cuts[|batches|] in cuts;
        return None;
      }
      assert cuts[|batches|..][1..] == cuts[|batches|+1..];
      assert cuts[..|batches|+1] == cuts[..|batches|] + [cuts[|batches|]];
      batches := batches + [batch.value];
      offset := offset + size;
    }
    assert |cuts[|batches|..]| == 0;
    assert cuts[..|batches|] == cuts;
    return Some(batches);
  }

  /** `batches` are what `make` builds. */
  ghost predicate Made<B>(make: (nat, nat) -> Option<B>, cuts: seq<Cut>, batches: seq<B>) {
    |batches| == |cuts| && forall k :: 0 <= k < |cuts| ==> make(cuts[k].offset, cuts[k].rows) == Some(batches[k])
  }

  ghost predicate AllInBounds<T>(batches: seq<Encoded<T>>) {
    forall k :: 0 <= k < |batches| ==> InBounds(batches[k].indices, |batches[k].values|)
  }

  ghost function DecodeAll<T>(batches: seq<Encoded<T>>): (r: seq<seq<T>>)
    requires AllInBounds(batches)
    ensures |r| == |batches| && forall k :: 0 <= k < |batches| ==> r[k] == Decode(batches[k])
  {
    seq(|batches|, k requires 0 <= k < |batches| => Decode(batches[k]))
  }

  /** Every batch has a dictionary of its own, rotated differently, and decoded they are the plain column,
      whatever the size of the batches. */
  method MakeChangingBatches(size: nat, total: nat, c: nat) returns (batches: seq<Encoded<Label>>)
    requires size > 0 && 0 < c <= TWO31
    ensures |batches| == (total + size - 1) / size && AllInBounds(batches)
    ensures Flatten(DecodeAll(batches)) == Strings(c, 0, total)
  {
    var make := (offset: nat, rows: nat) => Changing(rows, offset, c);
    var r := MakeBatches(make, size, total);
    ghost var cuts := Cuts(size, total, 0);
    forall cut | cut in cuts ensures make(cut.offset, cut.rows).Some? { ChangingFits(cut.rows, cut.offset, c); }
    batches := r.value;
    forall k | 0 <= k < |batches|
      ensures InBounds(batches[k].indices, |batches[k].values|)
              && Decode(batches[k]) == Strings(c, cuts[k].offset, cuts[k].rows)
    {
      ChangingFits(cuts[k].rows, cuts[k].offset, c);
    }
    StringsMakeUp(DecodeAll(batches), size, total, c);
  }

  lemma ChangingFits(rows: nat, offset: nat, c: nat)
    requires 0 < c <= TWO31
    ensures var r := Changing(rows, offset, c);
      r.Some? && InBounds(r.value.indices, |r.value.values|) && Decode(r.value) == Strings(c, offset, rows)
  {
    var rotation := Rotation(rows, offset, c);
    SmallIndicesFit(offset + c - rotation, rows, c);
    RotatedIsPlain(offset, rows, c, rotation);
  }

  lemma StringsMakeUp(decoded: seq<seq<Label>>, size: nat, total: nat, c: nat)
    requires size > 0 && c > 0 && |decoded| == |Cuts(size, total, 0)|
    requires forall k :: 0 <= k < |decoded| ==>
      decoded[k] == Strings(c, Cuts(size, total, 0)[k].offset, Cuts(size, total, 0)[k].rows)
    ensures Flatten(decoded) == Strings(c, 0, total)
  {
    var g := (x: nat) => Label(Residue(x, c));
    var cuts := Cuts(size, total, 0);
    forall k | 0 <= k < |decoded| ensures decoded[k] == Column(g, cuts[k].offset, cuts[k].rows) {}
    CutsMakeUp(g, decoded, size, total, 0);
  }

  /** The same for the int32 dictionary. */
  method MakeFlatBatches(size: nat, total: nat, c: nat) returns (batches: seq<Encoded<int>>)
    requires size > 0 && 0 < c <= TWO31
    ensures |batches| == (total + size - 1) / size && AllInBounds(batches)
    ensures Flatten(DecodeAll(batches)) == Ints(c, 0, total)
  {
    var make := (offset: nat, rows: nat) => FlatDictionary(rows, offset, c);
    var r := MakeBatches(make, size, total);
    ghost var cuts := Cuts(size, total, 0);
    forall cut | cut in cuts ensures make(cut.offset, cut.rows).Some? { FlatFits(cut.rows, cut.offset, c); }
    batches := r.value;
    forall k | 0 <= k < |batches|
      ensures InBounds(batches[k].indices, |batches[k].values|)
              && Decode(batches[k]) == Ints(c, cuts[k].offset, cuts[k].rows)
    {
      FlatFits(cuts[k].rows, cuts[k].offset, c);
    }
    IntsMakeUp(DecodeAll(batches), size, total, c);
  }

  lemma FlatFits(rows: nat, offset: nat, c: nat)
    requires 0 < c <= TWO31
    ensures var r := FlatDictionary(rows, offset, c);
      r.Some? && InBounds(r.value.indices, |r.value.values|) && Decode(r.value) == Ints(c, offset, rows)
  {
    DictionaryIsFlat(offset, rows, c);
  }

  /** The value of row `x`. */
  ghost function IntAt(c: nat): nat -> int
    requires c > 0
  {
    (x: nat) => Int32(Residue(x, c) * 7)
  }

  lemma PointwiseInts(c: nat, offset: nat, rows: nat)
    requires c > 0
    ensures Ints(c, offset, rows) == Column(IntAt(c), offset, rows)
  {
    var a, b := Ints(c, offset, rows), Column(IntAt(c), offset, rows);
    forall i | 0 <= i < rows ensures a[i] == b[i] { IntsAt(c, offset, rows, i); }
  }

  lemma IntsAt(c: nat, offset: nat, rows: nat, i: nat)
    requires c > 0 && i < rows
    ensures Ints(c, offset, rows)[i] == Column(IntAt(c), offset, rows)[i]
  {
    var x := offset + i;
    assert IntAt(c)(x) == Int32(Residue(x, c) * 7);
  }

  lemma IntsMakeUp(decoded: seq<seq<int>>, size: nat, total: nat, c: nat)
    requires size > 0 && c > 0 && |decoded| == |Cuts(size, total, 0)|
    requires forall k :: 0 <= k < |decoded| ==>
      decoded[k] == Ints(c, Cuts(size, total, 0)[k].offset, Cuts(size, total, 0)[k].rows)
    ensures Flatten(decoded) == Ints(c, 0, total)
  {
    var g := IntAt(c);
    var cuts := Cuts(size, total, 0);
    forall k | 0 <= k < |decoded| ensures decoded[k] == Column(g, cuts[k].offset, cuts[k].rows) {
      PointwiseInts(c, cuts[k].offset, cuts[k].rows);
    }
    CutsMakeUp(g, decoded, size, total, 0);
    PointwiseInts(c, 0, total);
  }

  /** The values repeat after `size` rows. */
  ghost predicate Periodic<T>(g: nat -> T, size: nat, total: nat) {
    forall x: nat :: x + size < total ==> g(x + size) == g(x)
  }

  function Repeat<T>(batch: T, n: nat): (r: seq<T>)
    ensures |r| == n && forall i :: 0 <= i < n ==> r[i] == batch
  {
    if n == 0 then [] else Repeat(batch, n - 1) + [batch]
  }

  lemma {:induction false} PeriodicAt<T>(g: nat -> T, size: nat, total: nat, k: nat, j: nat)
    requires size > 0 && Periodic(g, size, total) && j + k * size < total
    ensures g(j + k * size) == g(j)
    decreases k
  {
    if k > 0 {
      assert j + k * size == j + (k - 1) * size + size;
      PeriodicAt(g, size, total, k - 1, j);
    }
  }

  lemma PeriodicBatch<T>(g: nat -> T, size: nat, n: nat, total: nat)
    requires size > 0 && Periodic(g, size, total) && total == (n + 1) * size
    ensures Column(g, n * size, size) == Column(g, 0, size)
  {
    assert total == n * size + size;
    forall j | 0 <= j < size ensures Column(g, n * size, size)[j] == Column(g, 0, size)[j] {
      PeriodicAt(g, size, total, n, j);
    }
  }

  lemma BatchPeriodic<T>(g: nat -> T, size: nat, n: nat, before: nat)
    requires size > 0 && before == n * size && Periodic(g, size, before)
    requires Column(g, before, size) == Column(g, 0, size)
    ensures Periodic(g, size, before + size)
  {
    forall x: nat | x + size < before + size ensures g(x + size) == g(x) {
      if x + size >= before {
        var j := x + size - before;
        assert Column(g, before, size)[j] == Column(g, 0, size)[j];
        assert x == j + (n - 1) * size;
        PeriodicAt(g, size, before, n - 1, j);
      }
    }
  }

  /** Repeating one batch gives the column exactly when the values repeat with its size. */
  lemma {:induction false} RepeatIff<T>(g: nat -> T, size: nat, n: nat, total: nat)
    requires size > 0 && total == n * size
    ensures Flatten(Repeat(Column(g, 0, size), n)) == Column(g, 0, total) <==> Periodic(g, size, total)
    decreases n
  {
    if n > 0 {
      var batch, before := Column(g, 0, size), (n - 1) * size;
      var front := Flatten(Repeat(batch, n - 1));
      assert total == before + size;
      RepeatIff(g, size, n - 1, before);
      FlattenSnoc(Repeat(batch, n - 1), batch);
      RepeatLength(batch, n - 1, size);
      ColumnConcat(g, 0, before, size);
      if Periodic(g, size, total) {
        PeriodicBatch(g, size, n - 1, total);
        assert Periodic(g, size, before);
      }
      if front + batch == Column(g, 0, before) + Column(g, before, size) {
        SameParts(front, batch, Column(g, 0, before), Column(g, before, size));
        BatchPeriodic(g, size, n - 1, before);
      }
    }
  }

  lemma SameParts<T>(a: seq<T>, b: seq<T>, c: seq<T>, d: seq<T>)
    requires |a| == |c| && a + b == c + d
    ensures a == c && b == d
  {
    assert a == (a + b)[..|a|] && b == (a + b)[|a|..];
    assert c == (c + d)[..|c|] && d == (c + d)[|c|..];
  }

  lemma {:induction false} RepeatLength<T>(batch: seq<T>, n: nat, size: nat)
    requires |batch| == size
    ensures |Flatten(Repeat(batch, n))| == n * size
  {
    if n > 0 {
      RepeatLength(batch, n - 1, size);
      FlattenSnoc(Repeat(batch, n - 1), batch);
    }
  }

  /** `MakeBatches` with one shared batch: refused when the last batch would be short, and otherwise the file
      holds the column exactly if its values repeat with the size of the batch. */
  method MakeReusedBatches<T>(g: nat -> T, size: nat, total: nat) returns (r: Option<seq<seq<T>>>)
    requires size > 0
    ensures r.Some? <==> total % size == 0
    ensures r.Some? ==> (Flatten(r.value) == Column(g, 0, total) <==> Periodic(g, size, total))
    ensures r.Some? ==> |Flatten(r.value)| == total
  {
    if total % size != 0 {
      return None;
    }
    var batch := Column(g, 0, size);
    QuotientNat(total, size);
    RepeatIff(g, size, total / size, total);
    RepeatLength(batch, total / size, size);
    return Some(Repeat(batch, total / size));
  }

  const NULL_WINDOW: int := 100

  predicate IsNull(x: int, pct: int) { x % NULL_WINDOW < pct }

  function ValidAt(pct: int): nat -> bool { (x: nat) => !IsNull(x, pct) }

  function CountNulls(offset: int, n: nat, pct: int): nat {
    if n == 0 then 0 else CountNulls(offset, n - 1, pct) + if IsNull(offset + n - 1, pct) then 1 else 0
  }

  /** The mask of `WithNulls`: set bits are valid slots. `None` leaves the column without nulls. */
  method WithNulls(length: nat, offset: nat, pct: int) returns (validity: Option<seq<bool>>, nulls: nat)
    ensures pct <= 0 ==> validity == None && nulls == 0
    ensures pct > 0 ==> validity == Some(Column(ValidAt(pct), offset, length))
    ensures nulls == CountNulls(offset, length, pct)
  {
    if pct <= 0 {
      NoNulls(offset, length, pct);
      return None, 0;
    }
    var bits := seq(length, i => false);
    nulls := 0;
    var i := 0;
    while i < length
      invariant 0 <= i <= length == |bits| && nulls == CountNulls(offset, i, pct)
      invariant forall j :: 0 <= j < i ==> bits[j] == ValidAt(pct)(offset + j)
      invariant forall j :: i <= j < length ==> !bits[j]
    {
      if (offset + i) % NULL_WINDOW < pct {
        nulls := nulls + 1;
      } else {
        bits := bits[i := true];
      }
      i := i + 1;
    }
    assert bits == Column(ValidAt(pct), offset, length);
    validity := Some(bits);
  }

  lemma {:induction false} NoNulls(offset: int, n: nat, pct: int)
    requires pct <= 0
    ensures CountNulls(offset, n, pct) == 0
  {
    if n > 0 { NoNulls(offset, n - 1, pct); }
  }

  function CountUnset(bits: seq<bool>): nat {
    if bits == [] then 0 else CountUnset(bits[..|bits|-1]) + if bits[|bits|-1] then 0 else 1
  }

  /** The reported null count is the number of unset bits. */
  lemma {:induction false} NullsAreUnset(offset: nat, n: nat, pct: int)
    ensures CountUnset(Column(ValidAt(pct), offset, n)) == CountNulls(offset, n, pct)
  {
    if n > 0 {
      NullsAreUnset(offset, n - 1, pct);
      assert Column(ValidAt(pct), offset, n)[..n-1] == Column(ValidAt(pct), offset, n - 1);
    }
  }

  lemma {:induction false} CountAppend(offset: int, a: nat, b: nat, pct: int)
    ensures CountNulls(offset, a + b, pct) == CountNulls(offset, a, pct) + CountNulls(offset + a, b, pct)
  {
    if b > 0 { CountAppend(offset, a, b - 1, pct); }
  }

  lemma {:induction false} FirstWindow(k: nat, pct: nat)
    requires k <= NULL_WINDOW && pct <= NULL_WINDOW
    ensures CountNulls(0, k, pct) == if k < pct then k else pct
  {
    if k > 0 { FirstWindow(k - 1, pct); }
  }

  lemma OneSlot(x: int, pct: int)
    ensures CountNulls(x, 1, pct) == if IsNull(x, pct) then 1 else 0
    ensures CountNulls(x + NULL_WINDOW, 1, pct) == CountNulls(x, 1, pct)
  {
    assert CountNulls(x, 0, pct) == 0 && CountNulls(x + NULL_WINDOW, 0, pct) == 0;
  }

  /** Any window of 100 slots has as many nulls as the first. */
  lemma {:induction false} AnyWindow(offset: nat, w: nat, pct: nat)
    requires w == NULL_WINDOW && pct <= NULL_WINDOW
    ensures CountNulls(offset, w, pct) == pct
  {
    if offset == 0 {
      FirstWindow(w, pct);
    } else {
      AnyWindow(offset - 1, w, pct);
      CountAppend(offset - 1, 1, w, pct);
      CountAppend(offset - 1, w, 1, pct);
      OneSlot(offset - 1, pct);
    }
  }

  lemma {:induction false} WindowsCount(offset: nat, windows: nat, length: nat, pct: nat)
    requires pct <= NULL_WINDOW && length == NULL_WINDOW * windows
    ensures CountNulls(offset, length, pct) == windows * pct
    decreases windows
  {
    if windows > 0 {
      WindowsCount(offset, windows - 1, length - NULL_WINDOW, pct);
      AnyWindow(offset + length - NULL_WINDOW, NULL_WINDOW, pct);
      CountAppend(offset, length - NULL_WINDOW, NULL_WINDOW, pct);
      assert windows * pct == (windows - 1) * pct + pct;
    }
  }

  /** On a run of whole windows exactly `pct` percent of the slots are null, wherever it begins. */
  lemma ExactDensity(offset: nat, windows: nat, length: nat, pct: nat)
    requires pct <= NULL_WINDOW && length == NULL_WINDOW * windows
    ensures CountNulls(offset, length, pct) == windows * pct == length * pct / 100
  {
    WindowsCount(offset, windows, length, pct);
    assert length * pct == 100 * (windows * pct);
  }

  /** The null pattern of a file does not depend on how it is cut into batches. */
  lemma MaskSplits(offset: nat, a: nat, b: nat, pct: int)
    ensures Column(ValidAt(pct), offset, a) + Column(ValidAt(pct), offset + a, b) == Column(ValidAt(pct), offset, a + b)
    ensures CountNulls(offset, a, pct) + CountNulls(offset + a, b, pct) == CountNulls(offset, a + b, pct)
  {
    CountAppend(offset, a, b, pct);
  }
}
