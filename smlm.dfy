/**
 * examples/smlm_file.py, `readSmlmFile`: reads the manifest of an SMLM
 * archive and loads every binary table it lists, either as numpy strided
 * views over the table's bytes or, without numpy, by unpacking the bytes
 * record by record with the struct module; each loaded table gets its
 * columns and their minima, maxima and means.
 *
 * The archive is a map from member names to their bytes. The parsed
 * manifest is a parameter (None when the archive has no manifest.json),
 * and so is whether `import numpy` succeeds.
 */
module Smlm {
  import opened Wrappers
  import opened ArrayOps
  import opened SmlmLayout

  datatype SmlmError =
    | NoManifest                    // the archive has no manifest.json
    | BadFormatVersion              // format_version is not '0.2'
    | UnknownFormat(key: string)    // a table's format is not in `formats`
    | UnsupportedMode(mode: string) // a table format whose mode is not 'binary'
    | LengthMismatch                // headers, dtype and shape differ in length
    | UnknownDtype(name: string)    // a dtype `dtype2length` does not know
    | NegativeRows                  // numpy: negative dimensions
    | BufferTooSmall                // numpy: a view reaches past the table's bytes
    | BadStructFormat               // struct.error: the format string is not readable
    | ZeroStep                      // range() with a step of 0
    | ChunkSizeMismatch             // struct.error: a chunk of the wrong length
    | TooFewItems                   // IndexError: fewer unpacked values than headers
    | NumpyUnbound                  // NameError: `np` unbound after the failed import
    | EmptyColumn                   // min() of an empty column

  datatype Format = Format(mode: string, headers: seq<string>, dtype: seq<string>, shape: seq<int>)

  datatype TableData = TableData(min: seq<real>, max: seq<real>, avg: seq<real>, table: map<string, seq<real>>)

  datatype FileInfo = FileInfo(kind: string, name: string, format: string, rows: int, data: Option<TableData>)

  datatype Manifest = Manifest(formatVersion: string, formats: map<string, Format>, files: seq<FileInfo>)

  type Table = map<string, seq<real>>

  function Min(a: int, b: int): int {
    if a < b then a else b
  }

  /** The dtypes of a format, or the KeyError of the first name `dtype2length` lacks. */
  function ParseDtypes(names: seq<string>): (r: Result<seq<Dtype>, SmlmError>)
    ensures r.Ok? <==> forall i | 0 <= i < |names| :: ParseDtype(names[i]).Some?
    ensures r.Ok? ==> |r.value| == |names| && forall i | 0 <= i < |names| :: DtypeName(r.value[i]) == names[i]
    ensures r.Err? ==> exists i | 0 <= i < |names| ::
      && r.error == UnknownDtype(names[i]) && ParseDtype(names[i]).None?
      && forall k | 0 <= k < i :: ParseDtype(names[k]).Some?
  {
    if names == [] then Ok([])
    else match ParseDtype(names[0])
      case None => Err(UnknownDtype(names[0]))
      case Some(d) =>
        match ParseDtypes(names[1..])
        case Err(e) =>
          assert forall k | 0 < k <= |names[1..]| :: names[1..][k - 1] == names[k];
          Err(e)
        case Ok(ds) =>
          assert forall k | 0 < k <= |names[1..]| :: names[1..][k - 1] == names[k];
          Ok([d] + ds)
  }

  /** ds followed by the dtypes r holds, or r's error. */
  function Prepend(ds: seq<Dtype>, r: Result<seq<Dtype>, SmlmError>): Result<seq<Dtype>, SmlmError> {
    match r
    case Ok(rest) => Ok(ds + rest)
    case Err(e) => Err(e)
  }

  lemma PrependNil(r: Result<seq<Dtype>, SmlmError>)
    ensures Prepend([], r) == r
  {
    if r.Ok? {
      assert [] + r.value == r.value;
    }
  }

  lemma PrependSnoc(ds: seq<Dtype>, d: Dtype, r: Result<seq<Dtype>, SmlmError>)
    ensures Prepend(ds, Prepend([d], r)) == Prepend(ds + [d], r)
  {
    if r.Ok? {
      assert ds + ([d] + r.value) == ds + [d] + r.value;
    }
  }

  /** Whether numpy accepts a view of `rows` values of d from `offset` on, `stride` bytes apart, over n bytes. */
  predicate ViewFits(n: nat, d: Dtype, rows: int, offset: nat, stride: nat) {
    0 <= rows && offset <= n && (rows == 0 || (rows - 1) * stride + offset + Width(d) <= n)
  }

  /** Every value of a view that fits lies inside the bytes. */
  lemma {:induction false} CellInView(n: nat, d: Dtype, rows: int, offset: nat, stride: nat, r: nat)
    requires ViewFits(n, d, rows, offset, stride) && r < rows
    ensures r * stride + offset + Width(d) <= n
  {
    if r < rows - 1 {
      RowsApart(r, rows - 1, stride);
    }
  }

  /** The value of d held in the Width(d) bytes at start. */
  function Cell(buf: seq<int>, d: Dtype, start: nat, decode: Decoder): real
    requires start + Width(d) <= |buf|
  {
    decode(d, buf[start..start + Width(d)])
  }

  /**
   * `np.ndarray((rows,), buffer=buf, dtype=d, offset=offset, strides=(stride,))`:
   * value r is read from the Width(d) bytes at r * stride + offset.
   */
  function View(buf: seq<int>, d: Dtype, rows: int, offset: nat, stride: nat, decode: Decoder): (v: seq<real>)
    requires ViewFits(|buf|, d, rows, offset, stride)
    ensures |v| == rows
  {
    seq(rows, r requires 0 <= r < rows =>
      CellInView(|buf|, d, rows, offset, stride, r);
      Cell(buf, d, r * stride + offset, decode))
  }

  /** Value r of a view: the bytes r strides past the offset. */
  lemma {:induction false} ViewAt(buf: seq<int>, d: Dtype, rows: int, offset: nat, stride: nat, decode: Decoder, r: nat, start: nat)
    requires ViewFits(|buf|, d, rows, offset, stride) && r < rows && start == r * stride
    ensures start + offset + Width(d) <= |buf|
    ensures View(buf, d, rows, offset, stride, decode)[r] == Cell(buf, d, start + offset, decode)
  {
    CellInView(|buf|, d, rows, offset, stride, r);
  }

  /** Appending s[q..] is appending s[q], then s[q + 1..]. */
  lemma {:induction false} AppendFrom<T>(a: seq<T>, s: seq<T>, q: nat)
    requires q < |s|
    ensures a + s[q..] == (a + [s[q]]) + s[q + 1..]
  {
    assert s[q..] == [s[q]] + s[q + 1..];
  }

  lemma {:induction false} SliceOfSlice<T>(s: seq<T>, a: nat, b: nat, c: nat, d: nat)
    requires a <= b <= |s| && c <= d <= b - a
    ensures s[a..b][c..d] == s[a + c..a + d]
  {
    var x, y := s[a..b][c..d], s[a + c..a + d];
    forall k | 0 <= k < |x|
      ensures x[k] == y[k]
    {
      assert x[k] == s[a..b][c + k];
    }
  }

  /**
   * The numpy loop (lines 47-49) from header j on, with the dict t made so
   * far and `byteOffset` at `offset`: each header gets the view of its
   * column, the offset moving on by the column's width.
   */
  function ViewsFrom(buf: seq<int>, headers: seq<string>, ds: seq<Dtype>, rows: int, stride: nat,
                     decode: Decoder, t: Table, j: nat, offset: nat): (r: Result<Table, SmlmError>)
    requires |headers| == |ds| && j <= |ds|
    decreases |ds| - j
  {
    if j == |ds| then Ok(t)
    else if rows < 0 then Err(NegativeRows)
    else if !ViewFits(|buf|, ds[j], rows, offset, stride) then Err(BufferTooSmall)
    else
      var column := View(buf, ds[j], rows, offset, stride, decode);
      ViewsFrom(buf, headers, ds, rows, stride, decode, t[headers[j] := column], j + 1, offset + Width(ds[j]))
  }

  /** The table the numpy path makes of a table's bytes. */
  function Views(buf: seq<int>, headers: seq<string>, ds: seq<Dtype>, rows: int, decode: Decoder): Result<Table, SmlmError>
    requires |headers| == |ds|
  {
    ViewsFrom(buf, headers, ds, rows, RowLength(ds), decode, map[], 0, 0)
  }

  /** The numpy loop (lines 44-49). */
  method MakeViews(buf: seq<int>, headers: seq<string>, ds: seq<Dtype>, rows: int, rowLen: nat, decode: Decoder)
    returns (r: Result<Table, SmlmError>)
    requires |headers| == |ds| && rowLen == RowLength(ds)
    ensures r == Views(buf, headers, ds, rows, decode)
  {
    var table: Table := map[];
    var byteOffset: nat := 0;
    for i := 0 to |headers|
      invariant ViewsFrom(buf, headers, ds, rows, rowLen, decode, table, i, byteOffset) == Views(buf, headers, ds, rows, decode)
    {
      if rows < 0 {
        return Err(NegativeRows);
      }
      if !ViewFits(|buf|, ds[i], rows, byteOffset, rowLen) {
        return Err(BufferTooSmall);
      }
      table := table[headers[i] := View(buf, ds[i], rows, byteOffset, rowLen, decode)];
      byteOffset := byteOffset + Width(ds[i]);
    }
    return Ok(table);
  }

  /** Header j is the last header of that name: its entry of the dict is not overwritten later. */
  predicate LastOf(headers: seq<string>, j: nat)
    requires j < |headers|
  {
    forall k | j < k < |headers| :: headers[k] != headers[j]
  }

  /** The numpy loop from header i on, at the offset of column i. */
  function ViewsAt(buf: seq<int>, headers: seq<string>, ds: seq<Dtype>, rows: int, decode: Decoder, t: Table, i: nat)
    : Result<Table, SmlmError>
    requires |headers| == |ds| && i <= |ds|
  {
    ViewsFrom(buf, headers, ds, rows, RowLength(ds), decode, t, i, Offset(ds, i))
  }

  /** One header of the numpy loop: the offset it moves on to is the next column's. */
  lemma {:induction false} ViewsStep(buf: seq<int>, headers: seq<string>, ds: seq<Dtype>, rows: int, decode: Decoder, t: Table, i: nat)
    requires |headers| == |ds| && i < |ds|
    ensures ViewsAt(buf, headers, ds, rows, decode, t, i) ==
      if rows < 0 then Err(NegativeRows)
      else if !ViewFits(|buf|, ds[i], rows, Offset(ds, i), RowLength(ds)) then Err(BufferTooSmall)
      else ViewsAt(buf, headers, ds, rows, decode,
                   t[headers[i] := View(buf, ds[i], rows, Offset(ds, i), RowLength(ds), decode)], i + 1)
  {
    OffsetsIncrease(ds, i, |ds|);
  }

  /** The numpy loop from header i on succeeds exactly when every view from column i on fits. */
  lemma {:induction false} ViewsOk(buf: seq<int>, headers: seq<string>, ds: seq<Dtype>, rows: int, decode: Decoder, t: Table, i: nat)
    requires |headers| == |ds| && i <= |ds|
    ensures ViewsAt(buf, headers, ds, rows, decode, t, i).Ok? <==>
      i == |ds| || (0 <= rows && forall j | i <= j < |ds| :: ViewFits(|buf|, ds[j], rows, Offset(ds, j), RowLength(ds)))
    decreases |ds| - i
  {
    if i < |ds| {
      ViewsStep(buf, headers, ds, rows, decode, t, i);
      if 0 <= rows && ViewFits(|buf|, ds[i], rows, Offset(ds, i), RowLength(ds)) {
        ViewsOk(buf, headers, ds, rows, decode, t[headers[i] := View(buf, ds[i], rows, Offset(ds, i), RowLength(ds), decode)], i + 1);
      }
    }
  }

  /** The numpy loop from header i on adds exactly the headers from i on to the dict. */
  lemma {:induction false} ViewsKeys(buf: seq<int>, headers: seq<string>, ds: seq<Dtype>, rows: int, decode: Decoder, t: Table, i: nat)
    requires |headers| == |ds| && i <= |ds|
    requires ViewsAt(buf, headers, ds, rows, decode, t, i).Ok?
    ensures ViewsAt(buf, headers, ds, rows, decode, t, i).value.Keys == t.Keys + (set j | i <= j < |ds| :: headers[j])
    decreases |ds| - i
  {
    if i < |ds| {
      ViewsStep(buf, headers, ds, rows, decode, t, i);
      ViewsKeys(buf, headers, ds, rows, decode, t[headers[i] := View(buf, ds[i], rows, Offset(ds, i), RowLength(ds), decode)], i + 1);
      assert (set j | i <= j < |ds| :: headers[j]) == {headers[i]} + (set j | i + 1 <= j < |ds| :: headers[j]);
    }
  }

  /**
   * The last header of each name holds the view of its column: the record
   * length as stride and the column's offset as start.
   */
  lemma {:induction false} ViewsColumn(buf: seq<int>, headers: seq<string>, ds: seq<Dtype>, rows: int, decode: Decoder,
                                       t: Table, i: nat, j: nat)
    requires |headers| == |ds| && i <= j < |ds| && LastOf(headers, j)
    requires ViewsAt(buf, headers, ds, rows, decode, t, i).Ok?
    ensures ViewFits(|buf|, ds[j], rows, Offset(ds, j), RowLength(ds))
    ensures headers[j] in ViewsAt(buf, headers, ds, rows, decode, t, i).value
    ensures ViewsAt(buf, headers, ds, rows, decode, t, i).value[headers[j]]
         == View(buf, ds[j], rows, Offset(ds, j), RowLength(ds), decode)
    decreases |ds| - i
  {
    ViewsStep(buf, headers, ds, rows, decode, t, i);
    var t' := t[headers[i] := View(buf, ds[i], rows, Offset(ds, i), RowLength(ds), decode)];
    if i < j {
      ViewsColumn(buf, headers, ds, rows, decode, t', i + 1, j);
    } else {
      ViewsKept(buf, headers, ds, rows, decode, t', i + 1, headers[j]);
    }
  }

  /** Names the numpy loop does not reach from header i on keep their entries. */
  lemma {:induction false} ViewsKept(buf: seq<int>, headers: seq<string>, ds: seq<Dtype>, rows: int, decode: Decoder,
                                     t: Table, i: nat, h: string)
    requires |headers| == |ds| && i <= |ds| && h in t
    requires forall k | i <= k < |ds| :: headers[k] != h
    requires ViewsAt(buf, headers, ds, rows, decode, t, i).Ok?
    ensures h in ViewsAt(buf, headers, ds, rows, decode, t, i).value
    ensures ViewsAt(buf, headers, ds, rows, decode, t, i).value[h] == t[h]
    decreases |ds| - i
  {
    if i < |ds| {
      ViewsStep(buf, headers, ds, rows, decode, t, i);
      ViewsKept(buf, headers, ds, rows, decode, t[headers[i] := View(buf, ds[i], rows, Offset(ds, i), RowLength(ds), decode)], i + 1, h);
    }
  }

  /**
   * The numpy path succeeds, for a positive number of records and at least
   * one header, exactly when the records fit in the table's bytes.
   */
  lemma {:induction false} ViewsNeedWholeTable(buf: seq<int>, headers: seq<string>, ds: seq<Dtype>, rows: int, decode: Decoder)
    requires |headers| == |ds| > 0 && rows > 0
    ensures Views(buf, headers, ds, rows, decode).Ok? <==> rows * RowLength(ds) <= |buf|
  {
    var L := RowLength(ds);
    var last := |ds| - 1;
    ViewsOk(buf, headers, ds, rows, decode, map[], 0);
    assert Views(buf, headers, ds, rows, decode) == ViewsAt(buf, headers, ds, rows, decode, map[], 0);
    OffsetsIncrease(ds, last, |ds|);
    TimesIsProduct(rows, L);
    TimesIsProduct(rows - 1, L);
    if rows * L <= |buf| {
      forall j | 0 <= j < |ds| ensures ViewFits(|buf|, ds[j], rows, Offset(ds, j), L) {
        OffsetsIncrease(ds, j, |ds|);
      }
    }
  }

  /**
   * One pass of the inner fallback loop (lines 60-61) from header j on: the
   * value of header j is appended to its list, header by header.
   */
  function AppendRow(t: Table, headers: seq<string>, values: seq<real>, j: nat): (r: Table)
    requires j <= |headers| <= |values|
    requires forall k | 0 <= k < |headers| :: headers[k] in t
    ensures r.Keys == t.Keys
    decreases |headers| - j
  {
    if j == |headers| then t
    else AppendRow(t[headers[j] := t[headers[j]] + [values[j]]], headers, values, j + 1)
  }

  /**
   * The chunk loop (lines 58-61) from byte i on: the bytes are cut into
   * chunks of rowLen (the last one possibly shorter), each chunk unpacked
   * and its values appended to the headers' lists.
   */
  function RowsFrom(buf: seq<int>, headers: seq<string>, items: seq<(nat, Dtype)>, rowLen: nat,
                    decode: Decoder, t: Table, i: nat): (r: Result<Table, SmlmError>)
    requires rowLen > 0 && forall k | 0 <= k < |headers| :: headers[k] in t
    ensures r.Ok? ==> r.value.Keys == t.Keys
    decreases |buf| - i
  {
    if i >= |buf| then Ok(t)
    else
      var chunk := buf[i..Min(i + rowLen, |buf|)];
      if |chunk| != StructSize(items) then Err(ChunkSizeMismatch)
      else
        var values := Unpack(chunk, items, decode);
        if |values| < |headers| then Err(TooFewItems)
        else RowsFrom(buf, headers, items, rowLen, decode, AppendRow(t, headers, values, 0), i + rowLen)
  }

  /** `{h: [] for h in headers}`. */
  function EmptyLists(headers: seq<string>): (t: Table)
    ensures t.Keys == set k | 0 <= k < |headers| :: headers[k]
    ensures forall h | h in t :: t[h] == []
  {
    map h | h in headers :: []
  }

  /**
   * The table the fallback path (lines 50-61) makes of a table's bytes, as
   * lists of values: the struct reading of the format string, the range of
   * chunk starts, then the chunks.
   */
  function Unpacked(buf: seq<int>, headers: seq<string>, ds: seq<Dtype>, shape: seq<int>, decode: Decoder)
    : Result<Table, SmlmError>
    requires |headers| == |ds| == |shape|
  {
    match ParseFormat(FormatString(ds, shape))
    case None => Err(BadStructFormat)
    case Some(items) =>
      if RowLength(ds) == 0 then Err(ZeroStep)
      else RowsFrom(buf, headers, items, RowLength(ds), decode, EmptyLists(headers), 0)
  }

  /** The format string loop (lines 52-54). */
  method BuildFormat(ds: seq<Dtype>, shape: seq<int>) returns (st: string)
    requires |ds| == |shape|
    ensures st == FormatString(ds, shape)
  {
    st := "";
    for i := 0 to |ds|
      invariant st == FormatString(ds[..i], shape[..i])
    {
      FormatStringSnoc(ds, shape, i);
      st := st + (IntToString(shape[i]) + [StructCode(ds[i])]);
    }
    assert ds[..|ds|] == ds && shape[..|shape|] == shape;
  }

  /** The inner fallback loop (lines 60-61): value j appended to header j's list; an IndexError when values run out. */
  method AppendValues(table: Table, headers: seq<string>, values: seq<real>) returns (r: Result<Table, SmlmError>)
    requires forall k | 0 <= k < |headers| :: headers[k] in table
    ensures |values| < |headers| ==> r == Err(TooFewItems)
    ensures |headers| <= |values| ==> r == Ok(AppendRow(table, headers, values, 0))
  {
    var t := table;
    for j := 0 to |headers|
      invariant forall k | 0 <= k < |headers| :: headers[k] in t
      invariant j <= |values|
      invariant |headers| <= |values| ==> AppendRow(t, headers, values, j) == AppendRow(table, headers, values, 0)
    {
      if j >= |values| {
        return Err(TooFewItems);
      }
      t := t[headers[j] := t[headers[j]] + [values[j]]];
    }
    return Ok(t);
  }

  /** The fallback loops (lines 50-61): the format string, the struct reading of it, then the chunks. */
  method UnpackRows(buf: seq<int>, headers: seq<string>, ds: seq<Dtype>, shape: seq<int>, rowLen: nat, decode: Decoder)
    returns (r: Result<Table, SmlmError>)
    requires |headers| == |ds| == |shape| && rowLen == RowLength(ds)
    ensures r == Unpacked(buf, headers, ds, shape, decode)
  {
    var st := BuildFormat(ds, shape);
    var items := ParseFormat(st);
    if items.None? {
      return Err(BadStructFormat);
    }
    if rowLen == 0 {
      return Err(ZeroStep);
    }
    r := UnpackChunks(buf, headers, items.value, rowLen, decode);
  }

  /** The chunk loop (lines 56-61): chunks of rowLen bytes from byte 0 on, each unpacked and appended. */
  method UnpackChunks(buf: seq<int>, headers: seq<string>, items: seq<(nat, Dtype)>, rowLen: nat, decode: Decoder)
    returns (r: Result<Table, SmlmError>)
    requires rowLen > 0
    ensures r == RowsFrom(buf, headers, items, rowLen, decode, EmptyLists(headers), 0)
  {
    var table := EmptyLists(headers);
    var i := 0;
    while i < |buf|
      invariant forall k | 0 <= k < |headers| :: headers[k] in table
      invariant RowsFrom(buf, headers, items, rowLen, decode, table, i)
             == RowsFrom(buf, headers, items, rowLen, decode, EmptyLists(headers), 0)
      decreases |buf| - i
    {
      var chunk := buf[i..Min(i + rowLen, |buf|)];
      if |chunk| != StructSize(items) {
        return Err(ChunkSizeMismatch);
      }
      var values := Unpack(chunk, items, decode);
      var appended := AppendValues(table, headers, values);
      if appended.Err? {
        return appended;
      }
      table := appended.value;
      i := i + rowLen;
    }
    return Ok(table);
  }

  /** After one pass of the inner loop, a header named once has one more value: value j. */
  lemma {:induction false} AppendRowAt(t: Table, headers: seq<string>, values: seq<real>, i: nat, j: nat)
    requires i <= |headers| <= |values| && j < |headers|
    requires forall k | 0 <= k < |headers| :: headers[k] in t
    requires forall k | 0 <= k < |headers| && k != j :: headers[k] != headers[j]
    ensures AppendRow(t, headers, values, i)[headers[j]] == if i <= j then t[headers[j]] + [values[j]] else t[headers[j]]
    decreases |headers| - i
  {
    if i < |headers| {
      AppendRowAt(t[headers[i] := t[headers[i]] + [values[i]]], headers, values, i + 1, j);
    }
  }

  /** A whole chunk of the struct's size: the chunk loop unpacks it, appends its values and moves on. */
  lemma {:induction false} RowsFromWholeChunk(buf: seq<int>, headers: seq<string>, items: seq<(nat, Dtype)>, rowLen: nat,
                           decode: Decoder, t: Table, i: nat)
    requires rowLen > 0 && forall k | 0 <= k < |headers| :: headers[k] in t
    requires i + rowLen <= |buf| && StructSize(items) == rowLen
    requires |Unpack(buf[i..i + rowLen], items, decode)| >= |headers|
    ensures RowsFrom(buf, headers, items, rowLen, decode, t, i)
         == RowsFrom(buf, headers, items, rowLen, decode, AppendRow(t, headers, Unpack(buf[i..i + rowLen], items, decode), 0), i + rowLen)
  {
    assert Min(i + rowLen, |buf|) == i + rowLen;
  }

  /**
   * Whole records from record q on: with every count 1 and the bytes
   * exactly `rows` records long, the chunk loop appends to a header named
   * once the values of its column view from record q on.
   */
  lemma {:induction false} RowsFromOnes(buf: seq<int>, headers: seq<string>, ds: seq<Dtype>, shape: seq<int>,
                                        rows: nat, decode: Decoder, t: Table, q: nat, j: nat)
    requires |headers| == |ds| == |shape| && forall k | 0 <= k < |shape| :: shape[k] == 1
    requires RowLength(ds) > 0 && |buf| == Times(rows, RowLength(ds)) && q <= rows
    requires forall k | 0 <= k < |headers| :: headers[k] in t
    requires j < |headers| && forall k | 0 <= k < |headers| && k != j :: headers[k] != headers[j]
    requires ViewFits(|buf|, ds[j], rows, Offset(ds, j), RowLength(ds))
    ensures var r := RowsFrom(buf, headers, Items(ds, shape), RowLength(ds), decode, t, Times(q, RowLength(ds)));
      && r.Ok? && headers[j] in r.value
      && r.value[headers[j]] == t[headers[j]] + View(buf, ds[j], rows, Offset(ds, j), RowLength(ds), decode)[q..]
    decreases rows - q
  {
    var L := RowLength(ds);
    var column := View(buf, ds[j], rows, Offset(ds, j), L, decode);
    if q < rows {
      var t' := OnesChunk(buf, headers, ds, shape, rows, decode, t, q, j);
      ViewAtRecord(buf, ds, rows, decode, q, j);
      RowsFromOnes(buf, headers, ds, shape, rows, decode, t', q + 1, j);
      AppendFrom(t[headers[j]], column, q);
    } else {
      assert RowsFrom(buf, headers, Items(ds, shape), L, decode, t, Times(q, L)) == Ok(t);
      assert t[headers[j]] + column[q..] == t[headers[j]];
    }
  }

  /**
   * Record q with every count 1: the chunk loop appends to a header named
   * once the value of its column in that record and moves on to the next
   * record.
   */
  lemma {:induction false} OnesChunk(buf: seq<int>, headers: seq<string>, ds: seq<Dtype>, shape: seq<int>,
                                     rows: nat, decode: Decoder, t: Table, q: nat, j: nat) returns (t': Table)
    requires |headers| == |ds| == |shape| && forall k | 0 <= k < |shape| :: shape[k] == 1
    requires RowLength(ds) > 0 && |buf| == Times(rows, RowLength(ds)) && q < rows
    requires forall k | 0 <= k < |headers| :: headers[k] in t
    requires j < |headers| && forall k | 0 <= k < |headers| && k != j :: headers[k] != headers[j]
    ensures forall k | 0 <= k < |headers| :: headers[k] in t'
    ensures RowsFrom(buf, headers, Items(ds, shape), RowLength(ds), decode, t, Times(q, RowLength(ds)))
         == RowsFrom(buf, headers, Items(ds, shape), RowLength(ds), decode, t', Times(q + 1, RowLength(ds)))
    ensures Times(q, RowLength(ds)) + Offset(ds, j) + Width(ds[j]) <= |buf|
    ensures t'[headers[j]] == t[headers[j]] + [Cell(buf, ds[j], Times(q, RowLength(ds)) + Offset(ds, j), decode)]
  {
    var L := RowLength(ds);
    var i := Times(q, L);
    TimesApart(q, rows, L);
    assert Times(q + 1, L) == i + L;
    t' := OnesStep(buf, headers, ds, shape, decode, t, i, j);
  }

  /** The record at byte i, with every count 1: its values are appended, value j from column j's bytes. */
  lemma {:induction false} OnesStep(buf: seq<int>, headers: seq<string>, ds: seq<Dtype>, shape: seq<int>,
                 decode: Decoder, t: Table, i: nat, j: nat) returns (t': Table)
    requires |headers| == |ds| == |shape| && forall k | 0 <= k < |shape| :: shape[k] == 1
    requires RowLength(ds) > 0 && i + RowLength(ds) <= |buf|
    requires forall k | 0 <= k < |headers| :: headers[k] in t
    requires j < |headers| && forall k | 0 <= k < |headers| && k != j :: headers[k] != headers[j]
    ensures forall k | 0 <= k < |headers| :: headers[k] in t'
    ensures RowsFrom(buf, headers, Items(ds, shape), RowLength(ds), decode, t, i)
         == RowsFrom(buf, headers, Items(ds, shape), RowLength(ds), decode, t', i + RowLength(ds))
    ensures i + Offset(ds, j) + Width(ds[j]) <= |buf|
    ensures t'[headers[j]] == t[headers[j]] + [Cell(buf, ds[j], i + Offset(ds, j), decode)]
  {
    var L := RowLength(ds);
    var items := Items(ds, shape);
    RecordValue(buf, ds, shape, decode, i, j);
    var values := Unpack(buf[i..i + L], items, decode);
    RowsFromWholeChunk(buf, headers, items, L, decode, t, i);
    t' := AppendRow(t, headers, values, 0);
    AppendRowAt(t, headers, values, 0, j);
  }

  /** The record at byte i, with every count 1, unpacks to one value per header, value j from column j's bytes. */
  lemma {:induction false} RecordValue(buf: seq<int>, ds: seq<Dtype>, shape: seq<int>, decode: Decoder, i: nat, j: nat)
    requires |ds| == |shape| && forall k | 0 <= k < |shape| :: shape[k] == 1
    requires i + RowLength(ds) <= |buf| && j < |ds|
    ensures StructSize(Items(ds, shape)) == RowLength(ds)
    ensures i + Offset(ds, j) + Width(ds[j]) <= |buf|
    ensures var vs := Unpack(buf[i..i + RowLength(ds)], Items(ds, shape), decode);
      |vs| == |ds| && vs[j] == Cell(buf, ds[j], i + Offset(ds, j), decode)
  {
    var off, w := Offset(ds, j), Width(ds[j]);
    var chunk := buf[i..i + RowLength(ds)];
    UnpackOnes(chunk, ds, shape, decode, j);
    SliceOfSlice(buf, i, i + RowLength(ds), off, off + w);
  }

  /** With the bytes exactly `rows` records long, value q of column j's view is read from record q. */
  lemma {:induction false} ViewAtRecord(buf: seq<int>, ds: seq<Dtype>, rows: nat, decode: Decoder, q: nat, j: nat)
    requires RowLength(ds) > 0 && |buf| == Times(rows, RowLength(ds)) && q < rows && j < |ds|
    ensures ViewFits(|buf|, ds[j], rows, Offset(ds, j), RowLength(ds))
    ensures Times(q, RowLength(ds)) + Offset(ds, j) + Width(ds[j]) <= |buf|
    ensures View(buf, ds[j], rows, Offset(ds, j), RowLength(ds), decode)[q]
         == Cell(buf, ds[j], Times(q, RowLength(ds)) + Offset(ds, j), decode)
  {
    WholeTableFits(buf, ds, rows, j);
    TimesIsProduct(q, RowLength(ds));
    ViewAt(buf, ds[j], rows, Offset(ds, j), RowLength(ds), decode, q, Times(q, RowLength(ds)));
  }

  lemma ViewsIsViewsAt(buf: seq<int>, headers: seq<string>, ds: seq<Dtype>, rows: int, decode: Decoder)
    requires |headers| == |ds|
    ensures Views(buf, headers, ds, rows, decode) == ViewsAt(buf, headers, ds, rows, decode, map[], 0)
  {
    assert ds[..0] == [];
  }

  /** With the bytes exactly `rows` records long, every column's view fits. */
  lemma {:induction false} WholeTableFits(buf: seq<int>, ds: seq<Dtype>, rows: nat, j: nat)
    requires j < |ds| && rows > 0 && |buf| == Times(rows, RowLength(ds))
    ensures ViewFits(|buf|, ds[j], rows, Offset(ds, j), RowLength(ds))
  {
    OffsetsIncrease(ds, j, |ds|);
    TimesIsProduct(rows - 1, RowLength(ds));
  }

  /** Every header is a key of the numpy path's dict. */
  lemma KeysOfViews(buf: seq<int>, headers: seq<string>, ds: seq<Dtype>, rows: int, decode: Decoder)
    requires |headers| == |ds|
    ensures Views(buf, headers, ds, rows, decode).Ok? ==>
      forall j | 0 <= j < |headers| :: headers[j] in Views(buf, headers, ds, rows, decode).value
  {
    ViewsIsViewsAt(buf, headers, ds, rows, decode);
    if Views(buf, headers, ds, rows, decode).Ok? {
      ViewsKeys(buf, headers, ds, rows, decode, map[], 0);
    }
  }

  /**
   * The fallback and numpy paths agree: with a count of 1 per header, at
   * least one header, and bytes exactly `rows` records long (at least one
   * record: numpy refuses a column offset past the end), both succeed
   * and a header named once gets the same column from both, the view of
   * its values.
   */
  lemma {:induction false} UnpackedMatchesViews(buf: seq<int>, headers: seq<string>, ds: seq<Dtype>, shape: seq<int>,
                             rows: nat, decode: Decoder, j: nat)
    requires |headers| == |ds| == |shape| > 0 && forall k | 0 <= k < |shape| :: shape[k] == 1
    requires rows > 0 && |buf| == rows * RowLength(ds)
    requires j < |headers| && forall k | 0 <= k < |headers| && k != j :: headers[k] != headers[j]
    ensures ViewFits(|buf|, ds[j], rows, Offset(ds, j), RowLength(ds))
    ensures var u, v := Unpacked(buf, headers, ds, shape, decode), Views(buf, headers, ds, rows, decode);
      && u.Ok? && v.Ok? && headers[j] in u.value && headers[j] in v.value
      && u.value[headers[j]] == v.value[headers[j]] == View(buf, ds[j], rows, Offset(ds, j), RowLength(ds), decode)
  {
    TimesIsProduct(rows, RowLength(ds));
    RowLengthFront(ds);
    FormatRoundTrip(ds, shape);
    WholeTableFits(buf, ds, rows, j);
    RowsFromOnes(buf, headers, ds, shape, rows, decode, EmptyLists(headers), 0, j);
    ViewsIsViewsAt(buf, headers, ds, rows, decode);
    forall k | 0 <= k < |ds| ensures ViewFits(|buf|, ds[k], rows, Offset(ds, k), RowLength(ds)) {
      WholeTableFits(buf, ds, rows, k);
    }
    ViewsOk(buf, headers, ds, rows, decode, map[], 0);
    ViewsColumn(buf, headers, ds, rows, decode, map[], 0, j);
  }

  lemma MulAtLeast(e: int, L: int)
    requires e >= 1 && L > 0
    ensures e * L >= L
  {
  }

  /** A whole number of records leaves no remainder. */
  lemma MultipleMod(q: nat, L: nat)
    requires L > 0
    ensures (q * L) % L == 0
  {
    var m := q * L;
    var d, r := m / L, m % L;
    assert m == d * L + r;
    var e := q - d;
    assert e * L == r by {
      assert e * L == q * L - d * L;
    }
    if e >= 1 {
      MulAtLeast(e, L);
    }
  }

  /**
   * The fallback path, when it succeeds on at least one byte, met only
   * chunks of the struct's size: every count is nonnegative, and either the
   * struct size is the record length and the bytes are a whole number of
   * records, or the bytes are one chunk shorter than a record and exactly
   * of the struct's size.
   */
  lemma UnpackedNeedsWholeRecords(buf: seq<int>, headers: seq<string>, ds: seq<Dtype>, shape: seq<int>, decode: Decoder)
    requires |headers| == |ds| == |shape| && |buf| > 0
    requires Unpacked(buf, headers, ds, shape, decode).Ok?
    ensures forall k | 0 <= k < |shape| :: shape[k] >= 0
    ensures RowLength(ds) > 0
    ensures || (StructSize(Items(ds, shape)) == RowLength(ds) && |buf| % RowLength(ds) == 0)
            || StructSize(Items(ds, shape)) == |buf| < RowLength(ds)
  {
    if k :| 0 <= k < |shape| && shape[k] < 0 {
      NegativeCountUnreadable(ds, shape, k);
    }
    FormatRoundTrip(ds, shape);
    var q := WholeRecordsFrom(buf, headers, Items(ds, shape), RowLength(ds), decode, EmptyLists(headers), 0, 0);
    TimesIsProduct(q, RowLength(ds));
    MultipleMod(q, RowLength(ds));
  }

  /** A chunk loop that succeeds met a first chunk of the struct's size, and goes on from the next one. */
  lemma RowsFromFirst(buf: seq<int>, headers: seq<string>, items: seq<(nat, Dtype)>, rowLen: nat,
                      decode: Decoder, t: Table, i: nat) returns (t': Table)
    requires rowLen > 0 && forall k | 0 <= k < |headers| :: headers[k] in t
    requires i < |buf| && RowsFrom(buf, headers, items, rowLen, decode, t, i).Ok?
    ensures Min(i + rowLen, |buf|) - i == StructSize(items)
    ensures forall k | 0 <= k < |headers| :: headers[k] in t'
    ensures RowsFrom(buf, headers, items, rowLen, decode, t, i) == RowsFrom(buf, headers, items, rowLen, decode, t', i + rowLen)
  {
    t' := AppendRow(t, headers, Unpack(buf[i..Min(i + rowLen, |buf|)], items, decode), 0);
  }

  /**
   * The chunk loop from chunk q on succeeds only if every chunk from q on
   * has the struct's size: that size is the record length and the bytes
   * end after a whole number of records, or the first chunk is the only
   * one and is shorter than a record.
   */
  lemma {:induction false} WholeRecordsFrom(buf: seq<int>, headers: seq<string>, items: seq<(nat, Dtype)>, rowLen: nat,
                                            decode: Decoder, t: Table, q: nat, i: nat)
    returns (records: nat)
    requires rowLen > 0 && forall k | 0 <= k < |headers| :: headers[k] in t
    requires i == Times(q, rowLen) && i < |buf| && (q > 0 ==> StructSize(items) == rowLen)
    requires RowsFrom(buf, headers, items, rowLen, decode, t, i).Ok?
    ensures || (StructSize(items) == rowLen && |buf| == Times(records, rowLen))
            || (q == 0 && StructSize(items) == |buf| < rowLen)
    decreases |buf| - i
  {
    var t' := RowsFromFirst(buf, headers, items, rowLen, decode, t, i);
    assert Times(q + 1, rowLen) == i + rowLen;
    if i + rowLen < |buf| {
      records := WholeRecordsFrom(buf, headers, items, rowLen, decode, t', q + 1, i + rowLen);
    } else {
      records := q + 1;
    }
  }

  /** Sum of a column. */
  function Sum(s: seq<real>): real {
    if s == [] then 0.0 else Sum(s[..|s| - 1]) + s[|s| - 1]
  }

  /** `a.mean()` of a non-empty column. */
  function Mean(s: seq<real>): real
    requires |s| > 0
  {
    Sum(s) / (|s| as real)
  }

  /** The sum of a concatenation is the sum of the sums, whatever the split. */
  lemma {:induction false} SumConcat(a: seq<real>, b: seq<real>)
    ensures Sum(a + b) == Sum(a) + Sum(b)
    decreases |b|
  {
    if b == [] {
      assert a + b == a;
    } else {
      var c := a + b;
      assert c[..|c| - 1] == a + b[..|b| - 1];
      SumConcat(a, b[..|b| - 1]);
    }
  }

  /** A column holding one value everywhere has that value as its mean. */
  lemma {:induction false} MeanOfConstant(s: seq<real>, v: real)
    requires |s| > 0
    requires forall k | 0 <= k < |s| :: s[k] == v
    ensures Mean(s) == v
  {
    SumOfConstant(s, v);
  }

  lemma {:induction false} SumOfConstant(s: seq<real>, v: real)
    requires forall k | 0 <= k < |s| :: s[k] == v
    ensures Sum(s) == (|s| as real) * v
  {
    if s != [] {
      SumOfConstant(s[..|s| - 1], v);
    }
  }

  /** A sum of |s| values between lo and hi lies between |s| * lo and |s| * hi. */
  lemma {:induction false} SumBounds(s: seq<real>, lo: real, hi: real)
    requires forall k | 0 <= k < |s| :: lo <= s[k] <= hi
    ensures (|s| as real) * lo <= Sum(s) <= (|s| as real) * hi
  {
    if s != [] {
      SumBounds(s[..|s| - 1], lo, hi);
    }
  }

  lemma DivBounds(a: real, n: real, lo: real, hi: real)
    requires n > 0.0 && n * lo <= a <= n * hi
    ensures lo <= a / n <= hi
  {
    assert a / n * n == a;
  }

  /** The mean of a non-empty column lies within any bounds of its values. */
  lemma MeanBetween(s: seq<real>, lo: real, hi: real)
    requires |s| > 0
    requires forall k | 0 <= k < |s| :: lo <= s[k] <= hi
    ensures lo <= Mean(s) <= hi
  {
    SumBounds(s, lo, hi);
    DivBounds(Sum(s), |s| as real, lo, hi);
  }

  /**
   * `data` of a loaded table (lines 63-67): the minimum, maximum and mean
   * of each header's column, in header order, and the table itself; `min()`
   * of an empty column raises.
   */
  function Summarize(table: Table, headers: seq<string>): (r: Result<TableData, SmlmError>)
    requires forall j | 0 <= j < |headers| :: headers[j] in table
    ensures r.Ok? <==> forall j | 0 <= j < |headers| :: |table[headers[j]]| > 0
    ensures r.Ok? ==> r.value.table == table
    ensures r.Ok? ==> |r.value.min| == |r.value.max| == |r.value.avg| == |headers|
    ensures r.Ok? ==> forall j | 0 <= j < |headers| ::
      && r.value.min[j] in table[headers[j]] && r.value.max[j] in table[headers[j]]
      && (forall v | v in table[headers[j]] :: r.value.min[j] <= v <= r.value.max[j])
      && r.value.min[j] <= r.value.avg[j] <= r.value.max[j]
    ensures r.Ok? ==> forall j | 0 <= j < |headers| :: r.value.avg[j] == Mean(table[headers[j]])
  {
    if exists j | 0 <= j < |headers| :: |table[headers[j]]| == 0 then Err(EmptyColumn)
    else
      var mins := seq(|headers|, j requires 0 <= j < |headers| => SeqMin(table[headers[j]]));
      var maxs := seq(|headers|, j requires 0 <= j < |headers| => SeqMax(table[headers[j]]));
      var avgs := seq(|headers|, j requires 0 <= j < |headers| => Mean(table[headers[j]]));
      assert forall j | 0 <= j < |headers| :: mins[j] <= avgs[j] <= maxs[j] by {
        forall j | 0 <= j < |headers| ensures mins[j] <= avgs[j] <= maxs[j] {
          MeanBetween(table[headers[j]], mins[j], maxs[j]);
        }
      }
      Ok(TableData(mins, maxs, avgs, table))
  }

  /**
   * The columns of a binary table's bytes (lines 32-62): the format's three
   * lists must have one length, every dtype must be known, then the numpy
   * views when numpy imports and the unpacked lists otherwise.
   */
  function LoadedColumns(bytes: seq<int>, fmt: Format, rows: int, numpy: bool, decode: Decoder): (r: Result<Table, SmlmError>)
    ensures r.Ok? ==> forall j | 0 <= j < |fmt.headers| :: fmt.headers[j] in r.value
  {
    if !(|fmt.headers| == |fmt.dtype| == |fmt.shape|) then Err(LengthMismatch)
    else match ParseDtypes(fmt.dtype)
      case Err(e) => Err(e)
      case Ok(ds) =>
        if numpy then
          ViewsIsViewsAt(bytes, fmt.headers, ds, rows, decode);
          KeysOfViews(bytes, fmt.headers, ds, rows, decode);
          Views(bytes, fmt.headers, ds, rows, decode)
        else
          Unpacked(bytes, fmt.headers, ds, fmt.shape, decode)
  }

  /** A binary table loaded and summarized (lines 32-68), with the fallback returning its lists. */
  function LoadedTable(bytes: seq<int>, fmt: Format, rows: int, numpy: bool, decode: Decoder): Result<TableData, SmlmError> {
    match LoadedColumns(bytes, fmt, rows, numpy, decode)
    case Err(e) => Err(e)
    case Ok(table) => Summarize(table, fmt.headers)
  }

  /** The dtype names of one dtype parsed and the bytes they need. */
  lemma ParseDtypesStep(names: seq<string>, i: nat)
    requires i < |names|
    ensures ParseDtypes(names[i..]) ==
      match ParseDtype(names[i])
      case None => Err(UnknownDtype(names[i]))
      case Some(d) => Prepend([d], ParseDtypes(names[i + 1..]))
  {
    assert names[i..][1..] == names[i + 1..];
  }

  /** The first loop (lines 39-41): the dtypes looked up one by one, their widths added to `rowLen`. */
  method ParseRow(names: seq<string>) returns (r: Result<seq<Dtype>, SmlmError>, rowLen: nat)
    ensures r == ParseDtypes(names)
    ensures r.Ok? ==> rowLen == RowLength(r.value)
  {
    var ds: seq<Dtype> := [];
    rowLen := 0;
    assert names[0..] == names;
    PrependNil(ParseDtypes(names));
    for i := 0 to |names|
      invariant |ds| == i && rowLen == RowLength(ds)
      invariant ParseDtypes(names) == Prepend(ds, ParseDtypes(names[i..]))
    {
      ParseDtypesStep(names, i);
      var d := ParseDtype(names[i]);
      if d.None? {
        return Err(UnknownDtype(names[i])), rowLen;
      }
      assert (ds + [d.value])[..i] == ds;
      PrependSnoc(ds, d.value, ParseDtypes(names[i + 1..]));
      ds := ds + [d.value];
      rowLen := rowLen + Width(d.value);
    }
    assert names[|names|..] == [] && ds + [] == ds;
    r := Ok(ds);
  }

  /** Lines 32-62 up to the dict of columns. */
  method LoadColumns(bytes: seq<int>, fmt: Format, rows: int, numpy: bool, decode: Decoder)
    returns (r: Result<Table, SmlmError>)
    ensures r == LoadedColumns(bytes, fmt, rows, numpy, decode)
  {
    if !(|fmt.headers| == |fmt.dtype| == |fmt.shape|) {
      return Err(LengthMismatch);
    }
    var ds, rowLen := ParseRow(fmt.dtype);
    if ds.Err? {
      return Err(ds.error);
    }
    if numpy {
      r := MakeViews(bytes, fmt.headers, ds.value, rows, rowLen, decode);
    } else {
      r := UnpackRows(bytes, fmt.headers, ds.value, fmt.shape, rowLen, decode);
    }
  }

  /** Lines 32-68 with the fallback returning its lists: the columns and their summary. */
  method LoadTable(bytes: seq<int>, fmt: Format, rows: int, numpy: bool, decode: Decoder)
    returns (r: Result<TableData, SmlmError>)
    ensures r == LoadedTable(bytes, fmt, rows, numpy, decode)
  {
    var columns := LoadColumns(bytes, fmt, rows, numpy, decode);
    if columns.Err? {
      return Err(columns.error);
    }
    r := Summarize(columns.value, fmt.headers);
  }

  /**
   * Lines 32-68 as written: without numpy, line 62 names `np`, which the
   * failed import left unbound, so no table is ever loaded, and the
   * NameError comes exactly where the fallback did unpack the bytes.
   */
  method LoadTableAsWritten(bytes: seq<int>, fmt: Format, rows: int, numpy: bool, decode: Decoder)
    returns (r: Result<TableData, SmlmError>)
    ensures numpy ==> r == LoadedTable(bytes, fmt, rows, numpy, decode)
    ensures !numpy ==> r.Err?
    ensures !numpy ==> r == match LoadedColumns(bytes, fmt, rows, numpy, decode)
                            case Ok(_) => Err(NumpyUnbound)
                            case Err(e) => Err(e)
  {
    var columns := LoadColumns(bytes, fmt, rows, numpy, decode);
    if columns.Err? {
      return Err(columns.error);
    }
    if !numpy {
      return Err(NumpyUnbound);
    }
    r := Summarize(columns.value, fmt.headers);
  }

  /**
   * One manifest entry (lines 17-89): a table entry is loaded when its
   * format is binary and its file is in the archive, and skipped when the
   * file is missing; entries of any other type are left as they are.
   */
  function LoadEntry(archive: map<string, seq<int>>, formats: map<string, Format>, f: FileInfo,
                     numpy: bool, decode: Decoder): Result<FileInfo, SmlmError>
  {
    if f.kind != "table" then Ok(f)
    else if f.format !in formats then Err(UnknownFormat(f.format))
    else if formats[f.format].mode != "binary" then Err(UnsupportedMode(formats[f.format].mode))
    else if f.name !in archive then Ok(f)
    else match LoadedTable(archive[f.name], formats[f.format], f.rows, numpy, decode)
      case Err(e) => Err(e)
      case Ok(td) => Ok(f.(data := Some(td)))
  }

  /**
   * What loading an entry changes: only its `data`, and only for a table
   * found in the archive, which then holds every header's column with its
   * minimum, mean and maximum in order.
   */
  lemma EntryLoaded(archive: map<string, seq<int>>, formats: map<string, Format>, f: FileInfo,
                    numpy: bool, decode: Decoder)
    requires LoadEntry(archive, formats, f, numpy, decode).Ok?
    ensures var g := LoadEntry(archive, formats, f, numpy, decode).value;
      && g == f.(data := g.data)
      && (g.data != f.data ==> f.kind == "table" && f.name in archive)
      && (f.kind == "table" && f.name in archive ==>
            && f.format in formats && g.data.Some?
            && var fmt, td := formats[f.format], g.data.value;
            && |td.min| == |td.avg| == |td.max| == |fmt.headers|
            && forall j | 0 <= j < |fmt.headers| ::
                 fmt.headers[j] in td.table && td.min[j] <= td.avg[j] <= td.max[j])
  {
  }

  /**
   * `readSmlmFile` (lines 11-92) for the manifest and every table entry:
   * the manifest must exist and be of version 0.2; the entries are loaded in
   * order and the first that fails ends the call with its error; otherwise
   * the manifest comes back with every entry as `LoadEntry` leaves it,
   * together with the same list of entries.
   */
  method ReadSmlmFile(archive: map<string, seq<int>>, manifest: Option<Manifest>, numpy: bool, decode: Decoder)
    returns (r: Result<(Manifest, seq<FileInfo>), SmlmError>)
    ensures manifest.None? ==> r == Err(NoManifest)
    ensures manifest.Some? && manifest.value.formatVersion != "0.2" ==> r == Err(BadFormatVersion)
    ensures manifest.Some? && manifest.value.formatVersion == "0.2" ==>
      var m := manifest.value;
      && (r.Ok? <==> forall k | 0 <= k < |m.files| :: LoadEntry(archive, m.formats, m.files[k], numpy, decode).Ok?)
      && (r.Ok? ==>
            && r.value.1 == r.value.0.files && r.value.0 == m.(files := r.value.1)
            && |r.value.1| == |m.files|
            && forall k | 0 <= k < |m.files| :: Ok(r.value.1[k]) == LoadEntry(archive, m.formats, m.files[k], numpy, decode))
      && (r.Err? ==> exists k | 0 <= k < |m.files| ::
            && LoadEntry(archive, m.formats, m.files[k], numpy, decode) == Err(r.error)
            && forall i | 0 <= i < k :: LoadEntry(archive, m.formats, m.files[i], numpy, decode).Ok?)
  {
    if manifest.None? {
      return Err(NoManifest);
    }
    var m := manifest.value;
    if m.formatVersion != "0.2" {
      return Err(BadFormatVersion);
    }
    var files := m.files;
    for k := 0 to |files|
      invariant |files| == |m.files|
      invariant forall i | 0 <= i < k :: Ok(files[i]) == LoadEntry(archive, m.formats, m.files[i], numpy, decode)
      invariant forall i | k <= i < |files| :: files[i] == m.files[i]
    {
      var f := files[k];
      if f.kind == "table" {
        if f.format !in m.formats {
          return Err(UnknownFormat(f.format));
        }
        var fmt := m.formats[f.format];
        if fmt.mode != "binary" {
          return Err(UnsupportedMode(fmt.mode));
        }
        if f.name in archive {
          var loaded := LoadTable(archive[f.name], fmt, f.rows, numpy, decode);
          if loaded.Err? {
            return Err(loaded.error);
          }
          files := files[k := f.(data := Some(loaded.value))];
        }
      }
    }
    m := m.(files := files);
    return Ok((m, files));
  }
}
