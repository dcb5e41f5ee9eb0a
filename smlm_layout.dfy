/**
 * examples/smlm_file.py, the record layout of a binary SMLM table. A table
 * is a run of fixed-width records; record r holds one value per header, the
 * values packed in header order, each as wide as its dtype says
 * (`dtype2length`). The numpy path reads column j as a strided view
 * (stride: the record length, start: the widths of the columns before j);
 * the fallback path builds a struct format string (`dtype2struct`) and
 * unpacks the table record by record.
 *
 * Bytes are `seq<int>`; reading one value from its bytes is the parameter
 * `decode` (byte order and IEEE-754 decoding are not modelled).
 */
module SmlmLayout {
  import opened Wrappers

  datatype Dtype = UInt8 | UInt32 | Float64 | Float32

  /** How one value of a dtype is read from its bytes. */
  type Decoder = (Dtype, seq<int>) -> real

  /** The key naming d in `dtype2length` and `dtype2struct`. */
  function DtypeName(d: Dtype): string {
    match d
    case UInt8 => "uint8"
    case UInt32 => "uint32"
    case Float64 => "float64"
    case Float32 => "float32"
  }

  /** Lookup of a format's dtype name in `dtype2length`: only the four keys are known. */
  function ParseDtype(name: string): (d: Option<Dtype>)
    ensures d.Some? ==> DtypeName(d.value) == name
    ensures d.None? ==> forall e: Dtype :: DtypeName(e) != name
  {
    if name == "uint8" then Some(UInt8)
    else if name == "uint32" then Some(UInt32)
    else if name == "float64" then Some(Float64)
    else if name == "float32" then Some(Float32)
    else None
  }

  /** Every dtype is found again under its own name. */
  lemma ParseDtypeName(d: Dtype)
    ensures ParseDtype(DtypeName(d)) == Some(d)
  {
  }

  /** `dtype2length`: bytes per value. */
  function Width(d: Dtype): (w: nat)
    ensures w == 1 || w == 4 || w == 8
  {
    match d
    case UInt8 => 1
    case UInt32 => 4
    case Float64 => 8
    case Float32 => 4
  }

  /** `dtype2struct`: the struct module's code for one value of d. */
  function StructCode(d: Dtype): char {
    match d
    case UInt8 => 'B'
    case UInt32 => 'I'
    case Float64 => 'd'
    case Float32 => 'f'
  }

  /** The struct module's reading of one of the four codes. */
  function CodeDtype(c: char): (d: Option<Dtype>)
    ensures d.Some? ==> StructCode(d.value) == c
  {
    if c == 'B' then Some(UInt8)
    else if c == 'I' then Some(UInt32)
    else if c == 'd' then Some(Float64)
    else if c == 'f' then Some(Float32)
    else None
  }

  /** The struct module's standard size of a code. */
  function StandardSize(c: char): nat {
    if c == 'B' then 1 else if c == 'I' || c == 'f' then 4 else if c == 'd' then 8 else 0
  }

  /**
   * The two tables agree: the code of d reads back as d, and struct's
   * standard size of that code is the width `dtype2length` gives d.
   */
  lemma CodeAgreesWithWidth(d: Dtype)
    ensures CodeDtype(StructCode(d)) == Some(d)
    ensures StandardSize(StructCode(d)) == Width(d)
  {
  }

  /** Bytes per record: `rowLen` after the first loop, the widths of all columns added up. */
  function RowLength(ds: seq<Dtype>): nat {
    if ds == [] then 0 else RowLength(ds[..|ds| - 1]) + Width(ds[|ds| - 1])
  }

  /** Where column j starts within a record: `byteOffset` when the view of column j is made. */
  function Offset(ds: seq<Dtype>, j: nat): nat
    requires j <= |ds|
  {
    RowLength(ds[..j])
  }

  /**
   * Column j starts where column j - 1 ends, ends no later than any later
   * column starts (so the offsets strictly increase), and the last column
   * ends at the record length.
   */
  lemma {:induction false} OffsetsIncrease(ds: seq<Dtype>, j: nat, k: nat)
    requires j < k <= |ds|
    ensures Offset(ds, j + 1) == Offset(ds, j) + Width(ds[j])
    ensures Offset(ds, j) + Width(ds[j]) <= Offset(ds, k)
    ensures Offset(ds, j) < Offset(ds, k)
    ensures Offset(ds, |ds|) == RowLength(ds)
    decreases k
  {
    assert ds[..j + 1][..j] == ds[..j];
    assert ds[..|ds|] == ds;
    if k > j + 1 {
      OffsetsIncrease(ds, j, k - 1);
      assert ds[..k][..k - 1] == ds[..k - 1];
    }
  }

  /** Record a of L bytes ends no later than record b starts when a < b. */
  lemma {:induction false} RowsApart(a: nat, b: nat, L: nat)
    requires a < b
    ensures a * L + L <= b * L
    decreases b - a
  {
    assert (a + 1) * L == a * L + L;
    if b > a + 1 {
      RowsApart(a + 1, b, L);
    }
  }

  /**
   * With stride `RowLength(ds)`, value (r, j) takes the Width(ds[j]) bytes
   * from r * RowLength(ds) + Offset(ds, j) on: two different cells never
   * share a byte.
   */
  lemma CellsDisjoint(ds: seq<Dtype>, r1: nat, j1: nat, r2: nat, j2: nat)
    requires j1 < |ds| && j2 < |ds| && (r1, j1) != (r2, j2)
    ensures var L := RowLength(ds);
      || r1 * L + Offset(ds, j1) + Width(ds[j1]) <= r2 * L + Offset(ds, j2)
      || r2 * L + Offset(ds, j2) + Width(ds[j2]) <= r1 * L + Offset(ds, j1)
  {
    var L := RowLength(ds);
    if r1 == r2 {
      if j1 < j2 {
        OffsetsIncrease(ds, j1, j2);
      } else {
        OffsetsIncrease(ds, j2, j1);
      }
    } else if r1 < r2 {
      OffsetsIncrease(ds, j1, |ds|);
      RowsApart(r1, r2, L);
    } else {
      OffsetsIncrease(ds, j2, |ds|);
      RowsApart(r2, r1, L);
    }
  }

  /** The record length seen from the front: the first width, then the rest. */
  lemma {:induction false} RowLengthFront(ds: seq<Dtype>)
    requires |ds| > 0
    ensures RowLength(ds) == Width(ds[0]) + RowLength(ds[1..])
    decreases |ds|
  {
    if |ds| > 1 {
      var front := ds[..|ds| - 1];
      RowLengthFront(front);
      assert front[1..] == ds[1..][..|ds| - 2];
    }
  }

  /** Offsets seen from the front: past column 0, the offsets of the remaining columns. */
  lemma OffsetFront(ds: seq<Dtype>, j: nat)
    requires 0 < j <= |ds|
    ensures Offset(ds, j) == Width(ds[0]) + Offset(ds[1..], j - 1)
  {
    RowLengthFront(ds[..j]);
    assert ds[..j][1..] == ds[1..][..j - 1];
  }

  predicate IsDigit(c: char) {
    '0' <= c <= '9'
  }

  function DigitChar(d: nat): (c: char)
    requires d < 10
    ensures IsDigit(c)
  {
    ('0' as int + d) as char
  }

  function DigitValue(c: char): nat
    requires IsDigit(c)
  {
    c as int - '0' as int
  }

  predicate AllDigits(s: string) {
    forall i | 0 <= i < |s| :: IsDigit(s[i])
  }

  /** `str(n)` of a natural number: its decimal digits, most significant first. */
  function NatToString(n: nat): (s: string)
    ensures |s| > 0
  {
    if n < 10 then [DigitChar(n)] else NatToString(n / 10) + [DigitChar(n % 10)]
  }

  /** `str(n)` of a Python int: '-' in front of the digits when negative. */
  function IntToString(n: int): string {
    if n < 0 then "-" + NatToString(-n) else NatToString(n)
  }

  /** The number a run of decimal digits stands for. */
  function DigitsValue(s: string): nat
    requires AllDigits(s)
  {
    if s == [] then 0 else DigitsValue(s[..|s| - 1]) * 10 + DigitValue(s[|s| - 1])
  }

  /** Reading back the digits of a natural number gives the number. */
  lemma {:induction false} DigitsRoundTrip(n: nat)
    ensures AllDigits(NatToString(n)) && DigitsValue(NatToString(n)) == n
  {
    var s := NatToString(n);
    if n >= 10 {
      DigitsRoundTrip(n / 10);
      assert s[..|s| - 1] == NatToString(n / 10);
    }
  }

  /** What header i adds to the struct format string (line 54): `str(shape[i])`, then its struct code. */
  function Piece(d: Dtype, n: int): string {
    IntToString(n) + [StructCode(d)]
  }

  /** Strings joined in order. */
  function Concat(ss: seq<string>): string {
    if ss == [] then "" else ss[0] + Concat(ss[1..])
  }

  /** Joining one more string at the back appends it. */
  lemma {:induction false} ConcatSnoc(ss: seq<string>, i: nat)
    requires i < |ss|
    ensures Concat(ss[..i + 1]) == Concat(ss[..i]) + ss[i]
    decreases i
  {
    if i == 0 {
      assert ss[..1] == [ss[0]] && ss[..1][1..] == [] && ss[..0] == [];
    } else {
      ConcatSnoc(ss[1..], i - 1);
      assert ss[..i + 1][1..] == ss[1..][..i] && ss[..i][1..] == ss[1..][..i - 1];
      var mid := Concat(ss[1..][..i - 1]);
      assert ss[0] + (mid + ss[i]) == (ss[0] + mid) + ss[i];
    }
  }

  /** The pieces of all headers, in header order. */
  function Pieces(ds: seq<Dtype>, shape: seq<int>): (ps: seq<string>)
    requires |ds| == |shape|
    ensures |ps| == |ds|
  {
    seq(|ds|, i requires 0 <= i < |ds| => Piece(ds[i], shape[i]))
  }

  /** The struct format string (lines 52-54): the headers' pieces, in order. */
  function FormatString(ds: seq<Dtype>, shape: seq<int>): string
    requires |ds| == |shape|
  {
    Concat(Pieces(ds, shape))
  }

  /** The format string starts with the first header's piece. */
  lemma FormatStringFront(ds: seq<Dtype>, shape: seq<int>)
    requires |ds| == |shape| > 0
    ensures FormatString(ds, shape) == Piece(ds[0], shape[0]) + FormatString(ds[1..], shape[1..])
  {
    assert Pieces(ds, shape)[1..] == Pieces(ds[1..], shape[1..]);
  }

  /** The loop `st += str(shape[i]) + dtype2struct[dtype[i]]` builds the format string one header at a time. */
  lemma FormatStringSnoc(ds: seq<Dtype>, shape: seq<int>, i: nat)
    requires i < |ds| == |shape|
    ensures FormatString(ds[..i + 1], shape[..i + 1]) == FormatString(ds[..i], shape[..i]) + Piece(ds[i], shape[i])
  {
    var ps := Pieces(ds, shape);
    ConcatSnoc(ps, i);
    assert Pieces(ds[..i + 1], shape[..i + 1]) == ps[..i + 1];
    assert Pieces(ds[..i], shape[..i]) == ps[..i];
  }

  /** How many decimal digits s starts with. */
  function LeadingDigits(s: string): (k: nat)
    ensures k <= |s|
    ensures k < |s| ==> !IsDigit(s[k])
  {
    if s == [] || !IsDigit(s[0]) then 0 else 1 + LeadingDigits(s[1..])
  }

  /** The leading run is made of digits. */
  lemma {:induction false} LeadingDigitsAreDigits(s: string)
    ensures AllDigits(s[..LeadingDigits(s)])
  {
    if s != [] && IsDigit(s[0]) {
      LeadingDigitsAreDigits(s[1..]);
      var k := LeadingDigits(s);
      assert s[..k] == [s[0]] + s[1..][..k - 1];
    }
  }

  /**
   * The struct module's reading of a format string over the four codes:
   * each code, optionally preceded by a decimal repeat count (1 when
   * absent), stands for that many values of its dtype. None when the string
   * does not have that form (struct raises `struct.error`).
   */
  function ParseFormat(s: string): Option<seq<(nat, Dtype)>>
    decreases |s|
  {
    if s == [] then Some([])
    else
      var k := LeadingDigits(s);
      if k == |s| || CodeDtype(s[k]).None? then None
      else
        LeadingDigitsAreDigits(s);
        var count := if k == 0 then 1 else DigitsValue(s[..k]);
        match ParseFormat(s[k + 1..])
        case None => None
        case Some(items) => Some([(count, CodeDtype(s[k]).value)] + items)
  }

  /** A run of digits followed by a non-digit: exactly the run is read as the count. */
  lemma {:induction false} LeadingDigitsOf(p: string, c: char, rest: string)
    requires AllDigits(p) && !IsDigit(c)
    ensures LeadingDigits(p + [c] + rest) == |p|
    decreases |p|
  {
    var s := p + [c] + rest;
    if p != [] {
      LeadingDigitsOf(p[1..], c, rest);
      assert s[1..] == p[1..] + [c] + rest;
    }
  }

  /** The items a format of all-nonnegative counts stands for: shape[i] values of dtype i, in header order. */
  function Items(ds: seq<Dtype>, shape: seq<int>): (items: seq<(nat, Dtype)>)
    requires |ds| == |shape| && forall i | 0 <= i < |shape| :: shape[i] >= 0
    ensures |items| == |ds|
  {
    seq(|ds|, i requires 0 <= i < |ds| => (shape[i] as nat, ds[i]))
  }

  /** The items start with the first header's count and dtype. */
  lemma ItemsFront(ds: seq<Dtype>, shape: seq<int>)
    requires |ds| == |shape| > 0 && forall i | 0 <= i < |shape| :: shape[i] >= 0
    ensures forall i | 0 <= i < |shape| - 1 :: shape[1..][i] >= 0
    ensures Items(ds, shape) == [(shape[0] as nat, ds[0])] + Items(ds[1..], shape[1..])
  {
    forall i | 0 <= i < |shape| - 1
      ensures shape[1..][i] >= 0
    {
      assert shape[1..][i] == shape[i + 1];
    }
  }

  /** One item of a format: its digits are the count and its code the dtype, then the rest is read. */
  lemma ParsePiece(p: string, c: char, rest: string)
    requires |p| > 0 && AllDigits(p) && CodeDtype(c).Some?
    ensures ParseFormat(p + [c] + rest) ==
      match ParseFormat(rest)
      case None => None
      case Some(items) => Some([(DigitsValue(p), CodeDtype(c).value)] + items)
  {
    var s := p + [c] + rest;
    LeadingDigitsOf(p, c, rest);
    assert s[..|p|] == p;
    assert s[|p| + 1..] == rest;
  }

  /** A format string starting with '-' is not read. */
  lemma ParseMinus(x: string)
    ensures ParseFormat("-" + x) == None
  {
    var s := "-" + x;
    assert s[0] == '-';
    assert LeadingDigits(s) == 0;
  }

  /** One header's piece in front of the rest: a negative count makes it unreadable, otherwise it reads as one item. */
  lemma PieceRead(d: Dtype, n: int, rest: string)
    ensures ParseFormat(Piece(d, n) + rest) ==
      if n < 0 then None
      else match ParseFormat(rest)
        case None => None
        case Some(items) => Some([(n as nat, d)] + items)
  {
    var c := StructCode(d);
    CodeAgreesWithWidth(d);
    if n < 0 {
      var x := NatToString(-n) + [c] + rest;
      assert Piece(d, n) + rest == "-" + x;
      ParseMinus(x);
    } else {
      var p := NatToString(n);
      assert Piece(d, n) + rest == p + [c] + rest;
      DigitsRoundTrip(n);
      ParsePiece(p, c, rest);
    }
  }

  /** Reading the format string: the first header's piece, then the rest. */
  lemma FormatStringRead(ds: seq<Dtype>, shape: seq<int>)
    requires |ds| == |shape| > 0
    ensures ParseFormat(FormatString(ds, shape)) ==
      if shape[0] < 0 then None
      else match ParseFormat(FormatString(ds[1..], shape[1..]))
        case None => None
        case Some(items) => Some([(shape[0] as nat, ds[0])] + items)
  {
    FormatStringFront(ds, shape);
    PieceRead(ds[0], shape[0], FormatString(ds[1..], shape[1..]));
  }

  /**
   * What the struct module makes of the pieces, header by header: None as
   * soon as a count is negative, otherwise each header's count and dtype.
   */
  function ReadItems(ds: seq<Dtype>, shape: seq<int>): Option<seq<(nat, Dtype)>>
    requires |ds| == |shape|
  {
    if ds == [] then Some([])
    else if shape[0] < 0 then None
    else match ReadItems(ds[1..], shape[1..])
      case None => None
      case Some(items) => Some([(shape[0] as nat, ds[0])] + items)
  }

  /** Parsing the format string is reading its pieces one header at a time. */
  lemma {:induction false} FormatReads(ds: seq<Dtype>, shape: seq<int>)
    requires |ds| == |shape|
    ensures ParseFormat(FormatString(ds, shape)) == ReadItems(ds, shape)
    decreases |ds|
  {
    if ds != [] {
      FormatReads(ds[1..], shape[1..]);
      FormatStringRead(ds, shape);
    }
  }

  lemma {:induction false} ReadItemsNonnegative(ds: seq<Dtype>, shape: seq<int>)
    requires |ds| == |shape| && forall i | 0 <= i < |shape| :: shape[i] >= 0
    ensures ReadItems(ds, shape) == Some(Items(ds, shape))
    decreases |ds|
  {
    if ds != [] {
      ItemsFront(ds, shape);
      ReadItemsNonnegative(ds[1..], shape[1..]);
    }
  }

  lemma {:induction false} ReadItemsNegative(ds: seq<Dtype>, shape: seq<int>, k: nat)
    requires |ds| == |shape| && k < |shape| && shape[k] < 0
    ensures ReadItems(ds, shape) == None
    decreases k
  {
    if shape[0] >= 0 {
      assert shape[1..][k - 1] < 0;
      ReadItemsNegative(ds[1..], shape[1..], k - 1);
    }
  }

  /** The format string reads back, item by item, as the counts and dtypes it was built from. */
  lemma FormatRoundTrip(ds: seq<Dtype>, shape: seq<int>)
    requires |ds| == |shape| && forall i | 0 <= i < |shape| :: shape[i] >= 0
    ensures ParseFormat(FormatString(ds, shape)) == Some(Items(ds, shape))
  {
    FormatReads(ds, shape);
    ReadItemsNonnegative(ds, shape);
  }

  /** A negative count (its '-') makes the whole format string unreadable. */
  lemma NegativeCountUnreadable(ds: seq<Dtype>, shape: seq<int>, k: nat)
    requires |ds| == |shape| && k < |shape| && shape[k] < 0
    ensures ParseFormat(FormatString(ds, shape)) == None
  {
    FormatReads(ds, shape);
    ReadItemsNegative(ds, shape, k);
  }

  /** q runs of L bytes, added up run by run: `q * L` (TimesIsProduct). */
  function Times(q: nat, L: nat): nat {
    if q == 0 then 0 else Times(q - 1, L) + L
  }

  lemma {:induction false} TimesIsProduct(q: nat, L: nat)
    ensures Times(q, L) == q * L
  {
    if q > 0 {
      TimesIsProduct(q - 1, L);
      assert (q - 1) * L + L == q * L;
    }
  }

  /** Later runs start further on: at least one run length further. */
  lemma {:induction false} TimesApart(a: nat, b: nat, L: nat)
    requires a < b
    ensures Times(a, L) + L <= Times(b, L)
    decreases b - a
  {
    if a + 1 < b {
      TimesApart(a + 1, b, L);
    }
  }

  /** Bytes an unpacked chunk must have: the counts times the standard sizes, with no padding. */
  function StructSize(items: seq<(nat, Dtype)>): nat {
    if items == [] then 0 else Times(items[0].0, Width(items[0].1)) + StructSize(items[1..])
  }

  /** n values of d read one after the other from the start of `bytes`. */
  function Repeated(bytes: seq<int>, n: nat, d: Dtype, decode: Decoder): (vs: seq<real>)
    requires |bytes| == Times(n, Width(d))
    ensures |vs| == n
  {
    if n == 0 then []
    else
      [decode(d, bytes[..Width(d)])] + Repeated(bytes[Width(d)..], n - 1, d, decode)
  }

  /** `unpack(chunk)`: item by item, its count of values of its dtype, in order. */
  function Unpack(chunk: seq<int>, items: seq<(nat, Dtype)>, decode: Decoder): (vs: seq<real>)
    requires |chunk| == StructSize(items)
    decreases |items|
  {
    if items == [] then []
    else
      var len := Times(items[0].0, Width(items[0].1));
      Repeated(chunk[..len], items[0].0, items[0].1, decode) + Unpack(chunk[len..], items[1..], decode)
  }

  /** With a count of 1 per header the struct size is the record length. */
  lemma {:induction false} StructSizeOfOnes(ds: seq<Dtype>, shape: seq<int>)
    requires |ds| == |shape| && forall i | 0 <= i < |shape| :: shape[i] == 1
    ensures StructSize(Items(ds, shape)) == RowLength(ds)
    decreases |ds|
  {
    if ds != [] {
      RowLengthFront(ds);
      StructSizeOfOnes(ds[1..], shape[1..]);
      assert Items(ds, shape)[1..] == Items(ds[1..], shape[1..]);
    }
  }

  /** With a count of 1 per header, a record's first value is read from its first bytes, the rest from the bytes after them. */
  lemma UnpackFront(chunk: seq<int>, ds: seq<Dtype>, shape: seq<int>, decode: Decoder)
    requires |ds| == |shape| > 0 && forall i | 0 <= i < |shape| :: shape[i] == 1
    requires |chunk| == RowLength(ds)
    ensures Width(ds[0]) <= |chunk| && |chunk| - Width(ds[0]) == RowLength(ds[1..])
    ensures StructSize(Items(ds, shape)) == |chunk|
    ensures StructSize(Items(ds[1..], shape[1..])) == |chunk| - Width(ds[0])
    ensures Unpack(chunk, Items(ds, shape), decode)
         == [decode(ds[0], chunk[..Width(ds[0])])] + Unpack(chunk[Width(ds[0])..], Items(ds[1..], shape[1..]), decode)
  {
    StructSizeOfOnes(ds, shape);
    StructSizeOfOnes(ds[1..], shape[1..]);
    RowLengthFront(ds);
    var items := Items(ds, shape);
    var w := Width(ds[0]);
    assert items[0] == (1, ds[0]) && items[1..] == Items(ds[1..], shape[1..]);
    assert chunk[..w][..w] == chunk[..w];
    assert Repeated(chunk[..w], 1, ds[0], decode) == [decode(ds[0], chunk[..w])];
  }

  /** A record read header by header: one value of each header's dtype from its bytes, in order. */
  function Fields(chunk: seq<int>, ds: seq<Dtype>, decode: Decoder): (vs: seq<real>)
    requires |chunk| == RowLength(ds)
    ensures |vs| == |ds|
    decreases |ds|
  {
    if ds == [] then []
    else
      RowLengthFront(ds);
      [decode(ds[0], chunk[..Width(ds[0])])] + Fields(chunk[Width(ds[0])..], ds[1..], decode)
  }

  /** With a count of 1 per header, unpacking a record reads it header by header. */
  lemma {:induction false} UnpackIsFields(chunk: seq<int>, ds: seq<Dtype>, shape: seq<int>, decode: Decoder)
    requires |ds| == |shape| && forall i | 0 <= i < |shape| :: shape[i] == 1
    requires |chunk| == RowLength(ds)
    ensures StructSize(Items(ds, shape)) == |chunk|
    ensures Unpack(chunk, Items(ds, shape), decode) == Fields(chunk, ds, decode)
    decreases |ds|
  {
    StructSizeOfOnes(ds, shape);
    if ds != [] {
      UnpackFront(chunk, ds, shape, decode);
      UnpackIsFields(chunk[Width(ds[0])..], ds[1..], shape[1..], decode);
    }
  }

  /** Field j of a record is read from the bytes of column j. */
  lemma {:induction false} FieldAt(chunk: seq<int>, ds: seq<Dtype>, decode: Decoder, j: nat)
    requires |chunk| == RowLength(ds) && j < |ds|
    ensures Offset(ds, j) + Width(ds[j]) <= |chunk|
    ensures Fields(chunk, ds, decode)[j] == decode(ds[j], chunk[Offset(ds, j)..Offset(ds, j) + Width(ds[j])])
    decreases j
  {
    OffsetsIncrease(ds, j, |ds|);
    RowLengthFront(ds);
    var w := Width(ds[0]);
    if j == 0 {
      assert ds[..0] == [];
    } else {
      var rest, tail := chunk[w..], ds[1..];
      FieldAt(rest, tail, decode, j - 1);
      var a, wj := Offset(tail, j - 1), Width(ds[j]);
      assert tail[j - 1] == ds[j];
      assert Fields(rest, tail, decode)[j - 1] == decode(ds[j], rest[a..a + wj]);
      SliceFrom(chunk, w, a, a + wj);
      FieldsTail(chunk, ds, decode, j);
      OffsetFront(ds, j);
    }
  }

  lemma FieldsTail(chunk: seq<int>, ds: seq<Dtype>, decode: Decoder, j: nat)
    requires |chunk| == RowLength(ds) && 0 < j < |ds|
    ensures Width(ds[0]) <= |chunk| && |chunk[Width(ds[0])..]| == RowLength(ds[1..])
    ensures Fields(chunk, ds, decode)[j] == Fields(chunk[Width(ds[0])..], ds[1..], decode)[j - 1]
  {
    RowLengthFront(ds);
  }

  lemma SliceFrom<T>(s: seq<T>, w: nat, a: nat, b: nat)
    requires w <= |s| && a <= b <= |s| - w
    ensures s[w..][a..b] == s[w + a..w + b]
  {
    forall k | 0 <= k < b - a
      ensures s[w..][a..b][k] == s[w + a..w + b][k]
    {
      assert s[w..][a + k] == s[w + a + k];
    }
  }

  /**
   * With a count of 1 per header, unpacking a record gives one value per
   * header, value j read from the bytes of column j: the fallback reads a
   * record the way the numpy views read it.
   */
  lemma UnpackOnes(chunk: seq<int>, ds: seq<Dtype>, shape: seq<int>, decode: Decoder, j: nat)
    requires |ds| == |shape| && forall i | 0 <= i < |shape| :: shape[i] == 1
    requires |chunk| == RowLength(ds) && j < |ds|
    ensures StructSize(Items(ds, shape)) == |chunk|
    ensures var vs := Unpack(chunk, Items(ds, shape), decode);
      && |vs| == |ds|
      && Offset(ds, j) + Width(ds[j]) <= |chunk|
      && vs[j] == decode(ds[j], chunk[Offset(ds, j)..Offset(ds, j) + Width(ds[j])])
  {
    UnpackIsFields(chunk, ds, shape, decode);
    FieldAt(chunk, ds, decode, j);
  }
}
