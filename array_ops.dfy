/**
 * The numpy array operations the layer code is built from, on sequences of
 * rows: `np.repeat(a, k, axis=0)`, `np.tile(a, (n, 1))`, a reshape that
 * concatenates blocks of rows, and the element-wise sum of two integer tables.
 */
module ArrayOps {
  /** `np.repeat(a, k, axis=0)`: every row of `s`, k times in a row, in order. */
  function Repeat<T>(s: seq<T>, k: nat): seq<T> {
    if s == [] then [] else seq(k, _ => s[0]) + Repeat(s[1..], k)
  }

  /** `np.tile(a, (n, 1))`: n copies of the whole of `s`, one after the other. */
  function Tile<T>(s: seq<T>, n: nat): seq<T> {
    if n == 0 then [] else s + Tile(s, n - 1)
  }

  /** Concatenation of a sequence of blocks (reshape of an (n, m, ...) array to (n*m, ...)). */
  function Flatten<T>(ss: seq<seq<T>>): seq<T> {
    if ss == [] then [] else ss[0] + Flatten(ss[1..])
  }

  /** Row i of `np.repeat(s, k, axis=0)` block j is row i of s. */
  lemma {:induction false} RepeatAt<T>(s: seq<T>, k: nat, i: nat, j: nat)
    requires i < |s| && j < k
    ensures |Repeat(s, k)| == |s| * k
    ensures i * k + j < |s| * k
    ensures Repeat(s, k)[i * k + j] == s[i]
  {
    RepeatLength(s, k);
    if i == 0 {
    } else {
      RepeatAt(s[1..], k, i - 1, j);
      assert i * k + j == k + ((i - 1) * k + j);
    }
  }

  lemma {:induction false} RepeatLength<T>(s: seq<T>, k: nat)
    ensures |Repeat(s, k)| == |s| * k
  {
    if s != [] {
      RepeatLength(s[1..], k);
      assert |s| * k == k + (|s| - 1) * k;
    }
  }

  /** Row i*|s| + j of `np.tile(s, (n, 1))` is row j of s. */
  lemma {:induction false} TileAt<T>(s: seq<T>, n: nat, i: nat, j: nat)
    requires i < n && j < |s|
    ensures |Tile(s, n)| == n * |s|
    ensures i * |s| + j < n * |s|
    ensures Tile(s, n)[i * |s| + j] == s[j]
  {
    TileLength(s, n);
    if i == 0 {
    } else {
      TileAt(s, n - 1, i - 1, j);
      assert i * |s| + j == |s| + ((i - 1) * |s| + j);
    }
  }

  lemma {:induction false} TileLength<T>(s: seq<T>, n: nat)
    ensures |Tile(s, n)| == n * |s|
  {
    if n > 0 {
      TileLength(s, n - 1);
      assert n * |s| == |s| + (n - 1) * |s|;
    }
  }

  /** Blocks of equal width w: element j of block i sits at i*w + j. */
  lemma {:induction false} FlattenAt<T>(ss: seq<seq<T>>, w: nat, i: nat, j: nat)
    requires forall b :: 0 <= b < |ss| ==> |ss[b]| == w
    requires i < |ss| && j < w
    ensures |Flatten(ss)| == |ss| * w
    ensures i * w + j < |ss| * w
    ensures Flatten(ss)[i * w + j] == ss[i][j]
  {
    FlattenLength(ss, w);
    if i == 0 {
    } else {
      FlattenAt(ss[1..], w, i - 1, j);
      assert i * w + j == w + ((i - 1) * w + j);
    }
  }

  lemma {:induction false} FlattenLength<T>(ss: seq<seq<T>>, w: nat)
    requires forall b :: 0 <= b < |ss| ==> |ss[b]| == w
    ensures |Flatten(ss)| == |ss| * w
  {
    if ss != [] {
      FlattenLength(ss[1..], w);
      assert |ss| * w == w + (|ss| - 1) * w;
    }
  }

  /** `a.max()` of a non-empty array: an element no other element exceeds. */
  function SeqMax(s: seq<real>): (r: real)
    requires |s| > 0
    ensures forall k :: 0 <= k < |s| ==> s[k] <= r
    ensures exists k :: 0 <= k < |s| && s[k] == r
  {
    if |s| == 1 then s[0]
    else
      var rest := SeqMax(s[1..]);
      assert forall k :: 1 <= k < |s| ==> s[k] == s[1..][k - 1];
      if s[0] >= rest then s[0] else rest
  }

  /** `a.min()` of a non-empty array: an element no other element is below. */
  function SeqMin(s: seq<real>): (r: real)
    requires |s| > 0
    ensures forall k :: 0 <= k < |s| ==> r <= s[k]
    ensures exists k :: 0 <= k < |s| && s[k] == r
  {
    if |s| == 1 then s[0]
    else
      var rest := SeqMin(s[1..]);
      assert forall k :: 1 <= k < |s| ==> s[k] == s[1..][k - 1];
      if s[0] <= rest then s[0] else rest
  }

  /** Element-wise sum of two integer tables of the same shape (numpy `a + b`). */
  function AddTables(a: seq<seq<int>>, b: seq<seq<int>>): (c: seq<seq<int>>)
    requires |a| == |b| && forall i :: 0 <= i < |a| ==> |a[i]| == |b[i]|
    ensures |c| == |a|
    ensures forall i :: 0 <= i < |c| ==> |c[i]| == |a[i]| && forall j :: 0 <= j < |c[i]| ==> c[i][j] == a[i][j] + b[i][j]
  {
    seq(|a|, i requires 0 <= i < |a| => seq(|a[i]|, j requires 0 <= j < |a[i]| => a[i][j] + b[i][j]))
  }
}
