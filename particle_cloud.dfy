/**
 * myoctree.cpp: a `ParticleCloud` puts its input particles into an octree,
 * adds one aggregate particle per interior node (sizes summed, values and
 * positions averaged over the node's children), and flattens the positions,
 * sizes and values of all particles into vectors for Python.
 *
 * The source keeps `Particle *` pointers in the nodes' `data` slots. Here a
 * node refers to its particle by index into `particles`: a leaf through its
 * id (the tree is given the particle's index as id) and an interior node
 * through its `data` slot.
 */
module ParticleClouds {
  import opened Wrappers
  import opened LinAlg
  import Octrees
  import Utils

  type Octree = Octrees.Octree

  /** `Particle(id, pos, value, size)`: an `OctreePoint` with an id, a value and a size. */
  datatype Particle = Particle(id: int, position: Vec3, value: real, size: real)

  // ---------------------------------------------------------------------
  // The aggregate constructor `Particle(id, parts)`

  /** The running sums of the aggregate constructor, accumulated left to right. */
  function SumSizes(parts: seq<Particle>): real {
    if |parts| == 0 then 0.0 else SumSizes(parts[..|parts| - 1]) + parts[|parts| - 1].size
  }

  function SumValues(parts: seq<Particle>): real {
    if |parts| == 0 then 0.0 else SumValues(parts[..|parts| - 1]) + parts[|parts| - 1].value
  }

  function SumPositions(parts: seq<Particle>): Vec3 {
    if |parts| == 0 then Vec3(0.0, 0.0, 0.0)
    else Add3(SumPositions(parts[..|parts| - 1]), parts[|parts| - 1].position)
  }

  /**
   * The particle `Particle(id, parts)` makes: the sizes summed, the values
   * and positions averaged. The source divides by `parts.size()` even when
   * it is zero; here the parts must not be empty (`AggregatePartsExist`
   * shows they never are for the nodes of a valid tree).
   */
  function Aggregated(id: int, parts: seq<Particle>): Particle
    requires |parts| > 0
  {
    var n := |parts| as real;
    Particle(id, Div3(SumPositions(parts), n), SumValues(parts) / n, SumSizes(parts))
  }

  /** The loop of the aggregate constructor. */
  method Aggregate(id: int, parts: seq<Particle>) returns (p: Particle)
    requires |parts| > 0
    ensures p == Aggregated(id, parts)
  {
    var size := 0.0;
    var value := 0.0;
    var pos := Vec3(0.0, 0.0, 0.0);
    for j := 0 to |parts|
      invariant size == SumSizes(parts[..j])
      invariant value == SumValues(parts[..j])
      invariant pos == SumPositions(parts[..j])
    {
      assert parts[..j + 1][..j] == parts[..j];
      size := size + parts[j].size;
      value := value + parts[j].value;
      pos := Add3(pos, parts[j].position);
    }
    assert parts[..|parts|] == parts;
    value := value / |parts| as real;
    pos := Div3(pos, |parts| as real);
    p := Particle(id, pos, value, size);
  }

  /** A single part aggregates to itself under the new id. */
  lemma AggregateOfOne(id: int, q: Particle)
    ensures Aggregated(id, [q]) == q.(id := id)
  {
    assert [q][..0] == [];
    var p := Aggregated(id, [q]);
    assert SumSizes([q]) == q.size;
    assert SumValues([q]) == q.value;
    assert SumPositions([q]) == Add3(Vec3(0.0, 0.0, 0.0), q.position);
    assert p.position == q.position;
    assert p.value == q.value;
    assert p.size == q.size;
  }

  /** x added up n times. */
  function Times(n: nat, x: real): real {
    if n == 0 then 0.0 else Times(n - 1, x) + x
  }

  /** Adding x up n times is multiplying it by n. */
  lemma {:induction false} TimesIsProduct(n: nat, x: real)
    ensures Times(n, x) == n as real * x
  {
    if n > 0 {
      TimesIsProduct(n - 1, x);
    }
  }

  /** The sum of n values between lo and hi lies between lo and hi added up n times. */
  lemma {:induction false} SumValuesBetween(parts: seq<Particle>, lo: real, hi: real)
    requires forall k | 0 <= k < |parts| :: lo <= parts[k].value <= hi
    ensures Times(|parts|, lo) <= SumValues(parts) <= Times(|parts|, hi)
  {
    if |parts| > 0 {
      SumValuesBetween(parts[..|parts| - 1], lo, hi);
    }
  }

  /** Coordinate 0, 1 or 2 (x, y or z) of a point. */
  function Coord(p: Vec3, axis: nat): real {
    if axis == 0 then p.x else if axis == 1 then p.y else p.z
  }

  /** The same, one coordinate at a time, for positions. */
  lemma {:induction false} SumPositionsBetween(parts: seq<Particle>, axis: nat, lo: real, hi: real)
    requires forall k | 0 <= k < |parts| :: lo <= Coord(parts[k].position, axis) <= hi
    ensures Times(|parts|, lo) <= Coord(SumPositions(parts), axis) <= Times(|parts|, hi)
  {
    if |parts| > 0 {
      var init := parts[..|parts| - 1];
      SumPositionsBetween(init, axis, lo, hi);
      assert Coord(SumPositions(parts), axis) == Coord(SumPositions(init), axis) + Coord(parts[|parts| - 1].position, axis);
    }
  }

  predicate Between(p: Vec3, lo: Vec3, hi: Vec3) {
    lo.x <= p.x <= hi.x && lo.y <= p.y <= hi.y && lo.z <= p.z <= hi.z
  }

  /** A mean of values between lo and hi lies between lo and hi. */
  lemma MeanBetween(s: real, n: real, lo: real, hi: real)
    requires n > 0.0 && n * lo <= s <= n * hi
    ensures lo <= s / n <= hi
  {
    var m := s / n;
    assert m * n == s;
    assert (m - lo) * n >= 0.0 && (hi - m) * n >= 0.0;
  }

  /** The aggregate value lies between the smallest and the largest part value. */
  lemma AggregateValueBetween(id: int, parts: seq<Particle>, lo: real, hi: real)
    requires |parts| > 0
    requires forall k | 0 <= k < |parts| :: lo <= parts[k].value <= hi
    ensures lo <= Aggregated(id, parts).value <= hi
  {
    SumValuesBetween(parts, lo, hi);
    TimesIsProduct(|parts|, lo);
    TimesIsProduct(|parts|, hi);
    MeanBetween(SumValues(parts), |parts| as real, lo, hi);
  }

  /** The aggregate position lies in every box that holds all part positions. */
  lemma AggregateInBox(id: int, parts: seq<Particle>, lo: Vec3, hi: Vec3)
    requires |parts| > 0
    requires forall k | 0 <= k < |parts| :: Between(parts[k].position, lo, hi)
    ensures Between(Aggregated(id, parts).position, lo, hi)
  {
    AggregateCoordBetween(id, parts, 0, lo.x, hi.x);
    AggregateCoordBetween(id, parts, 1, lo.y, hi.y);
    AggregateCoordBetween(id, parts, 2, lo.z, hi.z);
  }

  lemma AggregateCoordBetween(id: int, parts: seq<Particle>, axis: nat, lo: real, hi: real)
    requires |parts| > 0
    requires forall k | 0 <= k < |parts| :: lo <= Coord(parts[k].position, axis) <= hi
    ensures lo <= Coord(Aggregated(id, parts).position, axis) <= hi
  {
    var n := |parts| as real;
    var s := SumPositions(parts);
    SumPositionsBetween(parts, axis, lo, hi);
    TimesIsProduct(|parts|, lo);
    TimesIsProduct(|parts|, hi);
    MeanBetween(Coord(s, axis), n, lo, hi);
    assert Coord(Aggregated(id, parts).position, axis) == Coord(s, axis) / n;
  }

  // ---------------------------------------------------------------------
  // `insertIntermediates`

  /**
   * The `data` slots `insertIntermediates` writes into interior nodes, kept
   * in a tree of the octree's shape: `Annotated(k, children)` says the node
   * points at particle k and carries its eight children's annotations. A
   * node never processed (and every leaf) is `Unannotated`.
   */
  datatype Annotation = Unannotated | Annotated(data: nat, children: seq<Annotation>)

  /** Every stored id indexes a particle of a list of n. */
  ghost predicate IdsBelow(t: Octree, n: nat) {
    forall e | e in Octrees.Contents(t) :: 0 <= e.0 < n
  }

  /** Particle k has id k. */
  predicate IdsAreIndices(ps: seq<Particle>) {
    forall k | 0 <= k < |ps| :: ps[k].id == k
  }

  /** The particle a node points at: a leaf through its stored id, an interior node through its annotation. */
  function Slot(t: Octree, a: Annotation): Option<nat>
    requires |t.children| == 8
  {
    if Octrees.IsLeafNode(t) then (if t.id >= 0 then Some(t.id as nat) else None)
    else if a.Annotated? then Some(a.data)
    else None
  }

  /**
   * Node t holds a particle of its own: it is interior, or a leaf holding a
   * point (`StoresSomething` shows these are the nodes that store anything).
   */
  predicate HoldsParticle(t: Octree)
    requires |t.children| == 8
  {
    !Octrees.IsLeafNode(t) || t.id != -1
  }

  /** Node t points at a particle of a list of n exactly when it holds one. */
  predicate Ready(t: Octree, a: Annotation, n: nat) {
    && |t.children| == 8
    && (Slot(t, a).Some? <==> HoldsParticle(t))
    && (Slot(t, a).Some? ==> Slot(t, a).value < n)
  }

  /** `ps` begins with `prefix`. */
  predicate Extends(ps: seq<Particle>, prefix: seq<Particle>) {
    |prefix| <= |ps| && ps[..|prefix|] == prefix
  }

  /**
   * `insertIntermediates(root)`: a leaf is left as it is; an interior node
   * first has its children processed in slot order, then gets the aggregate
   * of its children's particles appended under id `particles.size()`, and
   * its `data` slot points at it. The result is the annotation of t and the
   * grown particle list.
   */
  function Intermediates(t: Octree, ps: seq<Particle>): (r: (Annotation, seq<Particle>))
    requires Octrees.Valid(t) && IdsBelow(t, |ps|)
    ensures Ready(t, r.0, |r.1|) && |ps| <= |r.1|
    ensures Octrees.IsLeafNode(t) ==> r == (Unannotated, ps)
    ensures !Octrees.IsLeafNode(t) ==>
      && r.0.Annotated? && |r.0.children| == 8
      && |r.1| > |ps| && r.0.data == |r.1| - 1
    ensures IdsAreIndices(ps) ==> IdsAreIndices(r.1)
    decreases t, 1
  {
    if Octrees.IsLeafNode(t) then
      LeafReady(t, |ps|);
      (Unannotated, ps)
    else
      var (cs, ps1) := IntermediatesUpTo(t, 8, ps);
      var parts := ChildParticles(t, cs, ps1, 8);
      AggregatePartsExist(t, cs, ps1);
      var p := Aggregated(|ps1|, parts);
      Appended(ps, ps1, p);
      (Annotated(|ps1|, cs), ps1 + [p])
  }

  /** `Intermediates` of an interior node, from the pieces its body computes. */
  lemma IntermediatesOfInterior(t: Octree, ps: seq<Particle>, cs: seq<Annotation>, ps1: seq<Particle>,
                                parts: seq<Particle>)
    requires Octrees.Valid(t) && IdsBelow(t, |ps|) && !Octrees.IsLeafNode(t)
    requires (cs, ps1) == IntermediatesUpTo(t, 8, ps)
    requires parts == ChildParticles(t, cs, ps1, 8) && |parts| > 0
    ensures Intermediates(t, ps) == (Annotated(|ps1|, cs), ps1 + [Aggregated(|ps1|, parts)])
  {
  }

  /** A leaf of ids below n is ready as it is. */
  lemma LeafReady(t: Octree, n: nat)
    requires Octrees.Valid(t) && Octrees.IsLeafNode(t) && IdsBelow(t, n)
    ensures Ready(t, Unannotated, n)
  {
    if t.id != -1 {
      Octrees.LeafContents(t);
      assert (t.id, t.position) in Octrees.Contents(t);
    }
  }

  /** Appending a particle under the next index keeps the ids. */
  lemma Appended(ps: seq<Particle>, ps1: seq<Particle>, p: Particle)
    requires p.id == |ps1|
    requires IdsAreIndices(ps) ==> IdsAreIndices(ps1)
    ensures IdsAreIndices(ps) ==> IdsAreIndices(ps1 + [p])
  {
  }

  /** The first loop of `insertIntermediates`: the annotations of children 0 to i-1, processed in slot order. */
  function IntermediatesUpTo(t: Octree, i: nat, ps: seq<Particle>): (r: (seq<Annotation>, seq<Particle>))
    requires Octrees.Valid(t) && !Octrees.IsLeafNode(t) && IdsBelow(t, |ps|) && i <= 8
    ensures |r.0| == i && |ps| <= |r.1|
    ensures forall j | 0 <= j < i :: Ready(t.children[j].value, r.0[j], |r.1|)
    ensures IdsAreIndices(ps) ==> IdsAreIndices(r.1)
    decreases t, 0, i
  {
    if i == 0 then
      ([], ps)
    else
      var (cs, ps1) := IntermediatesUpTo(t, i - 1, ps);
      ChildIdsBelow(t, i - 1, |ps|, |ps1|);
      var (a, ps2) := Intermediates(t.children[i - 1].value, ps1);
      Processed(t, i - 1, cs, a, ps, ps1, ps2);
      (cs + [a], ps2)
  }

  /** `insertIntermediates` only appends: the particles it was given stay in front, unchanged. */
  lemma {:induction false} IntermediatesExtends(t: Octree, ps: seq<Particle>)
    requires Octrees.Valid(t) && IdsBelow(t, |ps|)
    ensures Extends(Intermediates(t, ps).1, ps)
    decreases t, 1
  {
    if !Octrees.IsLeafNode(t) {
      UpToExtends(t, 8, ps);
      var (cs, ps1) := IntermediatesUpTo(t, 8, ps);
      var r := Intermediates(t, ps).1;
      assert r[..|ps|] == ps1[..|ps|];
    }
  }

  /** The same for the first loop of `insertIntermediates`, after children 0 to i-1. */
  lemma {:induction false} UpToExtends(t: Octree, i: nat, ps: seq<Particle>)
    requires Octrees.Valid(t) && !Octrees.IsLeafNode(t) && IdsBelow(t, |ps|) && i <= 8
    ensures Extends(IntermediatesUpTo(t, i, ps).1, ps)
    decreases t, 0, i
  {
    if i > 0 {
      UpToExtends(t, i - 1, ps);
      var (cs, ps1) := IntermediatesUpTo(t, i - 1, ps);
      ChildIdsBelow(t, i - 1, |ps|, |ps1|);
      IntermediatesExtends(t.children[i - 1].value, ps1);
      var ps2 := Intermediates(t.children[i - 1].value, ps1).1;
      assert IntermediatesUpTo(t, i, ps).1 == ps2;
      ExtendsTransitive(ps2, ps1, ps);
    }
  }

  lemma ExtendsTransitive(ps2: seq<Particle>, ps1: seq<Particle>, ps: seq<Particle>)
    requires Extends(ps2, ps1) && Extends(ps1, ps)
    ensures Extends(ps2, ps)
  {
    assert ps2[..|ps|] == ps2[..|ps1|][..|ps|];
  }

  /** Child c of a valid interior node is valid and stores only ids its parent stores. */
  lemma ChildIdsBelow(t: Octree, c: nat, n: nat, m: nat)
    requires Octrees.Valid(t) && !Octrees.IsLeafNode(t) && c < 8 && IdsBelow(t, n) && n <= m
    ensures Octrees.Valid(t.children[c].value) && IdsBelow(t.children[c].value, m)
  {
    Octrees.ChildOf(t, c);
    forall e | e in Octrees.Contents(t.children[c].value)
      ensures 0 <= e.0 < m
    {
      Octrees.InChild(t, c, e);
    }
  }

  /** One step of the first loop keeps what `IntermediatesUpTo` promises. */
  lemma Processed(t: Octree, c: nat, cs: seq<Annotation>, a: Annotation,
                  ps: seq<Particle>, ps1: seq<Particle>, ps2: seq<Particle>)
    requires |t.children| == 8 && c < 8 && (forall j | 0 <= j < 8 :: t.children[j].Some?)
    requires |cs| == c && |ps| <= |ps1| <= |ps2|
    requires forall j | 0 <= j < c :: Ready(t.children[j].value, cs[j], |ps1|)
    requires Ready(t.children[c].value, a, |ps2|)
    ensures forall j | 0 <= j < c + 1 :: Ready(t.children[j].value, (cs + [a])[j], |ps2|)
  {
  }

  /** The second loop of `insertIntermediates`: the particles children 0 to i-1 point at. */
  function ChildParticles(t: Octree, cs: seq<Annotation>, ps: seq<Particle>, i: nat): (parts: seq<Particle>)
    requires |t.children| == 8 && (forall j | 0 <= j < 8 :: t.children[j].Some?)
    requires |cs| == 8 && i <= 8
    requires forall j | 0 <= j < 8 :: Ready(t.children[j].value, cs[j], |ps|)
    ensures |parts| <= i
  {
    if i == 0 then
      []
    else
      assert Ready(t.children[i - 1].value, cs[i - 1], |ps|);
      var s := Slot(t.children[i - 1].value, cs[i - 1]);
      ChildParticles(t, cs, ps, i - 1) + if s.Some? then [ps[s.value]] else []
  }

  /** The second loop of `insertIntermediates`: the particles the data slots of the children point at, in slot order. */
  method GatherParts(t: Octree, cs: seq<Annotation>, ps: seq<Particle>) returns (parts: seq<Particle>)
    requires |t.children| == 8 && (forall j | 0 <= j < 8 :: t.children[j].Some?)
    requires |cs| == 8
    requires forall j | 0 <= j < 8 :: Ready(t.children[j].value, cs[j], |ps|)
    ensures parts == ChildParticles(t, cs, ps, 8)
  {
    parts := [];
    for i := 0 to 8
      invariant parts == ChildParticles(t, cs, ps, i)
    {
      var s := Slot(t.children[i].value, cs[i]);
      if s.Some? {
        parts := parts + [ps[s.value]];
      }
    }
  }

  /** The particle child c < i points at is among the parts of children 0 to i-1. */
  lemma {:induction false} ChildParticlesHas(t: Octree, cs: seq<Annotation>, ps: seq<Particle>, i: nat, c: nat)
    requires |t.children| == 8 && (forall j | 0 <= j < 8 :: t.children[j].Some?)
    requires |cs| == 8 && c < i <= 8
    requires forall j | 0 <= j < 8 :: Ready(t.children[j].value, cs[j], |ps|)
    requires Ready(t.children[c].value, cs[c], |ps|) && Slot(t.children[c].value, cs[c]).Some?
    ensures ps[Slot(t.children[c].value, cs[c]).value] in ChildParticles(t, cs, ps, i)
  {
    if c < i - 1 {
      ChildParticlesHas(t, cs, ps, i - 1, c);
    }
  }

  /** An interior node aggregates at least one particle. */
  lemma AggregatePartsExist(t: Octree, cs: seq<Annotation>, ps: seq<Particle>)
    requires Octrees.Valid(t) && !Octrees.IsLeafNode(t) && |cs| == 8
    requires forall j | 0 <= j < 8 :: Ready(t.children[j].value, cs[j], |ps|)
    ensures |ChildParticles(t, cs, ps, 8)| > 0
  {
    var c := Octrees.SomeChildStores(t);
    Octrees.ChildOf(t, c);
    Octrees.StoresSomething(t.children[c].value);
    assert Ready(t.children[c].value, cs[c], |ps|);
    ChildParticlesHas(t, cs, ps, 8, c);
  }

  // ---------------------------------------------------------------------
  // `init`, `populateVectors` and `foo`

  /** Input point i of a flat coordinate buffer: floats 3i, 3i+1 and 3i+2. */
  function PointAt(coords: seq<real>, i: nat): Vec3
    requires 3 * i + 2 < |coords|
  {
    Vec3(coords[3 * i], coords[3 * i + 1], coords[3 * i + 2])
  }

  /** The particles the first loop of `init` creates for the first n input points. */
  function NewParticles(coords: seq<real>, n: nat): (ps: seq<Particle>)
    requires 3 * n <= |coords|
    ensures |ps| == n
  {
    if n == 0 then [] else NewParticles(coords, n - 1) + [Particle(n - 1, PointAt(coords, n - 1), 1.0, 10.0)]
  }

  /** Input particle i has id i, value 1, size 10 and the i-th point of the buffer. */
  lemma {:induction false} NewParticlesAt(coords: seq<real>, n: nat)
    requires 3 * n <= |coords|
    ensures forall i | 0 <= i < n :: NewParticles(coords, n)[i] == Particle(i, PointAt(coords, i), 1.0, 10.0)
  {
    if n > 0 {
      NewParticlesAt(coords, n - 1);
    }
  }

  /** One more step of `InsertAll`: inserting the next input point under the next index. */
  lemma InsertAllNext(t0: Octree, coords: seq<real>, base: nat, i: nat, fuel: nat)
    requires Octrees.Valid(t0) && 3 * (i + 1) <= |coords|
    ensures Octrees.Valid(InsertAll(t0, coords, base, i, fuel))
    ensures InsertAll(t0, coords, base, i + 1, fuel)
         == Octrees.Insert(InsertAll(t0, coords, base, i, fuel), base + i, PointAt(coords, i), fuel).0
  {
  }

  /** One more input particle extends the list the first loop of `init` builds. */
  lemma AppendInput(ps: seq<Particle>, coords: seq<real>, i: nat)
    requires 3 * (i + 1) <= |coords|
    ensures ps + NewParticles(coords, i + 1) == ps + NewParticles(coords, i) + [Particle(i, PointAt(coords, i), 1.0, 10.0)]
    ensures |ps + NewParticles(coords, i)| == |ps| + i
  {
  }

  /**
   * The tree after the first loop of `init` has inserted the first k input
   * points, under the particle indices base, base+1, ... (what it then
   * stores is stated by `InsertInputs`).
   */
  function InsertAll(t: Octree, coords: seq<real>, base: nat, k: nat, fuel: nat): (r: Octree)
    requires Octrees.Valid(t) && 3 * k <= |coords|
    ensures Octrees.Valid(r) && r.origin == t.origin && r.halfDimension == t.halfDimension
  {
    if k == 0 then
      t
    else
      Octrees.Insert(InsertAll(t, coords, base, k - 1, fuel), base + k - 1, PointAt(coords, k - 1), fuel).0
  }

  /**
   * `now` holds what `before` holds, plus only input points among the first
   * k, each under its own index shifted by base.
   */
  ghost predicate AddedInputs(before: multiset<(int, Vec3)>, now: multiset<(int, Vec3)>,
                              coords: seq<real>, base: nat, k: nat)
    requires 3 * k <= |coords|
  {
    && before <= now
    && forall e | e in now :: e in before || (base <= e.0 < base + k && e.1 == PointAt(coords, e.0 - base))
  }

  /**
   * One more insertion, on what the trees store: `before`, `prev` and `now`
   * are what t, the tree of the first i insertions and the tree of one more
   * store, and `ok` says whether input point i was taken.
   */
  lemma InsertedNext(before: multiset<(int, Vec3)>, prev: multiset<(int, Vec3)>, now: multiset<(int, Vec3)>,
                     ok: bool, coords: seq<real>, base: nat, i: nat)
    requires 3 * (i + 1) <= |coords|
    requires AddedInputs(before, prev, coords, base, i)
    requires now == if ok then prev + multiset{(base + i, PointAt(coords, i))} else prev
    ensures AddedInputs(before, now, coords, base, i + 1)
  {
    var x := (base + i, PointAt(coords, i));
    forall e | e in now
      ensures e in prev || e == x
    {
      if ok {
        Octrees.MemberOfUnion(e, prev, multiset{x});
      }
    }
  }

  /** One pass of the first loop of `init`: inserting input point i keeps what `InsertAll` and `AddedInputs` say. */
  lemma InsertStep(t0: Octree, t: Octree, coords: seq<real>, base: nat, i: nat, fuel: nat)
    requires Octrees.Valid(t0) && 3 * (i + 1) <= |coords|
    requires t == InsertAll(t0, coords, base, i, fuel)
    requires AddedInputs(Octrees.Contents(t0), Octrees.Contents(t), coords, base, i)
    ensures Octrees.Valid(t)
    ensures Octrees.Insert(t, base + i, PointAt(coords, i), fuel).0 == InsertAll(t0, coords, base, i + 1, fuel)
    ensures AddedInputs(Octrees.Contents(t0), Octrees.Contents(Octrees.Insert(t, base + i, PointAt(coords, i), fuel).0),
                        coords, base, i + 1)
  {
    InsertAllNext(t0, coords, base, i, fuel);
    var r := Octrees.Insert(t, base + i, PointAt(coords, i), fuel);
    InsertedNext(Octrees.Contents(t0), Octrees.Contents(t), Octrees.Contents(r.0), r.1, coords, base, i);
  }

  /** The (index, point) pairs of the first k input points, under the indices base, base+1, ... */
  ghost function InputPairs(coords: seq<real>, base: nat, k: nat): multiset<(int, Vec3)>
    requires 3 * k <= |coords|
  {
    if k == 0 then multiset{} else InputPairs(coords, base, k - 1) + multiset{(base + k - 1, PointAt(coords, k - 1))}
  }

  /** Every input pair is the i-th input point under index base+i, for some i < k. */
  lemma {:induction false} InputPairOf(coords: seq<real>, base: nat, k: nat, e: (int, Vec3)) returns (i: nat)
    requires 3 * k <= |coords| && e in InputPairs(coords, base, k)
    ensures i < k && e == (base + i, PointAt(coords, i))
  {
    var x := (base + k - 1, PointAt(coords, k - 1));
    Octrees.MemberOfUnion(e, InputPairs(coords, base, k - 1), multiset{x});
    if e == x {
      i := k - 1;
    } else {
      i := InputPairOf(coords, base, k - 1, e);
    }
  }

  /** The i-th input point, under index base+i, is an input pair for every k > i. */
  lemma {:induction false} InputPairsHave(coords: seq<real>, base: nat, k: nat, i: nat)
    requires 3 * k <= |coords| && i < k
    ensures (base + i, PointAt(coords, i)) in InputPairs(coords, base, k)
  {
    if i < k - 1 {
      InputPairsHave(coords, base, k - 1, i);
    }
  }

  /**
   * Whether the first loop of `init` has room for the first n input points
   * in t with `fuel` splits in a row: what t stores and the input points lie
   * in its box, and every two input points, and every input point and every
   * stored point, are separated within `fuel` splits of the box.
   */
  ghost predicate Storable(t: Octree, coords: seq<real>, n: nat, fuel: nat)
    requires 3 * n <= |coords|
  {
    && (forall e | e in Octrees.Contents(t) :: Octrees.Inside(e.1, t.origin, t.halfDimension))
    && (forall i {:trigger Octrees.Inside(PointAt(coords, i), t.origin, t.halfDimension)} | 0 <= i < n ::
          Octrees.Inside(PointAt(coords, i), t.origin, t.halfDimension))
    && (forall e, i {:trigger Octrees.Separated(t.halfDimension, e.1, PointAt(coords, i), fuel)}
          | e in Octrees.Contents(t) && 0 <= i < n ::
          Octrees.Separated(t.halfDimension, e.1, PointAt(coords, i), fuel))
    && (forall i, j {:trigger Octrees.Separated(t.halfDimension, PointAt(coords, i), PointAt(coords, j), fuel)}
          | 0 <= i < j < n ::
          Octrees.Separated(t.halfDimension, PointAt(coords, i), PointAt(coords, j), fuel))
  }

  /** When the inputs have room in t0, t holds t0's pairs and every input point under its own index. */
  ghost predicate StoresInputs(t0: Octree, t: Octree, coords: seq<real>, base: nat, n: nat, fuel: nat)
    requires 3 * n <= |coords|
  {
    Storable(t0, coords, n, fuel) ==> Octrees.Contents(t) == Octrees.Contents(t0) + InputPairs(coords, base, n)
  }

  /** With room for them, the n input points are all stored, each under its own index. */
  lemma InsertAllStores(t: Octree, coords: seq<real>, base: nat, n: nat, fuel: nat)
    requires Octrees.Valid(t) && 3 * n <= |coords| && Storable(t, coords, n, fuel)
    ensures Octrees.Contents(InsertAll(t, coords, base, n, fuel)) == Octrees.Contents(t) + InputPairs(coords, base, n)
  {
    var u := t;
    for i := 0 to n
      invariant u == InsertAll(t, coords, base, i, fuel)
      invariant Octrees.Contents(u) == Octrees.Contents(t) + InputPairs(coords, base, i)
    {
      InsertAllNext(t, coords, base, i, fuel);
      StoredNext(t, u, coords, base, i, n, fuel);
      u := Octrees.Insert(u, base + i, PointAt(coords, i), fuel).0;
    }
  }

  /**
   * With room for the first n input points, inserting input point k < n
   * into the tree u that stores the first k on top of what t stored stores
   * it too.
   */
  lemma StoredNext(t: Octree, u: Octree, coords: seq<real>, base: nat, k: nat, n: nat, fuel: nat)
    requires 3 * n <= |coords| && k < n && Storable(t, coords, n, fuel) && Octrees.Valid(u)
    requires u.origin == t.origin && u.halfDimension == t.halfDimension
    requires Octrees.Contents(u) == Octrees.Contents(t) + InputPairs(coords, base, k)
    ensures Octrees.Contents(Octrees.Insert(u, base + k, PointAt(coords, k), fuel).0)
         == Octrees.Contents(t) + InputPairs(coords, base, k + 1)
  {
    var x := (base + k, PointAt(coords, k));
    forall e | e in Octrees.Contents(u)
      ensures Octrees.Inside(e.1, u.origin, u.halfDimension) && Octrees.Separated(u.halfDimension, e.1, x.1, fuel)
    {
      Octrees.MemberOfUnion(e, Octrees.Contents(t), InputPairs(coords, base, k));
      if e !in Octrees.Contents(t) {
        var i := InputPairOf(coords, base, k, e);
      }
    }
    Octrees.InsertStores(u, x.0, x.1, fuel);
    Octrees.UnionAssoc(Octrees.Contents(t), InputPairs(coords, base, k), multiset{x});
  }

  /** Some fuel separates input point k from each of the points before it, all of them distinct from it. */
  lemma {:induction false} FuelAgainst(h: Vec3, coords: seq<real>, k: nat) returns (fuel: nat)
    requires 3 * (k + 1) <= |coords|
    requires forall i | 0 <= i < k :: PointAt(coords, i) != PointAt(coords, k)
    ensures forall i | 0 <= i < k :: Octrees.Separated(h, PointAt(coords, i), PointAt(coords, k), fuel)
  {
    fuel := 0;
    for j := 0 to k
      invariant forall i | 0 <= i < j :: Octrees.Separated(h, PointAt(coords, i), PointAt(coords, k), fuel)
    {
      var f := Octrees.SeparatedEventually(h, PointAt(coords, j), PointAt(coords, k));
      var more := if f < fuel then fuel else f;
      forall i | 0 <= i <= j
        ensures Octrees.Separated(h, PointAt(coords, i), PointAt(coords, k), more)
      {
        if i < j {
          Octrees.SeparatedLater(h, PointAt(coords, i), PointAt(coords, k), fuel, more);
        } else {
          Octrees.SeparatedLater(h, PointAt(coords, i), PointAt(coords, k), f, more);
        }
      }
      fuel := more;
    }
  }

  /**
   * Distinct input points inside the box of a tree that stores nothing can
   * all be stored: some fuel gives the first loop of `init` room for them.
   */
  lemma {:induction false} FuelSuffices(t: Octree, coords: seq<real>, n: nat) returns (fuel: nat)
    requires 3 * n <= |coords| && Octrees.Contents(t) == multiset{}
    requires forall i | 0 <= i < n :: Octrees.Inside(PointAt(coords, i), t.origin, t.halfDimension)
    requires forall i, j | 0 <= i < j < n :: PointAt(coords, i) != PointAt(coords, j)
    ensures Storable(t, coords, n, fuel)
  {
    var h := t.halfDimension;
    fuel := 0;
    for k := 0 to n
      invariant forall i, j | 0 <= i < j < k :: Octrees.Separated(h, PointAt(coords, i), PointAt(coords, j), fuel)
    {
      var f := FuelAgainst(h, coords, k);
      var more := if f < fuel then fuel else f;
      forall i, j | 0 <= i < j <= k
        ensures Octrees.Separated(h, PointAt(coords, i), PointAt(coords, j), more)
      {
        if j < k {
          Octrees.SeparatedLater(h, PointAt(coords, i), PointAt(coords, j), fuel, more);
        } else {
          Octrees.SeparatedLater(h, PointAt(coords, i), PointAt(coords, j), f, more);
        }
      }
      fuel := more;
    }
  }

  /**
   * Over an empty tree (as `ParticleCloud(origin, halfDimension)` builds),
   * distinct input points inside the box are all stored by `init`, each
   * under its own index, once the split budget is large enough.
   */
  lemma InitStoresAll(t: Octree, coords: seq<real>, base: nat, n: nat) returns (fuel: nat)
    requires Octrees.Valid(t) && 3 * n <= |coords| && Octrees.Contents(t) == multiset{}
    requires forall i | 0 <= i < n :: Octrees.Inside(PointAt(coords, i), t.origin, t.halfDimension)
    requires forall i, j | 0 <= i < j < n :: PointAt(coords, i) != PointAt(coords, j)
    ensures Octrees.Contents(InsertAll(t, coords, base, n, fuel)) == InputPairs(coords, base, n)
  {
    fuel := FuelSuffices(t, coords, n);
    InsertAllStores(t, coords, base, n, fuel);
  }

  /** Ids below n are below any m ≥ n. */
  lemma IdsBelowMore(t: Octree, n: nat, m: nat)
    requires IdsBelow(t, n) && n <= m
    ensures IdsBelow(t, m)
  {
  }

  /** Adding input points under indices base to base+k-1 to ids below base leaves ids below base+k. */
  lemma IdsOfAdded(before: multiset<(int, Vec3)>, now: multiset<(int, Vec3)>, coords: seq<real>, base: nat, k: nat)
    requires 3 * k <= |coords|
    requires AddedInputs(before, now, coords, base, k)
    requires forall e | e in before :: 0 <= e.0 < base
    ensures forall e | e in now :: 0 <= e.0 < base + k
  {
  }

  /** The positions `populateVectors` appends: z, y, x per particle. */
  function PosColumns(ps: seq<Particle>): seq<real> {
    if |ps| == 0 then []
    else
      var p := ps[|ps| - 1].position;
      PosColumns(ps[..|ps| - 1]) + [p.z, p.y, p.x]
  }

  function Sizes(ps: seq<Particle>): seq<real> {
    if |ps| == 0 then [] else Sizes(ps[..|ps| - 1]) + [ps[|ps| - 1].size]
  }

  function Values(ps: seq<Particle>): seq<real> {
    if |ps| == 0 then [] else Values(ps[..|ps| - 1]) + [ps[|ps| - 1].value]
  }

  /** Three position floats, one size and one value per particle, in particle order. */
  lemma {:induction false} ColumnsLayout(ps: seq<Particle>)
    ensures |PosColumns(ps)| == 3 * |ps| && |Sizes(ps)| == |ps| && |Values(ps)| == |ps|
    ensures forall k | 0 <= k < |ps| ::
      && PosColumns(ps)[3 * k] == ps[k].position.z
      && PosColumns(ps)[3 * k + 1] == ps[k].position.y
      && PosColumns(ps)[3 * k + 2] == ps[k].position.x
    ensures forall k | 0 <= k < |ps| :: Sizes(ps)[k] == ps[k].size && Values(ps)[k] == ps[k].value
  {
    PosLayout(ps);
    ScalarLayout(ps);
  }

  lemma {:induction false} PosLayout(ps: seq<Particle>)
    ensures |PosColumns(ps)| == 3 * |ps|
    ensures forall k | 0 <= k < |ps| ::
      && PosColumns(ps)[3 * k] == ps[k].position.z
      && PosColumns(ps)[3 * k + 1] == ps[k].position.y
      && PosColumns(ps)[3 * k + 2] == ps[k].position.x
  {
    if |ps| > 0 {
      var front := ps[..|ps| - 1];
      PosLayout(front);
      forall k | 0 <= k < |front|
        ensures ps[k] == front[k]
      {
      }
    }
  }

  lemma {:induction false} ScalarLayout(ps: seq<Particle>)
    ensures |Sizes(ps)| == |ps| && |Values(ps)| == |ps|
    ensures forall k | 0 <= k < |ps| :: Sizes(ps)[k] == ps[k].size && Values(ps)[k] == ps[k].value
  {
    if |ps| > 0 {
      var front := ps[..|ps| - 1];
      ScalarLayout(front);
      forall k | 0 <= k < |front|
        ensures ps[k] == front[k]
      {
      }
    }
  }

  /**
   * The first loop of `init`: particle i, made of the i-th input point, is
   * appended and inserted into the tree under its index.
   */
  method InsertInputs(t0: Octree, ps0: seq<Particle>, coords: seq<real>, n: nat, fuel: nat)
    returns (t: Octree, ps: seq<Particle>)
    requires Octrees.Valid(t0) && IdsBelow(t0, |ps0|) && 3 * n <= |coords|
    ensures t == InsertAll(t0, coords, |ps0|, n, fuel)
    ensures ps == ps0 + NewParticles(coords, n)
    ensures AddedInputs(Octrees.Contents(t0), Octrees.Contents(t), coords, |ps0|, n)
    ensures IdsBelow(t, |ps0| + n) && IdsBelow(t, |ps|)
    ensures Storable(t0, coords, n, fuel) ==>
      Octrees.Contents(t) == Octrees.Contents(t0) + InputPairs(coords, |ps0|, n)
  {
    t, ps := t0, ps0;
    for i := 0 to n
      invariant ps == ps0 + NewParticles(coords, i)
      invariant t == InsertAll(t0, coords, |ps0|, i, fuel)
      invariant AddedInputs(Octrees.Contents(t0), Octrees.Contents(t), coords, |ps0|, i)
    {
      var pos := PointAt(coords, i);
      AppendInput(ps0, coords, i);
      InsertStep(t0, t, coords, |ps0|, i, fuel);
      var r := Octrees.Insert(t, |ps0| + i, pos, fuel);
      ps := ps + [Particle(i, pos, 1.0, 10.0)];
      t := r.0;
    }
    IdsOfAdded(Octrees.Contents(t0), Octrees.Contents(t), coords, |ps0|, n);
    assert |ps| == |ps0| + n;
    if Storable(t0, coords, n, fuel) {
      InsertAllStores(t0, coords, |ps0|, n, fuel);
    }
  }

  /** `ParticleCloud`: the octree, the annotation of its data slots, the particles and the flat vectors. */
  class ParticleCloud {
    var tree: Octree
    var annotation: Annotation
    var particles: seq<Particle>
    var pPos: seq<real>
    var pValues: seq<real>
    var pSizes: seq<real>

    /** The tree is well formed and every stored id indexes a particle. */
    ghost predicate Valid()
      reads this
    {
      Octrees.Valid(tree) && IdsBelow(tree, |particles|)
    }

    /** `ParticleCloud(origin, halfDimension)`: an empty tree over the given box, no particles. */
    constructor(origin: Vec3, halfDimension: Vec3)
      ensures tree == Octrees.NewOctree(origin, halfDimension) && annotation == Unannotated
      ensures particles == [] && pPos == [] && pValues == [] && pSizes == []
      ensures Valid()
    {
      tree := Octrees.NewOctree(origin, halfDimension);
      annotation := Unannotated;
      particles, pPos, pValues, pSizes := [], [], [], [];
    }

    /**
     * `init(coords)`: appends input particle i (id i, value 1, size 10, the
     * i-th point of the buffer) and inserts it into the tree under its
     * index, for every row of the buffer in order; then builds the
     * intermediates and populates the vectors. `coords` is the buffer's
     * floats and n its row count: point i is read from floats 3i..3i+2
     * whatever the row width, so a buffer wider than 3 is accepted.
     */
    method Init(coords: seq<real>, n: nat, fuel: nat)
      requires Valid() && 3 * n <= |coords|
      modifies this
      ensures tree == InsertAll(old(tree), coords, |old(particles)|, n, fuel)
      ensures IdsBelow(tree, |old(particles)| + n)
      ensures StoresInputs(old(tree), tree, coords, |old(particles)|, n, fuel)
      ensures (annotation, particles) == Intermediates(tree, old(particles) + NewParticles(coords, n))
      ensures pPos == old(pPos) + PosColumns(particles)
      ensures pSizes == old(pSizes) + Sizes(particles)
      ensures pValues == old(pValues) + Values(particles)
      ensures Valid()
    {
      ghost var p0 := particles;
      AddInputs(coords, n, fuel);
      ghost var t1, p1 := tree, particles;
      assert p1 == p0 + NewParticles(coords, n);
      AddIntermediates();
      assert tree == t1 && (annotation, particles) == Intermediates(t1, p1);
      PopulateVectors();
    }

    method AddInputs(coords: seq<real>, n: nat, fuel: nat)
      requires Valid() && 3 * n <= |coords|
      modifies `tree, `particles
      ensures tree == InsertAll(old(tree), coords, |old(particles)|, n, fuel)
      ensures particles == old(particles) + NewParticles(coords, n)
      ensures IdsBelow(tree, |old(particles)| + n) && Valid()
      ensures StoresInputs(old(tree), tree, coords, |old(particles)|, n, fuel)
    {
      tree, particles := InsertInputs(tree, particles, coords, n, fuel);
    }

    /**
     * `insertIntermediates(root)`: appends the aggregates of the interior
     * nodes of root to `particles`, children before parents, and returns
     * the annotation of root (the `data` slots it fills). The source skips
     * NULL children; the children of a valid interior node are never NULL.
     */
    method InsertIntermediates(root: Octree) returns (a: Annotation)
      requires Octrees.Valid(root) && IdsBelow(root, |particles|)
      modifies `particles
      ensures (a, particles) == Intermediates(root, old(particles))
      decreases root
    {
      if Octrees.IsLeafNode(root) {
        return Unannotated;
      }
      var cs: seq<Annotation> := [];
      for i := 0 to 8
        invariant (cs, particles) == IntermediatesUpTo(root, i, old(particles))
      {
        ChildIdsBelow(root, i, |old(particles)|, |particles|);
        var c := InsertIntermediates(root.children[i].value);
        cs := cs + [c];
      }
      var parts := GatherParts(root, cs, particles);
      AggregatePartsExist(root, cs, particles);
      IntermediatesOfInterior(root, old(particles), cs, particles, parts);
      var id := |particles|;
      var p := Aggregate(id, parts);
      particles := particles + [p];
      a := Annotated(id, cs);
    }

    /** The call `insertIntermediates(tree)` of `init`, recording the data slots it fills. */
    method AddIntermediates()
      requires Valid()
      modifies `annotation, `particles
      ensures (annotation, particles) == Intermediates(tree, old(particles))
      ensures Valid()
    {
      annotation := InsertIntermediates(tree);
      IdsBelowMore(tree, |old(particles)|, |particles|);
    }

    /** `populateVectors`: appends every particle's z, y, x, size and value, without clearing. */
    method PopulateVectors()
      modifies `pPos, `pSizes, `pValues
      ensures pPos == old(pPos) + PosColumns(particles)
      ensures pSizes == old(pSizes) + Sizes(particles)
      ensures pValues == old(pValues) + Values(particles)
    {
      for k := 0 to |particles|
        invariant pPos == old(pPos) + PosColumns(particles[..k])
        invariant pSizes == old(pSizes) + Sizes(particles[..k])
        invariant pValues == old(pValues) + Values(particles[..k])
      {
        assert particles[..k + 1][..k] == particles[..k];
        var pos := particles[k].position;
        pPos := pPos + [pos.z, pos.y, pos.x];
        pSizes := pSizes + [particles[k].size];
        pValues := pValues + [particles[k].value];
      }
      assert particles[..|particles|] == particles;
    }

    /** `foo`: writes 10 into each of the product-of-shape floats of the buffer. */
    method Foo(x: array<real>, shape: seq<nat>)
      requires x.Length == Utils.Product(shape)
      modifies x
      ensures forall i | 0 <= i < x.Length :: x[i] == 10.0
    {
      var n := 1;
      for k := 0 to |shape|
        invariant n == Utils.Product(shape[..k])
      {
        assert shape[..k + 1] == shape[..k] + [shape[k]];
        Utils.ProductSnoc(shape[..k], shape[k]);
        n := n * shape[k];
      }
      assert shape[..|shape|] == shape;
      for i := 0 to n
        invariant forall j | 0 <= j < i :: x[j] == 10.0
      {
        x[i] := 10.0;
      }
    }
  }
}
