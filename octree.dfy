/**
 * Octree.h and OctreePoint.h: a point-region octree over 3-D points. A node
 * is a box (centre `origin`, half extents `halfDimension`); a leaf stores at
 * most one point under an id (-1 marks an empty leaf); an interior node has
 * all eight children, child i covering the octant whose bits 4, 2 and 1 say
 * whether x, y and z are not below the centre.
 *
 * A node is a value here: `children` holds the eight child slots (`None`
 * for NULL) and `insert` returns the updated node. `Contents` is the multiset
 * of (id, point) pairs stored at and below a node.
 */
module Octrees {
  import opened Wrappers
  import opened LinAlg

  /** Whether `i & b` is non-zero, for a single-bit mask b. */
  predicate Bit(i: nat, b: nat)
    requires b > 0
  {
    (i / b) % 2 == 1
  }

  /** `getOctantContainingPoint`: one bit per axis on which the point is not below the centre. */
  function Octant(origin: Vec3, p: Vec3): (oct: nat)
    ensures oct < 8
    ensures Bit(oct, 4) <==> p.x >= origin.x
    ensures Bit(oct, 2) <==> p.y >= origin.y
    ensures Bit(oct, 1) <==> p.z >= origin.z
  {
    (if p.x >= origin.x then 4 else 0) + (if p.y >= origin.y then 2 else 0) + (if p.z >= origin.z then 1 else 0)
  }

  /** The centre of child i made by a split: half a half extent along each axis, towards the side bit i names. */
  function ChildOrigin(origin: Vec3, half: Vec3, i: nat): Vec3 {
    Vec3(origin.x + half.x * (if Bit(i, 4) then 0.5 else -0.5),
         origin.y + half.y * (if Bit(i, 2) then 0.5 else -0.5),
         origin.z + half.z * (if Bit(i, 1) then 0.5 else -0.5))
  }

  function ChildHalf(half: Vec3): Vec3 {
    Scale3(half, 0.5)
  }

  /** The closed box of centre `origin` and half extents `half`. */
  predicate Inside(p: Vec3, origin: Vec3, half: Vec3) {
    && origin.x - half.x <= p.x <= origin.x + half.x
    && origin.y - half.y <= p.y <= origin.y + half.y
    && origin.z - half.z <= p.z <= origin.z + half.z
  }

  /**
   * The numbering of the split agrees with `getOctantContainingPoint`: with
   * positive extents, the centre of child i lies in octant i.
   */
  lemma ChildOriginInOctant(origin: Vec3, half: Vec3, i: nat)
    requires i < 8 && half.x > 0.0 && half.y > 0.0 && half.z > 0.0
    ensures Octant(origin, ChildOrigin(origin, half, i)) == i
  {
    var c := ChildOrigin(origin, half, i);
    var oct := Octant(origin, c);
    assert Bit(oct, 4) == Bit(i, 4) && Bit(oct, 2) == Bit(i, 2) && Bit(oct, 1) == Bit(i, 1);
    assert i == (if Bit(i, 4) then 4 else 0) + (if Bit(i, 2) then 2 else 0) + (if Bit(i, 1) then 1 else 0);
  }

  /** A point of a node's box lies in the box of the child its octant selects. */
  lemma OctantContains(origin: Vec3, half: Vec3, p: Vec3)
    requires Inside(p, origin, half)
    ensures Inside(p, ChildOrigin(origin, half, Octant(origin, p)), ChildHalf(half))
  {
  }


  ghost function Sum8<T>(m: seq<multiset<T>>): multiset<T>
    requires |m| == 8
  {
    m[0] + m[1] + m[2] + m[3] + m[4] + m[5] + m[6] + m[7]
  }

  /** Adding to one of eight parts adds to their sum. */
  lemma Sum8Update<T>(m: seq<multiset<T>>, c: nat, d: multiset<T>)
    requires |m| == 8 && c < 8
    ensures Sum8(m[c := m[c] + d]) == Sum8(m) + d
  {
  }

  lemma Sum8Empty<T>(none: multiset<T>)
    requires none == multiset{}
    ensures Sum8([none, none, none, none, none, none, none, none]) == multiset{}
  {
  }

  lemma UnionAssoc<T>(a: multiset<T>, b: multiset<T>, d: multiset<T>)
    ensures a + (b + d) == a + b + d
  {
  }

  lemma MemberOfUnion<T>(e: T, a: multiset<T>, b: multiset<T>)
    requires e in a + b
    ensures e in a || e in b
  {
  }

  /** An element of one of the parts is an element of the sum. */
  lemma Sum8Has<T>(m: seq<multiset<T>>, i: nat, e: T)
    requires |m| == 8 && i < 8 && e in m[i]
    ensures e in Sum8(m)
  {
  }

  lemma UnionEmpty<T>(a: multiset<T>)
    ensures a + multiset{} == a
  {
  }

  /** An element of the sum is an element of one of the parts. */
  lemma Sum8Member<T>(m: seq<multiset<T>>, e: T) returns (i: nat)
    requires |m| == 8 && e in Sum8(m)
    ensures i < 8 && e in m[i]
  {
    i :| 0 <= i < 8 && e in m[i];
  }

  datatype Octree = Octree(origin: Vec3, halfDimension: Vec3, children: seq<Option<Octree>>,
                           id: int, position: Vec3)

  /** `Octree(origin, halfDimension)`: an empty leaf, no children, id -1, position zero. */
  function NewOctree(origin: Vec3, halfDimension: Vec3): (t: Octree)
    ensures Valid(t) && IsLeafNode(t) && Contents(t) == multiset{}
    ensures t.origin == origin && t.halfDimension == halfDimension
    ensures t.id == -1 && t.position == Vec3(0.0, 0.0, 0.0)
  {
    var t := Octree(origin, halfDimension, NoChildren, -1, Vec3(0.0, 0.0, 0.0));
    LeafContents(t);
    t
  }

  /** Eight NULL child slots. */
  const NoChildren: seq<Option<Octree>> := [None, None, None, None, None, None, None, None]

  /** A node without children stores its own point and nothing else. */
  lemma LeafContents(t: Octree)
    requires |t.children| == 8 && forall i | 0 <= i < 8 :: t.children[i].None?
    ensures Contents(t) == Own(t)
  {
    var none: multiset<(int, Vec3)> := multiset{};
    assert Parts(t) == [none, none, none, none, none, none, none, none];
    Sum8Empty(none);
  }

  /** `isLeafNode`: only the first child slot is looked at. */
  function IsLeafNode(t: Octree): (leaf: bool)
    requires |t.children| == 8
    ensures Valid(t) ==> (leaf <==> forall i | 0 <= i < 8 :: t.children[i].None?)
    ensures Valid(t) ==> (!leaf <==> forall i | 0 <= i < 8 :: t.children[i].Some?)
  {
    t.children[0].None?
  }

  /** The point a node stores itself. */
  ghost function Own(t: Octree): multiset<(int, Vec3)> {
    if t.id == -1 then multiset{} else multiset{(t.id, t.position)}
  }

  /** Every (id, point) pair stored in the subtree. */
  ghost function Contents(t: Octree): multiset<(int, Vec3)>
    decreases t, 2
  {
    Own(t) + if |t.children| == 8 then Sum8(Parts(t)) else multiset{}
  }

  /** What the eight child slots hold, slot by slot. */
  ghost function Parts(t: Octree): (m: seq<multiset<(int, Vec3)>>)
    requires |t.children| == 8
    ensures |m| == 8
    decreases t, 1
  {
      [SlotContents(t.children[0]), SlotContents(t.children[1]), SlotContents(t.children[2]),
       SlotContents(t.children[3]), SlotContents(t.children[4]), SlotContents(t.children[5]),
       SlotContents(t.children[6]), SlotContents(t.children[7])]
  }

  /** What a child slot holds: nothing for NULL. */
  ghost function SlotContents(slot: Option<Octree>): multiset<(int, Vec3)>
    decreases slot, 0
  {
    match slot
    case None => multiset{}
    case Some(c) => Contents(c)
  }

  ghost predicate HasPoint(m: multiset<(int, Vec3)>, p: Vec3) {
    exists e :: e in m && e.1 == p
  }

  /**
   * Either no children at all, or eight well-formed children and no point
   * of its own and something stored below.
   */
  ghost predicate Valid(t: Octree)
    decreases t, 2
  {
    && |t.children| == 8
    && if t.children[0].None? then
         forall i | 0 <= i < 8 :: t.children[i].None?
       else
         && (forall i | 0 <= i < 8 :: t.children[i].Some?)
         && Interior(t) && |Contents(t)| > 0
  }

  /** Eight well-formed children and id -1; possibly nothing stored yet (right after a split). */
  ghost predicate Interior(t: Octree)
    decreases t, 1
  {
    && |t.children| == 8
    && t.id == -1
    && (forall i | 0 <= i < 8 :: t.children[i].Some?)
    && (forall i | 0 <= i < 8 :: ChildValid(t.children[i], t.origin, t.halfDimension, i))
  }

  /**
   * Child slot i of a node of centre `origin` and half extents `half` holds
   * a well-formed child that covers the i-th octant box and holds only
   * points of octant i.
   */
  ghost predicate ChildValid(slot: Option<Octree>, origin: Vec3, half: Vec3, i: nat)
    decreases slot, 0
  {
    && slot.Some?
    && Valid(slot.value)
    && slot.value.origin == ChildOrigin(origin, half, i)
    && slot.value.halfDimension == ChildHalf(half)
    && forall e | e in Contents(slot.value) :: Octant(origin, e.1) == i
  }

  /** The node right after the split loop: id -1 and eight fresh empty children. */
  function Split(t: Octree): (s: Octree)
    ensures Interior(s) && Contents(s) == multiset{}
    ensures s.origin == t.origin && s.halfDimension == t.halfDimension
    ensures s.position == t.position
    ensures forall i | 0 <= i < 8 :: s.children[i] == EmptyChild(t, i)
  {
    var s := t.(id := -1, children := SplitChildren(t));
    SplitIsEmptyInterior(t, s);
    s
  }

  /** The children the split loop creates, in octant order. */
  function SplitChildren(t: Octree): (cs: seq<Option<Octree>>)
    ensures |cs| == 8 && forall i | 0 <= i < 8 :: cs[i] == EmptyChild(t, i)
  {
    seq(8, i requires 0 <= i < 8 => EmptyChild(t, i))
  }

  lemma SplitIsEmptyInterior(t: Octree, s: Octree)
    requires s == t.(id := -1, children := SplitChildren(t))
    ensures Interior(s) && Contents(s) == multiset{}
  {
    forall i | 0 <= i < 8
      ensures ChildValid(s.children[i], s.origin, s.halfDimension, i)
    {
      assert s.children[i] == EmptyChild(t, i);
    }
    var none: multiset<(int, Vec3)> := multiset{};
    assert Parts(s) == [none, none, none, none, none, none, none, none];
    Sum8Empty(none);
  }

  /** The i-th child the split loop creates: an empty leaf on the i-th octant box. */
  function EmptyChild(t: Octree, i: nat): (slot: Option<Octree>)
    ensures ChildValid(slot, t.origin, t.halfDimension, i)
    ensures SlotContents(slot) == multiset{}
  {
    Some(NewOctree(ChildOrigin(t.origin, t.halfDimension, i), ChildHalf(t.halfDimension)))
  }

  /** Putting an updated child into slot c keeps the node well formed. */
  lemma ReplaceChild(t: Octree, c: nat, k: Octree, d: multiset<(int, Vec3)>)
    requires Interior(t) && c < 8
    requires Valid(k)
    requires k.origin == t.children[c].value.origin && k.halfDimension == t.children[c].value.halfDimension
    requires Contents(k) == Contents(t.children[c].value) + d
    requires forall e | e in d :: Octant(t.origin, e.1) == c
    ensures Interior(t.(children := t.children[c := Some(k)]))
    ensures Contents(t.(children := t.children[c := Some(k)])) == Contents(t) + d
  {
    GrownChild(t.children[c], t.origin, t.halfDimension, c, k, d);
    ReplaceSlot(t, c, Some(k));
    ReplaceChildContents(t, c, k, d);
  }

  /** A child that grew by points of its own octant is still a valid child. */
  lemma GrownChild(slot: Option<Octree>, origin: Vec3, half: Vec3, c: nat, k: Octree, d: multiset<(int, Vec3)>)
    requires ChildValid(slot, origin, half, c)
    requires Valid(k) && k.origin == slot.value.origin && k.halfDimension == slot.value.halfDimension
    requires Contents(k) == Contents(slot.value) + d
    requires forall e | e in d :: Octant(origin, e.1) == c
    ensures ChildValid(Some(k), origin, half, c)
  {
    forall e | e in Contents(k)
      ensures Octant(origin, e.1) == c
    {
      MemberOfUnion(e, Contents(slot.value), d);
    }
  }

  /** Any valid child in slot c leaves an interior node interior. */
  lemma ReplaceSlot(t: Octree, c: nat, slot: Option<Octree>)
    requires Interior(t) && c < 8
    requires ChildValid(slot, t.origin, t.halfDimension, c)
    ensures Interior(t.(children := t.children[c := slot]))
  {
    var t2 := t.(children := t.children[c := slot]);
    forall i | 0 <= i < 8
      ensures ChildValid(t2.children[i], t2.origin, t2.halfDimension, i)
    {
      if i != c {
        assert t2.children[i] == t.children[i];
      }
    }
  }

  /** ... and adds to the node what the update added to the child. */
  lemma ReplaceChildContents(t: Octree, c: nat, k: Octree, d: multiset<(int, Vec3)>)
    requires |t.children| == 8 && c < 8 && t.children[c].Some?
    requires Contents(k) == Contents(t.children[c].value) + d
    ensures Contents(t.(children := t.children[c := Some(k)])) == Contents(t) + d
  {
    var t2 := t.(children := t.children[c := Some(k)]);
    var p := Parts(t);
    ReplacedParts(t, c, k);
    assert Parts(t2) == p[c := p[c] + d];
    Sum8Update(p, c, d);
    UnionAssoc(Own(t), Sum8(p), d);
  }

  lemma ReplacedParts(t: Octree, c: nat, k: Octree)
    requires |t.children| == 8 && c < 8 && t.children[c].Some?
    ensures Parts(t.(children := t.children[c := Some(k)])) == Parts(t)[c := Contents(k)]
  {
    var t2 := t.(children := t.children[c := Some(k)]);
    var p, p2 := Parts(t), Parts(t2);
    forall i | 0 <= i < 8
      ensures p2[i] == p[c := Contents(k)][i]
    {
      PartsAt(t2, i);
      PartsAt(t, i);
    }
  }

  /** Part i is what child slot i holds. */
  lemma PartsAt(t: Octree, i: nat)
    requires |t.children| == 8 && i < 8
    ensures Parts(t)[i] == SlotContents(t.children[i])
  {
  }

  /** What an interior node stores, one of its children stores. */
  lemma ChildMember(t: Octree, e: (int, Vec3)) returns (i: nat)
    requires |t.children| == 8 && t.id == -1 && e in Contents(t)
    ensures i < 8 && e in SlotContents(t.children[i])
  {
    i := Sum8Member(Parts(t), e);
  }

  /** What a child stores, its parent stores. */
  lemma InChild(t: Octree, c: nat, e: (int, Vec3))
    requires |t.children| == 8 && c < 8 && t.children[c].Some? && e in Contents(t.children[c].value)
    ensures e in Contents(t)
  {
    var m := Parts(t);
    assert m[c] == SlotContents(t.children[c]);
    Sum8Has(m, c, e);
  }

  /** A valid interior node has a child that stores something. */
  lemma SomeChildStores(t: Octree) returns (c: nat)
    requires Valid(t) && !IsLeafNode(t)
    ensures c < 8 && |Contents(t.children[c].value)| > 0
  {
    var e :| e in Contents(t);
    c := ChildMember(t, e);
  }

  /** A valid node stores something exactly when it is interior or holds a point itself. */
  lemma StoresSomething(t: Octree)
    requires Valid(t)
    ensures |Contents(t)| > 0 <==> !IsLeafNode(t) || t.id != -1
  {
    if IsLeafNode(t) {
      LeafContents(t);
    }
  }

  /** A point stored below an interior node is stored in the child its octant names. */
  lemma PointInChild(t: Octree, p: Vec3)
    requires Interior(t)
    ensures HasPoint(Contents(t), p) ==> HasPoint(Contents(t.children[Octant(t.origin, p)].value), p)
  {
    if HasPoint(Contents(t), p) {
      var e :| e in Contents(t) && e.1 == p;
      var i := ChildMember(t, e);
      assert ChildValid(t.children[i], t.origin, t.halfDimension, i);
    }
  }

  /**
   * What inserting (newId, point) into t with outcome r promises: the
   * result is well formed over the same box; it stores the pair on top of
   * what t stored when r.1 holds, and is t itself otherwise; a point t
   * already holds is refused.
   */
  ghost predicate Inserted(t: Octree, r: (Octree, bool), newId: int, point: Vec3) {
    && Valid(r.0)
    && r.0.origin == t.origin && r.0.halfDimension == t.halfDimension
    && Contents(r.0) == (if r.1 then Contents(t) + multiset{(newId, point)} else Contents(t))
    && (HasPoint(Contents(t), point) ==> !r.1)
    && (!r.1 ==> r.0 == t)
  }

  /**
   * `insert(id, point)`. `fuel` bounds the number of splits in a row: two
   * equal points never land in different octants, so the source splits
   * without end and the model returns `false` with the node unchanged once
   * the fuel is spent. The boolean says whether the point was stored.
   */
  function Insert(t: Octree, newId: int, point: Vec3, fuel: nat): (r: (Octree, bool))
    requires Valid(t) && newId != -1
    ensures Inserted(t, r, newId, point)
    ensures IsLeafNode(t) && t.id == -1 ==> r.1 && r.0 == t.(id := newId, position := point)
    decreases fuel, t, 2
  {
    if IsLeafNode(t) then
      if t.id == -1 then
        StoredInLeaf(t, newId, point);
        (t.(id := newId, position := point), true)
      else if fuel == 0 then
        (t, false)
      else
        SplitInsert(t, newId, point, fuel)
    else
      Forward(t, newId, point, fuel)
  }

  /**
   * The split branch of `insert`, for a leaf that already holds a point:
   * subdivide, then forward the new point to the child of its octant. If
   * that child refuses it, the leaf is left as it was.
   */
  function SplitInsert(t: Octree, newId: int, point: Vec3, fuel: nat): (r: (Octree, bool))
    requires Valid(t) && IsLeafNode(t) && t.id != -1 && fuel > 0 && newId != -1
    ensures Inserted(t, r, newId, point)
    decreases fuel, t, 1
  {
    var s := Subdivide(t, fuel);
    var rs := Forward(s, newId, point, fuel - 1);
    if rs.1 then rs else (t, false)
  }

  /** An empty leaf takes the point and becomes a leaf that stores exactly it. */
  lemma StoredInLeaf(t: Octree, newId: int, point: Vec3)
    requires Valid(t) && IsLeafNode(t) && t.id == -1 && newId != -1
    ensures Valid(t.(id := newId, position := point))
    ensures Contents(t.(id := newId, position := point)) == Contents(t) + multiset{(newId, point)}
    ensures !HasPoint(Contents(t), point)
  {
    LeafContents(t);
    LeafContents(t.(id := newId, position := point));
  }

  /**
   * The interior branch of `insert`: the point goes to the child of its
   * octant; the node's own fields and the other children stay as they are.
   */
  function Forward(t: Octree, newId: int, point: Vec3, fuel: nat): (r: (Octree, bool))
    requires Valid(t) && !IsLeafNode(t) && newId != -1
    ensures Inserted(t, r, newId, point) && !IsLeafNode(r.0)
    ensures var c := Octant(t.origin, point); r.0 == t.(children := t.children[c := r.0.children[c]])
    decreases fuel, t, 1
  {
    var c := Octant(t.origin, point);
    ChildOf(t, c);
    var rc := Insert(t.children[c].value, newId, point, fuel);
    Forwarded(t, c, rc, newId, point);
    Reattach(t, c, rc)
  }

  /**
   * The node after its child c answered `rc`: the updated child in slot c
   * if it took the point, the node as it was otherwise.
   */
  function Reattach(t: Octree, c: nat, rc: (Octree, bool)): (r: (Octree, bool))
    requires c < |t.children|
    ensures r.1 == rc.1 && |r.0.children| == |t.children|
    ensures r.0 == t.(children := t.children[c := r.0.children[c]])
    ensures r.1 ==> r.0.children[c] == Some(rc.0)
  {
    if rc.1 then
      (t.(children := t.children[c := Some(rc.0)]), true)
    else
      assert t.children[c := t.children[c]] == t.children;
      (t, false)
  }

  /** What `Forward` promises, from what `Insert` promised about the child. */
  lemma Forwarded(t: Octree, c: nat, rc: (Octree, bool), newId: int, point: Vec3)
    requires Valid(t) && !IsLeafNode(t) && c == Octant(t.origin, point)
    requires Inserted(t.children[c].value, rc, newId, point)
    ensures var r := Reattach(t, c, rc); Inserted(t, r, newId, point) && !IsLeafNode(r.0)
  {
    ChildOf(t, c);
    PointInChild(t, point);
    if rc.1 {
      ForwardedInto(t, c, rc.0, newId, point);
    }
  }

  /** What `Forward` promises when the child took the point, from what `Insert` promised about the child. */
  lemma ForwardedInto(t: Octree, c: nat, k: Octree, newId: int, point: Vec3)
    requires Valid(t) && !IsLeafNode(t) && c == Octant(t.origin, point)
    requires Valid(k)
    requires k.origin == t.children[c].value.origin && k.halfDimension == t.children[c].value.halfDimension
    requires Contents(k) == Contents(t.children[c].value) + multiset{(newId, point)}
    ensures Valid(t.(children := t.children[c := Some(k)]))
    ensures !IsLeafNode(t.(children := t.children[c := Some(k)]))
    ensures Contents(t.(children := t.children[c := Some(k)])) == Contents(t) + multiset{(newId, point)}
  {
    ChildOf(t, c);
    Grown(t, c, k, multiset{(newId, point)});
  }

  /** Child c of a valid interior node is a valid child. */
  lemma ChildOf(t: Octree, c: nat)
    requires Valid(t) && !IsLeafNode(t) && c < 8
    ensures Interior(t) && ChildValid(t.children[c], t.origin, t.halfDimension, c)
    ensures Valid(t.children[c].value)
  {
  }

  /** A valid node whose child c grew by points of octant c is valid and grew by the same. */
  lemma Grown(t: Octree, c: nat, k: Octree, d: multiset<(int, Vec3)>)
    requires Interior(t) && c < 8
    requires Valid(k)
    requires k.origin == t.children[c].value.origin && k.halfDimension == t.children[c].value.halfDimension
    requires Contents(k) == Contents(t.children[c].value) + d
    requires forall e | e in d :: Octant(t.origin, e.1) == c
    requires |Contents(t) + d| > 0
    ensures Valid(t.(children := t.children[c := Some(k)]))
    ensures !IsLeafNode(t.(children := t.children[c := Some(k)]))
    ensures Contents(t.(children := t.children[c := Some(k)])) == Contents(t) + d
  {
    ReplaceChild(t, c, k, d);
    InteriorValid(t.(children := t.children[c := Some(k)]));
  }

  /** An interior node that stores something is a valid non-leaf. */
  lemma InteriorValid(t: Octree)
    requires Interior(t) && |Contents(t)| > 0
    ensures Valid(t) && !IsLeafNode(t)
  {
  }

  /**
   * The split branch of `insert` up to the new point: the stored point moves
   * into the child of its octant; the node keeps its box and position
   * and now has id -1 and eight children at the octant centres with half the
   * extents.
   */
  function Subdivide(t: Octree, fuel: nat): (s: Octree)
    requires Valid(t) && IsLeafNode(t) && t.id != -1 && fuel > 0
    ensures Valid(s) && !IsLeafNode(s) && s.id == -1
    ensures s.origin == t.origin && s.halfDimension == t.halfDimension
    ensures s.position == t.position
    ensures Contents(s) == Contents(t)
    ensures var o := Octant(t.origin, t.position);
      s.children[o].Some? && s.children[o].value.id == t.id && s.children[o].value.position == t.position
    decreases fuel, t, 0
  {
    var split := Split(t);
    var o := Octant(t.origin, t.position);
    var (k, _) := Insert(split.children[o].value, t.id, t.position, fuel - 1);
    Subdivided(t, split, o, k);
    split.(children := split.children[o := Some(k)])
  }

  /** What `Subdivide` promises, from what `Insert` promised about the empty child. */
  lemma Subdivided(t: Octree, split: Octree, o: nat, k: Octree)
    requires Valid(t) && IsLeafNode(t) && t.id != -1
    requires split == Split(t) && o == Octant(t.origin, t.position)
    requires k == split.children[o].value.(id := t.id, position := t.position)
    requires Valid(k) && Contents(k) == Contents(split.children[o].value) + multiset{(t.id, t.position)}
    ensures Valid(split.(children := split.children[o := Some(k)]))
    ensures !IsLeafNode(split.(children := split.children[o := Some(k)]))
    ensures Contents(split.(children := split.children[o := Some(k)])) == Contents(t)
  {
    LeafContents(t);
    Grown(split, o, k, multiset{(t.id, t.position)});
  }

  // ---------------------------------------------------------------------
  // When `insert` stores the point

  function Abs(x: real): (a: real)
    ensures a >= 0.0 && (a == x || a == -x)
  {
    if x < 0.0 then -x else x
  }

  /** 2 to the power n. */
  function Pow2(n: nat): (p: real)
    ensures p >= 1.0
  {
    if n == 0 then 1.0 else 2.0 * Pow2(n - 1)
  }

  /** |d| doubled n times: a gap between two coordinates measured against a box split n times. */
  function Doubled(d: real, n: nat): (r: real)
    ensures r >= 0.0
  {
    if n == 0 then Abs(d) else 2.0 * Doubled(d, n - 1)
  }

  /** Whether a gap d, doubled `splits` times, exceeds the width w. */
  predicate Apart(w: real, d: real, splits: nat) {
    w < Doubled(d, splits)
  }

  /**
   * Whether splitting a box of half extents h `splits` times is enough to
   * tell p and q apart: on some axis their distance, doubled `splits` times,
   * exceeds the width of the box.
   */
  ghost predicate Separated(h: Vec3, p: Vec3, q: Vec3, splits: nat) {
    Apart(2.0 * h.x, p.x - q.x, splits) || Apart(2.0 * h.y, p.y - q.y, splits) || Apart(2.0 * h.z, p.z - q.z, splits)
  }

  /**
   * Whether `insert(id, q)` on t has room to store q with `fuel` splits in a
   * row: q and every stored point lie in the box of t, and each stored point
   * is separated from q within that many splits.
   */
  ghost predicate Placeable(t: Octree, q: Vec3, fuel: nat) {
    && Inside(q, t.origin, t.halfDimension)
    && forall e | e in Contents(t) ::
         Inside(e.1, t.origin, t.halfDimension) && Separated(t.halfDimension, e.1, q, fuel)
  }

  /** Two points of one box are no further apart on any axis than the box is wide. */
  lemma NotSeparatedInBox(origin: Vec3, h: Vec3, p: Vec3, q: Vec3)
    requires Inside(p, origin, h) && Inside(q, origin, h)
    ensures !Separated(h, p, q, 0)
  {
  }

  /** A split halves the width: one split fewer keeps a gap apart. */
  lemma ApartInChild(h: real, d: real, splits: nat)
    requires splits > 0 && Apart(2.0 * h, d, splits)
    ensures Apart(2.0 * (h * 0.5), d, splits - 1)
  {
  }

  /** With as many splits, a gap stays apart in half the width. */
  lemma ApartInSmallerBox(h: real, d: real, splits: nat)
    requires h >= 0.0 && Apart(2.0 * h, d, splits)
    ensures Apart(2.0 * (h * 0.5), d, splits)
  {
  }

  /** More splits never bring a gap within the width. */
  lemma {:induction false} ApartLater(w: real, d: real, splits: nat, more: nat)
    requires splits <= more && Apart(w, d, splits)
    ensures Apart(w, d, more)
    decreases more
  {
    if splits < more {
      ApartLater(w, d, splits, more - 1);
    }
  }

  /** A split halves the box: one split fewer separates the points in a child box. */
  lemma SeparatedInChild(h: Vec3, p: Vec3, q: Vec3, splits: nat)
    requires splits > 0 && Separated(h, p, q, splits)
    ensures Separated(ChildHalf(h), p, q, splits - 1)
  {
    ApartInChildIf(h.x, p.x - q.x, splits);
    ApartInChildIf(h.y, p.y - q.y, splits);
    ApartInChildIf(h.z, p.z - q.z, splits);
  }

  lemma ApartInChildIf(h: real, d: real, splits: nat)
    requires splits > 0
    ensures Apart(2.0 * h, d, splits) ==> Apart(2.0 * (h * 0.5), d, splits - 1)
  {
    if Apart(2.0 * h, d, splits) {
      ApartInChild(h, d, splits);
    }
  }

  /** With the same number of splits left, a smaller box keeps the points separated. */
  lemma SeparatedInSmallerBox(h: Vec3, p: Vec3, q: Vec3, splits: nat)
    requires h.x >= 0.0 && h.y >= 0.0 && h.z >= 0.0 && Separated(h, p, q, splits)
    ensures Separated(ChildHalf(h), p, q, splits)
  {
  }

  /** More splits never undo a separation. */
  lemma SeparatedLater(h: Vec3, p: Vec3, q: Vec3, splits: nat, more: nat)
    requires splits <= more && Separated(h, p, q, splits)
    ensures Separated(h, p, q, more)
  {
    if Apart(2.0 * h.x, p.x - q.x, splits) {
      ApartLater(2.0 * h.x, p.x - q.x, splits, more);
    } else if Apart(2.0 * h.y, p.y - q.y, splits) {
      ApartLater(2.0 * h.y, p.y - q.y, splits, more);
    } else {
      ApartLater(2.0 * h.z, p.z - q.z, splits, more);
    }
  }

  lemma {:induction false} Pow2AtLeast(n: nat)
    ensures Pow2(n) >= (n as real) + 1.0
  {
    if n > 0 {
      Pow2AtLeast(n - 1);
    }
  }

  /** Doubling n times is multiplying by 2 to the power n. */
  lemma {:induction false} DoubledIsProduct(d: real, n: nat)
    ensures Doubled(d, n) == Pow2(n) * Abs(d)
  {
    if n > 0 {
      DoubledIsProduct(d, n - 1);
    }
  }

  /** Some power of 2 times a positive gap exceeds any width. */
  lemma GapExceeds(width: real, gap: real) returns (n: nat)
    requires gap > 0.0
    ensures width < Pow2(n) * gap
  {
    var x := width / gap;
    if x < 1.0 {
      n := 0;
    } else {
      n := x.Floor as nat + 1;
      Pow2AtLeast(n);
    }
    assert x < Pow2(n);
    assert width == x * gap;
  }

  /** A non-zero gap, doubled often enough, exceeds any width. */
  lemma ApartEventually(width: real, d: real) returns (n: nat)
    requires d != 0.0
    ensures Apart(width, d, n)
  {
    n := GapExceeds(width, Abs(d));
    DoubledIsProduct(d, n);
  }

  /** Distinct points are separated after finitely many splits of any box. */
  lemma SeparatedEventually(h: Vec3, p: Vec3, q: Vec3) returns (splits: nat)
    requires p != q
    ensures Separated(h, p, q, splits)
  {
    if p.x != q.x {
      splits := ApartEventually(2.0 * h.x, p.x - q.x);
    } else if p.y != q.y {
      splits := ApartEventually(2.0 * h.y, p.y - q.y);
    } else {
      splits := ApartEventually(2.0 * h.z, p.z - q.z);
    }
  }

  /** More splits never take room away: a point placeable within fuel splits is placeable within more. */
  lemma PlaceableLater(t: Octree, q: Vec3, fuel: nat, more: nat)
    requires fuel <= more && Placeable(t, q, fuel)
    ensures Placeable(t, q, more)
  {
    forall e | e in Contents(t)
      ensures Separated(t.halfDimension, e.1, q, more)
    {
      SeparatedLater(t.halfDimension, e.1, q, fuel, more);
    }
  }

  /** Every point distinct from those stored, inside the box, has room within some number of splits. */
  lemma PlaceableEventually(t: Octree, q: Vec3) returns (fuel: nat)
    requires Inside(q, t.origin, t.halfDimension)
    requires forall e | e in Contents(t) :: Inside(e.1, t.origin, t.halfDimension) && e.1 != q
    ensures Placeable(t, q, fuel)
  {
    fuel := 0;
    var rest := Contents(t);
    while rest != multiset{}
      invariant rest <= Contents(t)
      invariant forall e | e in Contents(t) - rest :: Separated(t.halfDimension, e.1, q, fuel)
      decreases |rest|
    {
      var e :| e in rest;
      var f := SeparatedEventually(t.halfDimension, e.1, q);
      var more := if f < fuel then fuel else f;
      forall d | d in Contents(t) - (rest - multiset{e})
        ensures Separated(t.halfDimension, d.1, q, more)
      {
        if d == e {
          SeparatedLater(t.halfDimension, d.1, q, f, more);
        } else {
          assert d in Contents(t) - rest;
          SeparatedLater(t.halfDimension, d.1, q, fuel, more);
        }
      }
      fuel, rest := more, rest - multiset{e};
    }
    assert Contents(t) - rest == Contents(t);
  }

  /** With room for q, `insert` adds exactly (newId, q) to what the node stores. */
  lemma InsertStores(t: Octree, newId: int, q: Vec3, fuel: nat)
    requires Valid(t) && newId != -1 && Placeable(t, q, fuel)
    ensures Contents(Insert(t, newId, q, fuel).0) == Contents(t) + multiset{(newId, q)}
  {
    InsertSucceeds(t, newId, q, fuel);
  }

  /**
   * Progress of `insert`: a point inside the box and distinct from every
   * stored point is stored, under newId, by every budget from some bound on.
   */
  lemma InsertEventually(t: Octree, newId: int, q: Vec3) returns (fuel: nat)
    requires Valid(t) && newId != -1 && Inside(q, t.origin, t.halfDimension)
    requires forall e | e in Contents(t) :: Inside(e.1, t.origin, t.halfDimension) && e.1 != q
    ensures forall more | fuel <= more ::
      Contents(Insert(t, newId, q, more).0) == Contents(t) + multiset{(newId, q)}
  {
    fuel := PlaceableEventually(t, q);
    forall more | fuel <= more
      ensures Contents(Insert(t, newId, q, more).0) == Contents(t) + multiset{(newId, q)}
    {
      PlaceableLater(t, q, fuel, more);
      InsertStores(t, newId, q, more);
    }
  }

  /**
   * `insert` stores a point that has room: with q inside the box and every
   * stored point separated from q within `fuel` splits, the result is true.
   */
  lemma {:induction false} InsertSucceeds(t: Octree, newId: int, q: Vec3, fuel: nat)
    requires Valid(t) && newId != -1 && Placeable(t, q, fuel)
    ensures Insert(t, newId, q, fuel).1
    decreases fuel, t, 3
  {
    if !IsLeafNode(t) {
      ForwardSucceeds(t, newId, q, fuel);
    } else if t.id != -1 {
      SplitSucceeds(t, newId, q, fuel);
    }
  }

  /**
   * A full leaf: its point and q lie in one box, so the fuel is not zero;
   * after the split q goes to the child of its octant with one split fewer
   * needed there.
   */
  lemma {:induction false} SplitSucceeds(t: Octree, newId: int, q: Vec3, fuel: nat)
    requires Valid(t) && IsLeafNode(t) && t.id != -1 && newId != -1 && Placeable(t, q, fuel)
    ensures Insert(t, newId, q, fuel).1
    decreases fuel, t, 1
  {
    FuelLeft(t, q, fuel);
    var s := SplitOutcome(t, newId, q, fuel);
    SplitNodeSucceeds(s, newId, q, fuel - 1);
  }

  /** The node a split made stores q with one split fewer. */
  lemma {:induction false} SplitNodeSucceeds(s: Octree, newId: int, q: Vec3, fuel: nat)
    requires Valid(s) && !IsLeafNode(s) && newId != -1 && Placeable(s, q, fuel + 1)
    ensures Insert(s, newId, q, fuel).1
    decreases fuel, s, 3
  {
    PlaceableAfterSplit(s, q, fuel + 1);
    ChildSucceeds(s, newId, q, fuel);
  }

  /** A full leaf with room for q has fuel left. */
  lemma FuelLeft(t: Octree, q: Vec3, fuel: nat)
    requires Valid(t) && IsLeafNode(t) && t.id != -1 && Placeable(t, q, fuel)
    ensures fuel > 0
  {
    LeafContents(t);
    assert (t.id, t.position) in Contents(t);
    if fuel == 0 {
      NotSeparatedInBox(t.origin, t.halfDimension, t.position, q);
      assert false;
    }
  }

  /**
   * At a full leaf `insert` stores the point exactly when the node its
   * split makes does with one split fewer; that node has the same room.
   */
  lemma SplitOutcome(t: Octree, newId: int, q: Vec3, fuel: nat) returns (s: Octree)
    requires Valid(t) && IsLeafNode(t) && t.id != -1 && newId != -1 && fuel > 0 && Placeable(t, q, fuel)
    ensures s == Subdivide(t, fuel)
    ensures Valid(s) && !IsLeafNode(s) && Placeable(s, q, (fuel - 1) + 1)
    ensures Insert(t, newId, q, fuel).1 <==> Insert(s, newId, q, fuel - 1).1
  {
    s := Subdivide(t, fuel);
    assert Insert(t, newId, q, fuel) == SplitInsert(t, newId, q, fuel);
  }

  /** An interior node: q goes to the child of its octant, whose box is smaller, with the same fuel. */
  lemma {:induction false} ForwardSucceeds(t: Octree, newId: int, q: Vec3, fuel: nat)
    requires Valid(t) && !IsLeafNode(t) && newId != -1 && Placeable(t, q, fuel)
    ensures Insert(t, newId, q, fuel).1
    decreases fuel, t, 2
  {
    PlaceableInChild(t, q, fuel);
    ChildSucceeds(t, newId, q, fuel);
  }

  /** An interior node stores q when the child of q's octant has room for it. */
  lemma {:induction false} ChildSucceeds(t: Octree, newId: int, q: Vec3, fuel: nat)
    requires Valid(t) && !IsLeafNode(t) && newId != -1
    requires Valid(t.children[Octant(t.origin, q)].value) && Placeable(t.children[Octant(t.origin, q)].value, q, fuel)
    ensures Insert(t, newId, q, fuel).1
    decreases fuel, t, 0
  {
    InsertSucceeds(t.children[Octant(t.origin, q)].value, newId, q, fuel);
    InsertForwards(t, newId, q, fuel);
  }

  /** Room in an interior node is room in the child of q's octant with the same fuel. */
  lemma PlaceableInChild(t: Octree, q: Vec3, fuel: nat)
    requires Valid(t) && !IsLeafNode(t) && Placeable(t, q, fuel)
    ensures Valid(t.children[Octant(t.origin, q)].value)
    ensures Placeable(t.children[Octant(t.origin, q)].value, q, fuel)
  {
    var h, c := t.halfDimension, Octant(t.origin, q);
    ChildOf(t, c);
    OctantContains(t.origin, h, q);
    var k := t.children[c].value;
    forall e | e in Contents(k)
      ensures Inside(e.1, k.origin, k.halfDimension) && Separated(k.halfDimension, e.1, q, fuel)
    {
      InChild(t, c, e);
      OctantContains(t.origin, h, e.1);
      SeparatedInSmallerBox(h, e.1, q, fuel);
    }
  }

  /** Room for q with `fuel` splits in a node just split is room in the child of q's octant with one split fewer. */
  lemma PlaceableAfterSplit(t: Octree, q: Vec3, fuel: nat)
    requires Valid(t) && !IsLeafNode(t) && fuel > 0 && Placeable(t, q, fuel)
    ensures Valid(t.children[Octant(t.origin, q)].value)
    ensures Placeable(t.children[Octant(t.origin, q)].value, q, fuel - 1)
  {
    var h, c := t.halfDimension, Octant(t.origin, q);
    ChildOf(t, c);
    OctantContains(t.origin, h, q);
    var k := t.children[c].value;
    forall e | e in Contents(k)
      ensures Inside(e.1, k.origin, k.halfDimension) && Separated(k.halfDimension, e.1, q, fuel - 1)
    {
      InChild(t, c, e);
      OctantContains(t.origin, h, e.1);
      SeparatedInChild(h, e.1, q, fuel);
    }
  }

  /**
   * At an interior node `insert` stores the point exactly when the child of
   * its octant does, with the same fuel.
   */
  lemma InsertForwards(t: Octree, newId: int, q: Vec3, fuel: nat)
    requires Valid(t) && !IsLeafNode(t) && newId != -1
    ensures Valid(t.children[Octant(t.origin, q)].value)
    ensures Insert(t, newId, q, fuel).1 <==> Insert(t.children[Octant(t.origin, q)].value, newId, q, fuel).1
  {
    var c := Octant(t.origin, q);
    ChildOf(t, c);
    assert Insert(t, newId, q, fuel) == Forward(t, newId, q, fuel);
  }

  class OctreePoint {
    var position: Vec3

    /** `OctreePoint()`: the position is whatever Vec3's default constructor leaves. */
    constructor Default()
    {
    }

    constructor(position: Vec3)
      ensures this.position == position
    {
      this.position := position;
    }

    function GetPosition(): (p: Vec3)
      reads this
      ensures p == position
    {
      position
    }

    method SetPosition(p: Vec3)
      modifies this
      ensures position == p && GetPosition() == p
    {
      position := p;
    }
  }

}
