/**
 * d3's quadtree, built by inserting points one at a time, its visitor, and the Barnes-Hut sums that the
 * force layout computes over it.  Coordinates are real numbers.
 */
module Quadtree {
  import opened Wrappers

  /** A point as the caller sees it: an object the force layout moves. */
  class Body {
    const index: nat
    var x: real
    var y: real

    constructor (index: nat, x: real, y: real)
      ensures this.index == index && this.x == x && this.y == y
    {
      this.index, this.x, this.y := index, x, y;
    }
  }

  /** A point with the coordinates it was inserted at. */
  datatype Place = Place(body: Body, x: real, y: real)

  datatype Box = Box(x1: real, y1: real, x2: real, y2: real)

  predicate Proper(b: Box) {
    b.x1 <= b.x2 && b.y1 <= b.y2
  }

  predicate Inside(b: Box, p: Place) {
    b.x1 <= p.x <= b.x2 && b.y1 <= p.y <= b.y2
  }

  /** The four quarters are numbered row by row. */
  type Quarter = i: int | 0 <= i < 4 witness 0

  /** The quarter a point is sent to. */
  function Which(b: Box, p: Place): Quarter {
    (if p.y >= (b.y1 + b.y2) * 0.5 then 2 else 0) + (if p.x >= (b.x1 + b.x2) * 0.5 then 1 else 0)
  }

  /** The box of a quarter, as insertion narrows it. */
  function Half(b: Box, i: Quarter): Box {
    var sx, sy := (b.x1 + b.x2) * 0.5, (b.y1 + b.y2) * 0.5;
    Box(if i % 2 == 1 then sx else b.x1, if i >= 2 then sy else b.y1,
        if i % 2 == 1 then b.x2 else sx, if i >= 2 then b.y2 else sy)
  }

  function Apart(p: Place, q: Place): real {
    (if p.x >= q.x then p.x - q.x else q.x - p.x) + (if p.y >= q.y then p.y - q.y else q.y - p.y)
  }

  predicate Coincident(p: Place, q: Place) {
    Apart(p, q) < 0.01
  }

  datatype Tree = Gap | Quad(leaf: bool, place: Option<Place>, nw: Tree, ne: Tree, sw: Tree, se: Tree)

  const BARE := Quad(true, None, Gap, Gap, Gap, Gap)

  function Kid(t: Tree, i: Quarter): (k: Tree)
    requires t.Quad?
    ensures k < t
  {
    if i == 0 then t.nw else if i == 1 then t.ne else if i == 2 then t.sw else t.se
  }

  function WithKid(t: Tree, i: Quarter, k: Tree): (r: Tree)
    requires t.Quad?
    ensures r.Quad?
  {
    if i == 0 then t.(nw := k) else if i == 1 then t.(ne := k) else if i == 2 then t.(sw := k) else t.(se := k)
  }

  function Own(place: Option<Place>): multiset<Place> {
    if place.None? then multiset{} else multiset{place.value}
  }

  /** All the points of a tree, with repetitions. */
  function Places(t: Tree): multiset<Place> {
    if t.Gap? then multiset{} else Join(Own(t.place), Places(t.nw), Places(t.ne), Places(t.sw), Places(t.se))
  }

  function Join<T>(own: multiset<T>, a: multiset<T>, b: multiset<T>, c: multiset<T>, d: multiset<T>): multiset<T> {
    own + a + b + c + d
  }

  /** Every point lies in the box of its node, and leaves have no children. */
  predicate Fits(t: Tree, b: Box) {
    t.Quad? ==>
      && (t.leaf ==> t.nw.Gap? && t.ne.Gap? && t.sw.Gap? && t.se.Gap?)
      && (t.place.Some? ==> Inside(b, t.place.value))
      && Fits(t.nw, Half(b, 0)) && Fits(t.ne, Half(b, 1)) && Fits(t.sw, Half(b, 2)) && Fits(t.se, Half(b, 3))
  }

  /** Every point below a node lies in the quarter it is sent to. */
  ghost predicate Routed(t: Tree, b: Box) {
    t.Quad? ==>
      && Routed(t.nw, Half(b, 0)) && Routed(t.ne, Half(b, 1)) && Routed(t.sw, Half(b, 2)) && Routed(t.se, Half(b, 3))
      && forall i: Quarter, p :: p in Places(Kid(t, i)) ==> Which(b, p) == i
  }

  /**
   * Leaves have no children and the other nodes have at least one, which is never empty.  An inner node has
   * a point of its own only if one of those below coincides with it.
   */
  ghost predicate Shaped(t: Tree) {
    t.Quad? ==>
      && Shaped(t.nw) && Shaped(t.ne) && Shaped(t.sw) && Shaped(t.se)
      && (forall i: Quarter :: Kid(t, i).Quad? ==> Kid(t, i) != BARE)
      && (t.leaf <==> t.nw.Gap? && t.ne.Gap? && t.sw.Gap? && t.se.Gap?)
      && (!t.leaf && t.place.Some? ==> exists q :: q in Below(t) && Coincident(t.place.value, q))
  }

  function Below(t: Tree): multiset<Place>
    requires t.Quad?
  {
    Join(multiset{}, Places(t.nw), Places(t.ne), Places(t.sw), Places(t.se))
  }

  /** Leaves have no children. */
  predicate Leafy(t: Tree) {
    t.Quad? ==>
      && (t.leaf ==> t.nw.Gap? && t.ne.Gap? && t.sw.Gap? && t.se.Gap?)
      && Leafy(t.nw) && Leafy(t.ne) && Leafy(t.sw) && Leafy(t.se)
  }

  /** The point of an interval that is nearest to `x`; an interval upside down holds none. */
  function Clamp(x: real, low: real, high: real): real {
    if low > high then 0.0 else if x < low then low else if x > high then high else x
  }

  /** The length of an interval. */
  function Side(low: real, high: real): real {
    if low > high then 0.0 else high - low
  }

  function Room(b: Box): real {
    Side(b.x1, b.x2) + Side(b.y1, b.y2)
  }

  /** The point of the box that is nearest to a point. */
  function Clamped(b: Box, p: Place): (real, real) {
    (Clamp(p.x, b.x1, b.x2), Clamp(p.y, b.y1, b.y2))
  }

  /** No halving of the box will ever tell the two points apart. */
  predicate Together(b: Box, p: Place, q: Place) {
    Clamped(b, p) == Clamped(b, q) && Which(b, p) == Which(b, q)
  }

  function Abs(x: real): real {
    if x < 0.0 then -x else x
  }

  /** How far the two points are apart in the box. */
  function Gulf(b: Box, p: Place, q: Place): real {
    Abs(Clamp(p.x, b.x1, b.x2) - Clamp(q.x, b.x1, b.x2)) + Abs(Clamp(p.y, b.y1, b.y2) - Clamp(q.y, b.y1, b.y2))
  }

  /** A bound on how often the box must be halved before the two points are sent to different quarters. */
  function Turns(b: Box, p: Place, q: Place): nat
  {
    if Which(b, p) != Which(b, q) || Gulf(b, p, q) <= 0.0 then 0
    else
      Ratio(Room(b), Gulf(b, p, q));
      (Room(b) / Gulf(b, p, q)).Floor
  }

  lemma Ratio(a: real, b: real)
    requires a >= 0.0 && b > 0.0
    ensures a / b >= 0.0
  {
  }

  lemma ClampedHalf(b: Box, p: Place)
    ensures var h := Half(b, Which(b, p)); Clamped(h, p) == Clamped(b, p)
  {
  }

  /** While two points stay together in a quarter, what will tell them apart stays the same, in half the room. */
  lemma TogetherHalf(b: Box, p: Place, q: Place)
    requires Which(b, p) == Which(b, q)
    ensures var h := Half(b, Which(b, p));
      && (Together(b, p, q) <==> Together(h, p, q)) && Gulf(h, p, q) == Gulf(b, p, q)
      && Room(h) == Room(b) * 0.5
  {
    ClampedHalf(b, p);
    ClampedHalf(b, q);
  }

  lemma GulfPositive(b: Box, p: Place, q: Place)
    ensures Gulf(b, p, q) > 0.0 <==> Clamped(b, p) != Clamped(b, q)
    ensures 0.0 <= Gulf(b, p, q) <= Room(b)
  {
  }

  lemma HalfFloor(room: real, gulf: real)
    requires 0.0 < gulf <= room
    ensures 0 <= (room * 0.5 / gulf).Floor < (room / gulf).Floor
  {
    assert room / gulf >= 1.0;
    assert room * 0.5 / gulf == room / gulf * 0.5;
  }

  lemma FewerTurns(b: Box, p: Place, q: Place)
    requires Which(b, p) == Which(b, q) && !Together(b, p, q)
    ensures var h := Half(b, Which(b, p)); !Together(h, p, q) && Turns(h, p, q) < Turns(b, p, q)
  {
    TogetherHalf(b, p, q);
    GulfPositive(b, p, q);
    HalfFloor(Room(b), Gulf(b, p, q));
  }

  /** The descent of a point ends: at the leaf it comes to, there is no point that it can never be told apart from. */
  predicate Ends(t: Tree, p: Place, b: Box) {
    t.Quad? ==>
      if t.leaf then t.place.None? || Coincident(t.place.value, p) || !Together(b, t.place.value, p)
      else Ends(Kid(t, Which(b, p)), p, Half(b, Which(b, p)))
  }

  /** What insertion needs. */
  predicate Insertable(t: Tree, p: Place, b: Box) {
    t.Quad? && Leafy(t) && Ends(t, p, b)
  }

  predicate InsertableBelow(t: Tree, p: Place, b: Box) {
    t.Quad? && Leafy(t) && Ends(Kid(t, Which(b, p)), p, Half(b, Which(b, p)))
  }

  /** How much the insertion still has to do. */
  function Work(t: Tree, p: Place, b: Box): nat
  {
    if t.Gap? then 0
    else if !t.leaf then (ClampedHalf(b, p); 1 + Work(Kid(t, Which(b, p)), p, Half(b, Which(b, p))))
    else if t.place.None? then 0
    else if Coincident(t.place.value, p) then 1
    else 2 + Turns(b, t.place.value, p)
  }

  lemma InsertableChild(t: Tree, p: Place, b: Box)
    requires InsertableBelow(t, p, b)
    ensures var i := Which(b, p); Insertable(Opened(Kid(t, i)), p, Half(b, i))
    ensures var i := Which(b, p); Work(Opened(Kid(t, i)), p, Half(b, i)) == Work(Kid(t, i), p, Half(b, i))
  {
    ClampedHalf(b, p);
  }

  /** An inner node, or a leaf whose point coincides with the new one, sends it on. */
  lemma SentOn(t: Tree, p: Place, b: Box)
    requires Insertable(t, p, b) && (t.leaf ==> t.place.Some? && Coincident(t.place.value, p))
    ensures InsertableBelow(t, p, b) && Work(Kid(t, Which(b, p)), p, Half(b, Which(b, p))) < Work(t, p, b)
  {
    ClampedHalf(b, p);
  }

  /** A leaf with a point at a distance sends on its own point first, and then the new one. */
  lemma Split(t: Tree, p: Place, b: Box, r: Tree)
    requires Insertable(t, p, b) && t.leaf && t.place.Some? && !Coincident(t.place.value, p)
    ensures var q := t.place.value;
      && InsertableBelow(t.(place := None), q, b)
      && Work(Kid(t.(place := None), Which(b, q)), q, Half(b, Which(b, q))) == 0 < Work(t, p, b)
      && (r == OnlyChild(t.(place := None), q, b) ==>
            InsertableBelow(r, p, b) && Work(Kid(r, Which(b, p)), p, Half(b, Which(b, p))) < Work(t, p, b))
  {
    var q := t.place.value;
    ClampedHalf(b, p);
    ClampedHalf(b, q);
    if Which(b, p) == Which(b, q) { FewerTurns(b, q, p); }
  }

  /** A leaf without point after a point was sent on from it. */
  function OnlyChild(t: Tree, q: Place, b: Box): (r: Tree)
    requires t.Quad?
  {
    WithKid(t.(leaf := false), Which(b, q), BARE.(place := Some(q)))
  }

  /** `insert`: what becomes of a node when a point is inserted. */
  function Inserted(t: Tree, p: Place, b: Box): (r: Tree)
    requires Insertable(t, p, b)
    ensures r.Quad? && Leafy(r) && (t == BARE ==> r == BARE.(place := Some(p)))
    decreases Work(t, p, b), 1
  {
    if !t.leaf then
      SentOn(t, p, b);
      InsertedChild(t, p, b)
    else if t.place.None? then t.(place := Some(p))
    else if Coincident(t.place.value, p) then
      SentOn(t, p, b);
      InsertedChild(t, p, b)
    else
      var q := t.place.value;
      Split(t, p, b, BARE);
      var r := InsertedChild(t.(place := None), q, b);
      Split(t, p, b, r);
      InsertedChild(r, p, b)
  }

  function InsertedChild(t: Tree, p: Place, b: Box): (r: Tree)
    requires InsertableBelow(t, p, b)
    ensures r.Quad? && Leafy(r) && (t.leaf ==> r == OnlyChild(t, p, b))
    decreases Work(Kid(t, Which(b, p)), p, Half(b, Which(b, p))), 2
  {
    InsertableChild(t, p, b);
    var i := Which(b, p);
    WithKid(t.(leaf := false), i, Inserted(Opened(Kid(t, i)), p, Half(b, i)))
  }

  /** A missing child is created when a point is sent to it. */
  function Opened(t: Tree): (r: Tree)
    ensures r.Quad?
  {
    if t.Gap? then BARE else t
  }

  /** The points of a node, those below one child apart from the others. */
  lemma Unfolded(t: Tree)
    requires t.Quad?
    ensures Below(t) == Join(multiset{}, Places(t.nw), Places(t.ne), Places(t.sw), Places(t.se))
    ensures Places(t) == Join(Own(t.place), Places(t.nw), Places(t.ne), Places(t.sw), Places(t.se))
  {
  }

  lemma Replaced(t: Tree, i: Quarter, k: Tree)
    requires t.Quad?
    ensures var r := WithKid(t.(leaf := false), i, k);
      && r.Quad? && r.place == t.place
      && r.nw == (if i == 0 then k else t.nw) && r.ne == (if i == 1 then k else t.ne)
      && r.sw == (if i == 2 then k else t.sw) && r.se == (if i == 3 then k else t.se)
    ensures Kid(t, i) == if i == 0 then t.nw else if i == 1 then t.ne else if i == 2 then t.sw else t.se
  {
  }

  lemma OpenedPlaces(t: Tree)
    ensures Places(Opened(t)) == Places(t)
  {
  }

  /** The cases of insertion: a free leaf, a node that sends the point on, and a leaf that splits. */
  lemma InsertedIs(t: Tree, p: Place, b: Box)
    requires Insertable(t, p, b)
    ensures t.Quad?
    ensures t.leaf && t.place.None? ==> Inserted(t, p, b) == t.(place := Some(p))
    ensures !t.leaf || (t.place.Some? && Coincident(t.place.value, p)) ==>
              InsertableBelow(t, p, b) && Inserted(t, p, b) == InsertedChild(t, p, b)
    ensures t.leaf && t.place.Some? && !Coincident(t.place.value, p) ==>
              var q := t.place.value;
              && InsertableBelow(t.(place := None), q, b)
              && InsertableBelow(InsertedChild(t.(place := None), q, b), p, b)
              && Inserted(t, p, b) == InsertedChild(InsertedChild(t.(place := None), q, b), p, b)
  {
    hide InsertedChild, InsertableBelow, Ends, Leafy, Work;
    if !t.leaf || (t.place.Some? && Coincident(t.place.value, p)) {
      SentOn(t, p, b);
    } else if t.place.Some? {
      Split(t, p, b, BARE);
      SplitChild(t, p, b);
    }
  }

  lemma SplitChild(t: Tree, p: Place, b: Box)
    requires Insertable(t, p, b) && t.leaf && t.place.Some? && !Coincident(t.place.value, p)
    ensures InsertableBelow(t.(place := None), t.place.value, b)
    ensures var r := InsertedChild(t.(place := None), t.place.value, b);
      && InsertableBelow(r, p, b) && Work(Kid(r, Which(b, p)), p, Half(b, Which(b, p))) < Work(t, p, b)
  {
    Split(t, p, b, BARE);
    Split(t, p, b, InsertedChild(t.(place := None), t.place.value, b));
  }

  lemma PlacesWith(t: Tree, p: Place)
    requires t.Quad? && t.place.None?
    ensures Places(t.(place := Some(p))) == Places(t) + multiset{p}
  {
  }

  /** No point is lost, and none is stored twice. */
  lemma {:induction false} InsertKeeps(t: Tree, p: Place, b: Box)
    requires Insertable(t, p, b)
    ensures Places(Inserted(t, p, b)) == Places(t) + multiset{p}
    decreases Work(t, p, b), 1
  {
    hide *;
    InsertedIs(t, p, b);
    if !t.leaf || (t.place.Some? && Coincident(t.place.value, p)) {
      SentOn(t, p, b);
      InsertChildKeeps(t, p, b);
    } else if t.place.None? {
      PlacesWith(t, p);
    } else {
      var q, bare := t.place.value, t.(place := None);
      Split(t, p, b, BARE);
      SplitChild(t, p, b);
      InsertChildKeeps(bare, q, b);
      InsertChildKeeps(InsertedChild(bare, q, b), p, b);
      PlacesWith(bare, q);
      assert bare.(place := Some(q)) == t;
    }
  }

  lemma {:induction false} InsertChildKeeps(t: Tree, p: Place, b: Box)
    requires InsertableBelow(t, p, b)
    ensures Places(InsertedChild(t, p, b)) == Places(t) + multiset{p}
      && Below(InsertedChild(t, p, b)) == Below(t) + multiset{p}
    decreases Work(Kid(t, Which(b, p)), p, Half(b, Which(b, p))), 2
  {
    InsertableChild(t, p, b);
    var i := Which(b, p);
    InsertKeeps(Opened(Kid(t, i)), p, Half(b, i));
    WithKidKeeps(t, i, Inserted(Opened(Kid(t, i)), p, Half(b, i)), p);
  }

  lemma WithKidKeeps(t: Tree, i: Quarter, k: Tree, p: Place)
    requires t.Quad? && Places(k) == Places(Opened(Kid(t, i))) + multiset{p}
    ensures var r := WithKid(t.(leaf := false), i, k);
      Places(r) == Places(t) + multiset{p} && Below(r) == Below(t) + multiset{p}
  {
    hide *;
    OpenedPlaces(Kid(t, i));
    Replaced(t, i, k);
    Unfolded(t);
    Unfolded(WithKid(t.(leaf := false), i, k));
    OneMore(multiset{}, Places(t.nw), Places(t.ne), Places(t.sw), Places(t.se), p);
    OneMore(Own(t.place), Places(t.nw), Places(t.ne), Places(t.sw), Places(t.se), p);
  }

  lemma OneMore<T>(o: multiset<T>, a: multiset<T>, b: multiset<T>, c: multiset<T>, d: multiset<T>, p: T)
    ensures var more := Join(o, a, b, c, d) + multiset{p};
      && Join(o, a + multiset{p}, b, c, d) == more
      && Join(o, a, b + multiset{p}, c, d) == more
      && Join(o, a, b, c + multiset{p}, d) == more
      && Join(o, a, b, c, d + multiset{p}) == more
  {
  }

  lemma {:induction false} InsertRouted(t: Tree, p: Place, b: Box)
    requires Insertable(t, p, b) && Routed(t, b)
    ensures Routed(Inserted(t, p, b), b)
    decreases Work(t, p, b), 1
  {
    if !t.leaf {
      SentOn(t, p, b);
      InsertChildRouted(t, p, b);
    } else if t.place.Some? {
      var q := t.place.value;
      if Coincident(q, p) {
        SentOn(t, p, b);
        InsertChildRouted(t, p, b);
      } else {
        Split(t, p, b, BARE);
        InsertChildRouted(t.(place := None), q, b);
        var r := InsertedChild(t.(place := None), q, b);
        Split(t, p, b, r);
        InsertChildRouted(r, p, b);
      }
    }
  }

  lemma {:induction false} InsertChildRouted(t: Tree, p: Place, b: Box)
    requires InsertableBelow(t, p, b) && Routed(t, b)
    ensures Routed(InsertedChild(t, p, b), b)
    decreases Work(Kid(t, Which(b, p)), p, Half(b, Which(b, p))), 2
  {
    InsertableChild(t, p, b);
    var i := Which(b, p);
    KidRouted(t, b, i);
    InsertRouted(Opened(Kid(t, i)), p, Half(b, i));
    InsertKeeps(Opened(Kid(t, i)), p, Half(b, i));
    WithKidRouted(t, b, i, Inserted(Opened(Kid(t, i)), p, Half(b, i)));
  }

  lemma KidRouted(t: Tree, b: Box, i: Quarter)
    requires t.Quad? && Routed(t, b)
    ensures Routed(Opened(Kid(t, i)), Half(b, i))
    ensures forall q :: q in Places(Opened(Kid(t, i))) ==> Which(b, q) == i
  {
    assert forall q :: q in Places(Kid(t, i)) ==> Which(b, q) == i;
  }

  lemma WithKidRouted(t: Tree, b: Box, i: Quarter, k: Tree)
    requires t.Quad? && Routed(t, b) && Routed(k, Half(b, i)) && forall q :: q in Places(k) ==> Which(b, q) == i
    ensures Routed(WithKid(t.(leaf := false), i, k), b)
  {
    hide Places, Which, Half, WithKid;
    Replaced(t, i, k);
    var r := WithKid(t.(leaf := false), i, k);
    forall j: Quarter, q | q in Places(Kid(r, j))
      ensures Which(b, q) == j
    {
      if j != i { assert Kid(r, j) == Kid(t, j); }
    }
  }

  lemma {:induction false} InsertShaped(t: Tree, p: Place, b: Box)
    requires Insertable(t, p, b) && Shaped(t)
    ensures Shaped(Inserted(t, p, b)) && Inserted(t, p, b) != BARE
    decreases Work(t, p, b), 1
  {
    if !t.leaf {
      SentOn(t, p, b);
      InsertChildShaped(t, p, b);
    } else if t.place.Some? {
      var q := t.place.value;
      if Coincident(q, p) {
        SentOn(t, p, b);
        InsertChildShaped(t, p, b);
      } else {
        Split(t, p, b, BARE);
        InsertChildShaped(t.(place := None), q, b);
        var r := InsertedChild(t.(place := None), q, b);
        Split(t, p, b, r);
        InsertChildShaped(r, p, b);
      }
    }
  }

  lemma {:induction false} InsertChildShaped(t: Tree, p: Place, b: Box)
    requires InsertableBelow(t, p, b) && Shaped(t)
    requires t.leaf && t.place.Some? ==> Coincident(t.place.value, p)
    ensures Shaped(InsertedChild(t, p, b)) && !InsertedChild(t, p, b).leaf
    decreases Work(Kid(t, Which(b, p)), p, Half(b, Which(b, p))), 2
  {
    InsertableChild(t, p, b);
    var i := Which(b, p);
    var k := Inserted(Opened(Kid(t, i)), p, Half(b, i));
    KidShaped(t, i);
    InsertShaped(Opened(Kid(t, i)), p, Half(b, i));
    InsertKeeps(Opened(Kid(t, i)), p, Half(b, i));
    WithKidKeeps(t, i, k, p);
    WithKidShaped(t, i, k, p);
  }

  lemma KidShaped(t: Tree, i: Quarter)
    requires t.Quad? && Shaped(t)
    ensures Shaped(Opened(Kid(t, i)))
  {
  }

  lemma WithKidShaped(t: Tree, i: Quarter, k: Tree, p: Place)
    requires t.Quad? && Shaped(t) && Shaped(k) && k.Quad? && k != BARE
    requires t.leaf && t.place.Some? ==> Coincident(t.place.value, p)
    requires Below(WithKid(t.(leaf := false), i, k)) == Below(t) + multiset{p}
    ensures Shaped(WithKid(t.(leaf := false), i, k))
  {
    hide Coincident, Below;
    var r := WithKid(t.(leaf := false), i, k);
    if t.place.Some? {
      if t.leaf {
        assert p in Below(r);
      } else {
        var q :| q in Below(t) && Coincident(t.place.value, q);
        assert q in Below(r);
      }
    }
    forall j: Quarter | Kid(r, j).Quad?
      ensures Kid(r, j) != BARE
    {
      if j != i { assert Kid(r, j) == Kid(t, j); }
    }
  }

  /** The box a point has been sent to after some turns. */
  function Descend(b: Box, p: Place, depth: nat): Box
    decreases depth
  {
    if depth == 0 then b else Descend(Half(b, Which(b, p)), p, depth - 1)
  }

  /** The quarter a point is sent to at some depth. */
  function Turn(b: Box, p: Place, depth: nat): Quarter {
    Which(Descend(b, p, depth), p)
  }

  lemma {:induction false} TogetherTurns(b: Box, p: Place, q: Place, depth: nat)
    requires Together(b, p, q)
    ensures Turn(b, p, depth) == Turn(b, q, depth)
    decreases depth
  {
    if depth > 0 {
      TogetherHalf(b, p, q);
      TogetherTurns(Half(b, Which(b, p)), p, q, depth - 1);
    }
  }

  lemma {:induction false} ApartTurns(b: Box, p: Place, q: Place) returns (depth: nat)
    requires !Together(b, p, q)
    ensures Turn(b, p, depth) != Turn(b, q, depth)
    decreases Turns(b, p, q)
  {
    depth := 0;
    if Which(b, p) == Which(b, q) {
      FewerTurns(b, p, q);
      depth := ApartTurns(Half(b, Which(b, p)), p, q);
      depth := depth + 1;
    }
  }

  /**
   * Two points are never separated if and only if they are together; in a box with positive sides, that is if
   * and only if the same point of the box is nearest to both, and in a box upside down, if and only if they are sent
   * to the same quarter of it.
   */
  lemma NeverSeparated(b: Box, p: Place, q: Place)
    ensures (forall depth: nat :: Turn(b, p, depth) == Turn(b, q, depth)) <==> Together(b, p, q)
    ensures b.x1 < b.x2 && b.y1 < b.y2 ==> (Together(b, p, q) <==> Clamped(b, p) == Clamped(b, q))
    ensures b.x1 > b.x2 && b.y1 > b.y2 ==> (Together(b, p, q) <==> Which(b, p) == Which(b, q))
  {
    hide Turn;
    if Together(b, p, q) {
      forall depth: nat
        ensures Turn(b, p, depth) == Turn(b, q, depth)
      {
        TogetherTurns(b, p, q, depth);
      }
    } else {
      var depth := ApartTurns(b, p, q);
    }
  }

  /**
   * Where the descent of a point does not end: the leaf it comes to holds a point that does not coincide with it,
   * and that is sent with it to the same quarter at every depth.
   */
  lemma {:induction false} NeverEnds(t: Tree, p: Place, b: Box) returns (q: Place, box: Box)
    requires t.Quad? && !Ends(t, p, b) && Routed(t, b)
    ensures q in Places(t) && !Coincident(q, p) && Together(b, q, p)
    ensures forall depth: nat :: Turn(box, q, depth) == Turn(box, p, depth)
    decreases t
  {
    if t.leaf {
      q, box := t.place.value, b;
      NeverSeparated(b, q, p);
    } else {
      var i := Which(b, p);
      ClampedHalf(b, p);
      q, box := NeverEnds(Kid(t, i), p, Half(b, i));
      KidRouted(t, b, i);
      assert q in Places(Kid(t, i));
      TogetherHalf(b, q, p);
      KidIn(t, i, q);
    }
  }

  /** There the code splits the leaf, only to meet the same leaf with the same two points in half the box. */
  lemma SplitsForever(t: Tree, p: Place, b: Box)
    requires t.Quad? && t.leaf && !Ends(t, p, b)
    ensures
      var q, i := t.place.value, Which(b, p);
      var r := OnlyChild(t.(place := None), q, b);
      Kid(r, i) == BARE.(place := Some(q)) && !Ends(Kid(r, i), p, Half(b, i))
  {
    TogetherHalf(b, t.place.value, p);
  }

  /** `insert`, given up after so many nested calls. */
  function Tried(t: Tree, p: Place, b: Box, calls: nat): (r: Option<Tree>)
    requires t.Quad?
    ensures r.Some? ==> r.value.Quad?
    decreases calls, 1
  {
    if calls == 0 then None
    else if !t.leaf then TriedChild(t, p, b, calls - 1)
    else if t.place.None? then Some(t.(place := Some(p)))
    else if Coincident(t.place.value, p) then TriedChild(t, p, b, calls - 1)
    else
      var r := TriedChild(t.(place := None), t.place.value, b, calls - 1);
      if r.None? then None else TriedChild(r.value, p, b, calls - 1)
  }

  function TriedChild(t: Tree, p: Place, b: Box, calls: nat): (r: Option<Tree>)
    requires t.Quad?
    ensures r.Some? ==> r.value.Quad?
    decreases calls, 2
  {
    var i := Which(b, p);
    var r := Tried(Opened(Kid(t, i)), p, Half(b, i), calls);
    if r.None? then None else Some(WithKid(t.(leaf := false), i, r.value))
  }

  /** Insertion ends, with the tree specified, if and only if the descent of the point ends. */
  lemma InsertionEnds(t: Tree, p: Place, b: Box)
    requires t.Quad? && Leafy(t)
    ensures Ends(t, p, b) ==> exists calls: nat :: Tried(t, p, b, calls) == Some(Inserted(t, p, b))
    ensures !Ends(t, p, b) ==> forall calls: nat :: Tried(t, p, b, calls) == None
  {
    hide Tried, Ends, Inserted, Leafy;
    if Ends(t, p, b) {
      EnoughCalls(t, p, b, Work(t, p, b) + 1);
    } else {
      forall calls: nat
        ensures Tried(t, p, b, calls) == None
      {
        TriedInVain(t, p, b, calls);
      }
    }
  }

  /** So many nested calls suffice. */
  lemma {:induction false} EnoughCalls(t: Tree, p: Place, b: Box, calls: nat)
    requires Insertable(t, p, b) && calls > Work(t, p, b)
    ensures Tried(t, p, b, calls) == Some(Inserted(t, p, b))
    decreases calls, 1
  {
    if !t.leaf {
      SentOn(t, p, b);
      EnoughCallsBelow(t, p, b, calls - 1);
    } else if t.place.Some? {
      var q := t.place.value;
      if Coincident(q, p) {
        SentOn(t, p, b);
        EnoughCallsBelow(t, p, b, calls - 1);
      } else {
        Split(t, p, b, BARE);
        EnoughCallsBelow(t.(place := None), q, b, calls - 1);
        var r := InsertedChild(t.(place := None), q, b);
        Split(t, p, b, r);
        EnoughCallsBelow(r, p, b, calls - 1);
      }
    }
  }

  lemma {:induction false} EnoughCallsBelow(t: Tree, p: Place, b: Box, calls: nat)
    requires InsertableBelow(t, p, b) && calls > Work(Kid(t, Which(b, p)), p, Half(b, Which(b, p)))
    ensures TriedChild(t, p, b, calls) == Some(InsertedChild(t, p, b))
    decreases calls, 2
  {
    InsertableChild(t, p, b);
    var i := Which(b, p);
    EnoughCalls(Opened(Kid(t, i)), p, Half(b, i), calls);
  }

  /** No number of nested calls suffices. */
  lemma {:induction false} TriedInVain(t: Tree, p: Place, b: Box, calls: nat)
    requires t.Quad? && Leafy(t) && !Ends(t, p, b)
    ensures Tried(t, p, b, calls) == None
    decreases calls
  {
    if calls > 0 {
      var i := Which(b, p);
      ClampedHalf(b, p);
      if t.leaf {
        var q := t.place.value;
        TogetherHalf(b, q, p);
        SplitsForever(t, p, b);
        var r := TriedChild(t.(place := None), q, b, calls - 1);
        TriedOnce(t.(place := None), q, b, calls - 1);
        if r.Some? { TriedInVain(Kid(r.value, i), p, Half(b, i), calls - 1); }
      } else {
        TriedInVain(Kid(t, i), p, Half(b, i), calls - 1);
      }
    }
  }

  lemma TriedOnce(t: Tree, q: Place, b: Box, calls: nat)
    requires t.Quad? && t.leaf && Leafy(t)
    ensures var r := TriedChild(t, q, b, calls); r.Some? ==> r.value == OnlyChild(t, q, b)
  {
    var i := Which(b, q);
    assert Opened(Kid(t, i)) == BARE;
    if calls > 0 { assert Tried(BARE, q, Half(b, i), calls) == Some(BARE.(place := Some(q))); }
  }

  lemma KidIn(t: Tree, i: Quarter, q: Place)
    requires t.Quad? && q in Places(Kid(t, i))
    ensures q in Places(t)
  {
  }

  /** So it ends if every point of the tree that is together with the new one coincides with it. */
  lemma EndsIfApart(t: Tree, p: Place, b: Box)
    requires Routed(t, b) && forall q :: q in Places(t) && Together(b, q, p) ==> Coincident(q, p)
    ensures Ends(t, p, b)
  {
    if !Ends(t, p, b) {
      var q, box := NeverEnds(t, p, b);
    }
  }

  /** Points inside a box are together only where they are equal. */
  lemma InsideApart(b: Box, p: Place, q: Place)
    requires Inside(b, p) && Inside(b, q) && Together(b, p, q)
    ensures Coincident(p, q)
  {
  }

  /** If all points are inside the box, every point lies in the box of its node. */
  lemma {:induction false} FitsInside(t: Tree, b: Box)
    requires Leafy(t) && Routed(t, b) && forall p :: p in Places(t) ==> Inside(b, p)
    ensures Fits(t, b)
    decreases t
  {
    if t.Quad? {
      forall i: Quarter
        ensures Fits(Kid(t, i), Half(b, i))
      {
        forall p | p in Places(Kid(t, i))
          ensures Inside(Half(b, i), p)
        {
          KidIn(t, i, p);
          assert Which(b, p) == i;
        }
        FitsInside(Kid(t, i), Half(b, i));
      }
      assert Kid(t, 0) == t.nw && Kid(t, 1) == t.ne && Kid(t, 2) == t.sw && Kid(t, 3) == t.se;
      if t.place.Some? { assert t.place.value in Places(t); }
    }
  }

  /** A child is missing where the tree has a gap; otherwise its part of the objects makes up that part of the tree. */
  ghost predicate Holds(n: Node?, t: Tree, b: Box, part: set<Node>)
    reads part`repr, part`parts, part`leaf, part`nodes, part`place, part`tree, part`box
    decreases part, 2
  {
    if n == null then t.Gap? && part == {} else n in part && n.repr == part && n.tree == t && n.box == b && n.Valid()
  }

  function Union(parts: seq<set<Node>>): set<Node>
    requires |parts| == 4
  {
    parts[0] + parts[1] + parts[2] + parts[3]
  }

  predicate Disjoint(parts: seq<set<Node>>)
    requires |parts| == 4
  {
    forall i: Quarter, j: Quarter :: i != j ==> parts[i] !! parts[j]
  }

  class Node {
    var leaf: bool
    var nodes: seq<Node?>
    var place: Option<Place>
    var charge: real // the sums of `d3_layout_forceAccumulate`
    var pointCharge: real
    var cx: Option<real>
    var cy: Option<real>
    ghost var repr: set<Node>
    ghost var parts: seq<set<Node>> // the part of each child
    ghost var tree: Tree
    ghost var box: Box // the box the node was created for

    /** The node and those below it are distinct objects that make up the tree, each with its quarter of the box. */
    ghost predicate Valid()
      reads this`repr, this`parts, this`leaf, this`nodes, this`place, this`tree, this`box
      reads repr`repr, repr`parts, repr`leaf, repr`nodes, repr`place, repr`tree, repr`box
      decreases repr, 1
    {
      && tree.Quad? && tree.leaf == leaf && tree.place == place && |nodes| == |parts| == 4
      && Disjoint(parts) && this !in Union(parts) && repr == Union(parts) + {this}
      && (forall i: Quarter :: parts[i] < repr && Holds(nodes[i], Kid(tree, i), Half(box, i), parts[i]))
    }

    constructor (ghost b: Box)
      ensures Valid() && fresh(repr) && tree == BARE && box == b
    {
      leaf, nodes, place := true, [null, null, null, null], None;
      repr, parts, tree, box := {this}, [{}, {}, {}, {}], BARE, b;
    }

    /** The nodes a visit reaches if the callback says true exactly at `stop`. */
    ghost function Reached(stop: set<Node>): (r: set<Node>)
      requires Valid()
      reads this`repr, this`parts, this`leaf, this`nodes, this`place, this`tree, this`box
      reads repr`repr, repr`parts, repr`leaf, repr`nodes, repr`place, repr`tree, repr`box
      ensures r <= repr && (stop !! repr ==> r == repr)
      decreases repr, 1
    {
      if this in stop then {this} else {this} + Turn(0, stop) + Turn(1, stop) + Turn(2, stop) + Turn(3, stop)
    }

    ghost function Turn(i: Quarter, stop: set<Node>): (r: set<Node>)
      requires Valid()
      reads this`repr, this`parts, this`leaf, this`nodes, this`place, this`tree, this`box
      reads repr`repr, repr`parts, repr`leaf, repr`nodes, repr`place, repr`tree, repr`box
      ensures r <= parts[i] && (stop !! parts[i] ==> r == parts[i])
      decreases repr, 0
    {
      ReachedAt(nodes[i], Kid(tree, i), Half(box, i), parts[i], stop)
    }

    lemma TurnsApart(stop: set<Node>)
      requires Valid()
      ensures forall i: Quarter :: this !in Turn(i, stop)
      ensures forall i: Quarter, j: Quarter :: i != j ==> Turn(i, stop) !! Turn(j, stop)
    {
    }

    /** `d3_geom_quadtreeVisit`, with a callback that says true exactly at `stop`. */
    method Visit(b: Box, stop: set<Node>) returns (log: seq<(Node, Box)>)
      requires Valid() && b == box
      ensures Logged(log, Reached(stop))
      decreases repr, 1
    {
      hide Node.Valid, Node.Turn, Logged, Half;
      log := [(this, b)];
      LoggedOne(this, b);
      if this !in stop {
        TurnsApart(stop);
        Halves(b);
        var sx, sy := (b.x1 + b.x2) * 0.5, (b.y1 + b.y2) * 0.5;
        ghost var seen := {this};
        log := VisitChild(log, seen, 0, Box(b.x1, b.y1, sx, sy), stop);
        seen := seen + Turn(0, stop);
        log := VisitChild(log, seen, 1, Box(sx, b.y1, b.x2, sy), stop);
        seen := seen + Turn(1, stop);
        log := VisitChild(log, seen, 2, Box(b.x1, sy, sx, b.y2), stop);
        seen := seen + Turn(2, stop);
        log := VisitChild(log, seen, 3, Box(sx, sy, b.x2, b.y2), stop);
      }
    }

    method VisitChild(before: seq<(Node, Box)>, ghost seen: set<Node>, i: Quarter, b: Box, stop: set<Node>)
        returns (log: seq<(Node, Box)>)
      requires Valid() && b == Half(box, i) && Logged(before, seen) && seen !! Turn(i, stop)
      ensures Logged(log, seen + Turn(i, stop))
      decreases repr, 0
    {
      hide Logged, Half, Node.Turn, Node.Reached;
      log := before;
      Turning(i, stop);
      if nodes[i] != null {
        var more := nodes[i].Visit(b, stop);
        LoggedJoin(log, seen, more, Turn(i, stop));
        log := log + more;
      } else {
        assert seen + Turn(i, stop) == seen;
      }
    }

    lemma Turning(i: Quarter, stop: set<Node>)
      requires Valid()
      ensures nodes[i] == null ==> Turn(i, stop) == {}
      ensures nodes[i] != null ==>
        nodes[i].Valid() && nodes[i].box == Half(box, i) && nodes[i].repr < repr
        && Turn(i, stop) == nodes[i].Reached(stop)
    {
    }

    /** The sums are right here and everywhere below. */
    ghost predicate Settled(w: Tick)
      requires Valid()
      reads this, repr, Movers(tree)
      decreases repr, 1
    {
      && Summed(this, w)
      && forall i: Quarter ::
        Movers(Kid(tree, i)) <= Movers(tree) && SettledAt(nodes[i], Kid(tree, i), Half(box, i), parts[i], w)
    }

    /** `d3_layout_forceAccumulate`. */
    method Accumulate(w: Tick, ghost all: set<Body>)
      requires Valid() && Ready(tree, w) && Still(tree, w) && Movers(tree) <= all
      modifies repr`charge, repr`cx, repr`cy, repr`pointCharge, Movers(tree)`x, Movers(tree)`y
      ensures Valid() && Settled(w)
      decreases repr, 2
    {
      hide *;
      var sx, sy := 0.0, 0.0;
      Parts();
      PartsWithin();
      ReadyOwn(tree, w);
      charge := 0.0;
      StartSums(w);
      StillParts(tree, w);
      if !leaf {
        for i := 0 to 4
          invariant Valid() && Sums(i, sx, sy, w) && OwnStill(tree.place, w)
          invariant forall j: Quarter :: j >= i ==> Still(Kid(tree, j), w)
        {
          sx, sy := AccumulateChild(i, sx, sy, w, all);
        }
      } else {
        NoKids(w);
      }
      Finish(sx, sy, w, all);
    }

    /** What the loop over the children has summed. */
    ghost predicate Sums(n: nat, sx: real, sy: real, w: Tick)
      requires Valid() && n <= 4
      reads this, Union(parts), MoversUpTo(tree, n)
    {
      && charge == ChargeUpTo(tree, n, w) && sx == MomentUpTo(tree, n, w, false) && sy == MomentUpTo(tree, n, w, true)
      && forall i: Quarter :: i < n ==>
        Movers(Kid(tree, i)) <= MoversUpTo(tree, n) && SettledAt(nodes[i], Kid(tree, i), Half(box, i), parts[i], w)
    }

    lemma PartsWithin()
      requires Valid()
      ensures |parts| == 4 && forall i: Quarter :: parts[i] <= repr - {this}
    {
    }

    lemma HeldAll()
      requires Valid()
      ensures |nodes| == |parts| == 4 && forall i: Quarter :: Holds(nodes[i], Kid(tree, i), Half(box, i), parts[i])
      ensures forall i: Quarter, j: Quarter :: i != j ==> parts[i] !! parts[j]
    {
      hide Holds;
    }

    lemma StartSums(w: Tick)
      requires Valid() && charge == 0.0
      ensures Sums(0, 0.0, 0.0, w)
    {
    }

    lemma NoKids(w: Tick)
      requires Valid() && Ready(tree, w) && leaf && charge == 0.0
      ensures Sums(4, 0.0, 0.0, w)
    {
      GapSums(tree, 4, w);
      forall i: Quarter
        ensures Kid(tree, i).Gap? && nodes[i] == null
      {
        if nodes[i] != null { HeldBy(nodes[i], Kid(tree, i), Half(box, i), parts[i]); }
      }
    }

    method AccumulateChild(i: Quarter, sx: real, sy: real, w: Tick, ghost all: set<Body>) returns (tx: real, ty: real)
      requires Valid() && Ready(tree, w) && Movers(tree) <= all && Sums(i, sx, sy, w)
      requires OwnStill(tree.place, w) && forall j: Quarter :: j >= i ==> Still(Kid(tree, j), w)
      modifies this`charge, parts[i]`charge, parts[i]`cx, parts[i]`cy, parts[i]`pointCharge, Movers(Kid(tree, i))`x,
        Movers(Kid(tree, i))`y
      ensures Valid() && Sums(i + 1, tx, ty, w)
      ensures OwnStill(tree.place, w) && forall j: Quarter :: j > i ==> Still(Kid(tree, j), w)
      decreases repr, 1
    {
      hide Holds, Ready, Charge, ChargeUpTo, Moment, MomentUpTo, Movers, MoversUpTo, SettledAt, Kid, Half, Node.Settled,
          Node.Sums, Union, Still, OwnStill;
      tx, ty := sx, sy;
      ReadyOwn(tree, w);
      var c := nodes[i];
      if c != null {
        AccumulateBelow(i, c, sx, sy, w, all);
        tx, ty := sx + c.charge * c.cx.value, sy + c.charge * c.cy.value;
      } else {
        SumsParts(i, sx, sy, w);
        HeldGap(Kid(tree, i), Half(box, i), parts[i]);
        SettledGap(Kid(tree, i), Half(box, i), parts[i], w);
      }
      SumsNext(i, sx, sy, tx, ty, ChargeUpTo(tree, i, w), w);
    }

    method AccumulateBelow(i: Quarter, c: Node, ghost sx: real, ghost sy: real, w: Tick, ghost all: set<Body>)
      requires Valid() && Ready(tree, w) && Movers(tree) <= all && Sums(i, sx, sy, w) && c == nodes[i]
      requires OwnStill(tree.place, w) && forall j: Quarter :: j >= i ==> Still(Kid(tree, j), w)
      modifies this`charge, parts[i]`charge, parts[i]`cx, parts[i]`cy, parts[i]`pointCharge, Movers(Kid(tree, i))`x,
        Movers(Kid(tree, i))`y
      ensures Valid() && charge == ChargeUpTo(tree, i, w) + Charge(Kid(tree, i), w)
        && sx == MomentUpTo(tree, i, w, false) && sy == MomentUpTo(tree, i, w, true)
      ensures forall j: Quarter :: j <= i ==> SettledAt(nodes[j], Kid(tree, j), Half(box, j), parts[j], w)
      ensures OwnStill(tree.place, w) && forall j: Quarter :: j > i ==> Still(Kid(tree, j), w)
      ensures c.charge == Charge(Kid(tree, i), w) && c.cx.Some? && c.cy.Some?
      ensures c.cx.value * c.charge == Moment(Kid(tree, i), w, false)
        && c.cy.value * c.charge == Moment(Kid(tree, i), w, true)
      decreases repr, 0
    {
      hide *;
      Parts();
      PartsWithin();
      HeldAll();
      ReadyOwn(tree, w);
      ReadyKid(tree, w, i);
      MoversGrow(tree, i);
      WithinUnion(parts);
      SumsParts(i, sx, sy, w);
      HeldBy(c, Kid(tree, i), Half(box, i), parts[i]);
      c.Accumulate(w, all);
      Charged(c.tree, w);
      c.SettledHere(w);
      SettledBy(c, Kid(tree, i), Half(box, i), parts[i], w);
      charge := charge + c.charge;
    }

    lemma SumsParts(n: nat, sx: real, sy: real, w: Tick)
      requires Valid() && n <= 4 && Sums(n, sx, sy, w)
      ensures charge == ChargeUpTo(tree, n, w) && sx == MomentUpTo(tree, n, w, false)
        && sy == MomentUpTo(tree, n, w, true)
      ensures forall i: Quarter :: i < n ==>
        Movers(Kid(tree, i)) <= MoversUpTo(tree, n) && SettledAt(nodes[i], Kid(tree, i), Half(box, i), parts[i], w)
    {
    }

    lemma SumsNext(n: Quarter, sx: real, sy: real, tx: real, ty: real, before: real, w: Tick)
      requires Valid() && before == ChargeUpTo(tree, n, w) && sx == MomentUpTo(tree, n, w, false)
        && sy == MomentUpTo(tree, n, w, true)
      requires forall i: Quarter :: i <= n ==> SettledAt(nodes[i], Kid(tree, i), Half(box, i), parts[i], w)
      requires charge == before + Charge(Kid(tree, n), w)
      requires tx == sx + Moment(Kid(tree, n), w, false) && ty == sy + Moment(Kid(tree, n), w, true)
      ensures Sums(n + 1, tx, ty, w)
    {
      hide Movers, Moment, Charge, SettledAt, Holds, Kid;
      forall i: Quarter | i < n + 1
        ensures Movers(Kid(tree, i)) <= MoversUpTo(tree, n + 1)
      {
        KidMovers(tree, n + 1, i);
      }
    }

    lemma SettledHere(w: Tick)
      requires Valid() && Settled(w)
      ensures Summed(this, w)
    {
    }

    /** The node's own point comes last; at an inner node it is moved first. */
    method Finish(sx: real, sy: real, w: Tick, ghost all: set<Body>)
      requires Valid() && Ready(tree, w) && Sums(4, sx, sy, w) && Movers(tree) <= all && OwnStill(tree.place, w)
      modifies this`charge, this`cx, this`cy, this`pointCharge, OwnMover(tree.place)`x, OwnMover(tree.place)`y
      ensures Valid() && Settled(w)
    {
      hide *;
      MoveOwn(sx, sy, w, all);
      var tx, ty := AddOwn(sx, sy, w, all);
      SettledWhole(tx, ty, w);
    }

    method MoveOwn(ghost sx: real, ghost sy: real, w: Tick, ghost all: set<Body>)
      requires Valid() && Ready(tree, w) && Sums(4, sx, sy, w) && Movers(tree) <= all && OwnStill(tree.place, w)
      modifies OwnMover(tree.place)`x, OwnMover(tree.place)`y
      ensures Valid() && Sums(4, sx, sy, w) && OwnMoved(tree.place, tree.leaf, w)
    {
      hide Holds, Ready, Charge, ChargeUpTo, Moment, MomentUpTo, Movers, MoversUpTo, SettledAt, Kid, Half, Node.Settled,
          Node.Sums, Union;
      ReadyOwn(tree, w);
      WithinUnion(parts);
      SumsParts(4, sx, sy, w);
      if place.Some? && !leaf {
        var point := place.value.body;
        point.x, point.y := point.x + w.jitter(point).0, point.y + w.jitter(point).1;
      }
      SumsWhole(sx, sy, w);
    }

    lemma SumsWhole(sx: real, sy: real, w: Tick)
      requires Valid() && charge == ChargeUpTo(tree, 4, w) && sx == MomentUpTo(tree, 4, w, false)
        && sy == MomentUpTo(tree, 4, w, true)
      requires forall i: Quarter :: SettledAt(nodes[i], Kid(tree, i), Half(box, i), parts[i], w)
      ensures Sums(4, sx, sy, w)
    {
      hide Movers, Moment, Charge, SettledAt, Holds, Kid;
      forall i: Quarter
        ensures Movers(Kid(tree, i)) <= MoversUpTo(tree, 4)
      {
        KidMovers(tree, 4, i);
      }
    }

    method AddOwn(sx: real, sy: real, w: Tick, ghost all: set<Body>) returns (tx: real, ty: real)
      requires Valid() && Ready(tree, w) && Sums(4, sx, sy, w) && Movers(tree) <= all
        && OwnMoved(tree.place, tree.leaf, w)
      modifies this`charge, this`cx, this`cy, this`pointCharge
      ensures cx == CentreOf(tx, charge) && cy == CentreOf(ty, charge) && OwnMoved(tree.place, tree.leaf, w)
      ensures place.Some? ==> pointCharge == Pull(place.value.body, w)
      ensures Valid() && charge == ChargeUpTo(tree, 4, w) + OwnCharge(place, w)
      ensures tx == MomentUpTo(tree, 4, w, false) + OwnMoment(place, w, false)
      ensures ty == MomentUpTo(tree, 4, w, true) + OwnMoment(place, w, true)
      ensures forall i: Quarter :: SettledAt(nodes[i], Kid(tree, i), Half(box, i), parts[i], w)
    {
      hide Holds, Ready, Charge, ChargeUpTo, Moment, MomentUpTo, Movers, MoversUpTo, SettledAt, Kid, Half, Node.Settled,
          Node.Sums, Union, Pull, CentreOf, OwnMoved;
      tx, ty := sx, sy;
      ReadyOwn(tree, w);
      WithinUnion(parts);
      SumsParts(4, sx, sy, w);
      if place.Some? {
        var point := place.value.body;
        var k := w.alpha * w.charges[point.index];
        PullAt(point, w);
        pointCharge := k;
        charge := charge + k;
        tx, ty := tx + k * point.x, ty + k * point.y;
      }
      cx := CentreOf(tx, charge);
      cy := CentreOf(ty, charge);
    }

    lemma SettledWhole(tx: real, ty: real, w: Tick)
      requires Valid() && charge == ChargeUpTo(tree, 4, w) + OwnCharge(place, w)
      requires tx == MomentUpTo(tree, 4, w, false) + OwnMoment(place, w, false)
      requires ty == MomentUpTo(tree, 4, w, true) + OwnMoment(place, w, true)
      requires forall i: Quarter :: SettledAt(nodes[i], Kid(tree, i), Half(box, i), parts[i], w)
      requires cx == CentreOf(tx, charge) && cy == CentreOf(ty, charge) && OwnMoved(tree.place, tree.leaf, w)
      requires place.Some? ==> pointCharge == Pull(place.value.body, w)
      ensures Settled(w)
    {
      hide MomentUpTo, ChargeUpTo, OwnCharge, OwnMoment, Movers, Kid, SettledAt, Holds, CentreOf, OwnMoved;
      CentreTimesCharge(tx, charge);
      CentreTimesCharge(ty, charge);
      if place.Some? && place.value.body.index < |w.charges| { PullAt(place.value.body, w); }
      forall i: Quarter
        ensures Movers(Kid(tree, i)) <= Movers(tree)
      {
        KidMovers(tree, 4, i);
      }
    }

    /** `insert`. */
    method Insert(p: Place, b: Box)
      requires Valid() && b == box && Insertable(tree, p, b)
      modifies repr`leaf, repr`nodes, repr`place, repr`repr, repr`parts, repr`tree
      ensures Valid() && fresh(repr - old(repr)) && old(repr) <= repr
      ensures tree == Inserted(old(tree), p, b)
      decreases Work(tree, p, b), 1
    {
      hide Holds, Disjoint, Node.Valid, Places, Half, Which, Work, Leafy, Ends, Together;
      Parts();
      ghost var t := tree;
      if leaf {
        if place.Some? {
          var q := place.value;
          if Coincident(q, p) {
            SentOn(t, p, b);
            InsertChild(p, b);
          } else {
            Split(t, p, b, BARE);
            Clear();
            Parts();
            InsertChild(q, b);
            Parts();
            Split(t, p, b, tree);
            InsertChild(p, b);
          }
        } else {
          Store(p);
        }
      } else {
        SentOn(t, p, b);
        InsertChild(p, b);
      }
    }

    lemma Parts()
      requires Valid()
      ensures this in repr && tree.Quad? && tree.leaf == leaf && tree.place == place && |nodes| == 4
    {
    }

    method Clear()
      requires Valid()
      modifies this`place, this`tree
      ensures Valid() && tree == old(tree).(place := None)
    {
      hide Holds, Disjoint;
      place := None;
      tree := tree.(place := None);
    }

    method Store(p: Place)
      requires Valid()
      modifies this`place, this`tree
      ensures Valid() && tree == old(tree).(place := Some(p))
    {
      hide Holds, Disjoint;
      place := Some(p);
      tree := tree.(place := Some(p));
    }

    /** `insertChild`. */
    method InsertChild(p: Place, b: Box)
      requires Valid() && b == box && InsertableBelow(tree, p, b)
      modifies repr`leaf, repr`nodes, repr`place, repr`repr, repr`parts, repr`tree
      ensures Valid() && fresh(repr - old(repr)) && old(repr) <= repr
      ensures tree == InsertedChild(old(tree), p, b)
      decreases Work(Kid(tree, Which(b, p)), p, Half(b, Which(b, p))), 3
    {
      hide Holds, Disjoint, Half, Which, Work, Leafy, Ends, Inserted, Places, Node.Valid;
      Parts();
      InsertableChild(tree, p, b);
      var i := Which(b, p);
      ghost var t := tree.(leaf := false);
      Open(i);
      Parts();
      Opening(t, i);
      Lower(i, p, Half(b, i));
    }

    method Create(i: Quarter)
      requires Valid() && nodes[i] == null
      modifies this`nodes, this`repr, this`parts, this`tree
      ensures Valid() && fresh(repr - old(repr)) && old(repr) <= repr && nodes[i] != null
      ensures old(Kid(tree, i)).Gap? && tree == WithKid(old(tree), i, BARE)
    {
      hide Holds, Disjoint, Half, Kid, WithKid, Union;
      HeldGap(Kid(tree, i), Half(box, i), parts[i]);
      var n := new Node(Half(box, i));
      ghost var others := nodes;
      nodes := nodes[i := n];
      assert forall j: Quarter :: j != i ==> nodes[j] == others[j];
      WithinUnion(parts);
      assert parts[i] == {} && n.repr !! repr;
      Adopt(i);
    }

    method Branch()
      requires Valid()
      modifies this`leaf, this`tree
      ensures Valid() && tree == old(tree).(leaf := false)
    {
      hide Holds, Disjoint;
      leaf := false;
      tree := tree.(leaf := false);
    }

    /** The node is no leaf any more, and its child exists. */
    method Open(i: Quarter)
      requires Valid()
      modifies this`leaf, this`nodes, this`repr, this`parts, this`tree
      ensures Valid() && fresh(repr - old(repr)) && old(repr) <= repr && nodes[i] != null
      ensures tree == WithKid(old(tree).(leaf := false), i, Opened(Kid(old(tree), i)))
    {
      hide Holds, Disjoint, Half, Kid, WithKid;
      Branch();
      if nodes[i] == null {
        Create(i);
      } else {
        HeldBy(nodes[i], Kid(tree, i), Half(box, i), parts[i]);
        Opening(tree, i);
      }
      Opening(old(tree), i);
    }

    method Lower(i: Quarter, p: Place, b: Box)
      requires Valid() && nodes[i] != null && b == Half(box, i) && Insertable(Kid(tree, i), p, b)
      modifies repr`leaf, repr`nodes, repr`place, repr`repr, repr`parts, repr`tree
      ensures Valid() && fresh(repr - old(repr)) && old(repr) <= repr
      ensures tree == WithKid(old(tree), i, Inserted(Kid(old(tree), i), p, b))
      decreases Work(Kid(tree, i), p, b), 2
    {
      hide Holds, Half, Which, Work, Insertable, Inserted, Places;
      HeldBy(nodes[i], Kid(tree, i), b, parts[i]);
      nodes[i].Insert(p, b);
      Adopt(i);
    }

    /** Brings the ghost state up to date after the child `i` has changed. */
    ghost method Adopt(i: Quarter)
      requires tree.Quad? && tree.leaf == leaf && tree.place == place && |nodes| == |parts| == 4
      requires Disjoint(parts) && this !in Union(parts) && repr == Union(parts) + {this}
      requires forall j: Quarter :: j != i ==> Holds(nodes[j], Kid(tree, j), Half(box, j), parts[j])
      requires nodes[i] != null && nodes[i].Valid() && nodes[i].box == Half(box, i)
      requires parts[i] <= nodes[i].repr && (nodes[i].repr - parts[i]) !! repr
      modifies this`parts, this`repr, this`tree
      ensures Valid() && repr == old(repr) + nodes[i].repr && tree == WithKid(old(tree), i, nodes[i].tree)
    {
      hide Holds, Disjoint, Half, WithKid, Kid, Union;
      var part := nodes[i].repr;
      Held(nodes[i]);
      MoreParts(parts, i, part);
      Kids(tree, i, nodes[i].tree);
      WithinUnion(parts);
      WithinUnion(parts[i := part]);
      parts, repr, tree := parts[i := part], repr + part, WithKid(tree, i, nodes[i].tree);
    }
  }

  /**
   * One tick of the force layout: its cooling parameter, the charge of each point, what the random numbers
   * come to for each point, and where the points were.
   */
  datatype Tick = Tick(alpha: real, charges: seq<real>, jitter: Body -> (real, real),
      ghost was: map<Body, (real, real)>)

  predicate OneSign(w: Tick) {
    w.alpha > 0.0 && ((forall i :: 0 <= i < |w.charges| ==> w.charges[i] > 0.0)
        || (forall i :: 0 <= i < |w.charges| ==> w.charges[i] < 0.0))
  }

  function Pull(b: Body, w: Tick): real {
    if b.index < |w.charges| then w.alpha * w.charges[b.index] else 0.0
  }

  /** The bodies in a tree. */
  function Movers(t: Tree): set<Body>
    decreases t, 10
  {
    if t.Gap? then {} else OwnMover(t.place) + MoversUpTo(t, 4)
  }

  function MoversUpTo(t: Tree, n: nat): set<Body>
    requires t.Quad? && n <= 4
    decreases t, n
  {
    if n == 0 then {} else MoversUpTo(t, n - 1) + Movers(Kid(t, n - 1))
  }

  function OwnMover(place: Option<Place>): set<Body> {
    if place.None? then {} else {place.value.body}
  }

  ghost predicate SettledAt(n: Node?, t: Tree, b: Box, part: set<Node>, w: Tick)
    requires Holds(n, t, b, part)
    reads part, Movers(t)
    decreases part, 2
  {
    n != null ==> n.Settled(w)
  }

  /** The tree the sums can be computed for. */
  ghost predicate Ready(t: Tree, w: Tick) {
    Shaped(t) && Distinct(t) && OneSign(w) && forall b :: b in Movers(t) ==> b.index < |w.charges|
  }

  lemma {:induction false} KidMovers(t: Tree, n: nat, i: Quarter)
    requires t.Quad? && i < n <= 4
    ensures Movers(Kid(t, i)) <= MoversUpTo(t, n) <= Movers(t)
    decreases n
  {
    if i < n - 1 { KidMovers(t, n - 1, i); }
    MoversGrow(t, n);
  }

  lemma {:induction false} MoversGrow(t: Tree, n: nat)
    requires t.Quad? && n <= 4
    ensures MoversUpTo(t, n) <= Movers(t)
    decreases 4 - n
  {
    if n < 4 { MoversGrow(t, n + 1); }
  }

  lemma {:induction false} ApartUpTo(t: Tree, n: nat, s: set<Body>)
    requires t.Quad? && n <= 4 && forall i: Quarter :: i < n ==> s !! Movers(Kid(t, i))
    ensures s !! MoversUpTo(t, n)
    decreases n
  {
    if n > 0 { ApartUpTo(t, n - 1, s); }
  }

  lemma ReadyKid(t: Tree, w: Tick, i: Quarter)
    requires Ready(t, w) && t.Quad?
    ensures Ready(Kid(t, i), w) && Kid(t, i) != BARE
    ensures (forall j: Quarter :: Movers(Kid(t, j)) <= Movers(t)) && Movers(Kid(t, i)) !! MoversUpTo(t, i)
      && OwnMover(t.place) !! MoversUpTo(t, 4)
    ensures forall j: Quarter :: j != i ==> Movers(Kid(t, i)) !! Movers(Kid(t, j))
  {
    forall j: Quarter
      ensures Movers(Kid(t, j)) <= Movers(t)
    {
      KidMovers(t, 4, j);
    }
    ApartUpTo(t, i, Movers(Kid(t, i)));
    ApartUpTo(t, 4, OwnMover(t.place));
  }

  /** No body stands at two places of the tree. */
  predicate Distinct(t: Tree) {
    t.Quad? ==>
      && (forall i: Quarter :: OwnMover(t.place) !! Movers(Kid(t, i)))
      && (forall i: Quarter, j: Quarter :: i != j ==> Movers(Kid(t, i)) !! Movers(Kid(t, j)))
      && Distinct(t.nw) && Distinct(t.ne) && Distinct(t.sw) && Distinct(t.se)
  }

  /** The sum of the charges in a tree. */
  function Charge(t: Tree, w: Tick): real
    decreases t, 10
  {
    if t.Gap? then 0.0 else ChargeUpTo(t, 4, w) + OwnCharge(t.place, w)
  }

  function OwnCharge(place: Option<Place>, w: Tick): real {
    if place.None? then 0.0 else Pull(place.value.body, w)
  }

  function ChargeUpTo(t: Tree, n: nat, w: Tick): real
    requires t.Quad? && n <= 4
    decreases t, n
  {
    if n == 0 then 0.0 else ChargeUpTo(t, n - 1, w) + Charge(Kid(t, n - 1), w)
  }

  predicate Signed(x: real, positive: bool) {
    if positive then x > 0.0 else x < 0.0
  }

  /** Every point occurs once, with a body of its own. */
  ghost predicate Single(m: multiset<Place>) {
    forall p, q :: p in m && q in m ==> m[p] == 1 && (p.body == q.body ==> p == q)
  }

  lemma KidPlaces(t: Tree, i: Quarter, j: Quarter)
    requires t.Quad?
    ensures Own(t.place) + Places(Kid(t, i)) <= Places(t)
    ensures i != j ==> Places(Kid(t, i)) + Places(Kid(t, j)) <= Places(t)
  {
    hide *;
    Unfolded(t);
    JoinParts(Own(t.place), Places(t.nw), Places(t.ne), Places(t.sw), Places(t.se));
    Replaced(t, i, Gap);
    Replaced(t, j, Gap);
  }

  lemma JoinParts<T>(o: multiset<T>, a: multiset<T>, b: multiset<T>, c: multiset<T>, d: multiset<T>)
    ensures var all := Join(o, a, b, c, d);
      && o + a <= all && o + b <= all && o + c <= all && o + d <= all
      && a + b <= all && a + c <= all && a + d <= all && b + c <= all && b + d <= all && c + d <= all
      && b + a <= all && c + a <= all && d + a <= all && c + b <= all && d + b <= all && d + c <= all
  {
  }

  lemma SinglePart(m: multiset<Place>, a: multiset<Place>, b: multiset<Place>)
    requires Single(m) && a + b <= m
    ensures Single(a) && forall p, q :: p in a && q in b ==> p.body != q.body
  {
    forall p, q | p in a && q in b
      ensures p.body != q.body
    {
      assert p in m && q in m;
      assert m[p] >= (a + b)[p] == a[p] + b[p];
    }
  }

  lemma {:induction false} MoverKid(t: Tree, n: nat, b: Body)
    requires t.Quad? && n <= 4 && b in MoversUpTo(t, n)
    ensures exists i: Quarter :: b in Movers(Kid(t, i))
  {
    if b !in Movers(Kid(t, n - 1)) { MoverKid(t, n - 1, b); }
  }

  lemma {:induction false} MoverPlaced(t: Tree, b: Body)
    requires b in Movers(t)
    ensures exists p :: p in Places(t) && p.body == b
    decreases t
  {
    if t.place.Some? && t.place.value.body == b {
      assert t.place.value in Places(t);
    } else {
      MoverKid(t, 4, b);
      var i: Quarter :| b in Movers(Kid(t, i));
      MoverPlaced(Kid(t, i), b);
      KidPlaces(t, i, i);
    }
  }

  /** Points with bodies of their own stand at distinct places of the tree. */
  lemma {:induction false} DistinctBodies(t: Tree)
    requires Single(Places(t))
    ensures Distinct(t)
    decreases t
  {
    if t.Quad? {
      forall i: Quarter
        ensures OwnMover(t.place) !! Movers(Kid(t, i)) && Distinct(Kid(t, i))
      {
        KidPlaces(t, i, i);
        SinglePart(Places(t), Places(Kid(t, i)), Own(t.place));
        DistinctBodies(Kid(t, i));
        if t.place.Some? && t.place.value.body in Movers(Kid(t, i)) { MoverPlaced(Kid(t, i), t.place.value.body); }
      }
      forall i: Quarter, j: Quarter | i != j
        ensures Movers(Kid(t, i)) !! Movers(Kid(t, j))
      {
        KidPlaces(t, i, j);
        SinglePart(Places(t), Places(Kid(t, i)), Places(Kid(t, j)));
        forall b | b in Movers(Kid(t, i))
          ensures b !in Movers(Kid(t, j))
        {
          MoverPlaced(Kid(t, i), b);
          if b in Movers(Kid(t, j)) { MoverPlaced(Kid(t, j), b); }
        }
      }
      assert Distinct(Kid(t, 0)) && Distinct(Kid(t, 1)) && Distinct(Kid(t, 2)) && Distinct(Kid(t, 3));
    }
  }

  lemma {:induction false} GapSums(t: Tree, n: nat, w: Tick)
    requires t.Quad? && n <= 4 && forall i: Quarter :: Kid(t, i).Gap?
    ensures ChargeUpTo(t, n, w) == 0.0 && MomentUpTo(t, n, w, false) == 0.0 && MomentUpTo(t, n, w, true) == 0.0
    decreases n
  {
    if n > 0 { GapSums(t, n - 1, w); }
  }

  lemma PullAt(b: Body, w: Tick)
    requires b.index < |w.charges|
    ensures Pull(b, w) == w.alpha * w.charges[b.index]
  {
  }

  lemma ReadyOwn(t: Tree, w: Tick)
    requires Ready(t, w) && t.Quad?
    ensures MoversUpTo(t, 4) <= Movers(t) && OwnMover(t.place) <= Movers(t) && OwnMover(t.place) !! MoversUpTo(t, 4)
    ensures forall j: Quarter :: Movers(Kid(t, j)) <= Movers(t) && OwnMover(t.place) !! Movers(Kid(t, j))
    ensures t.place.Some? ==> t.place.value.body.index < |w.charges|
  {
    MoversGrow(t, 4);
    ReadyKid(t, w, 0);
  }

  lemma PullSigned(b: Body, w: Tick, positive: bool)
    requires w.alpha > 0.0 && b.index < |w.charges| && Signed(w.charges[b.index], positive)
    ensures Signed(Pull(b, w), positive)
  {
  }

  /** Charges of one sign add up to that sign, wherever there is a point. */
  lemma {:induction false} ChargeSigned(t: Tree, w: Tick, positive: bool)
    requires Ready(t, w) && forall i :: 0 <= i < |w.charges| ==> Signed(w.charges[i], positive)
    ensures if t.Gap? || t == BARE then Charge(t, w) == 0.0 else Signed(Charge(t, w), positive)
    decreases t, 10
  {
    hide ChargeUpTo, Pull, Ready;
    if t.Quad? {
      ReadyOwn(t, w);
      ReadyShape(t, w);
      if t.place.Some? { PullSigned(t.place.value.body, w, positive); }
      ChargeUpToSigned(t, 4, w, positive);
    }
  }

  lemma ReadyShape(t: Tree, w: Tick)
    requires Ready(t, w) && t.Quad?
    ensures w.alpha > 0.0 && (t.leaf <==> t.nw.Gap? && t.ne.Gap? && t.sw.Gap? && t.se.Gap?)
    ensures (forall i: Quarter :: Kid(t, i).Gap?) <==> t.nw.Gap? && t.ne.Gap? && t.sw.Gap? && t.se.Gap?
  {
    assert Kid(t, 0) == t.nw && Kid(t, 1) == t.ne && Kid(t, 2) == t.sw && Kid(t, 3) == t.se;
  }

  lemma {:induction false} ChargeUpToSigned(t: Tree, n: nat, w: Tick, positive: bool)
    requires t.Quad? && n <= 4 && Ready(t, w) && forall i :: 0 <= i < |w.charges| ==> Signed(w.charges[i], positive)
    ensures if forall i: Quarter :: i < n ==> Kid(t, i).Gap? then ChargeUpTo(t, n, w) == 0.0
      else Signed(ChargeUpTo(t, n, w), positive)
    decreases t, n
  {
    if n > 0 {
      ReadyKid(t, w, n - 1);
      ChargeSigned(Kid(t, n - 1), w, positive);
      ChargeUpToSigned(t, n - 1, w, positive);
    }
  }

  lemma Charged(t: Tree, w: Tick)
    requires Ready(t, w)
    ensures Charge(t, w) == 0.0 <==> t.Gap? || t == BARE
  {
    if forall i :: 0 <= i < |w.charges| ==> w.charges[i] > 0.0 {
      ChargeSigned(t, w, true);
    } else {
      ChargeSigned(t, w, false);
    }
  }

  /** There is no centre without charge. */
  function CentreOf(moment: real, charge: real): Option<real> {
    if charge != 0.0 then Some(moment / charge) else None
  }

  lemma CentreTimesCharge(moment: real, charge: real)
    ensures var c := CentreOf(moment, charge); c.Some? == (charge != 0.0) && (c.Some? ==> c.value * charge == moment)
  {
  }

  function Coordinate(b: Body, vertical: bool): real
    reads b
  {
    if vertical then b.y else b.x
  }

  /** The charge-weighted sum of the coordinates of the points in a tree. */
  ghost function Moment(t: Tree, w: Tick, vertical: bool): real
    reads Movers(t)
    decreases t, 10
  {
    if t.Gap? then 0.0 else MomentUpTo(t, 4, w, vertical) + OwnMoment(t.place, w, vertical)
  }

  ghost function OwnMoment(place: Option<Place>, w: Tick, vertical: bool): real
    reads OwnMover(place)
  {
    if place.None? then 0.0 else Pull(place.value.body, w) * Coordinate(place.value.body, vertical)
  }

  ghost function MomentUpTo(t: Tree, n: nat, w: Tick, vertical: bool): real
    requires t.Quad? && n <= 4
    reads MoversUpTo(t, n)
    decreases t, n
  {
    if n == 0 then 0.0 else MomentUpTo(t, n - 1, w, vertical) + Moment(Kid(t, n - 1), w, vertical)
  }

  /** The points of a tree are still where they were. */
  ghost predicate Still(t: Tree, w: Tick)
    reads Movers(t)
  {
    forall b :: b in Movers(t) ==> b in w.was && w.was[b] == (b.x, b.y)
  }

  ghost predicate OwnStill(place: Option<Place>, w: Tick)
    reads OwnMover(place)
  {
    place.Some? ==> place.value.body in w.was && w.was[place.value.body] == (place.value.body.x, place.value.body.y)
  }

  /** A point at an inner node has been moved by its jitter; one at a leaf has not. */
  ghost predicate OwnMoved(place: Option<Place>, leaf: bool, w: Tick)
    reads OwnMover(place)
  {
    place.Some? ==>
      var b := place.value.body;
      b in w.was && (b.x, b.y) == if leaf then w.was[b] else (w.was[b].0 + w.jitter(b).0, w.was[b].1 + w.jitter(b).1)
  }

  lemma StillParts(t: Tree, w: Tick)
    requires t.Quad? && Still(t, w)
    ensures OwnStill(t.place, w) && forall j: Quarter :: Still(Kid(t, j), w)
  {
    forall j: Quarter
      ensures Movers(Kid(t, j)) <= Movers(t)
    {
      KidMovers(t, 4, j);
    }
  }

  /**
   * A node has the charge of its tree, and its centre times that charge is the moment; there is no centre
   * without charge.  Its own point is where it should be, and its charge is noted.
   */
  ghost predicate Summed(n: Node, w: Tick)
    reads n, Movers(n.tree)
  {
    && (n.tree.Quad? ==> OwnMoved(n.tree.place, n.tree.leaf, w))
    && (n.place.Some? && n.place.value.body.index < |w.charges| ==>
          n.pointCharge == w.alpha * w.charges[n.place.value.body.index])
    && n.charge == Charge(n.tree, w)
    && n.cx.Some? == n.cy.Some? == (n.charge != 0.0)
    && (n.cx.Some? ==>
      n.cx.value * n.charge == Moment(n.tree, w, false) && n.cy.value * n.charge == Moment(n.tree, w, true))
  }

  /** The log names the nodes seen, each once, with the box it was created for. */
  ghost predicate Logged(log: seq<(Node, Box)>, seen: set<Node>)
    reads seen`box
  {
    && (forall k :: 0 <= k < |log| ==> log[k].0 in seen && log[k].1 == log[k].0.box)
    && (forall k, l :: 0 <= k < l < |log| ==> log[k].0 != log[l].0)
    && (forall n :: n in seen ==> exists k :: 0 <= k < |log| && log[k].0 == n)
  }

  lemma LoggedOne(n: Node, b: Box)
    requires b == n.box
    ensures Logged([(n, b)], {n})
  {
    assert [(n, b)][0].0 == n;
  }

  /** The visitor's boxes are those of the insertion. */
  lemma Halves(b: Box)
    ensures var sx, sy := (b.x1 + b.x2) * 0.5, (b.y1 + b.y2) * 0.5;
      && Half(b, 0) == Box(b.x1, b.y1, sx, sy) && Half(b, 1) == Box(sx, b.y1, b.x2, sy)
      && Half(b, 2) == Box(b.x1, sy, sx, b.y2) && Half(b, 3) == Box(sx, sy, b.x2, b.y2)
  {
  }

  lemma LoggedJoin(a: seq<(Node, Box)>, s: set<Node>, c: seq<(Node, Box)>, t: set<Node>)
    requires Logged(a, s) && Logged(c, t) && s !! t
    ensures Logged(a + c, s + t)
  {
    var log := a + c;
    forall n | n in s + t
      ensures exists k :: 0 <= k < |log| && log[k].0 == n
    {
      if n in s {
        var k :| 0 <= k < |a| && a[k].0 == n;
        assert log[k].0 == n;
      } else {
        var k :| 0 <= k < |c| && c[k].0 == n;
        assert log[|a| + k].0 == n;
      }
    }
  }

  /** The nodes a visit reaches below a child if the callback says true exactly at `stop`. */
  ghost function ReachedAt(n: Node?, t: Tree, b: Box, part: set<Node>, stop: set<Node>): (r: set<Node>)
    requires Holds(n, t, b, part)
    reads part`repr, part`parts, part`leaf, part`nodes, part`place, part`tree, part`box
    ensures r <= part && (stop !! part ==> r == part)
    decreases part, 2
  {
    if n == null then {} else n.Reached(stop)
  }

  lemma HeldBy(n: Node, t: Tree, b: Box, part: set<Node>)
    requires Holds(n, t, b, part)
    ensures t.Quad? && n in part && n.repr == part && n.tree == t && n.box == b && n.Valid()
  {
  }

  lemma SettledBy(n: Node, t: Tree, b: Box, part: set<Node>, w: Tick)
    requires Holds(n, t, b, part) && n.Settled(w)
    ensures SettledAt(n, t, b, part, w)
  {
  }

  lemma SettledGap(t: Tree, b: Box, part: set<Node>, w: Tick)
    requires Holds(null, t, b, part)
    ensures SettledAt(null, t, b, part, w) && Charge(t, w) == 0.0 && Moment(t, w, false) == 0.0
      && Moment(t, w, true) == 0.0
  {
  }

  lemma HeldGap(t: Tree, b: Box, part: set<Node>)
    requires Holds(null, t, b, part)
    ensures t == Gap && part == {}
  {
  }

  lemma Held(n: Node)
    requires n.Valid()
    ensures Holds(n, n.tree, n.box, n.repr)
  {
  }

  /** The part of one child grew by objects that no part had. */
  lemma MoreParts(parts: seq<set<Node>>, i: Quarter, part: set<Node>)
    requires |parts| == 4 && Disjoint(parts) && parts[i] <= part && (part - parts[i]) !! Union(parts)
    ensures Disjoint(parts[i := part]) && Union(parts[i := part]) == Union(parts) + part
  {
  }

  lemma WithinUnion(parts: seq<set<Node>>)
    requires |parts| == 4
    ensures forall j: Quarter :: parts[j] <= Union(parts)
  {
  }

  lemma Kids(t: Tree, i: Quarter, k: Tree)
    requires t.Quad?
    ensures WithKid(t, i, k).Quad? && WithKid(t, i, k).leaf == t.leaf && WithKid(t, i, k).place == t.place
    ensures forall j: Quarter :: Kid(WithKid(t, i, k), j) == if j == i then k else Kid(t, j)
  {
  }

  /** Every node of a valid tree carries its own part of it, which fits the box it was created for. */
  lemma {:induction false} EveryNode(root: Node, m: Node)
    requires root.Valid() && m in root.repr && Routed(root.tree, root.box) && Shaped(root.tree)
    ensures m.Valid() && Routed(m.tree, m.box) && Shaped(m.tree) && m.repr <= root.repr
    ensures Fits(root.tree, root.box) ==> Fits(m.tree, m.box)
    decreases root.repr
  {
    if m != root {
      var i: Quarter :| m in root.parts[i];
      assert Holds(root.nodes[i], Kid(root.tree, i), Half(root.box, i), root.parts[i]);
      EveryNode(root.nodes[i], m);
    }
  }

  /** The smallest box around the points. */
  method Extent(data: seq<Place>) returns (b: Box)
    requires |data| > 0
    ensures Proper(b) && forall i :: 0 <= i < |data| ==> Inside(b, data[i])
    ensures exists i, j, k, l ::
        0 <= i < |data| && 0 <= j < |data| && 0 <= k < |data| && 0 <= l < |data| &&
        b == Box(data[i].x, data[j].y, data[k].x, data[l].y)
  {
    ghost var i, j, k, l := 0, 0, 0, 0;
    b := Box(data[0].x, data[0].y, data[0].x, data[0].y);
    for n := 1 to |data|
      invariant 0 <= i < |data| && 0 <= j < |data| && 0 <= k < |data| && 0 <= l < |data|
      invariant b == Box(data[i].x, data[j].y, data[k].x, data[l].y)
      invariant forall m :: 0 <= m < n ==> Inside(b, data[m])
    {
      var p := data[n];
      if p.x < b.x1 { b, i := b.(x1 := p.x), n; }
      if p.y < b.y1 { b, j := b.(y1 := p.y), n; }
      if p.x > b.x2 { b, k := b.(x2 := p.x), n; }
      if p.y > b.y2 { b, l := b.(y2 := p.y), n; }
    }
    assert Inside(b, data[0]);
  }

  /** The box grows to a square. */
  function Squared(b: Box): (r: Box)
    ensures r.x2 - r.x1 == r.y2 - r.y1 && r.x1 == b.x1 && r.y1 == b.y1 && r.x2 >= b.x2 && r.y2 >= b.y2
  {
    if b.x2 - b.x1 > b.y2 - b.y1 then b.(y2 := b.y1 + (b.x2 - b.x1)) else b.(x2 := b.x1 + (b.y2 - b.y1))
  }

  /** The tree after inserting these points one after another, if each insertion ends. */
  function Grown(data: seq<Place>, b: Box): (r: Option<Tree>)
    ensures r.Some? ==> r.value.Quad? && Leafy(r.value)
  {
    if data == [] then Some(BARE)
    else
      var n := |data| - 1;
      var t := Grown(data[..n], b);
      if t.Some? && Ends(t.value, data[n], b) then Some(Inserted(t.value, data[n], b)) else None
  }

  lemma GrownNext(data: seq<Place>, p: Place, b: Box)
    ensures var t := Grown(data, b);
      Grown(data + [p], b) == if t.Some? && Ends(t.value, p, b) then Some(Inserted(t.value, p, b)) else None
  {
    assert (data + [p])[..|data|] == data;
  }

  lemma {:induction false} GrownFront(data: seq<Place>, b: Box, n: nat)
    requires Grown(data, b).Some? && n <= |data|
    ensures Grown(data[..n], b).Some?
    decreases |data|
  {
    if n < |data| {
      GrownFront(data[..|data| - 1], b, n);
      assert data[..|data| - 1][..n] == data[..n];
    } else {
      assert data[..n] == data;
    }
  }

  /** The tree holds exactly these points, each where it is sent. */
  ghost predicate Right(t: Tree, b: Box, m: multiset<Place>) {
    Places(t) == m && Routed(t, b) && Shaped(t)
  }

  lemma RightNext(t: Tree, p: Place, b: Box, m: multiset<Place>)
    requires Insertable(t, p, b) && Right(t, b, m)
    ensures Right(Inserted(t, p, b), b, m + multiset{p})
  {
    hide Routed, Shaped, Leafy, Ends, Inserted, Places;
    InsertKeeps(t, p, b);
    InsertRouted(t, p, b);
    InsertShaped(t, p, b);
  }

  lemma {:induction false} GrownRight(data: seq<Place>, b: Box)
    requires Grown(data, b).Some?
    ensures Right(Grown(data, b).value, b, multiset(data))
  {
    if data == [] {
      BareRight(b);
    } else {
      hide Right, Leafy, Ends, Inserted, Grown, Insertable;
      var front, p := data[..|data| - 1], data[|data| - 1];
      assert data == front + [p];
      GrownNext(front, p, b);
      GrownRight(front, b);
      NextRight(front, p, b);
    }
  }

  lemma BareRight(b: Box)
    ensures Right(BARE, b, multiset{})
  {
    assert Places(Gap) == multiset{};
  }

  lemma NextRight(front: seq<Place>, p: Place, b: Box)
    requires Grown(front, b).Some? && Ends(Grown(front, b).value, p, b)
    requires Right(Grown(front, b).value, b, multiset(front))
    ensures Right(Inserted(Grown(front, b).value, p, b), b, multiset(front + [p]))
  {
    hide Right, Inserted, Grown, Ends, Leafy;
    RightNext(Grown(front, b).value, p, b, multiset(front));
    assert multiset(front + [p]) == multiset(front) + multiset{p};
  }

  /** If all the data are inside the box, each of them lies in the box of its node. */
  lemma GrownFits(data: seq<Place>, b: Box, t: Tree)
    requires Leafy(t) && Right(t, b, multiset(data))
    ensures (forall i :: 0 <= i < |data| ==> Inside(b, data[i])) ==> Fits(t, b)
  {
    hide Routed, Leafy, Places, Inside, Fits, Shaped;
    if forall i :: 0 <= i < |data| ==> Inside(b, data[i]) {
      forall p | p in Places(t)
        ensures Inside(b, p)
      {
        assert p in data;
      }
      FitsInside(t, b);
    }
  }

  /** Insertion ends for all the data if points that are together coincide, as they do inside the box. */
  lemma {:induction false} GrownApart(data: seq<Place>, b: Box)
    requires forall i, j :: 0 <= i < j < |data| && Together(b, data[i], data[j]) ==>
      Coincident(data[i], data[j])
    ensures Grown(data, b).Some?
  {
    if data != [] {
      hide Right, Leafy, Ends, Inserted, Together, Coincident;
      var n := |data| - 1;
      GrownApart(data[..n], b);
      GrownRight(data[..n], b);
      LastEnds(data, Grown(data[..n], b).value, b);
    }
  }

  lemma LastEnds(data: seq<Place>, t: Tree, b: Box)
    requires data != [] && Right(t, b, multiset(data[..|data| - 1]))
    requires forall i, j :: 0 <= i < j < |data| && Together(b, data[i], data[j]) ==> Coincident(data[i], data[j])
    ensures Ends(t, data[|data| - 1], b)
  {
    hide Ends, Places, Together, Coincident, Routed, Shaped;
    var n := |data| - 1;
    forall q | q in Places(t) && Together(b, q, data[n])
      ensures Coincident(q, data[n])
    {
      assert q in data[..n];
      var i :| 0 <= i < n && data[i] == q;
    }
    EndsIfApart(t, data[n], b);
  }

  lemma GrownInside(data: seq<Place>, b: Box)
    requires forall i :: 0 <= i < |data| ==> Inside(b, data[i])
    ensures Grown(data, b).Some?
  {
    forall i, j | 0 <= i < j < |data| && Together(b, data[i], data[j])
      ensures Coincident(data[i], data[j])
    {
      InsideApart(b, data[i], data[j]);
    }
    GrownApart(data, b);
  }

  // ---------- the same in coordinates ----------

  /** The distances of the two points in x and in y add up to less than 0.01. */
  predicate Near(p: Place, q: Place) {
    && p.x - q.x + (p.y - q.y) < 0.01 && p.x - q.x + (q.y - p.y) < 0.01
    && q.x - p.x + (p.y - q.y) < 0.01 && q.x - p.x + (q.y - p.y) < 0.01
  }

  /** A leaf keeps its point, when another comes to it, if and only if the two are near; otherwise it has none. */
  lemma KeepsNear(t: Tree, p: Place, b: Box)
    requires Insertable(t, p, b) && t.leaf && t.place.Some?
    ensures var q, r := t.place.value, Inserted(t, p, b);
      && r.Quad? && !r.leaf
      && (Near(p, q) ==> r.place == Some(q))
      && (!Near(p, q) ==> r.place == None)
  {
    hide Insertable, InsertableBelow, Leafy, Ends, Work;
    InsertedIs(t, p, b);
    SentPlace(t, p, b);
    if !Coincident(t.place.value, p) {
      SentPlace(t.(place := None), t.place.value, b);
      SentPlace(InsertedChild(t.(place := None), t.place.value, b), p, b);
    }
  }

  lemma SentPlace(t: Tree, p: Place, b: Box)
    ensures InsertableBelow(t, p, b) ==>
      var r := InsertedChild(t, p, b); r.Quad? && !r.leaf && r.place == t.place
  {
  }

  /**
   * The points below a node stand in the child on their side of its middle, those on the middle line to the right
   * or below, and a node with children has a point of its own only if one below is near to it.
   */
  ghost predicate LaidHere(t: Tree, sx: real, sy: real)
    requires t.Quad?
  {
    && (forall p :: p in Places(t.nw) ==> p.x < sx && p.y < sy)
    && (forall p :: p in Places(t.ne) ==> p.x >= sx && p.y < sy)
    && (forall p :: p in Places(t.sw) ==> p.x < sx && p.y >= sy)
    && (forall p :: p in Places(t.se) ==> p.x >= sx && p.y >= sy)
    && (t.place.Some? && !t.leaf ==> exists q :: q in Below(t) && Near(t.place.value, q))
    && (t.leaf ==> t.nw.Gap? && t.ne.Gap? && t.sw.Gap? && t.se.Gap?)
  }

  ghost predicate Laid(t: Tree, x1: real, y1: real, x2: real, y2: real) {
    t.Quad? ==>
      var sx, sy := (x1 + x2) / 2.0, (y1 + y2) / 2.0;
      && LaidHere(t, sx, sy)
      && Laid(t.nw, x1, y1, sx, sy) && Laid(t.ne, sx, y1, x2, sy)
      && Laid(t.sw, x1, sy, sx, y2) && Laid(t.se, sx, sy, x2, y2)
  }

  lemma Sides(t: Tree, b: Box)
    requires t.Quad? && Routed(t, b)
    ensures forall p :: p in Places(t.nw) ==> Which(b, p) == 0
    ensures forall p :: p in Places(t.ne) ==> Which(b, p) == 1
    ensures forall p :: p in Places(t.sw) ==> Which(b, p) == 2
    ensures forall p :: p in Places(t.se) ==> Which(b, p) == 3
  {
    hide Places, Half, Which;
    assert Kid(t, 0) == t.nw && Kid(t, 1) == t.ne && Kid(t, 2) == t.sw && Kid(t, 3) == t.se;
  }

  lemma OwnNear(t: Tree)
    requires t.Quad? && Shaped(t)
    ensures t.place.Some? && !t.leaf ==> exists q :: q in Below(t) && Near(t.place.value, q)
    ensures t.leaf ==> t.nw.Gap? && t.ne.Gap? && t.sw.Gap? && t.se.Gap?
  {
    hide Below;
    if t.place.Some? && !t.leaf {
      var q :| q in Below(t) && Coincident(t.place.value, q);
      assert Near(t.place.value, q);
    }
  }

  lemma WhichSide(b: Box, p: Place)
    ensures var sx, sy := (b.x1 + b.x2) / 2.0, (b.y1 + b.y2) / 2.0;
      && (Which(b, p) == 0 <==> p.x < sx && p.y < sy) && (Which(b, p) == 1 <==> p.x >= sx && p.y < sy)
      && (Which(b, p) == 2 <==> p.x < sx && p.y >= sy) && (Which(b, p) == 3 <==> p.x >= sx && p.y >= sy)
  {
  }

  lemma InCoordinatesHere(t: Tree, b: Box)
    requires t.Quad? && Routed(t, b) && Shaped(t)
    ensures LaidHere(t, (b.x1 + b.x2) / 2.0, (b.y1 + b.y2) / 2.0)
  {
    hide *;
    Sides(t, b);
    OwnNear(t);
    var sx, sy := (b.x1 + b.x2) / 2.0, (b.y1 + b.y2) / 2.0;
    forall p | p in Places(t.nw)
      ensures p.x < sx && p.y < sy
    {
      WhichSide(b, p);
    }
    forall p | p in Places(t.ne)
      ensures p.x >= sx && p.y < sy
    {
      WhichSide(b, p);
    }
    forall p | p in Places(t.sw)
      ensures p.x < sx && p.y >= sy
    {
      WhichSide(b, p);
    }
    forall p | p in Places(t.se)
      ensures p.x >= sx && p.y >= sy
    {
      WhichSide(b, p);
    }
    LaidFold(t, sx, sy);
  }

  lemma LaidFold(t: Tree, sx: real, sy: real)
    requires t.Quad?
    requires forall p :: p in Places(t.nw) ==> p.x < sx && p.y < sy
    requires forall p :: p in Places(t.ne) ==> p.x >= sx && p.y < sy
    requires forall p :: p in Places(t.sw) ==> p.x < sx && p.y >= sy
    requires forall p :: p in Places(t.se) ==> p.x >= sx && p.y >= sy
    requires t.place.Some? && !t.leaf ==> exists q :: q in Below(t) && Near(t.place.value, q)
    requires t.leaf ==> t.nw.Gap? && t.ne.Gap? && t.sw.Gap? && t.se.Gap?
    ensures LaidHere(t, sx, sy)
  {
    hide Places, Below, Near;
  }

  lemma Parted(t: Tree, b: Box)
    requires t.Quad? && Routed(t, b) && Shaped(t)
    ensures Shaped(t.nw) && Shaped(t.ne) && Shaped(t.sw) && Shaped(t.se)
    ensures Routed(t.nw, Half(b, 0)) && Routed(t.ne, Half(b, 1)) && Routed(t.sw, Half(b, 2)) && Routed(t.se, Half(b, 3))
  {
    hide Places, Half, Which;
  }

  lemma {:induction false} InCoordinates(t: Tree, b: Box)
    requires Routed(t, b) && Shaped(t)
    ensures Laid(t, b.x1, b.y1, b.x2, b.y2)
    decreases t
  {
    hide Places, Half, Routed, Shaped, LaidHere;
    if t.Quad? {
      InCoordinatesHere(t, b);
      Parted(t, b);
      InCoordinates(t.nw, Half(b, 0));
      InCoordinates(t.ne, Half(b, 1));
      InCoordinates(t.sw, Half(b, 2));
      InCoordinates(t.se, Half(b, 3));
      Halves(b);
    }
  }

  /** A tree grown from data, in coordinates: it holds exactly the data, laid out as its box says. */
  lemma GrownLaid(data: seq<Place>, b: Box)
    requires Grown(data, b).Some?
    ensures var t := Grown(data, b).value; Places(t) == multiset(data) && Laid(t, b.x1, b.y1, b.x2, b.y2)
  {
    hide Routed, Shaped, Places, Laid, Grown;
    GrownRight(data, b);
    InCoordinates(Grown(data, b).value, b);
  }

  /** What a tree built from these points in this box must be. */
  ghost predicate Represents(root: Node, data: seq<Place>)
    reads root, root.repr
  {
    && root.Valid() && Grown(data, root.box) == Some(root.tree)
    && Right(root.tree, root.box, multiset(data))
    && Laid(root.tree, root.box.x1, root.box.y1, root.box.x2, root.box.y2)
    && ((forall i :: 0 <= i < |data| ==> Inside(root.box, data[i])) ==> Fits(root.tree, root.box))
  }

  lemma Represented(root: Node, data: seq<Place>)
    requires root.Valid() && Grown(data, root.box) == Some(root.tree)
    ensures Represents(root, data)
  {
    GrownRight(data, root.box);
    GrownLaid(data, root.box);
    GrownFits(data, root.box, root.tree);
  }

  /** A tree of one point, and a point that is never inserted into it: both lie beyond the same corner of the box. */
  lemma InsertedInVain(u: Body, v: Body)
    ensures var b, p, q := Box(0.0, 0.0, 1.0, 1.0), Place(u, 5.0, 5.0), Place(v, 6.0, 6.0);
      exists t :: Grown([p], b) == Some(t) && forall calls: nat :: Tried(t, q, b, calls) == None
  {
    var b, p, q := Box(0.0, 0.0, 1.0, 1.0), Place(u, 5.0, 5.0), Place(v, 6.0, 6.0);
    var t := BARE.(place := Some(p));
    BareGrown(b);
    assert [p][..0] == [];
    assert Grown([p], b) == Some(t);
    InsertionEnds(t, q, b);
  }

  /** `root.add`, for a point whose descent ends. */
  method Add(root: Node, b: Box, p: Place, ghost data: seq<Place>)
    requires Represents(root, data) && b == root.box && Ends(root.tree, p, root.box)
    modifies root.repr`leaf, root.repr`nodes, root.repr`place, root.repr`repr, root.repr`parts, root.repr`tree
    ensures Represents(root, data + [p]) && root.box == b && fresh(root.repr - old(root.repr))
      && old(root.repr) <= root.repr
  {
    hide Right, Fits, Laid, Leafy, Ends, Node.Valid;
    GrownNext(data, p, b);
    root.Insert(p, b);
    Represented(root, data + [p]);
  }

  /** `quadtree(data)`, the extent given or found from the data; each point's descent in a given extent must end. */
  method Build(data: seq<Place>, extent: Option<Box>) returns (root: Node, b: Box)
    requires extent.Some? ==> Grown(data, Squared(extent.value)).Some?
    ensures fresh(root.repr) && Represents(root, data) && root.box == b
    ensures if extent.Some? then b == Squared(extent.value) else forall i :: 0 <= i < |data| ==> Inside(b, data[i])
  {
    hide *;
    b := RootBox(data, extent);
    root := new Node(b);
    Represented(root, []) by { BareGrown(b); }
    assert data[..0] == [];
    for i := 0 to |data|
      invariant fresh(root.repr) && root.box == b && Represents(root, data[..i])
    {
      assert data[..i] + [data[i]] == data[..i + 1];
      StillGrows(root, data, i);
      Add(root, b, data[i], data[..i]);
    }
    assert data[..|data|] == data;
  }

  lemma BareGrown(b: Box)
    ensures Grown([], b) == Some(BARE)
  {
  }

  lemma StillGrows(root: Node, data: seq<Place>, i: nat)
    requires i < |data| && Represents(root, data[..i]) && Grown(data, root.box).Some?
    ensures Ends(root.tree, data[i], root.box)
  {
    hide Right, Fits, Laid, Leafy, Ends, Node.Valid, Grown;
    GrownFront(data, root.box, i + 1);
    assert data[..i + 1] == data[..i] + [data[i]];
    GrownNext(data[..i], data[i], root.box);
  }

  method RootBox(data: seq<Place>, extent: Option<Box>) returns (b: Box)
    requires extent.Some? ==> Grown(data, Squared(extent.value)).Some?
    ensures Grown(data, b).Some?
    ensures if extent.Some? then b == Squared(extent.value) else forall i :: 0 <= i < |data| ==> Inside(b, data[i])
  {
    hide Grown, Squared;
    b := Box(0.0, 0.0, 0.0, 0.0);
    if extent.Some? {
      b := Squared(extent.value);
    } else {
      if |data| > 0 {
        var tight := Extent(data);
        b := Squared(tight);
      }
      GrownInside(data, b);
    }
  }

  lemma {:induction false} EverySum(root: Node, m: Node, w: Tick)
    requires root.Valid() && m in root.repr && root.Settled(w)
    ensures Summed(m, w)
    decreases root.repr
  {
    if m != root {
      var i: Quarter :| m in root.parts[i];
      assert Holds(root.nodes[i], Kid(root.tree, i), Half(root.box, i), root.parts[i]);
      assert SettledAt(root.nodes[i], Kid(root.tree, i), Half(root.box, i), root.parts[i], w);
      EverySum(root.nodes[i], m, w);
    }
  }

  /** The nodes where they are now. */
  function PlacesOf(bodies: seq<Body>): (data: seq<Place>)
    reads bodies
    ensures |data| == |bodies| && forall i :: 0 <= i < |data| ==> data[i] == Place(bodies[i], bodies[i].x, bodies[i].y)
  {
    seq(|bodies|, i requires 0 <= i < |bodies| reads bodies => Place(bodies[i], bodies[i].x, bodies[i].y))
  }

  /** What the force layout does in each tick before it repulses: builds the tree and accumulates the charges. */
  method ChargedTree(bodies: seq<Body>, w: Tick) returns (root: Node, b: Box)
    requires OneSign(w) && w.was == (map b | b in bodies :: (b.x, b.y)) && forall i :: 0 <= i < |bodies| ==>
      bodies[i].index < |w.charges|
    requires forall i, j :: 0 <= i < j < |bodies| ==> bodies[i] != bodies[j]
    modifies bodies`x, bodies`y
    ensures fresh(root.repr) && root.Valid() && root.box == b
    ensures Places(root.tree) == multiset(old(PlacesOf(bodies)))
    ensures forall m :: m in root.repr ==> Summed(m, w)
  {
    hide *;
    var data := PlacesOf(bodies);
    root, b := Build(data, None);
    ReadyTree(root, data, bodies, w);
    root.Accumulate(w, set x | x in bodies);
    forall m | m in root.repr
      ensures Summed(m, w)
    {
      EverySum(root, m, w);
    }
  }

  lemma ReadyTree(root: Node, data: seq<Place>, bodies: seq<Body>, w: Tick)
    requires Represents(root, data) && OneSign(w) && |data| == |bodies| && forall i :: 0 <= i < |data| ==>
      data[i].body == bodies[i]
    requires forall i :: 0 <= i < |bodies| ==> bodies[i].index < |w.charges|
    requires forall i, j :: 0 <= i < j < |bodies| ==> bodies[i] != bodies[j]
    ensures root.Valid() && Ready(root.tree, w) && Places(root.tree) == multiset(data)
    ensures (forall b :: b in Movers(root.tree) ==> b in bodies)
      && (w.was == (map b | b in bodies :: (b.x, b.y)) ==> Still(root.tree, w))
  {
    hide Movers, Places, Distinct, Shaped;
    SingleData(data);
    DistinctBodies(root.tree);
    forall b | b in Movers(root.tree)
      ensures b in bodies
    {
      MoverPlaced(root.tree, b);
      var p :| p in Places(root.tree) && p.body == b;
      assert p in data;
    }
  }

  lemma {:induction false} SingleData(data: seq<Place>)
    requires forall i, j :: 0 <= i < j < |data| ==> data[i].body != data[j].body
    ensures Single(multiset(data))
  {
    if data != [] {
      var n := |data| - 1;
      SingleData(data[..n]);
      assert data == data[..n] + [data[n]];
    }
  }

  lemma Opening(t: Tree, i: Quarter)
    requires t.Quad?
    ensures forall k, l :: WithKid(WithKid(t, i, k), i, l) == WithKid(t, i, l)
    ensures forall k :: Kid(WithKid(t, i, k), i) == k
    ensures WithKid(t, i, Kid(t, i)) == t
    ensures Kid(t.(leaf := false), i) == Kid(t, i)
  {
  }
}
