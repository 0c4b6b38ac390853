/**
 * GraphD3's store: an array of vertices and an array of edges edited in place, each shadowed by a
 * table from id to index, edges that refer to vertex objects, and eviction by sequence number.
 */
module Graph {
  import DataJoin

  /** A vertex or edge id. */
  datatype Id = Id(text: string)

  // ---------- index tables ----------

  ghost predicate Unique(ids: seq<Id>) {
    forall i, j :: 0 <= i < j < |ids| ==> ids[i] != ids[j]
  }

  ghost predicate Sound(ids: seq<Id>, refs: map<Id, nat>) {
    forall s :: s in refs ==> refs[s] < |ids| && ids[refs[s]] == s
  }

  /** The table and the array are inverse to each other. */
  ghost predicate Exact(ids: seq<Id>, refs: map<Id, nat>) {
    Sound(ids, refs) && forall i :: 0 <= i < |ids| ==> ids[i] in refs && refs[ids[i]] == i
  }

  /** As exact, except that entries for some ids may be missing. */
  ghost predicate ExactBut(ids: seq<Id>, refs: map<Id, nat>, cleared: set<Id>) {
    Unique(ids) && Sound(ids, refs) && forall i :: 0 <= i < |ids| ==> ids[i] in refs || ids[i] in cleared
  }

  /** The elements not marked for dropping, in order. */
  ghost function Kept<T>(xs: seq<T>, drop: seq<bool>): (r: seq<T>)
    requires |xs| == |drop|
    ensures |r| <= |xs|
  {
    if xs == [] then []
    else Kept(xs[..|xs| - 1], drop[..|xs| - 1]) + (if drop[|xs| - 1] then [] else [xs[|xs| - 1]])
  }

  lemma {:induction false} KeptNext<T>(xs: seq<T>, drop: seq<bool>, n: nat)
    requires |xs| == |drop| && n < |xs|
    ensures Kept(xs[..n + 1], drop[..n + 1]) == Kept(xs[..n], drop[..n]) + (if drop[n] then [] else [xs[n]])
  {
    assert xs[..n + 1][..n] == xs[..n] && drop[..n + 1][..n] == drop[..n];
  }

  /** Splicing out the element under the loop index, or moving past it. */
  lemma {:induction false} KeptSplice<T>(xs: seq<T>, drop: seq<bool>, now: seq<T>, done: nat, i: nat)
    requires |xs| == |drop| && done < |xs|
    requires now == Kept(xs[..done], drop[..done]) + xs[done..] && i == |Kept(xs[..done], drop[..done])|
    ensures i < |now| && now[i] == xs[done]
    ensures drop[done] ==> now[..i] + now[i + 1..] == Kept(xs[..done + 1], drop[..done + 1]) + xs[done + 1..]
    ensures !drop[done] ==> now == Kept(xs[..done + 1], drop[..done + 1]) + xs[done + 1..]
  {
    KeptNext(xs, drop, done);
    hide Kept;
  }

  lemma {:induction false} KeptElements<T>(xs: seq<T>, drop: seq<bool>)
    requires |xs| == |drop|
    ensures forall k :: 0 <= k < |Kept(xs, drop)| ==> exists i ::
      0 <= i < |xs| && xs[i] == Kept(xs, drop)[k] && !drop[i]
    ensures forall i :: 0 <= i < |xs| && !drop[i] ==> xs[i] in Kept(xs, drop)
  {
    if xs == [] {
      assert |Kept(xs, drop)| == 0;
    } else {
      var n := |xs| - 1;
      KeptElements(xs[..n], drop[..n]);
      var front, all := Kept(xs[..n], drop[..n]), Kept(xs, drop);
      assert all == front + (if drop[n] then [] else [xs[n]]);
      forall k | 0 <= k < |all|
        ensures exists i :: 0 <= i < |xs| && xs[i] == all[k] && !drop[i]
      {
        if k < |front| {
          var i :| 0 <= i < n && xs[..n][i] == front[k] && !drop[..n][i];
          assert xs[i] == all[k] && !drop[i];
        } else {
          assert xs[n] == all[k] && !drop[n];
        }
      }
      forall i | 0 <= i < |xs| && !drop[i]
        ensures xs[i] in all
      {
        if i < n {
          assert xs[..n][i] in front;
        } else {
          assert all[|front|] == xs[n];
        }
      }
    }
  }

  lemma {:induction false} KeptUnique(ids: seq<Id>, drop: seq<bool>)
    requires |ids| == |drop| && Unique(ids)
    ensures Unique(Kept(ids, drop))
  {
    if ids != [] {
      var n := |ids| - 1;
      KeptUnique(ids[..n], drop[..n]);
      KeptElements(ids[..n], drop[..n]);
      var k := Kept(ids[..n], drop[..n]);
      forall i | 0 <= i < |k|
        ensures k[i] != ids[n]
      {
        var j :| 0 <= j < n && ids[..n][j] == k[i] && !drop[..n][j];
      }
    }
  }

  /**
   * The splicing loops of `removeVerticesFromCanvas`, on the ids: the first `done` elements have been
   * looked at, `i` of them are left, the table is right for those, and knows no id that is gone.
   */
  ghost predicate Purging(ids: seq<Id>, drop: seq<bool>, now: seq<Id>, done: nat, i: nat, refs: map<Id, nat>) {
    && |ids| == |drop| && done <= |ids| && Unique(ids)
    && i == |Kept(ids[..done], drop[..done])| && now == Kept(ids[..done], drop[..done]) + ids[done..]
    && (forall k :: 0 <= k < i ==> now[k] in refs && refs[now[k]] == k)
    && (forall s :: s in refs ==> s in now)
  }

  lemma {:induction false} PurgingUnique(ids: seq<Id>, drop: seq<bool>, done: nat)
    requires |ids| == |drop| && done <= |ids| && Unique(ids)
    ensures Unique(Kept(ids[..done], drop[..done]) + ids[done..])
  {
    var head := Kept(ids[..done], drop[..done]);
    KeptUnique(ids[..done], drop[..done]);
    KeptElements(ids[..done], drop[..done]);
    forall k, j | 0 <= k < |head| && done <= j < |ids|
      ensures head[k] != ids[j]
    {
      var i :| 0 <= i < done && ids[..done][i] == head[k] && !drop[..done][i];
    }
  }

  lemma {:induction false} PurgeStart(ids: seq<Id>, drop: seq<bool>, refs: map<Id, nat>, cleared: set<Id>)
    requires ExactBut(ids, refs, cleared) && |drop| == |ids|
    ensures Purging(ids, drop, ids, 0, 0, refs)
  {
    assert ids[..0] == [];
  }

  lemma {:induction false} PurgeStep(ids: seq<Id>, drop: seq<bool>, now: seq<Id>, done: nat, i: nat, refs: map<Id, nat>)
    requires Purging(ids, drop, now, done, i, refs) && done < |ids|
    ensures i < |now| && now[i] == ids[done]
    ensures drop[done] ==> Purging(ids, drop, now[..i] + now[i + 1..], done + 1, i, refs - {ids[done]})
    ensures !drop[done] ==> Purging(ids, drop, now, done + 1, i + 1, refs[ids[done] := i])
  {
    PurgingUnique(ids, drop, done);
    KeptNext(ids, drop, done);
    KeptSplice(ids, drop, now, done, i);
    if drop[done] { TableDrops(now, i, refs); } else { TableKeeps(now, i, refs); }
    hide Kept, Unique;
  }

  lemma {:induction false} TableDrops(now: seq<Id>, i: nat, refs: map<Id, nat>)
    requires Unique(now) && i < |now|
    requires forall k :: 0 <= k < i ==> now[k] in refs && refs[now[k]] == k
    requires forall s :: s in refs ==> s in now
    ensures var after, table := now[..i] + now[i + 1..], refs - {now[i]};
      && (forall k :: 0 <= k < i ==> after[k] in table && table[after[k]] == k)
      && (forall s :: s in table ==> s in after)
  {
    var after := now[..i] + now[i + 1..];
    forall s | s in refs - {now[i]}
      ensures s in after
    {
      var k :| 0 <= k < |now| && now[k] == s;
      assert s == after[if k < i then k else k - 1];
    }
  }

  lemma {:induction false} TableKeeps(now: seq<Id>, i: nat, refs: map<Id, nat>)
    requires Unique(now) && i < |now|
    requires forall k :: 0 <= k < i ==> now[k] in refs && refs[now[k]] == k
    requires forall s :: s in refs ==> s in now
    ensures var table := refs[now[i] := i];
      && (forall k :: 0 <= k < i + 1 ==> now[k] in table && table[now[k]] == k)
      && (forall s :: s in table ==> s in now)
  {
  }

  lemma {:induction false} PurgeEnd(ids: seq<Id>, drop: seq<bool>, now: seq<Id>, i: nat, refs: map<Id, nat>)
    requires Purging(ids, drop, now, |ids|, i, refs)
    ensures now == Kept(ids, drop) && Exact(now, refs) && Unique(now)
  {
    assert ids[..|ids|] == ids && drop[..|ids|] == drop;
    PurgingUnique(ids, drop, |ids|);
  }

  // ---------- counting ----------

  /** Distinct numbers below `bound` are no more than `bound`. */
  lemma {:induction false} Pigeonhole(xs: seq<nat>, bound: nat)
    requires forall i :: 0 <= i < |xs| ==> xs[i] < bound
    requires forall i, j :: 0 <= i < j < |xs| ==> xs[i] != xs[j]
    ensures |xs| <= bound
    decreases bound
  {
    if xs == [] {
    } else if exists i :: 0 <= i < |xs| && xs[i] == bound - 1 {
      var i :| 0 <= i < |xs| && xs[i] == bound - 1;
      Pigeonhole(xs[..i] + xs[i + 1..], bound - 1);
    } else {
      assert xs[0] < bound;
      Pigeonhole(xs, bound - 1);
    }
  }

  // ---------- the store ----------

  /** What a reply says of one vertex; `es` is only used when the vertex is new. */
  datatype VertexData = VertexData(id: Id, es: string, info: string)

  datatype EdgeData = EdgeData(source: Id, targets: seq<Id>)

  class Vertex {
    const id: Id
    var number: nat // `seq`
    var es: string
    var info: string

    constructor (data: VertexData, number: nat)
      ensures id == data.id && this.number == number && es == data.es && info == data.info
    {
      id, this.number, es, info := data.id, number, data.es, data.info;
    }
  }

  class Edge {
    const id: Id
    const source: Vertex
    const target: Vertex

    constructor (id: Id, source: Vertex, target: Vertex)
      ensures this.id == id && this.source == source && this.target == target
    {
      this.id, this.source, this.target := id, source, target;
    }
  }

  function VertexIds(vs: seq<Vertex>): (ids: seq<Id>)
    ensures |ids| == |vs| && forall i :: 0 <= i < |vs| ==> ids[i] == vs[i].id
  {
    seq(|vs|, i requires 0 <= i < |vs| => vs[i].id)
  }

  function IdsOf(list: seq<Vertex>): set<Id> {
    set v <- list :: v.id
  }

  function EdgeIds(es: seq<Edge>): (ids: seq<Id>)
    ensures |ids| == |es| && forall i :: 0 <= i < |es| ==> ids[i] == es[i].id
  {
    seq(|es|, i requires 0 <= i < |es| => es[i].id)
  }

  ghost function DropVertices(vs: seq<Vertex>, ids: set<Id>): (d: seq<bool>)
    ensures |d| == |vs| && forall i :: 0 <= i < |vs| ==> d[i] == (vs[i].id in ids)
  {
    seq(|vs|, i requires 0 <= i < |vs| => vs[i].id in ids)
  }

  ghost function DropEdges(es: seq<Edge>, ids: set<Id>): (d: seq<bool>)
    ensures |d| == |es| && forall i :: 0 <= i < |es| ==> d[i] == (es[i].source.id in ids || es[i].target.id in ids)
  {
    seq(|es|, i requires 0 <= i < |es| => es[i].source.id in ids || es[i].target.id in ids)
  }

  /** The vertices whose id is not among `ids`, in order, and the edges between such vertices. */
  ghost function WithoutVertices(vs: seq<Vertex>, ids: set<Id>): seq<Vertex> {
    Kept(vs, DropVertices(vs, ids))
  }

  ghost function WithoutEdges(es: seq<Edge>, ids: set<Id>): seq<Edge> {
    Kept(es, DropEdges(es, ids))
  }

  function EdgeId(source: Id, target: Id): Id {
    Id(source.text + "-" + target.text)
  }

  ghost predicate Named(es: seq<Edge>) {
    forall i :: 0 <= i < |es| ==> es[i].id == EdgeId(es[i].source.id, es[i].target.id)
  }

  ghost predicate EndpointsIn(es: seq<Edge>, vs: seq<Vertex>) {
    forall i :: 0 <= i < |es| ==> es[i].source in vs && es[i].target in vs
  }

  /** Dropping vertices together with the edges that touch them leaves no edge dangling. */
  lemma {:induction false} EndpointsKept(es: seq<Edge>, vs: seq<Vertex>, ids: set<Id>)
    requires EndpointsIn(es, vs)
    ensures EndpointsIn(WithoutEdges(es, ids), WithoutVertices(vs, ids))
  {
    var kept := WithoutEdges(es, ids);
    KeptElements(es, DropEdges(es, ids));
    KeptElements(vs, DropVertices(vs, ids));
    forall i | 0 <= i < |kept|
      ensures kept[i].source in WithoutVertices(vs, ids) && kept[i].target in WithoutVertices(vs, ids)
    {
      var j :| 0 <= j < |es| && es[j] == kept[i] && !DropEdges(es, ids)[j];
      var s :| 0 <= s < |vs| && vs[s] == es[j].source;
      var t :| 0 <= t < |vs| && vs[t] == es[j].target;
      assert !DropVertices(vs, ids)[s] && !DropVertices(vs, ids)[t];
    }
  }

  ghost function Numbers(vs: seq<Vertex>): (ns: seq<nat>)
    reads vs
    ensures |ns| == |vs| && forall i :: 0 <= i < |vs| ==> ns[i] == vs[i].number
  {
    seq(|vs|, i requires 0 <= i < |vs| reads vs => vs[i].number)
  }

  ghost function Infos(vs: seq<Vertex>): (texts: seq<string>)
    reads vs
    ensures |texts| == |vs| && forall i :: 0 <= i < |vs| ==> texts[i] == vs[i].info
  {
    seq(|vs|, i requires 0 <= i < |vs| reads vs => vs[i].info)
  }

  /** The numbers are distinct, and none is above `top`. */
  ghost predicate NumbersOk(ns: seq<nat>, top: nat) {
    && (forall i :: 0 <= i < |ns| ==> ns[i] <= top)
    && (forall i, j :: 0 <= i < j < |ns| ==> ns[i] != ns[j])
  }

  /** Where an id was shown before, it is on the same circle now. */
  ghost predicate Reused<T>(ids: seq<Id>, circles: seq<T>, newIds: seq<Id>, newCircles: seq<T>)
    requires |ids| == |circles| && |newIds| == |newCircles|
  {
    forall i, j :: 0 <= i < |ids| && 0 <= j < |newIds| && ids[i] == newIds[j] ==> circles[i] == newCircles[j]
  }

  class GraphD3 {
    var vertices: seq<Vertex>
    var edges: seq<Edge>
    var vertexRefs: map<Id, nat>
    var edgeRefs: map<Id, nat>
    var circles: seq<DataJoin.Element<Vertex>> // the circles of the canvas, with the vertices bound to them
    var saved: seq<Id>   // the vertex ids in local storage
    var vertexSequence: nat
    var vertexSequenceEnd: nat

    /** What holds between two operations. */
    ghost predicate Consistent()
      reads this, vertices, circles
    {
      && Exact(VertexIds(vertices), vertexRefs)
      && Exact(EdgeIds(edges), edgeRefs) && EndpointsIn(edges, vertices) && Named(edges)
      && NumbersOk(Numbers(vertices), vertexSequence) && vertexSequenceEnd <= vertexSequence
      && Drawn()
    }

    /** Each vertex has a circle of its own, in the order of the array. */
    ghost predicate Drawn()
      reads this`circles, this`vertices, circles
    {
      DataJoin.Distinct(circles) && DataJoin.Data(circles) == vertices
    }

    ghost predicate Stored()
      reads this`saved, this`vertices
    {
      saved == VertexIds(vertices)
    }

    constructor ()
      ensures Consistent() && Stored() && vertices == []
    {
      vertices, edges, vertexRefs, edgeRefs, circles, saved := [], [], map[], map[], [], [];
      vertexSequence, vertexSequenceEnd := 0, 0;
    }

    method Save()
      modifies this`saved
      ensures Stored()
    {
      saved := VertexIds(vertices);
    }

    /** The circles on the canvas are distinct, and no two show the same id. */
    ghost predicate Circled()
      reads this`circles, circles
    {
      DataJoin.Distinct(circles) && Unique(VertexIds(DataJoin.Data(circles)))
    }

    /** The data join by id: afterwards the canvas shows exactly the vertices, on their old circles if they had one. */
    method Restart()
      requires Circled() && Unique(VertexIds(vertices))
      modifies this`circles, circles
      ensures Drawn()
      ensures Reused(VertexIds(old(DataJoin.Data(circles))), old(circles), VertexIds(vertices), circles)
      ensures forall j :: 0 <= j < |vertices| && vertices[j].id !in VertexIds(old(DataJoin.Data(circles))) ==>
                fresh(circles[j])
    {
      var key := (v: Vertex) => v.id;
      assert DataJoin.Keys(vertices, key) == VertexIds(vertices);
      assert DataJoin.Keys(DataJoin.Data(circles), key) == VertexIds(DataJoin.Data(circles));
      circles := DataJoin.Restart(circles, vertices, key);
    }

    /** The first loop of `removeVerticesFromCanvas`. */
    method PurgeVertices(ids: set<Id>)
      requires ExactBut(VertexIds(vertices), vertexRefs, ids)
      modifies this`vertices, this`vertexRefs
      ensures vertices == WithoutVertices(old(vertices), ids) && Exact(VertexIds(vertices), vertexRefs)
    {
      hide *;
      ghost var vs := vertices;
      ghost var done: nat := 0;
      var i: nat := 0;
      PurgeVerticesStart(vs, ids, vertexRefs);
      while i < |vertices|
        invariant PurgingVertices(vs, ids, vertices, done, i, vertexRefs)
        decreases |vertices| - i
      {
        PurgeVerticesStep(vs, ids, vertices, done, i, vertexRefs);
        var n := vertices[i];
        if n.id in ids {
          vertices := vertices[..i] + vertices[i + 1..];
          vertexRefs := vertexRefs - {n.id};
        } else {
          vertexRefs := vertexRefs[n.id := i];
          i := i + 1;
        }
        done := done + 1;
      }
      PurgeVerticesEnd(vs, ids, vertices, done, i, vertexRefs);
    }

    /** Its second loop. */
    method PurgeEdges(ids: set<Id>)
      requires Exact(EdgeIds(edges), edgeRefs)
      modifies this`edges, this`edgeRefs
      ensures edges == WithoutEdges(old(edges), ids) && Exact(EdgeIds(edges), edgeRefs)
    {
      hide *;
      ghost var es := edges;
      ghost var done: nat := 0;
      var i: nat := 0;
      PurgeEdgesStart(es, ids, edgeRefs);
      while i < |edges|
        invariant PurgingEdges(es, ids, edges, done, i, edgeRefs)
        decreases |edges| - i
      {
        PurgeEdgesStep(es, ids, edges, done, i, edgeRefs);
        var l := edges[i];
        if l.source.id in ids || l.target.id in ids {
          edges := edges[..i] + edges[i + 1..];
          edgeRefs := edgeRefs - {l.id};
        } else {
          edgeRefs := edgeRefs[l.id := i];
          i := i + 1;
        }
        done := done + 1;
      }
      PurgeEdgesEnd(es, ids, edges, done, i, edgeRefs);
    }

    lemma {:induction false} ConsistentAfterPurge(vs: seq<Vertex>, es: seq<Edge>, ids: set<Id>)
      requires vertices == WithoutVertices(vs, ids) && edges == WithoutEdges(es, ids) && Drawn()
      requires NumbersOk(Numbers(vs), vertexSequence) && EndpointsIn(es, vs) && Named(es)
        && vertexSequenceEnd <= vertexSequence
      requires Exact(VertexIds(vertices), vertexRefs) && Exact(EdgeIds(edges), edgeRefs)
      ensures Consistent()
    {
      EndpointsKept(es, vs, ids);
      KeptElements(es, DropEdges(es, ids));
      KeptNumbers(vs, DropVertices(vs, ids));
      KeptNumbersOk(Numbers(vs), DropVertices(vs, ids), vertexSequence);
      hide Exact, EndpointsIn;
    }

    /** Removes the given vertices and every edge at one of them. */
    method RemoveVerticesFromCanvas(list: seq<Vertex>)
      requires ExactBut(VertexIds(vertices), vertexRefs, IdsOf(list)) && Circled()
      requires Exact(EdgeIds(edges), edgeRefs) && EndpointsIn(edges, vertices) && Named(edges)
      requires NumbersOk(Numbers(vertices), vertexSequence) && vertexSequenceEnd <= vertexSequence
      modifies this, circles
      ensures Consistent() && Stored()
      ensures vertices == WithoutVertices(old(vertices), IdsOf(list))
      ensures edges == WithoutEdges(old(edges), IdsOf(list))
      ensures Reused(VertexIds(old(DataJoin.Data(circles))), old(circles), VertexIds(vertices), circles)
      ensures vertexSequence == old(vertexSequence) && vertexSequenceEnd == old(vertexSequenceEnd)
    {
      hide *;
      var ids := IdsOf(list);
      ghost var vs, es := vertices, edges;
      PurgeVertices(ids);
      PurgeEdges(ids);
      Save();
      ExactIsExactBut(VertexIds(vertices), vertexRefs, ids);
      Restart();
      ConsistentAfterPurge(vs, es, ids);
    }

    /** One vertex of a reply within the limit: pushed if the table does not know it, updated otherwise. */
    method DrawVertex(ghost vs: seq<Vertex>, reply: seq<VertexData>, max: nat, k: nat)
      requires k < |reply| && k < max && DistinctReply(reply)
      requires vs <= vertices
        && Added(VertexIds(vertices), Numbers(vertices), Infos(vertices), vertexRefs, |vs|, reply, max, k,
            vertexSequenceEnd)
      requires vertexSequence == vertexSequenceEnd + k
      modifies this`vertices, this`vertexRefs, this`vertexSequence, vertices`number, vertices`info
      ensures Added(VertexIds(vertices), Numbers(vertices), Infos(vertices), vertexRefs, |vs|, reply, max, k + 1,
        vertexSequenceEnd)
      ensures vertexSequence == old(vertexSequence) + 1 && old(vertices) <= vertices
      ensures forall i :: |old(vertices)| <= i < |vertices| ==>
                fresh(vertices[i]) && vertices[i].id == reply[k].id && vertices[i].es == reply[k].es
      ensures OnlyAt(VertexIds(old(vertices)), old(Numbers(vertices)), old(Infos(vertices)), Numbers(vertices),
        Infos(vertices), reply[k].id)
    {
      hide *;
      ghost var now, numbers, infos := vertices, Numbers(vertices), Infos(vertices);
      vertexSequence := vertexSequence + 1;
      var data := reply[k];
      RefsInRange(VertexIds(now), numbers, infos, vertexRefs, |vs|, reply, max, k, vertexSequenceEnd);
      if data.id !in vertexRefs {
        AddingPush(VertexIds(now), numbers, infos, vertexRefs, |vs|, reply, max, k, vertexSequenceEnd);
        var v := new Vertex(data, vertexSequence);
        vertices := vertices + [v];
        vertexRefs := vertexRefs[data.id := |vertices| - 1];
        assert VertexIds(vertices) == VertexIds(now) + [data.id];
        OnlyLonger(VertexIds(now), numbers, infos, vertexSequence, data);
        assert Numbers(vertices) == numbers + [vertexSequence] && Infos(vertices) == infos + [data.info];
      } else {
        AddingUpdate(VertexIds(now), numbers, infos, vertexRefs, |vs|, reply, max, k, vertexSequenceEnd);
        ghost var at := vertexRefs[data.id];
        var v := vertices[vertexRefs[data.id]];
        v.number := vertexSequence;
        v.info := data.info;
        assert forall i :: 0 <= i < |now| && i != at ==> now[i].id != v.id;
        assert Numbers(vertices) == numbers[at := vertexSequence] && Infos(vertices) == infos[at := data.info];
        OnlyThere(VertexIds(now), numbers, infos, at, vertexSequence, data);
      }
    }

    /** The first `max` vertices of a reply are drawn; for the others the table forgets the id. */
    method AddVertices(reply: seq<VertexData>, max: nat)
      requires Exact(VertexIds(vertices), vertexRefs) && NumbersOk(Numbers(vertices), vertexSequence)
      requires vertexSequenceEnd == vertexSequence && DistinctReply(reply)
      modifies this`vertices, this`vertexRefs, this`vertexSequence, vertices`number, vertices`info
      ensures Added(VertexIds(vertices), Numbers(vertices), Infos(vertices), vertexRefs, |old(vertices)|, reply, max,
        |reply|, vertexSequenceEnd)
      ensures vertexSequence == vertexSequenceEnd + Least(|reply|, max)
      ensures old(vertices) <= vertices
      ensures forall i :: |old(vertices)| <= i < |vertices| ==> fresh(vertices[i]) && Brought(vertices[i], reply, max)
      ensures Untouched(VertexIds(old(vertices)), old(Numbers(vertices)), old(Infos(vertices)), Numbers(vertices),
        Infos(vertices), reply, max)
    {
      hide *;
      ghost var vs, ns, infos := vertices, Numbers(vertices), Infos(vertices);
      UntouchedStart(VertexIds(vs), ns, infos, reply, max);
      var k := 0;
      AddingStart(VertexIds(vs), Numbers(vs), Infos(vs), vertexRefs, reply, max, vertexSequence);
      while k < |reply|
        invariant 0 <= k <= |reply| && vs <= vertices
        invariant Added(VertexIds(vertices), Numbers(vertices), Infos(vertices), vertexRefs, |vs|, reply, max, k,
          vertexSequenceEnd)
        invariant vertexSequence == vertexSequenceEnd + (if k < max then k else max)
        invariant forall i :: |vs| <= i < |vertices| ==> fresh(vertices[i]) && Brought(vertices[i], reply, max)
        invariant Untouched(VertexIds(vs), ns, infos, Numbers(vertices), Infos(vertices), reply, max)
      {
        if k + 1 > max {
          AddingForget(VertexIds(vertices), Numbers(vertices), Infos(vertices), vertexRefs, |vs|, reply, max, k,
              vertexSequenceEnd);
          vertexRefs := vertexRefs - {reply[k].id};
        } else {
          ghost var before, numbers, texts := vertices, Numbers(vertices), Infos(vertices);
          DrawVertex(vs, reply, max, k);
          IsBrought(vertices, |before|, reply, max, k);
          UntouchedNext(VertexIds(vs), ns, infos, VertexIds(before), numbers, texts, Numbers(vertices),
              Infos(vertices), reply, max, k);
        }
        k := k + 1;
      }
    }

    /** The circles too old for the canvas when there are more than `max` vertices. */
    method GetOverflowingVertices(max: nat) returns (list: seq<Vertex>)
      ensures |vertices| <= max ==> list == []
      ensures |vertices| > max ==> Below(list, DataJoin.Data(circles), vertexSequence - max + 1)
    {
      list := [];
      if |vertices| > max {
        list := CirclesBelow(vertexSequence - max + 1);
      }
    }

    /** `$("circle").filter`: the circles whose vertex has a number below `bound`. */
    method CirclesBelow(bound: int) returns (list: seq<Vertex>)
      ensures Below(list, DataJoin.Data(circles), bound)
    {
      ghost var shown := DataJoin.Data(circles);
      list := [];
      for i := 0 to |circles|
        invariant Below(list, shown[..i], bound)
      {
        assert shown[..i + 1] == shown[..i] + [shown[i]];
        if circles[i].data.number < bound { list := list + [circles[i].data]; }
      }
      assert shown[..|shown|] == shown;
    }

    method AddEdge(source: Id, target: Id)
      requires Exact(EdgeIds(edges), edgeRefs) && EndpointsIn(edges, vertices) && Sound(VertexIds(vertices), vertexRefs)
      modifies this`edges, this`edgeRefs
      ensures Exact(EdgeIds(edges), edgeRefs) && EndpointsIn(edges, vertices)
      ensures edges == old(edges) ||
              (|edges| == |old(edges)| + 1 && old(edges) <= edges && Joins(edges[|old(edges)|], source, target))
      ensures source in vertexRefs && target in vertexRefs ==> EdgeId(source, target) in edgeRefs
      ensures forall id :: id in old(edgeRefs) ==> id in edgeRefs
    {
      hide Exact, EdgeId;
      var id := EdgeId(source, target);
      if id !in edgeRefs {
        if source in vertexRefs && target in vertexRefs {
          var e := new Edge(id, vertices[vertexRefs[source]], vertices[vertexRefs[target]]);
          assert VertexIds(vertices)[vertexRefs[source]] == source && VertexIds(vertices)[vertexRefs[target]] == target;
          ExactPush(EdgeIds(edges), edgeRefs, id);
          edges := edges + [e];
          edgeRefs := edgeRefs[id := |edges| - 1];
          assert EdgeIds(edges) == EdgeIds(old(edges)) + [id];
        }
      }
    }

    method AddEdges(reply: seq<EdgeData>)
      requires Exact(EdgeIds(edges), edgeRefs) && EndpointsIn(edges, vertices) && Sound(VertexIds(vertices), vertexRefs)
      modifies this`edges, this`edgeRefs
      ensures Exact(EdgeIds(edges), edgeRefs) && EndpointsIn(edges, vertices) && old(edges) <= edges
      ensures old(Named(edges)) ==> Named(edges)
      ensures forall i :: |old(edges)| <= i < |edges| ==> Replied(reply, edges[i].source.id, edges[i].target.id)
      ensures forall s, t :: Replied(reply, s, t) && s in vertexRefs && t in vertexRefs ==> EdgeId(s, t) in edgeRefs
    {
      hide Exact, EndpointsIn, Sound, VertexIds, EdgeIds, EdgeId;
      for a := 0 to |reply|
        invariant Exact(EdgeIds(edges), edgeRefs) && EndpointsIn(edges, vertices) && old(edges) <= edges
        invariant old(Named(edges)) ==> Named(edges)
        invariant forall i :: |old(edges)| <= i < |edges| ==> Replied(reply, edges[i].source.id, edges[i].target.id)
        invariant forall s, t :: RepliedBefore(reply, a, s, t) && s in vertexRefs && t in vertexRefs ==>
          EdgeId(s, t) in edgeRefs
      {
        var targets := reply[a].targets;
        for b := 0 to |targets|
          invariant Exact(EdgeIds(edges), edgeRefs) && EndpointsIn(edges, vertices) && old(edges) <= edges
          invariant old(Named(edges)) ==> Named(edges)
          invariant forall i :: |old(edges)| <= i < |edges| ==> Replied(reply, edges[i].source.id, edges[i].target.id)
          invariant forall s, t :: RepliedBefore(reply, a, s, t) && s in vertexRefs && t in vertexRefs ==>
            EdgeId(s, t) in edgeRefs
          invariant forall i :: 0 <= i < b && reply[a].source in vertexRefs && targets[i] in vertexRefs ==>
                      EdgeId(reply[a].source, targets[i]) in edgeRefs
        {
          assert Replied(reply, reply[a].source, targets[b]);
          AddEdge(reply[a].source, targets[b]);
        }
      }
    }

    /** The end of `onmessage`: the eviction list is removed, or the canvas is just drawn again. */
    method Evict(list: seq<Vertex>)
      requires ExactBut(VertexIds(vertices), vertexRefs, IdsOf(list)) && Circled()
      requires Exact(EdgeIds(edges), edgeRefs) && EndpointsIn(edges, vertices) && Named(edges)
      requires NumbersOk(Numbers(vertices), vertexSequence) && vertexSequenceEnd <= vertexSequence && Stored()
      modifies this, circles
      ensures Consistent() && Stored()
      ensures vertices == WithoutVertices(old(vertices), IdsOf(list))
      ensures edges == WithoutEdges(old(edges), IdsOf(list))
      ensures Reused(VertexIds(old(DataJoin.Data(circles))), old(circles), VertexIds(vertices), circles)
      ensures vertexSequence == old(vertexSequence) && vertexSequenceEnd == old(vertexSequenceEnd)
    {
      hide *;
      ghost var evicted := IdsOf(list);
      if list != [] {
        RemoveVerticesFromCanvas(list);
      } else {
        NothingEvicted(list, vertices, edges, VertexIds(vertices), vertexRefs, evicted);
        Restart();
        Whole();
      }
    }

    /** The first half of `onmessage`: the vertices of the reply, and which vertices are to be evicted. */
    method Arrive(reply: seq<VertexData>, max: nat) returns (list: seq<Vertex>)
      requires Consistent() && DistinctReply(reply)
      modifies this`vertices, this`vertexRefs, this`vertexSequence, this`vertexSequenceEnd, this`saved,
        vertices`number, vertices`info
      ensures vertexSequenceEnd == old(vertexSequence) <= vertexSequence && NumbersOk(Numbers(vertices), vertexSequence)
      ensures Arrived(old(vertices), vertices, IdsOf(list), vertexRefs, reply, max, vertexSequenceEnd, vertexSequence)
      ensures ExactBut(VertexIds(vertices), vertexRefs, IdsOf(list)) && Stored() && old(vertices) <= vertices
      ensures forall i :: |old(vertices)| <= i < |vertices| ==> fresh(vertices[i]) && Brought(vertices[i], reply, max)
      ensures Untouched(VertexIds(old(vertices)), old(Numbers(vertices)), old(Infos(vertices)), Numbers(vertices),
        Infos(vertices), reply, max)
    {
      hide *;
      Pieces();
      ghost var vs := vertices;
      vertexSequenceEnd := vertexSequence;
      AddVertices(reply, max);
      list := GetOverflowingVertices(max);
      ghost var end, top := vertexSequenceEnd, vertexSequence;
      UniqueIds(VertexIds(vertices), Numbers(vertices), Infos(vertices), vertexRefs, |vs|, reply, max, |reply|, end);
      EvictedExactly(vertices, vs, list, max, top - max + 1);
      ForgottenAreEvicted(vertices, vs, IdsOf(list), vertexRefs, reply, max, end, top);
      AllArrived(vs, vertices, IdsOf(list), vertexRefs, reply, max, end, top);
      Save();
    }

    /** The second half: the edges of the reply, the eviction, the canvas. */
    method Connect(list: seq<Vertex>, reply: seq<EdgeData>)
      requires ExactBut(VertexIds(vertices), vertexRefs, IdsOf(list)) && Circled()
      requires Exact(EdgeIds(edges), edgeRefs) && EndpointsIn(edges, vertices) && Named(edges)
      requires NumbersOk(Numbers(vertices), vertexSequence) && vertexSequenceEnd <= vertexSequence && Stored()
      modifies this, circles
      ensures Consistent() && Stored() && vertices == WithoutVertices(old(vertices), IdsOf(list))
      ensures Reused(VertexIds(old(DataJoin.Data(circles))), old(circles), VertexIds(vertices), circles)
      ensures forall e :: e in old(edges) && e.source in vertices && e.target in vertices ==> e in edges
      ensures forall e :: e in edges ==> e in old(edges) || Replied(reply, e.source.id, e.target.id)
      ensures forall s, t :: Replied(reply, s, t) && s in vertexRefs && t in vertexRefs ==>
                EdgeId(s, t) in edgeRefs || Misspelt(s, t, vertexRefs, old(edges), reply)
      ensures vertexSequence == old(vertexSequence) && vertexSequenceEnd == old(vertexSequenceEnd)
    {
      hide *;
      ghost var es, now, evicted, refs := edges, vertices, IdsOf(list), vertexRefs;
      SoundBut(VertexIds(now), refs, evicted);
      AddEdges(reply);
      ghost var es1, table := edges, edgeRefs;
      Evict(list);
      Pieces();
      DrawnUnlessMisspelt(es, es1, table, refs, now, evicted, edgeRefs, vertexRefs, reply);
      EdgesSurvive(es1, now, evicted);
      EdgesFrom(es, es1, reply);
    }

    /** A graph message: vertices, eviction list, edges, eviction, canvas. */
    method OnMessage(reply: seq<VertexData>, replyEdges: seq<EdgeData>, max: nat)
      requires Consistent() && DistinctReply(reply)
      modifies this, vertices`number, vertices`info, circles
      ensures Consistent() && Stored()
      ensures |vertices| <= max
      // each of the first `max` vertices of the reply is there, with its new data and the newest numbers
      ensures forall j :: 0 <= j < |reply| && j < max ==> Shown(vertices, reply[j], old(vertexSequence) + j + 1)
      // nothing else is new, and what was evicted is older than all that stayed
      ensures forall w :: w in vertices ==> w in old(vertices) || exists j ::
        0 <= j < |reply| && j < max && w.id == reply[j].id
      ensures forall v, w :: v in old(vertices) && v !in vertices && w in vertices ==> old(v.number) < w.number
      ensures |old(vertices)| + |reply| <= max ==> old(vertices) <= vertices
      // what is new comes from the reply, with its `es`, and what the reply does not draw is as it was
      ensures forall w :: w in vertices && w !in old(vertices) ==> Brought(w, reply, max)
      ensures forall v :: v in old(vertices) && !FirstOf(reply, max, v.id) ==>
                v.number == old(v.number) && v.info == old(v.info)
      // a vertex that was on the canvas before stays on its circle
      ensures Reused(old(VertexIds(vertices)), old(circles), VertexIds(vertices), circles)
      // the old edges between vertices that stayed are there; the others come from the reply
      ensures forall e :: e in old(edges) && e.source in vertices && e.target in vertices ==> e in edges
      ensures forall e :: e in edges ==> e in old(edges) || Replied(replyEdges, e.source.id, e.target.id)
      // an edge of the reply between vertices on the canvas is drawn, unless an edge spelled the same, of the
      // canvas before or of the reply, has an end that is not on the canvas now
      ensures forall s, t :: Replied(replyEdges, s, t) && s in vertexRefs && t in vertexRefs ==>
                EdgeId(s, t) in edgeRefs || Misspelt(s, t, vertexRefs, old(edges), replyEdges)
    {
      hide *;
      Pieces();
      ghost var vs, es, ns, infos := vertices, edges, Numbers(vertices), Infos(vertices);
      var list := Arrive(reply, max);
      AsBefore(vs, vertices, ns, infos, reply, max);
      ghost var now, evicted, refs := vertices, IdsOf(list), vertexRefs;
      EndpointsGrow(es, vs, now);
      Connect(list, replyEdges);
      Leaves(vs, now, evicted, refs, reply, max, vertexSequenceEnd, vertexSequence);
      GoneNotDrawn(vs, now, evicted, refs, reply, max, vertexSequenceEnd, vertexSequence);
      WhatIsNew(vs, now, evicted, reply, max);
    }

    /** Removes the vertices that the last message did not bring. */
    method RemoveNonLatestVertices()
      requires Consistent()
      modifies this, circles
      ensures Consistent() && Stored()
      ensures forall v :: v in vertices <==> v in old(vertices) && v.number > vertexSequenceEnd
      ensures forall e :: e in edges <==> e in old(edges) && e.source in vertices && e.target in vertices
      ensures vertexSequenceEnd == old(vertexSequenceEnd)
    {
      hide *;
      Pieces();
      ghost var vs, es := vertices, edges;
      var list := CirclesBelow(vertexSequenceEnd + 1);
      ExactIsExactBut(VertexIds(vs), vertexRefs, IdsOf(list));
      RemoveVerticesFromCanvas(list);
      CirclesGo(vs, list, vertexSequenceEnd + 1);
      EdgesSurvive(es, vs, IdsOf(list));
    }

    /** Removes the oldest vertices beyond `max`. */
    method RemoveOverflowingVertices(max: nat)
      requires Consistent()
      modifies this, circles
      ensures Consistent() && Stored() && |vertices| <= max
      ensures forall v, w :: v in old(vertices) && v !in vertices && w in vertices ==> v.number < w.number
      ensures |old(vertices)| <= max ==> vertices == old(vertices)
      ensures forall e :: e in edges <==> e in old(edges) && e.source in vertices && e.target in vertices
    {
      hide *;
      Pieces();
      ghost var vs, es, top := vertices, edges, vertexSequence;
      var list := GetOverflowingVertices(max);
      ExactIsExactBut(VertexIds(vs), vertexRefs, IdsOf(list));
      RemoveVerticesFromCanvas(list);
      EdgesSurvive(es, vs, IdsOf(list));
      if |vs| > max {
        CirclesGo(vs, list, top - max + 1);
        Pieces();
        WindowOf(vertices, top, max);
      } else {
        NothingEvicted(list, vs, es, VertexIds(vs), vertexRefs, IdsOf(list));
      }
    }

    /** `svgVertices.filter`: the circles whose vertex is none of `ends`. */
    method CirclesNotAt(ends: set<Id>) returns (list: seq<Vertex>)
      ensures Away(list, DataJoin.Data(circles), ends)
    {
      ghost var shown := DataJoin.Data(circles);
      list := [];
      for i := 0 to |circles|
        invariant forall k :: 0 <= k < |list| ==> list[k] in shown && list[k].id !in ends
        invariant forall k :: 0 <= k < i && shown[k].id !in ends ==> shown[k] in list
      {
        if circles[i].data.id !in ends { list := list + [circles[i].data]; }
      }
    }

    /** Removes the vertices without an edge; no edge goes with them. */
    method RemoveOrphans()
      requires Consistent()
      modifies this, circles
      ensures Consistent() && Stored() && edges == old(edges)
      ensures forall v :: v in vertices <==> v in old(vertices) && HasEdge(edges, v)
    {
      hide *;
      Pieces();
      ghost var vs, es := vertices, edges;
      var ends := EndsOf(edges);
      var list := CirclesNotAt(ends);
      ExactIsExactBut(VertexIds(vs), vertexRefs, IdsOf(list));
      RemoveVerticesFromCanvas(list);
      OrphansGo(vs, es, list, ends);
    }

    /** Clears the canvas and the store; what local storage remembers stays, to be loaded again. */
    method Destroy()
      modifies this
      ensures vertices == [] && edges == [] && saved == old(saved)
      ensures Stored() <==> old(saved) == []
      ensures vertexSequenceEnd <= vertexSequence ==> Consistent()
      ensures vertexSequence == old(vertexSequence) && vertexSequenceEnd == old(vertexSequenceEnd)
    {
      circles := [];
      vertices, edges, vertexRefs, edgeRefs := [], [], map[], map[];
    }

    /** Clears the canvas, the store and local storage. */
    method RemoveAllVertices()
      requires Consistent()
      modifies this
      ensures Consistent() && Stored() && vertices == [] && edges == []
    {
      vertices := [];
      Save();
      Destroy();
    }

    /** The parts of `Consistent`. */
    lemma Pieces()
      requires Consistent()
      ensures Exact(VertexIds(vertices), vertexRefs) && Drawn()
      ensures Exact(EdgeIds(edges), edgeRefs) && EndpointsIn(edges, vertices) && Named(edges)
      ensures NumbersOk(Numbers(vertices), vertexSequence) && vertexSequenceEnd <= vertexSequence
      ensures Circled() && DataJoin.Data(circles) == vertices
    {
    }

    lemma Whole()
      requires Exact(VertexIds(vertices), vertexRefs) && Drawn()
      requires Exact(EdgeIds(edges), edgeRefs) && EndpointsIn(edges, vertices) && Named(edges)
      requires NumbersOk(Numbers(vertices), vertexSequence) && vertexSequenceEnd <= vertexSequence
      ensures Consistent()
    {
    }
  }

  /** `list` holds those of `from` with a number below `bound`. */
  ghost predicate Below(list: seq<Vertex>, from: seq<Vertex>, bound: int)
    reads from, list
  {
    && (forall i :: 0 <= i < |list| ==> list[i] in from && list[i].number < bound)
    && (forall i :: 0 <= i < |from| && from[i].number < bound ==> from[i] in list)
  }

  ghost predicate Joins(e: Edge, source: Id, target: Id) {
    e.id == EdgeId(source, target) && e.source.id == source && e.target.id == target
  }

  /** The reply, or its first `n` entries, has an edge from `s` to `t`. */
  ghost predicate RepliedBefore(reply: seq<EdgeData>, n: nat, s: Id, t: Id) {
    exists a :: 0 <= a < n && a < |reply| && reply[a].source == s && t in reply[a].targets
  }

  ghost predicate Replied(reply: seq<EdgeData>, s: Id, t: Id) {
    RepliedBefore(reply, |reply|, s, t)
  }

  lemma ExactPush(ids: seq<Id>, refs: map<Id, nat>, id: Id)
    requires Exact(ids, refs) && id !in refs
    ensures Exact(ids + [id], refs[id := |ids|])
  {
  }

  /** One of these edges has this id, but one of its ends is not on the canvas. */
  ghost predicate Severed(es: seq<Edge>, id: Id, refs: map<Id, nat>) {
    exists i :: 0 <= i < |es| && es[i].id == id && !(es[i].source.id in refs && es[i].target.id in refs)
  }

  /** An edge of the canvas or of the reply between another pair of ids, that are not both on the canvas now. */
  ghost predicate Misspelt(s: Id, t: Id, refs: map<Id, nat>, es: seq<Edge>, reply: seq<EdgeData>) {
    exists s', t' :: EdgeId(s', t') == EdgeId(s, t) && !(s' in refs && t' in refs)
      && (Replied(reply, s', t') || exists i :: 0 <= i < |es| && es[i].source.id == s' && es[i].target.id == t')
  }

  lemma SeveredIsMisspelt(es: seq<Edge>, es1: seq<Edge>, reply: seq<EdgeData>, s: Id, t: Id, refs: map<Id, nat>)
    requires Severed(es1, EdgeId(s, t), refs) && Named(es1) && es <= es1
    requires forall i :: |es| <= i < |es1| ==> Replied(reply, es1[i].source.id, es1[i].target.id)
    ensures Misspelt(s, t, refs, es, reply)
  {
    hide EdgeId, Replied;
    var i :| 0 <= i < |es1| && es1[i].id == EdgeId(s, t)
      && !(es1[i].source.id in refs && es1[i].target.id in refs);
    var s', t' := es1[i].source.id, es1[i].target.id;
    assert EdgeId(s', t') == EdgeId(s, t);
    if i < |es| { assert es[i] == es1[i]; }
  }

  /** An edge of the reply is drawn at the end exactly if no edge spelled like it has lost an end. */
  lemma {:induction false} RepliedDrawn(es: seq<Edge>, table: map<Id, nat>, refs: map<Id, nat>, now: seq<Vertex>,
      evicted: set<Id>, finalTable: map<Id, nat>, finalRefs: map<Id, nat>, id: Id)
    requires ExactBut(VertexIds(now), refs, evicted) && Exact(EdgeIds(es), table) && EndpointsIn(es, now)
    requires Exact(EdgeIds(WithoutEdges(es, evicted)), finalTable)
      && Exact(VertexIds(WithoutVertices(now, evicted)), finalRefs)
    requires id in table
    ensures id in finalTable <==> !Severed(es, id, finalRefs)
  {
    hide ExactBut, EndpointsIn;
    KeptElements(es, DropEdges(es, evicted));
    var i, kept := table[id], WithoutEdges(es, evicted);
    assert EdgeIds(es)[i] == id && forall j :: 0 <= j < |es| && EdgeIds(es)[j] == id ==> j == i;
    var a, b := es[i].source.id, es[i].target.id;
    EndStays(es, now, evicted, refs, finalRefs, i);
    if !DropEdges(es, evicted)[i] {
      var k :| 0 <= k < |kept| && kept[k] == es[i];
      assert EdgeIds(kept)[k] == id;
    }
  }

  /** The ends of an edge are on the canvas afterwards exactly if they are not evicted. */
  lemma EndStays(es: seq<Edge>, now: seq<Vertex>, evicted: set<Id>, refs: map<Id, nat>, finalRefs: map<Id, nat>, i: nat)
    requires ExactBut(VertexIds(now), refs, evicted) && EndpointsIn(es, now) && i < |es|
    requires Exact(VertexIds(WithoutVertices(now, evicted)), finalRefs)
    ensures es[i].source.id in finalRefs <==> es[i].source.id !in evicted
    ensures es[i].target.id in finalRefs <==> es[i].target.id !in evicted
  {
    VertexStays(now, evicted, refs, finalRefs, es[i].source);
    VertexStays(now, evicted, refs, finalRefs, es[i].target);
  }

  lemma VertexStays(now: seq<Vertex>, evicted: set<Id>, refs: map<Id, nat>, finalRefs: map<Id, nat>, v: Vertex)
    requires ExactBut(VertexIds(now), refs, evicted) && v in now
    requires Exact(VertexIds(WithoutVertices(now, evicted)), finalRefs)
    ensures v.id in finalRefs <==> v.id !in evicted
  {
    var after := WithoutVertices(now, evicted);
    hide ExactBut;
    KeptElements(now, DropVertices(now, evicted));
    if v.id in finalRefs {
      OnCanvas(now, evicted, refs, finalRefs, v.id);
    }
    if v.id !in evicted {
      var k :| 0 <= k < |after| && after[k] == v;
      assert VertexIds(after)[k] == v.id;
    }
  }

  lemma {:induction false} OnCanvas(now: seq<Vertex>, evicted: set<Id>, refs: map<Id, nat>,
      finalRefs: map<Id, nat>, s: Id)
    requires ExactBut(VertexIds(now), refs, evicted) && Exact(VertexIds(WithoutVertices(now, evicted)), finalRefs)
      && s in finalRefs
    ensures s !in evicted && s in refs
  {
    var after, drop := WithoutVertices(now, evicted), DropVertices(now, evicted);
    KeptElements(now, drop);
    assert VertexIds(after)[finalRefs[s]] == s;
    var i :| 0 <= i < |now| && now[i] == after[finalRefs[s]] && !drop[i];
    assert VertexIds(now)[i] == s;
  }

  lemma EdgesFrom(es: seq<Edge>, es1: seq<Edge>, reply: seq<EdgeData>)
    requires es <= es1 && forall i :: |es| <= i < |es1| ==> Replied(reply, es1[i].source.id, es1[i].target.id)
    ensures forall e :: e in es1 ==> e in es || Replied(reply, e.source.id, e.target.id)
    ensures forall e :: e in es ==> e in es1
  {
  }

  lemma EndpointsGrow(es: seq<Edge>, vs: seq<Vertex>, now: seq<Vertex>)
    requires EndpointsIn(es, vs) && vs <= now
    ensures EndpointsIn(es, now)
  {
    assert forall v :: v in vs ==> v in now;
  }

  lemma {:induction false} NothingEvicted(list: seq<Vertex>, vs: seq<Vertex>, es: seq<Edge>, ids: seq<Id>,
      refs: map<Id, nat>, evicted: set<Id>)
    requires list == [] && evicted == IdsOf(list)
    ensures WithoutVertices(vs, evicted) == vs && WithoutEdges(es, evicted) == es
    ensures ExactBut(ids, refs, evicted) ==> Exact(ids, refs)
  {
    assert evicted == {};
    NothingDropped(vs, DropVertices(vs, evicted));
    NothingDropped(es, DropEdges(es, evicted));
  }

  lemma {:induction false} NothingDropped<T>(xs: seq<T>, drop: seq<bool>)
    requires |xs| == |drop| && forall i :: 0 <= i < |drop| ==> !drop[i]
    ensures Kept(xs, drop) == xs
  {
    if xs != [] { NothingDropped(xs[..|xs| - 1], drop[..|xs| - 1]); }
  }

  function Least(a: nat, b: nat): (r: nat)
    ensures r == (if a < b then a else b)
  {
    if a < b then a else b
  }

  /** A reply is a JSON object: its ids are distinct. */
  ghost predicate DistinctReply(reply: seq<VertexData>) {
    forall i, j :: 0 <= i < j < |reply| ==> reply[i].id != reply[j].id
  }

  /**
   * The ids, numbers and infos of the array and its table after the first `k` vertices of the reply:
   * the first `max` of those are drawn with the newest numbers, and only ids beyond `max` may be
   * missing from the table.  `size` is the length of the array before, `end` the last number then.
   */
  ghost predicate Added(ids: seq<Id>, ns: seq<nat>, infos: seq<string>, refs: map<Id, nat>, size: nat,
      reply: seq<VertexData>, max: nat, k: nat, end: nat) {
    && k <= |reply| && size <= |ids| == |ns| == |infos| && |ids| <= size + Least(k, max)
    && ExactBut(ids, refs, set j | max <= j < k :: reply[j].id)
    && NumbersOk(ns, end + Least(k, max))
    && (forall j :: 0 <= j < Least(k, max) ==>
          var id := reply[j].id;
          id in refs && refs[id] < |ids| && ns[refs[id]] == end + j + 1 && infos[refs[id]] == reply[j].info)
    && (forall i :: 0 <= i < |ids| && ns[i] > end ==> exists j :: 0 <= j < Least(k, max) && ids[i] == reply[j].id)
    && (forall i :: size <= i < |ids| ==> ns[i] > end)
  }

  lemma {:induction false} AddingStart(ids: seq<Id>, ns: seq<nat>, infos: seq<string>, refs: map<Id, nat>,
      reply: seq<VertexData>, max: nat, end: nat)
    requires Exact(ids, refs) && NumbersOk(ns, end) && |ids| == |ns| == |infos|
    ensures Added(ids, ns, infos, refs, |ids|, reply, max, 0, end)
  {
  }

  lemma {:induction false} RefsInRange(ids: seq<Id>, ns: seq<nat>, infos: seq<string>, refs: map<Id, nat>, size: nat,
      reply: seq<VertexData>, max: nat, k: nat, end: nat)
    requires Added(ids, ns, infos, refs, size, reply, max, k, end)
    ensures forall id :: id in refs ==> refs[id] < |ids| && ids[refs[id]] == id
    ensures Unique(ids)
  {
  }

  lemma {:induction false} UniqueIds(ids: seq<Id>, ns: seq<nat>, infos: seq<string>, refs: map<Id, nat>, size: nat,
      reply: seq<VertexData>, max: nat, k: nat, end: nat)
    requires Added(ids, ns, infos, refs, size, reply, max, k, end)
    ensures Unique(ids) && Sound(ids, refs) && NumbersOk(ns, end + Least(k, max))
    ensures size <= |ids| <= size + Least(k, max) && forall i :: size <= i < |ids| ==> ns[i] > end
  {
  }

  lemma {:induction false} AddingForget(ids: seq<Id>, ns: seq<nat>, infos: seq<string>, refs: map<Id, nat>, size: nat,
      reply: seq<VertexData>, max: nat, k: nat, end: nat)
    requires Added(ids, ns, infos, refs, size, reply, max, k, end) && max <= k < |reply| && DistinctReply(reply)
    ensures Added(ids, ns, infos, refs - {reply[k].id}, size, reply, max, k + 1, end)
  {
    var cleared, more := set j | max <= j < k :: reply[j].id, set j | max <= j < k + 1 :: reply[j].id;
    assert cleared <= more && reply[k].id in more;
  }

  lemma {:induction false} AddingPush(ids: seq<Id>, ns: seq<nat>, infos: seq<string>, refs: map<Id, nat>, size: nat,
      reply: seq<VertexData>, max: nat, k: nat, end: nat)
    requires Added(ids, ns, infos, refs, size, reply, max, k, end) && k < |reply| && k < max && DistinctReply(reply)
    requires reply[k].id !in refs
    ensures Added(ids + [reply[k].id], ns + [end + k + 1], infos + [reply[k].info], refs[reply[k].id := |ids|], size,
      reply, max, k + 1, end)
  {
    assert reply[k].id !in ids;
  }

  lemma {:induction false} AddingUpdate(ids: seq<Id>, ns: seq<nat>, infos: seq<string>, refs: map<Id, nat>, size: nat,
      reply: seq<VertexData>, max: nat, k: nat, end: nat)
    requires Added(ids, ns, infos, refs, size, reply, max, k, end) && k < |reply| && k < max && DistinctReply(reply)
    requires reply[k].id in refs && refs[reply[k].id] < |ids|
    ensures var at := refs[reply[k].id];
      Added(ids, ns[at := end + k + 1], infos[at := reply[k].info], refs, size, reply, max, k + 1, end)
  {
    var at, id := refs[reply[k].id], reply[k].id;
    var ns', infos' := ns[at := end + k + 1], infos[at := reply[k].info];
    forall j | 0 <= j < k
      ensures reply[j].id in refs && refs[reply[j].id] != at
    {
      assert ids[refs[reply[j].id]] == reply[j].id && ids[at] == id;
    }
    assert forall i :: 0 <= i < |ids| && i != at ==> ns'[i] == ns[i] && infos'[i] == infos[i];
    hide ExactBut;
  }

  /** An id that the table has forgotten belongs to an old vertex, and there are too many vertices. */
  lemma {:induction false} ForgottenIsOld(ids: seq<Id>, ns: seq<nat>, infos: seq<string>, refs: map<Id, nat>, size: nat,
      reply: seq<VertexData>, max: nat, end: nat, i: nat)
    requires Added(ids, ns, infos, refs, size, reply, max, |reply|, end) && DistinctReply(reply)
    requires i < |ids| && ids[i] !in refs
    ensures i < size && ns[i] <= end && |reply| > max && |ids| > max
  {
    var j :| max <= j < |reply| && reply[j].id == ids[i];
    var places := seq(max + 1, k requires 0 <= k < max + 1 => if k < max then refs[reply[k].id] else i);
    forall a, b | 0 <= a < b < |places|
      ensures places[a] != places[b]
    {
      assert ids[places[a]] == reply[a].id;
      if b < max { assert ids[places[b]] == reply[b].id; }
    }
    Pigeonhole(places, |ids|);
  }

  /** Distinct numbers in a window of `max` numbers below `top` are no more than `max`. */
  lemma {:induction false} Window(ns: seq<nat>, top: nat, max: nat)
    requires NumbersOk(ns, top) && forall i :: 0 <= i < |ns| ==> ns[i] >= top - max + 1
    ensures |ns| <= max
  {
    Pigeonhole(seq(|ns|, i requires 0 <= i < |ns| => ns[i] - (top - max + 1)), max);
  }

  /** The vertices dropped are those on the canvas before the message whose number is too low. */
  lemma {:induction false} EvictedExactly(now: seq<Vertex>, vs: seq<Vertex>, list: seq<Vertex>, max: nat, bound: int)
    requires vs <= now && Unique(VertexIds(now))
    requires |now| <= max ==> list == []
    requires |now| > max ==> Below(list, vs, bound)
    ensures forall i :: 0 <= i < |now| ==>
              ((now[i].id in IdsOf(list)) <==> |now| > max && i < |vs| && now[i].number < bound)
  {
    var evicted := IdsOf(list);
    var ids := VertexIds(now);
    assert |now| > max ==> forall i :: 0 <= i < |vs| && vs[i].number < bound ==> vs[i] in list;
    forall i | 0 <= i < |now|
      ensures now[i].id in evicted <==> |now| > max && i < |vs| && now[i].number < bound
    {
      if now[i].id in evicted {
        var v :| v in list && v.id == now[i].id;
        var a :| 0 <= a < |list| && list[a] == v;
        var b :| 0 <= b < |vs| && vs[b] == v;
        assert ids[b] == ids[i];
      }
    }
  }

  /** Removing the circles below a bound leaves exactly the vertices from the bound on. */
  lemma {:induction false} CirclesGo(vs: seq<Vertex>, list: seq<Vertex>, bound: int)
    requires Unique(VertexIds(vs)) && Below(list, vs, bound)
    ensures forall v :: v in WithoutVertices(vs, IdsOf(list)) <==> v in vs && v.number >= bound
  {
    var after, drop := WithoutVertices(vs, IdsOf(list)), DropVertices(vs, IdsOf(list));
    KeptElements(vs, drop);
    forall i | 0 <= i < |vs|
      ensures drop[i] <==> vs[i].number < bound
    {
      if drop[i] {
        var v :| v in list && v.id == vs[i].id;
        var a :| 0 <= a < |list| && list[a] == v;
        var b :| 0 <= b < |vs| && vs[b] == v;
        assert VertexIds(vs)[b] == VertexIds(vs)[i];
      }
    }
  }

  lemma {:induction false} WindowOf(vs: seq<Vertex>, top: nat, max: nat)
    requires NumbersOk(Numbers(vs), top) && forall v :: v in vs ==> v.number >= top - max + 1
    ensures |vs| <= max
  {
    forall i | 0 <= i < |vs|
      ensures Numbers(vs)[i] >= top - max + 1
    {
      assert vs[i] in vs;
    }
    Window(Numbers(vs), top, max);
  }

  lemma ExactIsExactBut(ids: seq<Id>, refs: map<Id, nat>, cleared: set<Id>)
    requires Exact(ids, refs)
    ensures ExactBut(ids, refs, cleared) && Unique(ids)
  {
  }

  function EndsOf(es: seq<Edge>): set<Id> {
    (set e <- es :: e.source.id) + (set e <- es :: e.target.id)
  }

  /** `list` holds those of `from` whose id is not among `ends`. */
  ghost predicate Away(list: seq<Vertex>, from: seq<Vertex>, ends: set<Id>) {
    && (forall k :: 0 <= k < |list| ==> list[k] in from && list[k].id !in ends)
    && (forall v :: v in from && v.id !in ends ==> v in list)
  }

  ghost predicate HasEdge(es: seq<Edge>, v: Vertex) {
    exists e :: e in es && (e.source == v || e.target == v)
  }

  /** The ids found at the ends of the edges are those of the vertices that have an edge. */
  lemma {:induction false} EndsAre(vs: seq<Vertex>, es: seq<Edge>, ends: set<Id>, i: nat)
    requires Unique(VertexIds(vs)) && EndpointsIn(es, vs) && i < |vs|
    requires ends == EndsOf(es)
    ensures vs[i].id in ends <==> HasEdge(es, vs[i])
  {
    if vs[i].id in ends {
      var e :| e in es && (e.source.id == vs[i].id || e.target.id == vs[i].id);
      var k :| 0 <= k < |es| && es[k] == e;
      var v := if e.source.id == vs[i].id then e.source else e.target;
      var b :| 0 <= b < |vs| && vs[b] == v;
      assert VertexIds(vs)[b] == VertexIds(vs)[i];
    }
  }

  lemma {:induction false} OrphansGo(vs: seq<Vertex>, es: seq<Edge>, list: seq<Vertex>, ends: set<Id>)
    requires Unique(VertexIds(vs)) && EndpointsIn(es, vs)
    requires ends == EndsOf(es)
    requires Away(list, vs, ends)
    ensures forall v :: v in WithoutVertices(vs, IdsOf(list)) <==> v in vs && HasEdge(es, v)
    ensures WithoutEdges(es, IdsOf(list)) == es
  {
    var ids, after, drop := IdsOf(list), WithoutVertices(vs, IdsOf(list)), DropVertices(vs, IdsOf(list));
    forall i | 0 <= i < |vs|
      ensures drop[i] <==> vs[i].id !in ends
    {
      if drop[i] {
        var v :| v in list && v.id == vs[i].id;
        var a :| 0 <= a < |list| && list[a] == v;
      }
    }
    forall i | 0 <= i < |vs|
      ensures drop[i] <==> !exists e :: e in es && (e.source == vs[i] || e.target == vs[i])
    {
      EndsAre(vs, es, ends, i);
    }
    KeptElements(vs, drop);
    forall i | 0 <= i < |es|
      ensures !DropEdges(es, ids)[i]
    {
      assert es[i].source.id in ends && es[i].target.id in ends;
    }
    NothingDropped(es, DropEdges(es, ids));
  }

  /** The table knows every vertex that stays. */
  lemma {:induction false} ForgottenAreEvicted(now: seq<Vertex>, vs: seq<Vertex>, evicted: set<Id>, refs: map<Id, nat>,
        reply: seq<VertexData>, max: nat, end: nat, top: nat)
    requires vs <= now && DistinctReply(reply) && top == end + Least(|reply|, max)
    requires Added(VertexIds(now), Numbers(now), Infos(now), refs, |vs|, reply, max, |reply|, end)
    requires forall i :: 0 <= i < |now| ==>
               (now[i].id in evicted <==> |now| > max && i < |vs| && now[i].number < top - max + 1)
    ensures ExactBut(VertexIds(now), refs, evicted)
  {
    var ids, ns, infos := VertexIds(now), Numbers(now), Infos(now);
    forall i | 0 <= i < |ids| && ids[i] !in refs
      ensures ids[i] in evicted
    {
      ForgottenIsOld(ids, ns, infos, refs, |vs|, reply, max, end, i);
    }
  }

  /** The array holds what was there before and the first vertices of the reply; the oldest are to be evicted. */
  ghost predicate Arrived(vs: seq<Vertex>, now: seq<Vertex>, evicted: set<Id>, refs: map<Id, nat>,
      reply: seq<VertexData>, max: nat, end: nat, top: nat)
    reads now
  {
    && vs <= now && DistinctReply(reply) && top == end + Least(|reply|, max)
    && Added(VertexIds(now), Numbers(now), Infos(now), refs, |vs|, reply, max, |reply|, end)
    && forall i :: 0 <= i < |now| ==>
         (now[i].id in evicted <==> |now| > max && i < |vs| && now[i].number < top - max + 1)
  }

  /** Among the first `n` vertices of the reply is one with this id. */
  ghost predicate FirstOf(reply: seq<VertexData>, n: nat, id: Id) {
    exists j :: 0 <= j < |reply| && j < n && reply[j].id == id
  }

  /** A new vertex as one of the first vertices of the reply describes it. */
  ghost predicate Brought(w: Vertex, reply: seq<VertexData>, max: nat)
    reads w`es
  {
    exists j :: 0 <= j < |reply| && j < max && w.id == reply[j].id && w.es == reply[j].es
  }

  /** Numbers and infos have changed at most at this id, and where there are new ones. */
  ghost predicate OnlyAt(ids: seq<Id>, ns: seq<nat>, infos: seq<string>, ns': seq<nat>, infos': seq<string>, id: Id) {
    && |ids| == |ns| == |infos| <= |ns'| == |infos'|
    && forall i :: 0 <= i < |ids| && ids[i] != id ==> ns'[i] == ns[i] && infos'[i] == infos[i]
  }

  lemma OnlyLonger(ids: seq<Id>, ns: seq<nat>, infos: seq<string>, n: nat, data: VertexData)
    requires |ids| == |ns| == |infos|
    ensures OnlyAt(ids, ns, infos, ns + [n], infos + [data.info], data.id)
  {
  }

  lemma OnlyThere(ids: seq<Id>, ns: seq<nat>, infos: seq<string>, at: nat, n: nat, data: VertexData)
    requires |ids| == |ns| == |infos| && at < |ids| && ids[at] == data.id
    ensures OnlyAt(ids, ns, infos, ns[at := n], infos[at := data.info], data.id)
  {
  }

  /** What the reply does not draw has kept its number and its info. */
  ghost predicate Untouched(ids: seq<Id>, ns: seq<nat>, infos: seq<string>, ns': seq<nat>, infos': seq<string>,
      reply: seq<VertexData>, max: nat)
  {
    && |ids| == |ns| == |infos| <= |ns'| == |infos'|
    && forall i :: 0 <= i < |ids| && !FirstOf(reply, max, ids[i]) ==> ns'[i] == ns[i] && infos'[i] == infos[i]
  }

  lemma UntouchedStart(ids: seq<Id>, ns: seq<nat>, infos: seq<string>, reply: seq<VertexData>, max: nat)
    requires |ids| == |ns| == |infos|
    ensures Untouched(ids, ns, infos, ns, infos, reply, max)
  {
  }

  lemma UntouchedNext(ids: seq<Id>, ns: seq<nat>, infos: seq<string>, ids1: seq<Id>, ns1: seq<nat>,
      infos1: seq<string>, ns2: seq<nat>, infos2: seq<string>, reply: seq<VertexData>, max: nat, k: nat)
    requires Untouched(ids, ns, infos, ns1, infos1, reply, max) && ids <= ids1 && k < |reply| && k < max
    requires OnlyAt(ids1, ns1, infos1, ns2, infos2, reply[k].id)
    ensures Untouched(ids, ns, infos, ns2, infos2, reply, max)
  {
    forall i | 0 <= i < |ids| && !FirstOf(reply, max, ids[i])
      ensures ns2[i] == ns[i] && infos2[i] == infos[i]
    {
      assert ids1[i] == ids[i];
    }
  }

  lemma AsBefore(vs: seq<Vertex>, now: seq<Vertex>, ns: seq<nat>, infos: seq<string>, reply: seq<VertexData>, max: nat)
    requires vs <= now && Untouched(VertexIds(vs), ns, infos, Numbers(now), Infos(now), reply, max)
    ensures |ns| == |infos| == |vs|
    ensures forall i :: 0 <= i < |vs| && !FirstOf(reply, max, vs[i].id) ==>
              vs[i].number == ns[i] && vs[i].info == infos[i]
  {
    assert forall i :: 0 <= i < |vs| ==> now[i] == vs[i] && VertexIds(vs)[i] == vs[i].id;
  }

  lemma IsBrought(now: seq<Vertex>, n: nat, reply: seq<VertexData>, max: nat, k: nat)
    requires n <= |now| && k < |reply| && k < max
    requires forall i :: n <= i < |now| ==> now[i].id == reply[k].id && now[i].es == reply[k].es
    ensures forall i :: n <= i < |now| ==> Brought(now[i], reply, max)
  {
  }

  /** The vertices that go are none of those drawn. */
  lemma GoneNotDrawn(vs: seq<Vertex>, now: seq<Vertex>, evicted: set<Id>, refs: map<Id, nat>,
      reply: seq<VertexData>, max: nat, end: nat, top: nat)
    requires Arrived(vs, now, evicted, refs, reply, max, end, top)
    ensures forall v :: v in vs && v !in WithoutVertices(now, evicted) ==> !FirstOf(reply, max, v.id)
  {
    KeptElements(now, DropVertices(now, evicted));
    UniqueIds(VertexIds(now), Numbers(now), Infos(now), refs, |vs|, reply, max, |reply|, end);
    forall v | v in vs && v !in WithoutVertices(now, evicted)
      ensures !FirstOf(reply, max, v.id)
    {
      var i :| 0 <= i < |vs| && vs[i] == v;
      assert now[i] == v && DropVertices(now, evicted)[i];
    }
  }

  lemma WhatIsNew(vs: seq<Vertex>, now: seq<Vertex>, evicted: set<Id>, reply: seq<VertexData>, max: nat)
    requires vs <= now && forall i :: |vs| <= i < |now| ==> Brought(now[i], reply, max)
    ensures forall w :: w in WithoutVertices(now, evicted) && w !in vs ==> Brought(w, reply, max)
  {
    var after := WithoutVertices(now, evicted);
    KeptElements(now, DropVertices(now, evicted));
    forall w | w in after && w !in vs
      ensures Brought(w, reply, max)
    {
      var q :| 0 <= q < |after| && after[q] == w;
      var i :| 0 <= i < |now| && now[i] == after[q];
    }
  }

  lemma AllArrived(vs: seq<Vertex>, now: seq<Vertex>, evicted: set<Id>, refs: map<Id, nat>,
      reply: seq<VertexData>, max: nat, end: nat, top: nat)
    requires vs <= now && DistinctReply(reply) && top == end + Least(|reply|, max)
    requires Added(VertexIds(now), Numbers(now), Infos(now), refs, |vs|, reply, max, |reply|, end)
    requires forall i :: 0 <= i < |now| ==>
               (now[i].id in evicted <==> |now| > max && i < |vs| && now[i].number < top - max + 1)
    ensures Arrived(vs, now, evicted, refs, reply, max, end, top)
  {
    hide Added, DistinctReply, Least;
  }

  /** What eviction leaves of the vertices then. */
  lemma Leaves(vs: seq<Vertex>, now: seq<Vertex>, evicted: set<Id>, refs: map<Id, nat>,
      reply: seq<VertexData>, max: nat, end: nat, top: nat)
    requires Arrived(vs, now, evicted, refs, reply, max, end, top)
    ensures var after := WithoutVertices(now, evicted);
      && |after| <= max
      && (forall j :: 0 <= j < |reply| && j < max ==> Shown(after, reply[j], end + j + 1))
      && (forall w :: w in after ==> w in vs || exists j :: 0 <= j < |reply| && j < max && w.id == reply[j].id)
      && (forall v, w :: v in vs && v !in after && w in after ==> v.number < w.number)
      && (|vs| + |reply| <= max ==> vs <= after)
  {
    hide Added, DistinctReply, Least, WithoutVertices, Shown;
    NotTooMany(now, vs, evicted, refs, reply, max, end, top);
    UniqueIds(VertexIds(now), Numbers(now), Infos(now), refs, |vs|, reply, max, |reply|, end);
    Outcome(now, vs, evicted, refs, reply, max, end, top);
  }

  lemma SoundBut(ids: seq<Id>, refs: map<Id, nat>, cleared: set<Id>)
    requires ExactBut(ids, refs, cleared)
    ensures Unique(ids) && Sound(ids, refs)
  {
  }

  /** At most `max` stay. */
  lemma {:induction false} NotTooMany(now: seq<Vertex>, vs: seq<Vertex>, evicted: set<Id>, refs: map<Id, nat>,
        reply: seq<VertexData>, max: nat, end: nat, top: nat)
    requires vs <= now && DistinctReply(reply) && top == end + Least(|reply|, max)
    requires Added(VertexIds(now), Numbers(now), Infos(now), refs, |vs|, reply, max, |reply|, end)
    requires forall i :: 0 <= i < |now| ==>
               (now[i].id in evicted <==> |now| > max && i < |vs| && now[i].number < top - max + 1)
    ensures |WithoutVertices(now, evicted)| <= max
  {
    var ids, ns, infos, drop := VertexIds(now), Numbers(now), Infos(now), DropVertices(now, evicted);
    UniqueIds(ids, ns, infos, refs, |vs|, reply, max, |reply|, end);
    hide Added, ExactBut, NumbersOk, Unique, Sound, Kept;
    KeptNumbers(now, drop);
    WindowKept(ns, drop, |vs|, max, end, top);
  }

  lemma {:induction false} WindowKept(ns: seq<nat>, drop: seq<bool>, size: nat, max: nat, end: nat, top: nat)
    requires size <= |ns| == |drop| && NumbersOk(ns, top) && top <= end + max
    requires forall i :: size <= i < |ns| ==> ns[i] > end
    requires forall i :: 0 <= i < |ns| ==> (drop[i] <==> |ns| > max && i < size && ns[i] < top - max + 1)
    ensures |Kept(ns, drop)| <= max
  {
    if |ns| > max {
      KeptNumbersOk(ns, drop, top);
      KeptElements(ns, drop);
      hide NumbersOk;
      var kept := Kept(ns, drop);
      forall k | 0 <= k < |kept|
        ensures kept[k] >= top - max + 1
      {
        var i :| 0 <= i < |ns| && ns[i] == kept[k] && !drop[i];
      }
      Window(kept, top, max);
    }
  }

  /** Each of the first `max` vertices of the reply stays. */
  lemma {:induction false} FirstStay(now: seq<Vertex>, vs: seq<Vertex>, evicted: set<Id>, refs: map<Id, nat>,
        reply: seq<VertexData>, max: nat, end: nat, top: nat)
    requires vs <= now && DistinctReply(reply) && top == end + Least(|reply|, max)
    requires Added(VertexIds(now), Numbers(now), Infos(now), refs, |vs|, reply, max, |reply|, end)
    requires forall i :: 0 <= i < |now| ==>
               (now[i].id in evicted <==> |now| > max && i < |vs| && now[i].number < top - max + 1)
    ensures forall j :: 0 <= j < |reply| && j < max ==> Shown(WithoutVertices(now, evicted), reply[j], end + j + 1)
  {
    var after, drop := WithoutVertices(now, evicted), DropVertices(now, evicted);
    var ids, ns, infos := VertexIds(now), Numbers(now), Infos(now);
    KeptElements(now, drop);
    forall j | 0 <= j < |reply| && j < max
      ensures Shown(after, reply[j], end + j + 1)
    {
      var p := refs[reply[j].id];
      assert ns[p] == end + j + 1 && infos[p] == reply[j].info && ids[p] == reply[j].id;
      assert !drop[p];
      var q :| 0 <= q < |after| && after[q] == now[p];
    }
  }

  /** Whatever goes is older than all that stays, and nothing goes while there is room. */
  lemma {:induction false} OldestGo(now: seq<Vertex>, vs: seq<Vertex>, evicted: set<Id>, refs: map<Id, nat>,
        reply: seq<VertexData>, max: nat, end: nat, top: nat)
    requires vs <= now && DistinctReply(reply) && top == end + Least(|reply|, max)
    requires Added(VertexIds(now), Numbers(now), Infos(now), refs, |vs|, reply, max, |reply|, end)
    requires forall i :: 0 <= i < |now| ==>
               (now[i].id in evicted <==> |now| > max && i < |vs| && now[i].number < top - max + 1)
    ensures var after := WithoutVertices(now, evicted);
      && (forall v, w :: v in vs && v !in after && w in after ==> v.number < w.number)
      && (|now| <= max ==> after == now)
  {
    var after, drop := WithoutVertices(now, evicted), DropVertices(now, evicted);
    assert forall i :: |vs| <= i < |now| ==> now[i].number > end by {
      assert forall i :: |vs| <= i < |now| ==> Numbers(now)[i] > end;
    }
    hide *;
    OlderGo(now, vs, evicted, after, drop, max, end, top);
  }

  /** What a reply leaves on the canvas: its first vertices, nothing else new, and what is newest of the rest. */
  lemma Outcome(now: seq<Vertex>, vs: seq<Vertex>, evicted: set<Id>, refs: map<Id, nat>,
        reply: seq<VertexData>, max: nat, end: nat, top: nat)
    requires vs <= now && DistinctReply(reply) && top == end + Least(|reply|, max)
    requires Added(VertexIds(now), Numbers(now), Infos(now), refs, |vs|, reply, max, |reply|, end)
    requires forall i :: 0 <= i < |now| ==>
               (now[i].id in evicted <==> |now| > max && i < |vs| && now[i].number < top - max + 1)
    ensures var after := WithoutVertices(now, evicted);
      && (forall j :: 0 <= j < |reply| && j < max ==> Shown(after, reply[j], end + j + 1))
      && (forall w :: w in after ==> w in vs || exists j :: 0 <= j < |reply| && j < max && w.id == reply[j].id)
      && (forall v, w :: v in vs && v !in after && w in after ==> v.number < w.number)
      && (|now| <= max ==> after == now)
  {
    hide *;
    FirstStay(now, vs, evicted, refs, reply, max, end, top);
    OldestGo(now, vs, evicted, refs, reply, max, end, top);
    NothingElse(now, vs, evicted, refs, reply, max, end, top);
  }

  /** All edges of the reply between vertices on the canvas are drawn, as far as no edge spelled alike lost an end. */
  lemma AllRepliedDrawn(es: seq<Edge>, table: map<Id, nat>, refs: map<Id, nat>, now: seq<Vertex>, evicted: set<Id>,
                        finalTable: map<Id, nat>, finalRefs: map<Id, nat>, replyEdges: seq<EdgeData>)
    requires ExactBut(VertexIds(now), refs, evicted) && Exact(EdgeIds(es), table) && EndpointsIn(es, now)
    requires Exact(EdgeIds(WithoutEdges(es, evicted)), finalTable)
      && Exact(VertexIds(WithoutVertices(now, evicted)), finalRefs)
    requires forall s, t :: Replied(replyEdges, s, t) && s in refs && t in refs ==> EdgeId(s, t) in table
    ensures forall s, t :: Replied(replyEdges, s, t) && s in finalRefs && t in finalRefs ==>
              (EdgeId(s, t) in finalTable <==> !Severed(es, EdgeId(s, t), finalRefs))
  {
    hide *;
    forall s, t | Replied(replyEdges, s, t) && s in finalRefs && t in finalRefs
      ensures EdgeId(s, t) in finalTable <==> !Severed(es, EdgeId(s, t), finalRefs)
    {
      OnCanvas(now, evicted, refs, finalRefs, s);
      OnCanvas(now, evicted, refs, finalRefs, t);
      RepliedDrawn(es, table, refs, now, evicted, finalTable, finalRefs, EdgeId(s, t));
    }
  }

  /** The edge from "a" to "b-c" is not drawn if one from "a-b" to "c" has its id and is then evicted. */
  lemma SpelledAlike(e: Edge, refs: map<Id, nat>)
    requires e.source.id == Id("a-b") && e.target.id == Id("c") && Named([e]) && Id("a-b") !in refs
    ensures Severed([e], EdgeId(Id("a"), Id("b-c")), refs)
    ensures EdgeId(Id("a"), Id("b-c")) in EdgeIds([e])
    ensures EdgeId(Id("a"), Id("b-c")) !in EdgeIds(WithoutEdges([e], {Id("a-b")}))
  {
    assert EdgeId(Id("a"), Id("b-c")) == EdgeId(Id("a-b"), Id("c"));
    assert [e][0].id == e.id && EdgeIds([e])[0] == e.id;
    KeptElements([e], DropEdges([e], {Id("a-b")}));
  }

  /** Told without the edges in between: the edge is drawn, or another edge spelled like it has lost an end. */
  lemma DrawnUnlessMisspelt(es: seq<Edge>, es1: seq<Edge>, table: map<Id, nat>, refs: map<Id, nat>, now: seq<Vertex>,
      evicted: set<Id>, finalTable: map<Id, nat>, finalRefs: map<Id, nat>, reply: seq<EdgeData>)
    requires ExactBut(VertexIds(now), refs, evicted) && Exact(EdgeIds(es1), table) && EndpointsIn(es1, now)
    requires Exact(EdgeIds(WithoutEdges(es1, evicted)), finalTable)
      && Exact(VertexIds(WithoutVertices(now, evicted)), finalRefs)
    requires forall s, t :: Replied(reply, s, t) && s in refs && t in refs ==> EdgeId(s, t) in table
    requires Named(es1) && es <= es1
    requires forall i :: |es| <= i < |es1| ==> Replied(reply, es1[i].source.id, es1[i].target.id)
    ensures forall s, t :: Replied(reply, s, t) && s in finalRefs && t in finalRefs ==>
              EdgeId(s, t) in finalTable || Misspelt(s, t, finalRefs, es, reply)
  {
    hide *;
    AllRepliedDrawn(es1, table, refs, now, evicted, finalTable, finalRefs, reply);
    forall s, t | Replied(reply, s, t) && s in finalRefs && t in finalRefs && EdgeId(s, t) !in finalTable
      ensures Misspelt(s, t, finalRefs, es, reply)
    {
      SeveredIsMisspelt(es, es1, reply, s, t, finalRefs);
    }
  }

  lemma OlderGo(now: seq<Vertex>, vs: seq<Vertex>, evicted: set<Id>, after: seq<Vertex>, drop: seq<bool>, max: nat,
      end: nat, top: nat)
    requires vs <= now && drop == DropVertices(now, evicted) && after == Kept(now, drop) && top <= end + max
    requires forall i :: |vs| <= i < |now| ==> now[i].number > end
    requires forall i :: 0 <= i < |now| ==>
               (now[i].id in evicted <==> |now| > max && i < |vs| && now[i].number < top - max + 1)
    ensures forall v, w :: v in vs && v !in after && w in after ==> v.number < w.number
    ensures |now| <= max ==> after == now
  {
    hide Kept;
    KeptElements(now, drop);
    forall v, w | v in vs && v !in after && w in after
      ensures v.number < w.number
    {
      var a :| 0 <= a < |vs| && vs[a] == v;
      assert drop[a] by { assert now[a] == v; }
      var q :| 0 <= q < |after| && after[q] == w;
      var b :| 0 <= b < |now| && now[b] == after[q] && !drop[b];
    }
    if |now| <= max { NothingDropped(now, drop); }
  }

  /** What stays was on the canvas, or is among the first `max` of the reply. */
  lemma {:induction false} NothingElse(now: seq<Vertex>, vs: seq<Vertex>, evicted: set<Id>, refs: map<Id, nat>,
        reply: seq<VertexData>, max: nat, end: nat, top: nat)
    requires vs <= now && DistinctReply(reply) && top == end + Least(|reply|, max)
    requires Added(VertexIds(now), Numbers(now), Infos(now), refs, |vs|, reply, max, |reply|, end)
    requires forall i :: 0 <= i < |now| ==>
               (now[i].id in evicted <==> |now| > max && i < |vs| && now[i].number < top - max + 1)
    ensures forall w :: w in WithoutVertices(now, evicted) ==>
              w in vs || exists j :: 0 <= j < |reply| && j < max && w.id == reply[j].id
  {
    var after, drop := WithoutVertices(now, evicted), DropVertices(now, evicted);
    var ids, ns := VertexIds(now), Numbers(now);
    KeptElements(now, drop);
    forall w | w in after
      ensures w in vs || exists j :: 0 <= j < |reply| && j < max && w.id == reply[j].id
    {
      var q :| 0 <= q < |after| && after[q] == w;
      var b :| 0 <= b < |now| && now[b] == after[q] && !drop[b];
      if b < |vs| {
        assert vs[b] == w;
      } else {
        assert ns[b] > end && ids[b] == w.id;
      }
    }
  }

  /** A vertex of the reply is in the array, with the reply's data and the given number. */
  ghost predicate Shown(vs: seq<Vertex>, data: VertexData, number: nat)
    reads vs
  {
    exists q :: 0 <= q < |vs| && vs[q].id == data.id && vs[q].number == number && vs[q].info == data.info
  }

  /** Edges stay exactly when both their ends do. */
  lemma {:induction false} EdgesSurvive(es: seq<Edge>, now: seq<Vertex>, evicted: set<Id>)
    requires EndpointsIn(es, now) && Unique(VertexIds(now))
    ensures var after := WithoutVertices(now, evicted);
      forall e :: e in WithoutEdges(es, evicted) <==> e in es && e.source in after && e.target in after
  {
    var after, kept := WithoutVertices(now, evicted), WithoutEdges(es, evicted);
    KeptElements(es, DropEdges(es, evicted));
    EndpointsKept(es, now, evicted);
    KeptElements(now, DropVertices(now, evicted));
    forall e | e in es && e.source in after && e.target in after
      ensures e in kept
    {
      var k :| 0 <= k < |es| && es[k] == e;
      var s :| 0 <= s < |after| && after[s] == e.source;
      var s' :| 0 <= s' < |now| && now[s'] == after[s] && !DropVertices(now, evicted)[s'];
      var t :| 0 <= t < |after| && after[t] == e.target;
      var t' :| 0 <= t' < |now| && now[t'] == after[t] && !DropVertices(now, evicted)[t'];
      assert !DropEdges(es, evicted)[k];
    }
    forall e | e in kept
      ensures e in es && e.source in after && e.target in after
    {
      var k :| 0 <= k < |kept| && kept[k] == e;
      var k' :| 0 <= k' < |es| && es[k'] == kept[k] && !DropEdges(es, evicted)[k'];
    }
  }

  lemma {:induction false} KeptNumbers(vs: seq<Vertex>, drop: seq<bool>)
    requires |vs| == |drop|
    ensures Numbers(Kept(vs, drop)) == Kept(Numbers(vs), drop)
  {
    if vs != [] {
      var n := |vs| - 1;
      KeptNumbers(vs[..n], drop[..n]);
      assert Numbers(vs[..n]) == Numbers(vs)[..n];
      assert Numbers(Kept(vs, drop)) == Numbers(Kept(vs[..n], drop[..n])) + (if drop[n] then [] else [vs[n].number]);
    }
  }

  /** Dropping elements of a sequence of distinct numbers leaves the numbers distinct. */
  lemma {:induction false} KeptNumbersOk(ns: seq<nat>, drop: seq<bool>, top: nat)
    requires |ns| == |drop| && NumbersOk(ns, top)
    ensures NumbersOk(Kept(ns, drop), top)
  {
    if ns != [] {
      var n := |ns| - 1;
      var head := Kept(ns[..n], drop[..n]);
      NumbersFront(ns, top);
      KeptNumbersOk(ns[..n], drop[..n], top);
      KeptElements(ns[..n], drop[..n]);
      assert Kept(ns, drop) == head + (if drop[n] then [] else [ns[n]]);
      hide Kept, NumbersOk;
      forall k | 0 <= k < |head|
        ensures head[k] != ns[n]
      {
        var j :| 0 <= j < n && ns[..n][j] == head[k];
        assert ns[j] == head[k];
      }
      NumbersPush(head, ns[n], top);
    } else {
      assert Kept(ns, drop) == ns;
    }
  }

  lemma NumbersFront(ns: seq<nat>, top: nat)
    requires ns != [] && NumbersOk(ns, top)
    ensures var n := |ns| - 1; NumbersOk(ns[..n], top) && ns[n] <= top && forall j :: 0 <= j < n ==> ns[j] != ns[n]
  {
  }

  lemma NumbersPush(ns: seq<nat>, x: nat, top: nat)
    requires NumbersOk(ns, top) && x <= top && forall k :: 0 <= k < |ns| ==> ns[k] != x
    ensures NumbersOk(ns + [x], top)
  {
  }

  // ---------- the splicing loops on objects ----------

  lemma VertexIdsSplice(vs: seq<Vertex>, i: nat)
    requires i < |vs|
    ensures VertexIds(vs[..i] + vs[i + 1..]) == VertexIds(vs)[..i] + VertexIds(vs)[i + 1..]
  {
  }

  lemma EdgeIdsSplice(es: seq<Edge>, i: nat)
    requires i < |es|
    ensures EdgeIds(es[..i] + es[i + 1..]) == EdgeIds(es)[..i] + EdgeIds(es)[i + 1..]
  {
  }

  ghost predicate PurgingVertices(vs: seq<Vertex>, ids: set<Id>, now: seq<Vertex>, done: nat, i: nat,
      refs: map<Id, nat>) {
    var drop := DropVertices(vs, ids);
    && done <= |vs|
    && Purging(VertexIds(vs), drop, VertexIds(now), done, i, refs)
    && now == Kept(vs[..done], drop[..done]) + vs[done..] && i == |Kept(vs[..done], drop[..done])|
  }

  lemma {:induction false} PurgeVerticesStart(vs: seq<Vertex>, ids: set<Id>, refs: map<Id, nat>)
    requires ExactBut(VertexIds(vs), refs, ids)
    ensures PurgingVertices(vs, ids, vs, 0, 0, refs)
  {
    PurgeStart(VertexIds(vs), DropVertices(vs, ids), refs, ids);
  }

  lemma {:induction false} PurgeVerticesStep(vs: seq<Vertex>, ids: set<Id>, now: seq<Vertex>, done: nat, i: nat,
      refs: map<Id, nat>)
    requires PurgingVertices(vs, ids, now, done, i, refs) && i < |now|
    ensures now[i].id in ids ==> PurgingVertices(vs, ids, now[..i] + now[i + 1..], done + 1, i, refs - {now[i].id})
    ensures !(now[i].id in ids) ==> PurgingVertices(vs, ids, now, done + 1, i + 1, refs[now[i].id := i])
  {
    var drop := DropVertices(vs, ids);
    hide Purging, VertexIds;
    PurgeStep(VertexIds(vs), drop, VertexIds(now), done, i, refs);
    VertexIdsSplice(now, i);
    KeptNext(vs, drop, done);
    KeptSplice(vs, drop, now, done, i);
    hide Kept;
  }

  lemma {:induction false} PurgeVerticesEnd(vs: seq<Vertex>, ids: set<Id>, now: seq<Vertex>, done: nat, i: nat,
      refs: map<Id, nat>)
    requires PurgingVertices(vs, ids, now, done, i, refs) && i >= |now|
    ensures now == WithoutVertices(vs, ids) && Exact(VertexIds(now), refs)
  {
    var drop := DropVertices(vs, ids);
    assert vs[..|vs|] == vs && drop[..|vs|] == drop;
    PurgeEnd(VertexIds(vs), drop, VertexIds(now), i, refs);
  }

  ghost predicate PurgingEdges(es: seq<Edge>, ids: set<Id>, now: seq<Edge>, done: nat, i: nat, refs: map<Id, nat>) {
    var drop := DropEdges(es, ids);
    && done <= |es|
    && Purging(EdgeIds(es), drop, EdgeIds(now), done, i, refs)
    && now == Kept(es[..done], drop[..done]) + es[done..] && i == |Kept(es[..done], drop[..done])|
  }

  lemma {:induction false} PurgeEdgesStart(es: seq<Edge>, ids: set<Id>, refs: map<Id, nat>)
    requires Exact(EdgeIds(es), refs)
    ensures PurgingEdges(es, ids, es, 0, 0, refs)
  {
    PurgeStart(EdgeIds(es), DropEdges(es, ids), refs, {});
  }

  lemma {:induction false} PurgeEdgesStep(es: seq<Edge>, ids: set<Id>, now: seq<Edge>, done: nat, i: nat,
      refs: map<Id, nat>)
    requires PurgingEdges(es, ids, now, done, i, refs) && i < |now|
    ensures now[i].source.id in ids || now[i].target.id in ids ==>
      PurgingEdges(es, ids, now[..i] + now[i + 1..], done + 1, i, refs - {now[i].id})
    ensures !(now[i].source.id in ids || now[i].target.id in ids) ==>
      PurgingEdges(es, ids, now, done + 1, i + 1, refs[now[i].id := i])
  {
    var drop := DropEdges(es, ids);
    hide Purging, EdgeIds;
    PurgeStep(EdgeIds(es), drop, EdgeIds(now), done, i, refs);
    EdgeIdsSplice(now, i);
    KeptNext(es, drop, done);
    KeptSplice(es, drop, now, done, i);
    hide Kept;
  }

  lemma {:induction false} PurgeEdgesEnd(es: seq<Edge>, ids: set<Id>, now: seq<Edge>, done: nat, i: nat,
      refs: map<Id, nat>)
    requires PurgingEdges(es, ids, now, done, i, refs) && i >= |now|
    ensures now == WithoutEdges(es, ids) && Exact(EdgeIds(now), refs)
  {
    var drop := DropEdges(es, ids);
    assert es[..|es|] == es && drop[..|es|] == drop;
    PurgeEnd(EdgeIds(es), drop, EdgeIds(now), i, refs);
  }
}
