/**
 * d3's keyed data join: `bind` of `selection.data` on one group, `enter().append`, and the way
 * `restart` uses them.  DOM elements are objects that hold a datum.
 */
module DataJoin {
  import opened Wrappers

  class Element<D> {
    var data: D

    constructor (data: D)
      ensures this.data == data
    {
      this.data := data;
    }
  }

  // ---------- the join, on keys ----------

  ghost predicate IsFirst<K>(ks: seq<K>, i: nat)
    requires i < |ks|
  {
    forall j :: 0 <= j < i ==> ks[j] != ks[i]
  }

  /** The first position of a key. */
  ghost function Find<K>(ks: seq<K>, k: K): (r: Option<nat>)
    ensures r.Some? ==> r.value < |ks| && ks[r.value] == k && IsFirst(ks, r.value)
    ensures r.None? <==> k !in ks
  {
    if ks == [] then None
    else
      var front := Find(ks[..|ks| - 1], k);
      if front.Some? then front else if ks[|ks| - 1] == k then Some(|ks| - 1) else None
  }

  /** The position of the node that datum `j` updates. */
  ghost function Updates<K>(nodes: seq<K>, data: seq<K>, j: nat): Option<nat>
    requires j < |data|
  {
    if IsFirst(data, j) then Find(nodes, data[j]) else None
  }

  ghost predicate Enters<K>(nodes: seq<K>, data: seq<K>, j: nat)
    requires j < |data|
  {
    IsFirst(data, j) && data[j] !in nodes
  }

  ghost predicate Exits<K>(nodes: seq<K>, data: seq<K>, i: nat)
    requires i < |nodes|
  {
    !IsFirst(nodes, i) || nodes[i] !in data
  }

  lemma {:induction false} FirstUnique<K>(ks: seq<K>, i: nat, j: nat)
    requires i < |ks| && j < |ks| && ks[i] == ks[j] && IsFirst(ks, i) && IsFirst(ks, j)
    ensures i == j
  {
  }

  /** Each node either exits or is updated by exactly one datum, whatever duplicates there are on either side. */
  lemma {:induction false} NodesSplit<K>(nodes: seq<K>, data: seq<K>, i: nat)
    requires i < |nodes|
    ensures Exits(nodes, data, i) <==> forall j :: 0 <= j < |data| ==> Updates(nodes, data, j) != Some(i)
    ensures forall j, k ::
        0 <= j < |data| && 0 <= k < |data| && Updates(nodes, data, j) == Some(i) == Updates(nodes, data, k) ==> j == k
  {
    if !Exits(nodes, data, i) {
      var j := Find(data, nodes[i]).value;
      var p := Find(nodes, data[j]).value;
      FirstUnique(nodes, p, i);
      assert Updates(nodes, data, j) == Some(i);
    }
    forall j, k | 0 <= j < |data| && 0 <= k < |data| && Updates(nodes, data, j) == Some(i) == Updates(nodes, data, k)
      ensures j == k
    {
      FirstUnique(data, j, k);
    }
  }

  /** Each first occurrence of a datum key either updates a node or enters; later occurrences do neither. */
  lemma {:induction false} DataSplit<K>(nodes: seq<K>, data: seq<K>, j: nat)
    requires j < |data|
    ensures IsFirst(data, j) ==> (Enters(nodes, data, j) <==> Updates(nodes, data, j).None?)
    ensures !IsFirst(data, j) ==> !Enters(nodes, data, j) && Updates(nodes, data, j).None?
    ensures Updates(nodes, data, j).Some? ==> nodes[Updates(nodes, data, j).value] == data[j]
  {
    if IsFirst(data, j) { var f := Find(nodes, data[j]); }
  }

  // ---------- the join, in place ----------

  function Keys<D, K>(data: seq<D>, key: D -> K): (ks: seq<K>)
    ensures |ks| == |data| && forall i :: 0 <= i < |data| ==> ks[i] == key(data[i])
  {
    seq(|data|, i requires 0 <= i < |data| => key(data[i]))
  }

  ghost function Data<D>(group: seq<Element<D>>): (ds: seq<D>)
    reads group
    ensures |ds| == |group| && forall i :: 0 <= i < |group| ==> ds[i] == group[i].data
  {
    seq(|group|, i requires 0 <= i < |group| reads group => group[i].data)
  }

  ghost predicate Distinct<T>(s: seq<T>) {
    forall i, j :: 0 <= i < j < |s| ==> s[i] != s[j]
  }

  /** The first loop: the nodes by key, the keys, and the nodes whose key has been seen before. */
  method IndexNodes<D, K(==)>(group: seq<Element<D>>, key: D -> K)
    returns (nodeByKey: map<K, nat>, keyValues: seq<K>, exit: seq<bool>)
    ensures keyValues == Keys(Data(group), key) && |exit| == |group|
    ensures forall k :: k in nodeByKey <==> k in keyValues
    ensures forall k :: k in nodeByKey ==> Find(keyValues, k) == Some(nodeByKey[k])
    ensures forall i :: 0 <= i < |group| ==> (exit[i] <==> !IsFirst(keyValues, i))
  {
    hide Find, IsFirst;
    nodeByKey, keyValues, exit := map[], [], [];
    for i := 0 to |group|
      invariant |keyValues| == |exit| == i
      invariant forall j :: 0 <= j < i ==> keyValues[j] == key(group[j].data)
      invariant forall k :: k in nodeByKey <==> k in keyValues
      invariant forall k :: k in nodeByKey ==> Find(keyValues, k) == Some(nodeByKey[k])
      invariant forall j :: 0 <= j < i ==> (exit[j] <==> !IsFirst(keyValues, j))
    {
      var k := key(group[i].data);
      ghost var before := keyValues;
      exit := exit + [k in nodeByKey];
      if k !in nodeByKey { nodeByKey := nodeByKey[k := i]; }
      keyValues := keyValues + [k];
      NextKey(before, k);
    }
  }

  lemma NextKey<K>(ks: seq<K>, k: K)
    ensures IsFirst(ks + [k], |ks|) <==> k !in ks
    ensures forall j :: 0 <= j < |ks| ==> IsFirst(ks + [k], j) == IsFirst(ks, j)
    ensures forall x :: Find(ks + [k], x) ==
              if Find(ks, x).Some? then Find(ks, x) else if x == k then Some(|ks|) else None
  {
    assert (ks + [k])[..|ks|] == ks;
  }

  /**
   * The state of the second loop after `n` data: the keys still to be matched, the keys seen, the
   * three results so far, and which datum each node has been given.
   */
  ghost predicate Binding<D, K(!new)>(nodes: seq<K>, data: seq<K>, n: nat, group: seq<Element<D>>, values: seq<D>,
                                open: map<K, nat>, seen: set<K>, update: seq<Option<Element<D>>>, enter: seq<Option<D>>)
    requires |nodes| == |group| && n <= |data| == |values|
  {
    && |update| == |enter| == n
    && (forall k :: k in open <==> k in nodes && k !in data[..n])
    && (forall k :: k in open ==> Find(nodes, k) == Some(open[k]))
    && (forall k :: k in seen <==> k in data[..n])
    && (forall j :: 0 <= j < n ==>
      update[j] == (if Updates(nodes, data, j).Some? then Some(group[Updates(nodes, data, j).value]) else None))
    && (forall j :: 0 <= j < n ==> enter[j] == (if Enters(nodes, data, j) then Some(values[j]) else None))
  }

  /** What each node is bound to after `n` data: the datum that updates it, or what it had. */
  ghost predicate Bound<D, K>(nodes: seq<K>, data: seq<K>, n: nat, values: seq<D>, was: seq<D>, now: seq<D>)
    requires n <= |data| == |values| && |was| == |now| == |nodes|
  {
    forall i :: 0 <= i < |nodes| ==>
      && (forall j :: 0 <= j < n && Updates(nodes, data, j) == Some(i) ==> now[i] == values[j])
      && ((forall j :: 0 <= j < n ==> Updates(nodes, data, j) != Some(i)) ==> now[i] == was[i])
  }

  lemma {:induction false} BoundStep<D, K>(nodes: seq<K>, data: seq<K>, n: nat, values: seq<D>, was: seq<D>,
      now: seq<D>)
    requires n < |data| == |values| && |was| == |now| == |nodes| && Bound(nodes, data, n, values, was, now)
    ensures Updates(nodes, data, n).None? ==> Bound(nodes, data, n + 1, values, was, now)
    ensures Updates(nodes, data, n).Some? ==>
      Bound(nodes, data, n + 1, values, was, now[Updates(nodes, data, n).value := values[n]])
  {
    if Updates(nodes, data, n).Some? { OnlyOnce(nodes, data, n, Updates(nodes, data, n).value); }
  }

  lemma {:induction false} BindingStep<D, K(!new)>(nodes: seq<K>, data: seq<K>, n: nat, group: seq<Element<D>>,
      values: seq<D>, open: map<K, nat>, seen: set<K>, update: seq<Option<Element<D>>>, enter: seq<Option<D>>)
    requires |nodes| == |group| && n < |data| == |values|
    requires Binding(nodes, data, n, group, values, open, seen, update, enter)
    ensures var k := data[n];
      && (k in open ==> open[k] < |group| && Updates(nodes, data, n) == Some(open[k]))
      && (k !in open ==> Updates(nodes, data, n).None?)
      && Binding(nodes, data, n + 1, group, values, open - {k}, seen + {k},
           update + [if k in open then Some(group[open[k]]) else None],
           enter + [if k !in open && k !in seen then Some(values[n]) else None])
  {
    var k := data[n];
    assert data[..n + 1] == data[..n] + [k];
    assert IsFirst(data, n) <==> k !in data[..n] by {
      if k in data[..n] {
        var j :| 0 <= j < n && data[..n][j] == k;
        assert data[j] == k;
      }
      assert forall j :: 0 <= j < n ==> data[j] == data[..n][j];
    }
  }

  lemma BindingStart<D, K(!new)>(nodes: seq<K>, data: seq<K>, group: seq<Element<D>>, values: seq<D>, open: map<K, nat>,
      was: seq<D>)
    requires |nodes| == |group| == |was| && |data| == |values|
    requires forall k :: k in open <==> k in nodes
    requires forall k :: k in open ==> Find(nodes, k) == Some(open[k])
    ensures Binding(nodes, data, 0, group, values, open, {}, [], []) && Bound(nodes, data, 0, values, was, was)
  {
    assert data[..0] == [];
  }

  lemma BindingEnd<D, K(!new)>(nodes: seq<K>, data: seq<K>, group: seq<Element<D>>, values: seq<D>,
                               open: map<K, nat>, seen: set<K>, update: seq<Option<Element<D>>>, enter: seq<Option<D>>)
    requires |nodes| == |group| && |data| == |values|
    requires Binding(nodes, data, |data|, group, values, open, seen, update, enter)
    ensures |update| == |enter| == |values|
    ensures forall k :: k in open <==> k in nodes && k !in data
    ensures forall j :: 0 <= j < |data| ==>
      update[j] == (if Updates(nodes, data, j).Some? then Some(group[Updates(nodes, data, j).value]) else None)
    ensures forall j :: 0 <= j < |data| ==> enter[j] == (if Enters(nodes, data, j) then Some(values[j]) else None)
  {
    assert data[..|data|] == data;
  }

  /** The second loop: each datum takes the node with its key, or enters, or repeats an earlier key. */
  method MatchData<D, K(==,!new)>(group: seq<Element<D>>, values: seq<D>, key: D -> K, ghost nodes: seq<K>,
                                  nodeByKey: map<K, nat>, ghost data: seq<K>)
    returns (update: seq<Option<Element<D>>>, enter: seq<Option<D>>, open: map<K, nat>)
    requires Distinct(group) && |nodes| == |group| && data == Keys(values, key)
    requires forall k :: k in nodeByKey <==> k in nodes
    requires forall k :: k in nodeByKey ==> Find(nodes, k) == Some(nodeByKey[k])
    modifies group
    ensures |update| == |enter| == |values|
    ensures forall j :: 0 <= j < |values| ==>
              update[j] == (if Updates(nodes, data, j).Some? then Some(group[Updates(nodes, data, j).value]) else None)
    ensures forall j :: 0 <= j < |values| ==> enter[j] == (if Enters(nodes, data, j) then Some(values[j]) else None)
    ensures forall k :: k in open <==> k in nodes && k !in data
    ensures Bound(nodes, data, |values|, values, old(Data(group)), Data(group))
  {
    BindingStart(nodes, data, group, values, nodeByKey, Data(group));
    hide Binding, Bound, Updates, Enters, Find, IsFirst, Keys, Data;
    var seen: set<K> := {};
    update, enter, open := [], [], nodeByKey;
    for n := 0 to |values|
      invariant Binding(nodes, data, n, group, values, open, seen, update, enter)
      invariant Bound(nodes, data, n, values, old(Data(group)), Data(group))
    {
      BoundStep(nodes, data, n, values, old(Data(group)), Data(group));
      BindingStep(nodes, data, n, group, values, open, seen, update, enter);
      var k := key(values[n]);
      if k in open {
        ghost var now := Data(group);
        var node := group[open[k]];
        update := update + [Some(node)];
        node.data := values[n];
        enter := enter + [None];
        assert Data(group) == now[open[k] := values[n]];
      } else if k !in seen {
        update, enter := update + [None], enter + [Some(values[n])];
      } else {
        update, enter := update + [None], enter + [None];
      }
      seen := seen + {k};
      open := open - {k};
    }
    BindingEnd(nodes, data, group, values, open, seen, update, enter);
  }

  /** The third loop: the nodes that no datum took. */
  method ExitNodes<D, K(==,!new)>(group: seq<Element<D>>, nodes: seq<K>, repeated: seq<bool>, open: map<K, nat>,
      ghost data: seq<K>)
    returns (exit: seq<Option<Element<D>>>)
    requires |nodes| == |group| == |repeated|
    requires forall i :: 0 <= i < |group| ==> (repeated[i] <==> !IsFirst(nodes, i))
    requires forall k :: k in open <==> k in nodes && k !in data
    ensures |exit| == |group|
    ensures forall i :: 0 <= i < |group| ==> exit[i] == (if Exits(nodes, data, i) then Some(group[i]) else None)
  {
    hide IsFirst;
    exit := [];
    for i := 0 to |group|
      invariant |exit| == i
      invariant forall j :: 0 <= j < i ==> exit[j] == (if Exits(nodes, data, j) then Some(group[j]) else None)
    {
      exit := exit + [if repeated[i] || nodes[i] in open then Some(group[i]) else None];
    }
  }

  /** `bind` with a key function, on a group of distinct nodes. */
  method Bind<D, K(==,!new)>(group: seq<Element<D>>, values: seq<D>, key: D -> K)
    returns (update: seq<Option<Element<D>>>, enter: seq<Option<D>>, exit: seq<Option<Element<D>>>)
    requires Distinct(group)
    modifies group
    ensures var nodes, data := Keys(old(Data(group)), key), Keys(values, key);
      && |update| == |enter| == |values| && |exit| == |group|
      && (forall j :: 0 <= j < |values| ==>
            update[j] == (if Updates(nodes, data, j).Some? then Some(group[Updates(nodes, data, j).value]) else None))
      && (forall j :: 0 <= j < |values| ==> enter[j] == (if Enters(nodes, data, j) then Some(values[j]) else None))
      && (forall i :: 0 <= i < |group| ==> exit[i] == (if Exits(nodes, data, i) then Some(group[i]) else None))
      && Bound(nodes, data, |values|, values, old(Data(group)), Data(group))
  {
    hide *;
    ghost var data, was := Keys(values, key), Data(group);
    var open, nodes, repeated := IndexNodes(group, key);
    update, enter, open := MatchData(group, values, key, nodes, open, data);
    exit := ExitNodes(group, nodes, repeated, open, data);
  }

  /** A node is updated by at most one datum. */
  lemma {:induction false} OnlyOnce<K>(nodes: seq<K>, data: seq<K>, n: nat, i: nat)
    requires n < |data| && i < |nodes| && Updates(nodes, data, n) == Some(i)
    ensures forall j :: 0 <= j < |data| && j != n ==> Updates(nodes, data, j) != Some(i)
  {
    NodesSplit(nodes, data, i);
  }

  /** `enter().append`: a new element for each entering datum, put into the gaps of the update selection. */
  method Append<D>(enter: seq<Option<D>>, update: seq<Option<Element<D>>>) returns (merged: seq<Option<Element<D>>>)
    requires |enter| == |update|
    ensures |merged| == |update|
    ensures forall j :: 0 <= j < |enter| ==>
              if enter[j].Some? then merged[j].Some? && fresh(merged[j].value) && merged[j].value.data == enter[j].value
              else merged[j] == update[j]
    ensures forall i, j :: 0 <= i < j < |enter| && enter[i].Some? && enter[j].Some? ==> merged[i] != merged[j]
  {
    merged := update;
    for n := 0 to |enter|
      invariant |merged| == |update|
      invariant forall j :: n <= j < |update| ==> merged[j] == update[j]
      invariant forall j :: 0 <= j < n ==>
                  if enter[j].Some? then merged[j].Some? && fresh(merged[j].value)
                    && merged[j].value.data == enter[j].value
                  else merged[j] == update[j]
      invariant forall i, j :: 0 <= i < j < n && enter[i].Some? && enter[j].Some? ==> merged[i] != merged[j]
    {
      if enter[n].Some? {
        var e := new Element(enter[n].value);
        merged := merged[n := Some(e)];
      }
    }
  }

  /**
   * The vertex half of `restart`: join the data to the circles, drop the circles that exit, add the
   * ones that enter.  With distinct keys the canvas ends up showing exactly the data, in order, and a
   * circle is kept exactly when its key is still there.
   */
  method Restart<D, K(==,!new)>(circles: seq<Element<D>>, values: seq<D>, key: D -> K) returns (shown: seq<Element<D>>)
    requires Distinct(circles) && Distinct(Keys(values, key))
    modifies circles
    ensures Data(shown) == values && Distinct(shown)
    ensures forall j :: 0 <= j < |values| ==>
              var nodes := Keys(old(Data(circles)), key);
              if key(values[j]) in nodes then shown[j] == circles[Find(nodes, key(values[j])).value]
                else fresh(shown[j])
  {
    var update, enter, exit := Bind(circles, values, key);
    ghost var nodes, data := Keys(old(Data(circles)), key), Keys(values, key);
    var merged := Append(enter, update);
    AllPresent(nodes, data);
    shown := [];
    for j := 0 to |merged|
      invariant |shown| == j
      invariant forall i :: 0 <= i < j ==> merged[i] == Some(shown[i])
    {
      shown := shown + [merged[j].value];
    }
    forall j | 0 <= j < |values|
      ensures shown[j].data == values[j]
    {
      if Updates(nodes, data, j).Some? {
        assert Data(circles)[Updates(nodes, data, j).value] == values[j];
      }
    }
    forall i, j | 0 <= i < j < |values|
      ensures shown[i] != shown[j]
    {
      if Updates(nodes, data, i).Some? && Updates(nodes, data, j).Some? {
        NodesSplit(nodes, data, Updates(nodes, data, i).value);
      }
    }
  }

  lemma {:induction false} AllPresent<K>(nodes: seq<K>, data: seq<K>)
    requires Distinct(data)
    ensures forall j :: 0 <= j < |data| ==>
      IsFirst(data, j) && (Enters(nodes, data, j) <==> Updates(nodes, data, j).None?)
  {
    forall j | 0 <= j < |data|
      ensures IsFirst(data, j) && (Enters(nodes, data, j) <==> Updates(nodes, data, j).None?)
    {
      DataSplit(nodes, data, j);
    }
  }
}
