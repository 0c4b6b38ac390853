/**
 * d3.interpolateString: a template with one slot for each number of the target string, compacted in
 * place by relocating the slot indices.  The numbers of both strings are already tokenised.
 */
module Interpolate {
  import opened Wrappers

  /**
   * The numbers of the source string, and the target string cut at its numbers: `b` is
   * `lits[0] nums[0] lits[1] nums[1] ... lits[n]`, where the literals may be empty.
   */
  datatype Strings = Strings(a: seq<string>, lits: seq<string>, nums: seq<string>) {
    ghost predicate Valid() {
      |lits| == |nums| + 1
    }
  }

  /** What `q` holds for a slot: the number as text, or the interpolator between two numbers. */
  datatype Value = Literal(text: string) | Between(source: string, target: string)

  datatype Slot = Slot(i: nat, x: Value)

  /** What the function returns: a constant, a lone interpolator, or a template with its slots. */
  datatype Interpolator = Constant(text: string) | Lone(x: Value) | Template(s: seq<Option<string>>, q: seq<Slot>)

  // ---------- what is promised ----------

  /** The text of number `k` at time `t`: as written if the source lacks it or spells it the same, else in between. */
  function Piece<T>(w: Strings, render: (string, string, T) -> string, k: nat, t: T): string
    requires k < |w.nums|
  {
    if k < |w.a| && w.a[k] != w.nums[k] then render(w.a[k], w.nums[k], t) else w.nums[k]
  }

  /** The promised text up to number `c`, at time `t`. */
  function Head<T>(w: Strings, render: (string, string, T) -> string, c: nat, t: T): string
    requires w.Valid() && c <= |w.nums|
  {
    if c == 0 then w.lits[0] else Head(w, render, c - 1, t) + Piece(w, render, c - 1, t) + w.lits[c]
  }

  function Promised<T>(w: Strings, render: (string, string, T) -> string, t: T): string
    requires w.Valid()
  {
    Head(w, render, |w.nums|, t)
  }

  /** The target string itself, from number `c` on. */
  function Written(w: Strings, c: nat): string
    requires w.Valid() && c <= |w.nums|
    decreases |w.nums| - c
  {
    if c == |w.nums| then "" else w.nums[c] + w.lits[c + 1] + Written(w, c + 1)
  }

  function Target(w: Strings): string
    requires w.Valid()
  {
    w.lits[0] + Written(w, 0)
  }

  /** The target string up to number `c`, with these numbers in place of its own. */
  function Spelled(w: Strings, nums: seq<string>, c: nat): string
    requires w.Valid() && c <= |w.nums| == |nums|
  {
    if c == 0 then w.lits[0] else Spelled(w, nums, c - 1) + nums[c - 1] + w.lits[c]
  }

  /** The numbers of the source, and those of the target that it lacks. */
  function SourceNumbers(w: Strings): (nums: seq<string>)
    ensures |nums| == |w.nums|
  {
    seq(|w.nums|, k requires 0 <= k < |w.nums| => if k < |w.a| then w.a[k] else w.nums[k])
  }

  /**
   * If interpolating two numbers begins with the first and ends with the second, the string begins with the target's
   * text around the source's numbers, and ends with the target.
   */
  lemma AtTheEnds<T>(w: Strings, render: (string, string, T) -> string, first: T, last: T)
    requires w.Valid() && forall a, b :: render(a, b, first) == a && render(a, b, last) == b
    ensures Promised(w, render, first) == Spelled(w, SourceNumbers(w), |w.nums|)
    ensures Promised(w, render, last) == Spelled(w, w.nums, |w.nums|) == Target(w)
  {
    HeadAtTheEnds(w, render, |w.nums|, first, last);
    SpelledWritten(w, 0);
  }

  lemma {:induction false} HeadAtTheEnds<T>(w: Strings, render: (string, string, T) -> string, c: nat, first: T,
      last: T)
    requires w.Valid() && c <= |w.nums| && forall a, b :: render(a, b, first) == a && render(a, b, last) == b
    ensures Head(w, render, c, first) == Spelled(w, SourceNumbers(w), c)
    ensures Head(w, render, c, last) == Spelled(w, w.nums, c)
  {
    if c > 0 { HeadAtTheEnds(w, render, c - 1, first, last); }
  }

  lemma {:induction false} SpelledWritten(w: Strings, c: nat)
    requires w.Valid() && c <= |w.nums|
    ensures Spelled(w, w.nums, c) + Written(w, c) == Spelled(w, w.nums, |w.nums|)
    decreases |w.nums| - c
  {
    if c < |w.nums| {
      SpelledWritten(w, c + 1);
      assert Spelled(w, w.nums, c) + (w.nums[c] + w.lits[c + 1] + Written(w, c + 1))
          == Spelled(w, w.nums, c) + w.nums[c] + w.lits[c + 1] + Written(w, c + 1);
    } else {
      assert Spelled(w, w.nums, c) + "" == Spelled(w, w.nums, c);
    }
  }

  // ---------- what a template yields ----------

  function ValueAt<T>(render: (string, string, T) -> string, x: Value, t: T): string {
    match x
    case Literal(text) => text
    case Between(source, target) => render(source, target, t)
  }

  /** `s.join("")`; a null is joined as nothing. */
  function Join(s: seq<Option<string>>): string {
    if s == [] then "" else Join(s[..|s| - 1]) + (if s[|s| - 1].Some? then s[|s| - 1].value else "")
  }

  predicate SlotsIn(q: seq<Slot>, n: nat) {
    forall k :: 0 <= k < |q| ==> q[k].i < n
  }

  function Fill<T>(render: (string, string, T) -> string, s: seq<Option<string>>, q: seq<Slot>,
      t: T)
    : (r: seq<Option<string>>)
    requires SlotsIn(q, |s|)
    ensures |r| == |s|
  {
    if q == [] then s
    else
      var last := q[|q| - 1];
      Fill(render, s, q[..|q| - 1], t)[last.i := Some(ValueAt(render, last.x, t))]
  }

  function Out<T>(render: (string, string, T) -> string, s: seq<Option<string>>, q: seq<Slot>, t: T): string
    requires SlotsIn(q, |s|)
  {
    Join(Fill(render, s, q, t))
  }

  /** The string that the returned function gives at time `t`. */
  function Yield<T>(render: (string, string, T) -> string, r: Interpolator, t: T): string
    requires r.Template? ==> SlotsIn(r.q, |r.s|)
  {
    match r
    case Constant(text) => text
    case Lone(x) => ValueAt(render, x, t)
    case Template(s, q) => Out(render, s, q, t)
  }

  lemma {:induction false} JoinConcat(s: seq<Option<string>>, u: seq<Option<string>>)
    ensures Join(s + u) == Join(s) + Join(u)
  {
    if u == [] {
      assert s + u == s;
    } else {
      JoinConcat(s, u[..|u| - 1]);
      assert (s + u)[..|s + u| - 1] == s + u[..|u| - 1];
    }
  }

  lemma {:induction false} FillConcat<T>(render: (string, string, T) -> string, s: seq<Option<string>>,
      u: seq<Option<string>>, q: seq<Slot>, t: T)
    requires SlotsIn(q, |s|)
    ensures Fill(render, s + u, q, t) == Fill(render, s, q, t) + u
  {
    if q != [] { FillConcat(render, s, u, q[..|q| - 1], t); }
  }

  lemma {:induction false} OutConcat<T>(render: (string, string, T) -> string, s: seq<Option<string>>,
      u: seq<Option<string>>, q: seq<Slot>, t: T)
    requires SlotsIn(q, |s|)
    ensures Out(render, s + u, q, t) == Out(render, s, q, t) + Join(u)
  {
    FillConcat(render, s, u, q, t);
    JoinConcat(Fill(render, s, q, t), u);
  }

  /** Appending text to a last element that no slot overwrites. */
  lemma {:induction false} OutAppend<T>(render: (string, string, T) -> string, s: seq<Option<string>>, q: seq<Slot>,
      text: string, t: T)
    requires s != [] && s[|s| - 1].Some? && SlotsIn(q, |s| - 1)
    ensures var n := |s| - 1; Out(render, s[n := Some(s[n].value + text)], q, t) == Out(render, s, q, t) + text
  {
    var n := |s| - 1;
    var front, last := s[..n], s[n].value;
    assert s == front + [Some(last)] && s[n := Some(last + text)] == front + [Some(last + text)];
    OutConcat(render, front, [Some(last)], q, t);
    OutConcat(render, front, [Some(last + text)], q, t);
    JoinOne(last);
    JoinOne(last + text);
  }

  lemma JoinOne(x: string)
    ensures Join([Some(x)]) == x
  {
    assert [Some(x)][..0] == [];
  }

  // ---------- the template before and during compaction ----------

  /** The untouched part of the template for the numbers from `c` to `d`: a slot, then a literal, in turn. */
  function Block(w: Strings, c: nat, d: nat): (s: seq<Option<string>>)
    requires w.Valid() && c <= d <= |w.nums|
    ensures c < d ==> |s| >= 1 && s[0].None?
    ensures d < |w.nums| || w.lits[|w.nums|] != "" ==> |s| == 2 * (d - c)
    decreases d
  {
    if c == d then []
    else Block(w, c, d - 1) + [None] + After(w, d - 1)
  }

  /** The slots for the numbers from `c` to `d`, when the block for `c` starts at `at`. */
  function Slots(w: Strings, at: nat, c: nat, d: nat): (q: seq<Slot>)
    requires c <= d <= |w.nums|
    ensures |q| == d - c
    ensures forall k :: 0 <= k < d - c ==> q[k] == Slot(at + 2 * k, Literal(w.nums[c + k]))
  {
    seq(d - c, k requires 0 <= k < d - c => Slot(at + 2 * k, Literal(w.nums[c + k])))
  }

  /** The source has a number `k` and spells it as the target does. */
  ghost predicate Same(w: Strings, k: nat)
    requires k < |w.nums|
  {
    k < |w.a| && w.a[k] == w.nums[k]
  }

  ghost predicate Ordered(q: seq<Slot>) {
    forall j, k :: 0 <= j < k < |q| ==> q[j].i < q[k].i
  }

  /** The nulls of `s` are exactly the slots. */
  ghost predicate NullsAreSlots(s: seq<Option<string>>, q: seq<Slot>) {
    && SlotsIn(q, |s|)
    && (forall k :: 0 <= k < |q| ==> s[q[k].i].None? && q[k].x.Between?)
    && (forall p :: 0 <= p < |s| && s[p].None? ==> exists k :: 0 <= k < |q| && q[k].i == p)
  }

  /** The finished part: it yields the promised text up to number `c`, at all times. */
  ghost predicate Finished<T(!new)>(w: Strings, render: (string, string, T) -> string, s: seq<Option<string>>,
      q: seq<Slot>, c: nat)
    requires w.Valid() && c <= |w.nums|
  {
    && Ordered(q) && NullsAreSlots(s, q)
    && (forall t: T :: Out(render, s, q, t) == Head(w, render, c, t))
    && (c < |w.nums| && s != [] ==> s[|s| - 1].Some?)
    && (q == [] ==> forall k :: 0 <= k < c ==> Same(w, k))
  }

  /** A number spelled the same, with the literal after it, is merged into the literal before it. */
  lemma {:induction false} MergeBack<T(!new)>(w: Strings, render: (string, string, T) -> string, s: seq<Option<string>>,
      q: seq<Slot>, c: nat)
    requires w.Valid() && c < |w.nums| && Finished(w, render, s, q, c) && s != []
    requires c < |w.a| && w.a[c] == w.nums[c]
    ensures s[|s| - 1].Some?
    ensures var n := |s| - 1;
      Finished(w, render, s[n := Some(s[n].value + (w.nums[c] + w.lits[c + 1]))], q, c + 1)
  {
    var n, text := |s| - 1, w.nums[c] + w.lits[c + 1];
    var r := s[n := Some(s[n].value + text)];
    assert SlotsIn(q, n);
    forall t: T
      ensures Out(render, r, q, t) == Head(w, render, c + 1, t)
    {
      OutAppend(render, s, q, text, t);
    }
  }

  lemma HasSlot(q: seq<Slot>)
    requires q != []
    ensures !SlotsIn(q, 0)
  {
    assert q[0].i >= 0;
  }

  /** The same with no literal before it: the template starts with the merged text. */
  lemma {:induction false} MergeFirst<T(!new)>(w: Strings, render: (string, string, T) -> string, q: seq<Slot>, c: nat)
    requires w.Valid() && c < |w.nums| && Finished(w, render, [], q, c)
    requires c < |w.a| && w.a[c] == w.nums[c]
    ensures q == [] && Finished(w, render, [Some(w.nums[c] + w.lits[c + 1])], q, c + 1)
  {
    var r := [Some(w.nums[c] + w.lits[c + 1])];
    if q != [] { HasSlot(q); }
    JoinOne(w.nums[c] + w.lits[c + 1]);
    forall t: T
      ensures Out(render, r, q, t) == Head(w, render, c + 1, t)
    {
      assert Out(render, [], q, t) == "";
    }
  }

  lemma {:induction false} OutSlot<T>(render: (string, string, T) -> string, s: seq<Option<string>>, q: seq<Slot>,
      x: Value, lit: seq<Option<string>>, t: T)
    requires SlotsIn(q, |s|)
    ensures SlotsIn(q + [Slot(|s|, x)], |s + [None] + lit|)
    ensures Out(render, s + [None] + lit, q + [Slot(|s|, x)], t) ==
      Out(render, s, q, t) + ValueAt(render, x, t) + Join(lit)
  {
    var r, q', v := s + [None] + lit, q + [Slot(|s|, x)], Some(ValueAt(render, x, t));
    assert q'[..|q|] == q;
    FillConcat(render, s, [None] + lit, q, t);
    assert s + ([None] + lit) == r;
    var f := Fill(render, s, q, t);
    assert Fill(render, r, q', t) == f + ([v] + lit);
    JoinConcat(f, [v] + lit);
    JoinConcat([v], lit);
    JoinOne(v.value);
    assert Join(f) + (v.value + Join(lit)) == Join(f) + v.value + Join(lit);
  }

  lemma {:induction false} KeepNulls(s: seq<Option<string>>, q: seq<Slot>, x: Value, lit: seq<Option<string>>)
    requires Ordered(q) && NullsAreSlots(s, q) && x.Between? && forall p :: 0 <= p < |lit| ==> lit[p].Some?
    ensures Ordered(q + [Slot(|s|, x)]) && NullsAreSlots(s + [None] + lit, q + [Slot(|s|, x)])
  {
    var r, q' := s + [None] + lit, q + [Slot(|s|, x)];
    forall p | 0 <= p < |r| && r[p].None?
      ensures exists k :: 0 <= k < |q'| && q'[k].i == p
    {
      if p < |s| {
        var k :| 0 <= k < |q| && q[k].i == p;
        assert q'[k].i == p;
      } else {
        assert q'[|q|].i == p;
      }
    }
  }

  /** The literal that follows number `c` in the template, if it is there. */
  function After(w: Strings, c: nat): seq<Option<string>>
    requires w.Valid() && c < |w.nums|
  {
    if c + 1 < |w.nums| || w.lits[c + 1] != "" then [Some(w.lits[c + 1])] else []
  }

  lemma JoinAfter(w: Strings, c: nat)
    requires w.Valid() && c < |w.nums|
    ensures Join(After(w, c)) == w.lits[c + 1]
  {
    JoinOne(w.lits[c + 1]);
  }

  /** A number spelled differently keeps its slot. */
  lemma {:induction false} KeepSlot<T(!new)>(w: Strings, render: (string, string, T) -> string, s: seq<Option<string>>,
      q: seq<Slot>, c: nat)
    requires w.Valid() && c < |w.nums| && Finished(w, render, s, q, c)
    requires c < |w.a| && w.a[c] != w.nums[c]
    ensures Finished(w, render, s + [None] + After(w, c), q + [Slot(|s|, Between(w.a[c], w.nums[c]))], c + 1)
  {
    var x := Between(w.a[c], w.nums[c]);
    KeepNulls(s, q, x, After(w, c));
    JoinAfter(w, c);
    forall t: T
      ensures Out(render, s + [None] + After(w, c), q + [Slot(|s|, x)], t) == Head(w, render, c + 1, t)
    {
      OutSlot(render, s, q, x, After(w, c), t);
    }
    hide Out, Head, NullsAreSlots, Ordered;
  }

  lemma {:induction false} BlockFront(w: Strings, c: nat, d: nat)
    requires w.Valid() && c < d <= |w.nums|
    ensures Block(w, c, d) == [None] + After(w, c) + Block(w, c + 1, d)
    decreases d
  {
    if c + 1 < d {
      BlockFront(w, c, d - 1);
      assert Block(w, c, d) == ([None] + After(w, c) + Block(w, c + 1, d - 1)) + [None] + After(w, d - 1);
      assert Block(w, c, d) == [None] + After(w, c) + (Block(w, c + 1, d - 1) + [None] + After(w, d - 1));
    } else {
      assert Block(w, c, d) == [] + [None] + After(w, c);
    }
  }

  // ---------- the program ----------

  /** The first loop: the template of the target string, with a slot for each number. */
  method BuildTemplate(w: Strings) returns (s: seq<Option<string>>, q: seq<Slot>)
    requires w.Valid()
    ensures var first: seq<Option<string>> := if w.lits[0] != "" then [Some(w.lits[0])] else [];
      s == first + Block(w, 0, |w.nums|) && q == Slots(w, |first|, 0, |w.nums|)
  {
    var n := |w.nums|;
    ghost var first: seq<Option<string>> := if w.lits[0] != "" then [Some(w.lits[0])] else [];
    s, q := [], [];
    for i := 0 to n
      invariant i == 0 ==> s == [] && q == []
      invariant i > 0 ==> s + After(w, i - 1) == first + Block(w, 0, i) && q == Slots(w, |first|, 0, i)
    {
      if i > 0 || w.lits[0] != "" { s := s + [Some(w.lits[i])]; } // the match is not at the very start
      assert s == first + Block(w, 0, i);
      q := q + [Slot(|s|, Literal(w.nums[i]))];
      s := s + [None];
      assert Block(w, 0, i + 1) == Block(w, 0, i) + [None] + After(w, i);
      assert s + After(w, i) == first + (Block(w, 0, i) + [None] + After(w, i));
    }
    if w.lits[n] != "" { s := s + [Some(w.lits[n])]; }
  }

  /** `for (j = from; j < n; ++j) q[j].i -= step`. */
  method ShiftSlots(q: seq<Slot>, from: nat, step: nat) returns (r: seq<Slot>)
    requires from <= |q| && forall j :: from <= j < |q| ==> q[j].i >= step
    ensures |r| == |q| && r[..from] == q[..from]
    ensures forall j :: from <= j < |q| ==> r[j] == q[j].(i := q[j].i - step)
  {
    r := q;
    for j := from to |q|
      invariant |r| == |q| && r[..from] == q[..from]
      invariant forall k :: from <= k < j ==> r[k] == q[k].(i := q[k].i - step)
      invariant forall k :: j <= k < |q| ==> r[k] == q[k]
    {
      r := r[j := r[j].(i := r[j].i - step)];
    }
  }

  /** The state of the second loop: a finished part, then the untouched rest of the template. */
  ghost predicate Compacting<T(!new)>(w: Strings, render: (string, string, T) -> string,
                                      s: seq<Option<string>>, q: seq<Slot>, i: nat, c: nat, done: seq<Option<string>>)
  {
    && w.Valid() && c <= |w.nums| && i <= |q|
    && s == done + Block(w, c, |w.nums|)
    && q[i..] == Slots(w, |done|, c, |w.nums|)
    && Finished(w, render, done, q[..i], c)
  }

  /** A null or missing element, as `s[k] == null` sees it. */
  predicate Nothing(s: seq<Option<string>>, k: nat) {
    k >= |s| || s[k].None?
  }

  /** What stands at the slot under the loop index, and around it. */
  lemma {:induction false} AtSlot<T(!new)>(w: Strings, render: (string, string, T) -> string,
      s: seq<Option<string>>, q: seq<Slot>, i: nat, c: nat, done: seq<Option<string>>)
    requires Compacting(w, render, s, q, i, c, done) && i < |q|
    ensures c < |w.nums| && q[i] == Slot(|done|, Literal(w.nums[c]))
    ensures s == done + [None] + After(w, c) + Block(w, c + 1, |w.nums|)
    ensures if Nothing(s, |done| + 1) then After(w, c) == [] && Block(w, c + 1, |w.nums|) == []
            else |After(w, c)| == 1 && After(w, c)[0].Some?
    ensures done != [] ==> done[|done| - 1].Some?
    ensures w.Valid() && |w.lits| == |w.nums| + 1 && Finished(w, render, done, q[..i], c)
    ensures |Slots(w, |done| + 2, c + 1, |w.nums|)| == |q| - i - 1
    ensures forall j :: i < j < |q| ==> q[j] == Slots(w, |done| + 2, c + 1, |w.nums|)[j - i - 1] && q[j].i >= |done| + 2
  {
    BlockFront(w, c, |w.nums|);
    hide Finished, Block;
    assert s == done + ([None] + After(w, c) + Block(w, c + 1, |w.nums|));
    assert forall j :: i <= j < |q| ==> q[j] == q[i..][j - i];
  }

  lemma Refold<T(!new)>(w: Strings, render: (string, string, T) -> string,
                        s: seq<Option<string>>, q: seq<Slot>, i: nat, c: nat, done: seq<Option<string>>)
    requires w.Valid() && c <= |w.nums| && i <= |q|
    requires s == done + Block(w, c, |w.nums|)
    requires q[i..] == Slots(w, |done|, c, |w.nums|)
    requires Finished(w, render, done, q[..i], c)
    ensures Compacting(w, render, s, q, i, c, done)
  {
  }

  /**
   * The slot of `o` is dropped, and its text merged with the literal before it and the literal after
   * it, if there is one; the later slots move down by as many places.
   */
  method AbsorbBack(s0: seq<Option<string>>, q0: seq<Slot>, i: nat, ghost done: seq<Option<string>>,
      ghost after: seq<Option<string>>, ghost rest: seq<Option<string>>)
    returns (s: seq<Option<string>>, q: seq<Slot>)
    requires s0 == done + [None] + after + rest && done != [] && done[|done| - 1].Some?
    requires i < |q0| && q0[i].i == |done| && q0[i].x.Literal? && forall j :: i < j < |q0| ==> q0[j].i >= |done| + 2
    requires if Nothing(s0, |done| + 1) then after == [] && rest == [] else |after| == 1 && after[0].Some?
    ensures var k := |done| - 1;
      s == done[k := Some(done[k].value + (q0[i].x.text + Join(after)))] + rest
    ensures |q| == |q0| && q[..i] == q0[..i] && forall j :: i < j < |q0| ==> q[j] == q0[j].(i := q0[j].i - 1 - |after|)
  {
    var o := q0[i];
    var back := s0[o.i - 1].value;
    ghost var k := |done| - 1;
    if Nothing(s0, o.i + 1) {
      s := s0[o.i - 1 := Some(back + o.x.text)];
      s := s[..o.i] + s[o.i + 1..];
      q := ShiftSlots(q0, i + 1, 1);
      assert o.x.text == o.x.text + Join(after);
      assert s == done[k := Some(done[k].value + o.x.text)] + rest;
    } else {
      var next := s0[o.i + 1].value;
      assert next == after[0].value && after == [Some(next)];
      JoinOne(next);
      s := s0[o.i - 1 := Some(back + (o.x.text + next))];
      s := s[..o.i] + s[o.i + 2..];
      q := ShiftSlots(q0, i + 1, 2);
      assert s == done[k := Some(done[k].value + (o.x.text + next))] + rest;
    }
    assert forall j :: 0 <= j < i ==> q[j] == q[..i + 1][j];
  }

  /** The same for a slot at the very start: the merged text takes its place. */
  method AbsorbFirst(s0: seq<Option<string>>, q0: seq<Slot>, i: nat, ghost after: seq<Option<string>>,
      ghost rest: seq<Option<string>>)
    returns (s: seq<Option<string>>, q: seq<Slot>)
    requires s0 == [None] + after + rest
    requires i < |q0| && q0[i].i == 0 && q0[i].x.Literal? && forall j :: i < j < |q0| ==> q0[j].i >= 2
    requires if Nothing(s0, 1) then after == [] && rest == [] else |after| == 1 && after[0].Some?
    ensures s == [Some(q0[i].x.text + Join(after))] + rest
    ensures |q| == |q0| && q[..i] == q0[..i] && forall j :: i < j < |q0| ==> q[j] == q0[j].(i := q0[j].i - |after|)
  {
    var o := q0[i];
    if Nothing(s0, o.i + 1) {
      s, q := s0[o.i := Some(o.x.text)], q0;
      assert o.x.text == o.x.text + Join(after);
    } else {
      var next := s0[o.i + 1].value;
      assert after == [Some(next)];
      JoinOne(next);
      s := s0[o.i := Some(o.x.text + next)];
      s := s[..o.i + 1] + s[o.i + 2..];
      q := ShiftSlots(q0, i + 1, 1);
      assert forall j :: 0 <= j < i ==> q[j] == q[..i + 1][j];
    }
  }

  /** One turn of the second loop, for a number that both strings spell the same. */
  method Absorb<T(!new)>(w: Strings, ghost render: (string, string, T) -> string, s0: seq<Option<string>>,
      q0: seq<Slot>, i: nat, ghost c: nat, ghost done: seq<Option<string>>)
    returns (s: seq<Option<string>>, q: seq<Slot>, ghost done': seq<Option<string>>)
    requires Compacting(w, render, s0, q0, i, c, done) && i < |q0| && c < |w.a| && c < |w.nums| && w.a[c] == w.nums[c]
    ensures i <= |q| && Compacting(w, render, s, q, i, c + 1, done')
  {
    hide *;
    AtSlot(w, render, s0, q0, i, c, done);
    JoinAfter(w, c);
    ghost var rest, tail := Block(w, c + 1, |w.nums|), Slots(w, |done| + 2, c + 1, |w.nums|);
    if q0[i].i != 0 {
      MergeBack(w, render, done, q0[..i], c);
      s, q := AbsorbBack(s0, q0, i, done, After(w, c), rest);
      ghost var k := |done| - 1;
      done' := done[k := Some(done[k].value + (w.nums[c] + w.lits[c + 1]))];
    } else {
      assert done == [];
      MergeFirst(w, render, q0[..i], c);
      assert s0 == [None] + After(w, c) + rest;
      s, q := AbsorbFirst(s0, q0, i, After(w, c), rest);
      done' := [Some(w.nums[c] + w.lits[c + 1])];
    }
    Dropped(w, render, s, q, q0[..i], i, c + 1, done', tail, |done| + 2);
    q := q[..i] + q[i + 1..];
  }

  /** Splicing the merged slot out of `q` leaves the finished slots and the relocated rest. */
  lemma Dropped<T(!new)>(w: Strings, render: (string, string, T) -> string, s: seq<Option<string>>, q: seq<Slot>,
      kept: seq<Slot>, i: nat, c: nat, done: seq<Option<string>>, tail: seq<Slot>, was: nat)
    requires w.Valid() && c <= |w.nums| && i < |q| && q[..i] == kept && Finished(w, render, done, kept, c)
    requires s == done + Block(w, c, |w.nums|) && tail == Slots(w, was, c, |w.nums|) && |tail| == |q| - i - 1
    requires forall j :: i < j < |q| ==> q[j].i == tail[j - i - 1].i + |done| - was && q[j].x == tail[j - i - 1].x
    ensures Compacting(w, render, s, q[..i] + q[i + 1..], i, c, done)
  {
    hide Finished, Block;
    var q' := q[..i] + q[i + 1..];
    assert q'[..i] == kept;
    assert q'[i..] == Slots(w, |done|, c, |w.nums|);
  }

  lemma Relocated(w: Strings, q: seq<Slot>, tail: seq<Slot>, at: nat, was: nat, c: nat)
    requires c <= |w.nums| && tail == Slots(w, was, c, |w.nums|) && |q| == |tail|
    requires forall j :: 0 <= j < |q| ==> q[j].x == tail[j].x && q[j].i == tail[j].i + at - was
    ensures q == Slots(w, at, c, |w.nums|)
  {
  }

  /** The second loop: one number of the source against one number of the target at a time. */
  method Compact<T(!new)>(w: Strings, ghost render: (string, string, T) -> string, s0: seq<Option<string>>,
      q0: seq<Slot>, ghost first: seq<Option<string>>)
    returns (s: seq<Option<string>>, q: seq<Slot>, i: nat, ghost c: nat, ghost done: seq<Option<string>>)
    requires Compacting(w, render, s0, q0, 0, 0, first)
    ensures Compacting(w, render, s, q, i, c, done)
    ensures i == |q| || c >= |w.a|
  {
    hide *;
    s, q, i, c, done := s0, q0, 0, 0, first;
    var m := 0;
    while m < |w.a| && i < |q|
      invariant m == c && i <= |q| && Compacting(w, render, s, q, i, c, done)
      decreases |w.a| - m
    {
      AtSlot(w, render, s, q, i, c, done);
      if q[i].x.text == w.a[m] {
        s, q, done := Absorb(w, render, s, q, i, c, done);
      } else {
        q, done := Keep(w, render, s, q, i, m, done);
        i := i + 1;
      }
      m, c := m + 1, c + 1;
    }
  }

  /** One turn of the second loop, for a number that the strings spell differently. */
  method Keep<T(!new)>(w: Strings, ghost render: (string, string, T) -> string, ghost s: seq<Option<string>>,
      q0: seq<Slot>, i: nat, c: nat, ghost done: seq<Option<string>>)
    returns (q: seq<Slot>, ghost done': seq<Option<string>>)
    requires Compacting(w, render, s, q0, i, c, done) && i < |q0| && c < |w.a| && c < |w.nums| && w.a[c] != w.nums[c]
    ensures i + 1 <= |q| && Compacting(w, render, s, q, i + 1, c + 1, done')
  {
    hide *;
    AtSlot(w, render, s, q0, i, c, done);
    KeepSlot(w, render, done, q0[..i], c);
    q := q0[i := q0[i].(x := Between(w.a[c], q0[i].x.text))];
    done' := done + [None] + After(w, c);
    assert q[..i + 1] == q0[..i] + [Slot(|done|, Between(w.a[c], w.nums[c]))];
    assert q[i + 1..] == q0[i + 1..];
    EmptyRest(w, c, |done'|, |done| + 2);
    Relocated(w, q0[i + 1..], Slots(w, |done| + 2, c + 1, |w.nums|), |done'|, |done| + 2, c + 1);
    Refold(w, render, s, q, i + 1, c + 1, done');
  }

  /** Only after the last number can the literal be missing. */
  lemma EmptyRest(w: Strings, c: nat, at: nat, was: nat)
    requires w.Valid() && c < |w.nums|
    ensures |After(w, c)| <= 1 && (After(w, c) == [] ==> c + 1 == |w.nums|)
    ensures c + 1 == |w.nums| ==> Slots(w, at, c + 1, |w.nums|) == [] == Slots(w, was, c + 1, |w.nums|)
  {
  }

  /** The state of the last loop: finished, untouched up to number `d`, and plain text from there on. */
  ghost predicate Popping(w: Strings, s: seq<Option<string>>, q: seq<Slot>, i: nat, c: nat, d: nat,
      done: seq<Option<string>>, tail: seq<Option<string>>)
  {
    && w.Valid() && c <= d <= |w.nums| && i + (d - c) == |q|
    && s == done + Block(w, c, d) + tail
    && q[i..] == Slots(w, |done|, c, d)
    && Join(tail) == Written(w, d) && (forall p :: 0 <= p < |tail| ==> tail[p].Some?)
    && (d == |w.nums| ==> tail == [])
  }

  lemma {:induction false} AtLastSlot(w: Strings, s: seq<Option<string>>, q: seq<Slot>, i: nat, c: nat, d: nat,
      done: seq<Option<string>>, tail: seq<Option<string>>)
    requires Popping(w, s, q, i, c, d, done, tail) && i < |q|
    ensures c < d
    ensures var o, before := q[|q| - 1], done + Block(w, c, d - 1);
      && o == Slot(|before|, Literal(w.nums[d - 1]))
      && s == before + [None] + After(w, d - 1) + tail
      && (if Nothing(s, o.i + 1) then After(w, d - 1) == [] && tail == []
        else |After(w, d - 1)| == 1 && After(w, d - 1)[0].Some?)
      && Popping(w, before + [Some(w.nums[d - 1] + Join(After(w, d - 1)))] + tail, q[..|q| - 1], i, c, d - 1, done,
           [Some(w.nums[d - 1] + Join(After(w, d - 1)))] + tail)
  {
    var before, text := done + Block(w, c, d - 1), w.nums[d - 1] + Join(After(w, d - 1));
    assert q[|q| - 1] == q[i..][d - 1 - c];
    LastPart(w, c, d, done, tail);
    WrittenStep(w, d, tail);
    hide Join, Written, Block, After;
    SlotsShorter(w, |done|, c, d, i, q);
    assert before + [Some(text)] + tail == done + Block(w, c, d - 1) + ([Some(text)] + tail);
  }

  lemma LastPart(w: Strings, c: nat, d: nat, done: seq<Option<string>>, tail: seq<Option<string>>)
    requires w.Valid() && c < d <= |w.nums| && (d == |w.nums| ==> tail == [])
      && (forall p :: 0 <= p < |tail| ==> tail[p].Some?)
    ensures var before, s := done + Block(w, c, d - 1), done + Block(w, c, d) + tail;
      && s == before + [None] + After(w, d - 1) + tail && |before| == |done| + 2 * (d - 1 - c)
      && (if Nothing(s, |before| + 1) then After(w, d - 1) == [] && tail == []
        else |After(w, d - 1)| == 1 && After(w, d - 1)[0].Some?)
  {
    var before := done + Block(w, c, d - 1);
    assert done + (Block(w, c, d - 1) + [None] + After(w, d - 1)) + tail == before + [None] + After(w, d - 1) + tail;
    var after := After(w, d - 1);
    if after != [] { assert (before + [None] + after + tail)[|before| + 1] == after[0]; }
  }

  lemma WrittenStep(w: Strings, d: nat, tail: seq<Option<string>>)
    requires w.Valid() && 0 < d <= |w.nums| && Join(tail) == Written(w, d)
    ensures Join([Some(w.nums[d - 1] + Join(After(w, d - 1)))] + tail) == Written(w, d - 1)
  {
    var text := w.nums[d - 1] + Join(After(w, d - 1));
    JoinAfter(w, d - 1);
    JoinConcat([Some(text)], tail);
    JoinOne(text);
  }

  lemma SlotsShorter(w: Strings, at: nat, c: nat, d: nat, i: nat, q: seq<Slot>)
    requires c < d <= |w.nums| && i <= |q| && q[i..] == Slots(w, at, c, d)
    ensures i <= |q| - 1 && q[..|q| - 1][i..] == Slots(w, at, c, d - 1)
  {
    var q' := q[..|q| - 1];
    assert forall k :: 0 <= k < d - 1 - c ==> q'[i..][k] == q[i..][k];
  }

  /** The last loop: the numbers that the source has nothing for become text, from the back. */
  method PopRest(w: Strings, s0: seq<Option<string>>, q0: seq<Slot>, i: nat, ghost c: nat,
      ghost done: seq<Option<string>>)
    returns (s: seq<Option<string>>, q: seq<Slot>, ghost tail: seq<Option<string>>)
    requires w.Valid() && c <= |w.nums| && i <= |q0|
    requires s0 == done + Block(w, c, |w.nums|) && q0[i..] == Slots(w, |done|, c, |w.nums|)
    ensures q == q0[..i] && s == done + tail && Join(tail) == Written(w, c)
    ensures forall p :: 0 <= p < |tail| ==> tail[p].Some?
    ensures c == |w.nums| ==> tail == []
  {
    s, q, tail := s0, q0, [];
    ghost var d: nat := |w.nums|;
    PopStart(w, s, q, i, c, done);
    hide *;
    while i < |q|
      invariant i <= |q| && q[..i] == q0[..i]
      invariant Popping(w, s, q, i, c, d, done, tail)
    {
      AtLastSlot(w, s, q, i, c, d, done, tail);
      ghost var before, after := done + Block(w, c, d - 1), After(w, d - 1);
      s := FillText(s, q[|q| - 1], before, after, tail);
      q := q[..|q| - 1];
      d, tail := d - 1, [Some(w.nums[d - 1] + Join(after))] + tail;
    }
    PopEnd(w, s, q, i, c, d, done, tail);
  }

  /** The slot becomes its text, merged with the literal after it if there is one. */
  method FillText(s0: seq<Option<string>>, o: Slot, ghost before: seq<Option<string>>, ghost after: seq<Option<string>>,
      ghost tail: seq<Option<string>>)
    returns (s: seq<Option<string>>)
    requires s0 == before + [None] + after + tail && o.i == |before| && o.x.Literal?
    requires if Nothing(s0, o.i + 1) then after == [] && tail == [] else |after| == 1 && after[0].Some?
    ensures s == before + [Some(o.x.text + Join(after))] + tail
  {
    if Nothing(s0, o.i + 1) {
      s := s0[o.i := Some(o.x.text)];
      NoText(o.x.text);
    } else {
      var next := s0[o.i + 1].value;
      assert after == [Some(next)];
      JoinOne(next);
      s := s0[o.i := Some(o.x.text + next)];
      s := s[..o.i + 1] + s[o.i + 2..];
    }
  }

  lemma NoText(x: string)
    ensures x + Join([]) == x
  {
  }

  lemma PopStart(w: Strings, s: seq<Option<string>>, q: seq<Slot>, i: nat, c: nat, done: seq<Option<string>>)
    requires w.Valid() && c <= |w.nums| && i <= |q|
    requires s == done + Block(w, c, |w.nums|) && q[i..] == Slots(w, |done|, c, |w.nums|)
    ensures Popping(w, s, q, i, c, |w.nums|, done, [])
  {
  }

  lemma PopEnd(w: Strings, s: seq<Option<string>>, q: seq<Slot>, i: nat, c: nat, d: nat, done: seq<Option<string>>,
      tail: seq<Option<string>>)
    requires Popping(w, s, q, i, c, d, done, tail) && i >= |q|
    ensures w.Valid() && c <= |w.nums| && s == done + tail && Join(tail) == Written(w, c)
    ensures forall p :: 0 <= p < |tail| ==> tail[p].Some?
    ensures c == |w.nums| ==> tail == []
  {
  }

  /** From number `c` on the source has nothing, so the promised text is the written one. */
  lemma {:induction false} PromisedRest<T>(w: Strings, render: (string, string, T) -> string, c: nat, t: T)
    requires w.Valid() && c <= |w.nums| && (c >= |w.a| || c == |w.nums|)
    ensures Promised(w, render, t) == Head(w, render, c, t) + Written(w, c)
    decreases |w.nums| - c
  {
    if c < |w.nums| {
      PromisedRest(w, render, c + 1, t);
      assert Head(w, render, c, t) + (w.nums[c] + w.lits[c + 1] + Written(w, c + 1))
          == Head(w, render, c, t) + w.nums[c] + w.lits[c + 1] + Written(w, c + 1);
    }
  }

  /** If no number differs, the promised text is the target string at all times. */
  lemma {:induction false} PromisedSame<T>(w: Strings, render: (string, string, T) -> string, c: nat, t: T)
    requires w.Valid() && c <= |w.nums| && forall k :: 0 <= k < c ==> Same(w, k)
    ensures Head(w, render, c, t) + Written(w, c) == Target(w)
    decreases c
  {
    if c > 0 {
      assert Same(w, c - 1);
      PromisedSame(w, render, c - 1, t);
      assert Head(w, render, c - 1, t) + (w.nums[c - 1] + w.lits[c] + Written(w, c))
          == Head(w, render, c - 1, t) + w.nums[c - 1] + w.lits[c] + Written(w, c);
    }
  }

  /** `d3_interpolateString` on tokenised strings: what it returns yields the promised text at all times. */
  method InterpolateString<T(!new)>(w: Strings, ghost render: (string, string, T) -> string) returns (r: Interpolator)
    requires w.Valid()
    ensures r.Template? ==> SlotsIn(r.q, |r.s|)
    ensures forall t: T :: Yield(render, r, t) == Promised(w, render, t)
  {
    var s, q := Assemble(w, render);
    hide Out, Promised, ValueAt, Target;
    if |s| == 1 {
      if s[0].None? {
        r := Lone(q[0].x);
      } else {
        r := Constant(Target(w));
      }
    } else {
      r := Template(s, q);
    }
  }

  /** The template yields the promised text; if it has one element, that is its one slot, or the target string. */
  ghost predicate Right<T(!new)>(w: Strings, render: (string, string, T) -> string, s: seq<Option<string>>,
      q: seq<Slot>)
    requires w.Valid()
  {
    && SlotsIn(q, |s|) && (forall t: T :: Out(render, s, q, t) == Promised(w, render, t))
    && (|s| == 1 && s[0].None? ==> |q| == 1 && forall t: T :: ValueAt(render, q[0].x, t) == Promised(w, render, t))
    && (|s| == 1 && s[0].Some? ==> forall t: T :: Target(w) == Promised(w, render, t))
  }

  /** The building of the template, and all that compacts it. */
  method Assemble<T(!new)>(w: Strings, ghost render: (string, string, T) -> string)
      returns (s: seq<Option<string>>, q: seq<Slot>)
    requires w.Valid()
    ensures Right(w, render, s, q)
  {
    hide Out, Promised, Finished, Compacting, Right, Join, Written;
    s, q := BuildTemplate(w);
    ghost var first := Untouched(w, render, s, q);
    var i: nat;
    ghost var c: nat, done: seq<Option<string>>;
    s, q, i, c, done := Compact(w, render, s, q, first);
    CompactedParts(w, render, s, q, i, c, done);
    ghost var tail: seq<Option<string>>;
    s, q, tail := PopRest(w, s, q, i, c, done);
    RightWhole(w, render, done, q, tail, c);
  }

  lemma Untouched<T(!new)>(w: Strings, render: (string, string, T) -> string, s: seq<Option<string>>, q: seq<Slot>)
      returns (first: seq<Option<string>>)
    requires w.Valid()
    requires var start: seq<Option<string>> := if w.lits[0] != "" then [Some(w.lits[0])] else [];
      s == start + Block(w, 0, |w.nums|) && q == Slots(w, |start|, 0, |w.nums|)
    ensures Compacting(w, render, s, q, 0, 0, first)
  {
    first := if w.lits[0] != "" then [Some(w.lits[0])] else [];
    JoinOne(w.lits[0]);
    assert q[0..] == q;
    Refold(w, render, s, q, 0, 0, first);
  }

  lemma CompactedParts<T(!new)>(w: Strings, render: (string, string, T) -> string, s: seq<Option<string>>, q: seq<Slot>,
                                i: nat, c: nat, done: seq<Option<string>>)
    requires Compacting(w, render, s, q, i, c, done) && (i == |q| || c >= |w.a|)
    ensures w.Valid() && c <= |w.nums| && i <= |q| && s == done + Block(w, c, |w.nums|)
    ensures q[i..] == Slots(w, |done|, c, |w.nums|) && Finished(w, render, done, q[..i], c)
    ensures c >= |w.a| || c == |w.nums|
  {
  }

  lemma RightWhole<T(!new)>(w: Strings, render: (string, string, T) -> string, done: seq<Option<string>>, q: seq<Slot>,
                            tail: seq<Option<string>>, c: nat)
    requires w.Valid() && c <= |w.nums| && (c >= |w.a| || c == |w.nums|) && Finished(w, render, done, q, c)
    requires Join(tail) == Written(w, c) && forall p :: 0 <= p < |tail| ==> tail[p].Some?
    ensures Right(w, render, done + tail, q)
  {
    hide Out, Promised, Join, Head, Written;
    forall t: T
      ensures Out(render, done + tail, q, t) == Promised(w, render, t)
    {
      OutConcat(render, done, tail, q, t);
      PromisedRest(w, render, c, t);
    }
    ShortTemplate(w, render, done, q, tail, c);
  }

  lemma FewSlots(q: seq<Slot>)
    requires Ordered(q) && |q| > 1
    ensures !SlotsIn(q, 1)
  {
    assert q[0].i < q[1].i;
  }

  lemma SlotMakesNull(done: seq<Option<string>>, q: seq<Slot>, tail: seq<Option<string>>)
    requires q != [] && NullsAreSlots(done, q) && |done + tail| == 1
    ensures (done + tail)[0].None?
  {
    assert done[q[0].i].None?;
  }

  /** A template of one element is its one slot, or is the target string. */
  lemma {:induction false} ShortTemplate<T(!new)>(w: Strings, render: (string, string, T) -> string,
      done: seq<Option<string>>, q: seq<Slot>, tail: seq<Option<string>>, c: nat)
    requires w.Valid() && c <= |w.nums| && (c >= |w.a| || c == |w.nums|)
    requires Finished(w, render, done, q, c) && SlotsIn(q, |done + tail|)
      && (forall p :: 0 <= p < |tail| ==> tail[p].Some?)
    requires forall t: T :: Out(render, done + tail, q, t) == Promised(w, render, t)
    ensures |done + tail| == 1 && (done + tail)[0].None? ==>
              |q| == 1 && forall t: T :: ValueAt(render, q[0].x, t) == Promised(w, render, t)
    ensures |done + tail| == 1 && (done + tail)[0].Some? ==> forall t: T :: Target(w) == Promised(w, render, t)
  {
    var s := done + tail;
    if |s| == 1 {
      if s[0].None? {
        assert done == s;
        var k :| 0 <= k < |q| && q[k].i == 0;
        if |q| > 1 { FewSlots(q); }
        forall t: T
          ensures ValueAt(render, q[0].x, t) == Promised(w, render, t)
        {
          assert Fill(render, s, q, t) == [Some(ValueAt(render, q[0].x, t))];
          JoinOne(ValueAt(render, q[0].x, t));
          assert Out(render, s, q, t) == Promised(w, render, t);
        }
      } else {
        if q != [] { SlotMakesNull(done, q, tail); }
        forall t: T
          ensures Target(w) == Promised(w, render, t)
        {
          PromisedSame(w, render, c, t);
          PromisedRest(w, render, c, t);
        }
      }
    }
  }
}
