/**
 * scc.Settings: what the user changed, stored as a difference from the default settings.  Reading merges
 * the difference into the defaults; writing merges the change and hides what equals a default.
 */
module Settings {
  import opened Wrappers

  datatype Value = Text(text: string) | Number(number: real) | Flag(flag: bool)

  datatype Json = Leaf(value: Value) | Tree(fields: map<string, Json>)

  const EMPTY := Tree(map[])

  /** How JavaScript reads a string as a number, if it can. */
  type Reading = string -> Option<real>

  function AsNumber(num: Reading, v: Value): Option<real> {
    match v
    case Text(s) => num(s)
    case Number(x) => Some(x)
    case Flag(f) => Some(if f then 1.0 else 0.0)
  }

  /** `==` on values that are not objects: values of different types are compared as numbers. */
  predicate Same(num: Reading, a: Value, b: Value) {
    a == b || (!(a.Text? && b.Text?) && AsNumber(num, a).Some? && AsNumber(num, a) == AsNumber(num, b))
  }

  /**
   * `==` between a default and a value: strings are compared as they are, and everything else as numbers, true being
   * 1 and false 0; so true and false differ, and the string that reads as 1 equals true.
   */
  lemma SameCases(num: Reading, s: string, r: string, x: real, y: real, f: bool, g: bool)
    ensures Same(num, Text(s), Text(r)) <==> s == r
    ensures Same(num, Number(x), Number(y)) <==> x == y
    ensures Same(num, Flag(f), Flag(g)) <==> f == g
    ensures Same(num, Flag(f), Number(x)) <==> x == if f then 1.0 else 0.0
    ensures Same(num, Number(x), Text(s)) <==> num(s) == Some(x)
    ensures Same(num, Flag(f), Text(s)) <==> num(s) == Some(if f then 1.0 else 0.0)
  {
  }

  /** `$.extend(true, target, options)`. */
  function Merge(target: Json, options: Json): (r: Json)
    requires target.Tree? && options.Tree?
    ensures r.Tree?
    decreases options
  {
    Tree(map k | k in target.fields.Keys + options.fields.Keys ::
      if k !in options.fields then target.fields[k]
      else if options.fields[k].Leaf? then options.fields[k]
      else Merge(if k in target.fields && target.fields[k].Tree? then target.fields[k] else EMPTY, options.fields[k]))
  }

  /** The tree is shaped like the defaults: the same kind under every key that has a default, and no new subtrees. */
  predicate Fits(defaults: Json, t: Json)
    requires defaults.Tree? && t.Tree?
    decreases t
  {
    forall k :: k in t.fields ==>
      if k !in defaults.fields then t.fields[k].Leaf?
      else
        && t.fields[k].Tree? == defaults.fields[k].Tree?
        && (t.fields[k].Tree? ==> Fits(defaults.fields[k], t.fields[k]))
  }

  /** Whether `hideDefaults` removes this entry. */
  predicate Hidden(num: Reading, defaults: Json, k: string, t: Json)
    requires defaults.Tree?
      && (t.Tree? ==> k in defaults.fields && defaults.fields[k].Tree? && Fits(defaults.fields[k], t))
    decreases t, 2
  {
    match t
    case Leaf(v) => k in defaults.fields && defaults.fields[k].Leaf? && Same(num, defaults.fields[k].value, v)
    case Tree(_) => Hide(num, defaults.fields[k], t) == EMPTY
  }

  /** `hideDefaults`. */
  function Hide(num: Reading, defaults: Json, t: Json): (r: Json)
    requires defaults.Tree? && t.Tree? && Fits(defaults, t)
    ensures r.Tree?
    decreases t, 1
  {
    Tree(map k | k in t.fields && !Hidden(num, defaults, k, t.fields[k]) ::
      if t.fields[k].Leaf? then t.fields[k] else Hide(num, defaults.fields[k], t.fields[k]))
  }

  /** What the difference may hold: no leaf that equals its default, and no empty subtree. */
  predicate Canonical(num: Reading, defaults: Json, t: Json)
    requires defaults.Tree? && t.Tree? && Fits(defaults, t)
    decreases t
  {
    forall k :: k in t.fields ==>
      match t.fields[k]
      case Leaf(v) => k in defaults.fields ==> !Same(num, defaults.fields[k].value, v)
      case Tree(_) => t.fields[k] != EMPTY && Canonical(num, defaults.fields[k], t.fields[k])
  }

  /** The tree with every leaf that equals its default spelled like the default. */
  function Respelled(num: Reading, defaults: Json, t: Json): (r: Json)
    requires defaults.Tree? && t.Tree? && Fits(defaults, t)
    ensures r.Tree?
    decreases t
  {
    Tree(map k | k in t.fields ::
      if k !in defaults.fields then t.fields[k]
      else if t.fields[k].Tree? then Respelled(num, defaults.fields[k], t.fields[k])
      else if Same(num, defaults.fields[k].value, t.fields[k].value) then defaults.fields[k]
      else t.fields[k])
  }

  /** Every leaf that equals its default is spelled like it. */
  predicate Plain(num: Reading, defaults: Json, t: Json)
    requires defaults.Tree? && t.Tree? && Fits(defaults, t)
    decreases t
  {
    forall k :: k in t.fields && k in defaults.fields ==>
      match t.fields[k]
      case Leaf(v) => Same(num, defaults.fields[k].value, v) ==> defaults.fields[k].value == v
      case Tree(_) => Plain(num, defaults.fields[k], t.fields[k])
  }

  lemma {:induction false} MergeIntoEmpty(b: Json)
    requires b.Tree?
    ensures Merge(EMPTY, b) == b
    decreases b
  {
    forall k | k in b.fields
      ensures Merge(EMPTY, b).fields[k] == b.fields[k]
    {
      if b.fields[k].Tree? { MergeIntoEmpty(b.fields[k]); }
    }
    assert Merge(EMPTY, b).fields == b.fields;
  }

  lemma {:induction false} FitsMerge(d: Json, s: Json, c: Json)
    requires d.Tree? && s.Tree? && c.Tree? && Fits(d, s) && Fits(d, c)
    ensures Fits(d, Merge(s, c))
    decreases c
  {
    forall k | k in Merge(s, c).fields && k in d.fields && Merge(s, c).fields[k].Tree?
      ensures d.fields[k].Tree? && Fits(d.fields[k], Merge(s, c).fields[k])
    {
      if k in c.fields {
        FitsMerge(d.fields[k], if k in s.fields then s.fields[k] else EMPTY, c.fields[k]);
      }
    }
  }

  /** Merging the difference and the change first makes no difference to what is seen. */
  lemma {:induction false} MergeAssociates(d: Json, s: Json, c: Json)
    requires d.Tree? && s.Tree? && c.Tree? && Fits(d, s) && Fits(d, c)
    ensures Merge(d, Merge(s, c)) == Merge(Merge(d, s), c)
    decreases c
  {
    var l, r := Merge(d, Merge(s, c)), Merge(Merge(d, s), c);
    forall k | k in l.fields
      ensures l.fields[k] == r.fields[k]
    {
      if k in c.fields && c.fields[k].Tree? {
        MergeAssociates(d.fields[k], if k in s.fields then s.fields[k] else EMPTY, c.fields[k]);
        MergeNothing(d.fields[k]);
      }
    }
    assert l.fields == r.fields;
  }

  lemma MergeNothing(d: Json)
    requires d.Tree?
    ensures Merge(d, EMPTY) == d
  {
    assert Merge(d, EMPTY).fields == d.fields;
  }

  lemma {:induction false} RespelledSelf(num: Reading, d: Json)
    requires d.Tree?
    ensures Fits(d, d) && Respelled(num, d, d) == d
    decreases d
  {
    forall k | k in d.fields && d.fields[k].Tree?
      ensures Fits(d.fields[k], d.fields[k]) && Respelled(num, d.fields[k], d.fields[k]) == d.fields[k]
    {
      RespelledSelf(num, d.fields[k]);
    }
    assert Respelled(num, d, d).fields == d.fields;
  }

  lemma {:induction false} HideFits(num: Reading, d: Json, t: Json)
    requires d.Tree? && t.Tree? && Fits(d, t)
    ensures Fits(d, Hide(num, d, t))
    decreases t
  {
    forall k | k in Hide(num, d, t).fields && t.fields[k].Tree?
      ensures Fits(d.fields[k], Hide(num, d.fields[k], t.fields[k]))
    {
      HideFits(num, d.fields[k], t.fields[k]);
    }
  }

  /** Hiding hides nothing that `get` does not put back, up to the spelling of leaves that equal their default. */
  lemma {:induction false} HideShows(num: Reading, d: Json, t: Json)
    requires d.Tree? && t.Tree? && Fits(d, t)
    ensures Fits(d, Merge(d, t)) && Merge(d, Hide(num, d, t)) == Respelled(num, d, Merge(d, t))
    decreases t
  {
    RespelledSelf(num, d);
    FitsMerge(d, d, t);
    forall k | k in d.fields || k in t.fields
      ensures k in Merge(d, Hide(num, d, t)).fields
      ensures Merge(d, Hide(num, d, t)).fields[k] == Respelled(num, d, Merge(d, t)).fields[k]
    {
      if k !in t.fields {
        if d.fields[k].Tree? { RespelledSelf(num, d.fields[k]); }
      } else if t.fields[k].Tree? {
        HideShows(num, d.fields[k], t.fields[k]);
        MergeNothing(d.fields[k]);
      }
    }
    assert Merge(d, Hide(num, d, t)).fields == Respelled(num, d, Merge(d, t)).fields;
  }

  lemma {:induction false} HideCanonical(num: Reading, d: Json, t: Json)
    requires d.Tree? && t.Tree? && Fits(d, t)
    ensures Fits(d, Hide(num, d, t)) && Canonical(num, d, Hide(num, d, t))
    decreases t
  {
    HideFits(num, d, t);
    forall k | k in Hide(num, d, t).fields && t.fields[k].Tree?
      ensures Canonical(num, d.fields[k], Hide(num, d.fields[k], t.fields[k]))
    {
      HideCanonical(num, d.fields[k], t.fields[k]);
    }
  }

  /** A difference in that form that shows nothing but the defaults is empty. */
  lemma {:induction false} CanonicalNothing(num: Reading, d: Json, b: Json)
    requires d.Tree? && b.Tree? && Fits(d, b) && Canonical(num, d, b) && Merge(d, b) == d
    ensures b == EMPTY
    decreases b
  {
    forall k | k in b.fields
      ensures false
    {
      assert Merge(d, b).fields[k] == d.fields[k];
      if b.fields[k].Tree? { CanonicalNothing(num, d.fields[k], b.fields[k]); }
    }
    assert b.fields == map[];
  }

  /** Two differences in that form that show the same settings are the same. */
  lemma {:induction false} CanonicalUnique(num: Reading, d: Json, a: Json, b: Json)
    requires d.Tree? && a.Tree? && b.Tree? && Fits(d, a) && Fits(d, b)
    requires Canonical(num, d, a) && Canonical(num, d, b) && Merge(d, a) == Merge(d, b)
    ensures a == b
    decreases a
  {
    forall k | k in a.fields || k in b.fields
      ensures k in a.fields && k in b.fields && a.fields[k] == b.fields[k]
    {
      assert Merge(d, a).fields[k] == Merge(d, b).fields[k];
      if k !in b.fields {
        if a.fields[k].Tree? { CanonicalNothing(num, d.fields[k], a.fields[k]); }
      } else if k !in a.fields {
        if b.fields[k].Tree? { CanonicalNothing(num, d.fields[k], b.fields[k]); }
      } else if a.fields[k].Tree? && b.fields[k].Tree? {
        CanonicalUnique(num, d.fields[k], a.fields[k], b.fields[k]);
      }
    }
    assert a.fields == b.fields;
  }

  lemma {:induction false} RespelledPlain(num: Reading, d: Json, t: Json)
    requires d.Tree? && t.Tree? && Fits(d, t)
    ensures Respelled(num, d, t) == t <==> Plain(num, d, t)
    decreases t
  {
    forall k | k in t.fields && k in d.fields
      ensures t.fields[k].Tree? ==>
        (Respelled(num, d.fields[k], t.fields[k]) == t.fields[k] <==> Plain(num, d.fields[k], t.fields[k]))
    {
      if t.fields[k].Tree? { RespelledPlain(num, d.fields[k], t.fields[k]); }
    }
    if Plain(num, d, t) {
      assert Respelled(num, d, t).fields == t.fields;
    } else {
      var k :| k in t.fields && k in d.fields && (match t.fields[k]
        case Leaf(v) => Same(num, d.fields[k].value, v) && d.fields[k].value != v
        case Tree(_) => !Plain(num, d.fields[k], t.fields[k]));
      assert Respelled(num, d, t).fields[k] != t.fields[k];
    }
  }

  lemma {:induction false} PlainMerge(num: Reading, d: Json, v: Json, c: Json)
    requires d.Tree? && v.Tree? && c.Tree? && Fits(d, v) && Fits(d, c) && Plain(num, d, v)
    ensures Fits(d, Merge(v, c)) && (Plain(num, d, Merge(v, c)) <==> Plain(num, d, c))
    decreases c
  {
    FitsMerge(d, v, c);
    var m := Merge(v, c);
    forall k | k in c.fields && c.fields[k].Tree?
      ensures Plain(num, d.fields[k], m.fields[k]) <==> Plain(num, d.fields[k], c.fields[k])
    {
      PlainMerge(num, d.fields[k], if k in v.fields then v.fields[k] else EMPTY, c.fields[k]);
    }
    if Plain(num, d, c) {
      assert Plain(num, d, m);
    } else {
      var k :| k in c.fields && k in d.fields && (match c.fields[k]
        case Leaf(v) => Same(num, d.fields[k].value, v) && d.fields[k].value != v
        case Tree(_) => !Plain(num, d.fields[k], c.fields[k]));
      assert k in m.fields;
    }
  }

  lemma {:induction false} CanonicalPlain(num: Reading, d: Json, s: Json)
    requires d.Tree? && s.Tree? && Fits(d, s) && Canonical(num, d, s)
    ensures Plain(num, d, s)
    decreases s
  {
    forall k | k in s.fields && s.fields[k].Tree?
      ensures Plain(num, d.fields[k], s.fields[k])
    {
      CanonicalPlain(num, d.fields[k], s.fields[k]);
    }
  }

  /** What is read after writing: the change merged into what was read before, with defaults spelled like defaults. */
  lemma SetThenGet(num: Reading, d: Json, s: Json, c: Json)
    requires d.Tree? && s.Tree? && c.Tree? && Fits(d, s) && Fits(d, c)
    ensures Fits(d, Merge(s, c)) && Fits(d, Merge(Merge(d, s), c))
    ensures Merge(d, Hide(num, d, Merge(s, c))) == Respelled(num, d, Merge(Merge(d, s), c))
  {
    FitsMerge(d, s, c);
    HideShows(num, d, Merge(s, c));
    MergeAssociates(d, s, c);
  }

  /**
   * It is exactly that merge if and only if no leaf of the stored settings or of the change over them equals its
   * default without being spelled like it.
   */
  lemma SetThenGetExactly(num: Reading, d: Json, s: Json, c: Json)
    requires d.Tree? && s.Tree? && c.Tree? && Fits(d, s) && Fits(d, c)
    ensures Fits(d, Merge(s, c))
    ensures Merge(d, Hide(num, d, Merge(s, c))) == Merge(Merge(d, s), c) <==> Plain(num, d, Merge(s, c))
  {
    SetThenGet(num, d, s, c);
    MergeAssociates(d, s, c);
    RespelledSelf(num, d);
    RespelledPlain(num, d, d);
    PlainMerge(num, d, d, Merge(s, c));
    RespelledPlain(num, d, Merge(Merge(d, s), c));
  }

  /** The default is the number 10, and the user sets the string "10": what is read afterwards is the number. */
  lemma DefaultRespelled(num: Reading)
    requires num("10") == Some(10.0)
    ensures var d, c := Tree(map["a" := Leaf(Number(10.0))]), Tree(map["a" := Leaf(Text("10"))]);
      Fits(d, c) && Merge(d, Hide(num, d, Merge(EMPTY, c))) == d != Merge(Merge(d, EMPTY), c)
  {
    var d, c := Tree(map["a" := Leaf(Number(10.0))]), Tree(map["a" := Leaf(Text("10"))]);
    MergeIntoEmpty(c);
    assert Hidden(num, d, "a", c.fields["a"]);
    assert Hide(num, d, c) == EMPTY by { assert Hide(num, d, c).fields == map[]; }
    MergeNothing(d);
    assert Merge(d, c).fields["a"] == c.fields["a"] != d.fields["a"];
  }

  /** Over stored settings that were themselves set, only the change matters. */
  lemma SetAgainThenGet(num: Reading, d: Json, s: Json, c: Json)
    requires d.Tree? && s.Tree? && c.Tree? && Fits(d, s) && Fits(d, c) && Canonical(num, d, s)
    ensures Fits(d, Merge(s, c))
    ensures Merge(d, Hide(num, d, Merge(s, c))) == Merge(Merge(d, s), c) <==> Plain(num, d, c)
  {
    SetThenGetExactly(num, d, s, c);
    CanonicalPlain(num, d, s);
    PlainMerge(num, d, s, c);
  }

  class Settings {
    const num: Reading
    const defaults: Json
    var settings: Json
    var hash: Option<Json>

    ghost predicate Valid()
      reads this
    {
      defaults.Tree? && settings.Tree? && Fits(defaults, settings)
    }

    /** What the object stores is canonical, and the hash holds the same. */
    ghost predicate Stored()
      requires Valid()
      reads this
    {
      Canonical(num, defaults, settings) && hash == if settings == EMPTY then None else Some(settings)
    }

    constructor (num: Reading, defaults: Json, hash: Option<Json>)
      requires defaults.Tree? && (hash.Some? ==> hash.value.Tree? && Fits(defaults, hash.value))
      ensures Valid() && this.num == num && this.defaults == defaults && this.hash == hash
      ensures settings == if hash.None? then EMPTY else hash.value
    {
      this.num, this.defaults, this.hash, this.settings := num, defaults, hash, EMPTY;
      new;
      Reload();
    }

    /** `reload`: reads the hash. */
    method Reload()
      requires defaults.Tree? && (hash.Some? ==> hash.value.Tree? && Fits(defaults, hash.value))
      modifies this`settings
      ensures Valid() && settings == if hash.None? then EMPTY else hash.value
    {
      settings := EMPTY;
      if hash.Some? {
        MergeIntoEmpty(hash.value);
        settings := Extend(EMPTY, hash.value);
      }
    }

    method Get() returns (r: Json)
      requires Valid()
      ensures r == Merge(defaults, settings)
    {
      MergeIntoEmpty(defaults);
      r := Extend(EMPTY, defaults);
      r := Extend(r, settings);
    }

    /** `set` with a change that is an object. */
    method Set(change: Json)
      requires Valid() && change.Tree? && Fits(defaults, change)
      modifies this`settings, this`hash
      ensures Valid() && Stored() && Fits(defaults, Merge(old(settings), change))
      ensures settings == Hide(num, defaults, Merge(old(settings), change))
      ensures Fits(defaults, Merge(Merge(defaults, old(settings)), change))
      ensures Merge(defaults, settings) == Respelled(num, defaults, Merge(Merge(defaults, old(settings)), change))
      ensures Merge(defaults, settings) == Merge(Merge(defaults, old(settings)), change) <==>
                Plain(num, defaults, Merge(old(settings), change))
      ensures old(Canonical(num, defaults, settings)) ==>
                (Merge(defaults, settings) == Merge(Merge(defaults, old(settings)), change) <==>
                    Plain(num, defaults, change))
    {
      MergeIntoEmpty(settings);
      FitsMerge(defaults, settings, change);
      HideCanonical(num, defaults, Merge(settings, change));
      SetThenGet(num, defaults, settings, change);
      SetThenGetExactly(num, defaults, settings, change);
      if Canonical(num, defaults, settings) { SetAgainThenGet(num, defaults, settings, change); }
      var newSettings := Extend(EMPTY, settings);
      newSettings := Extend(newSettings, change);
      var shown := HideDefaults(num, Some(defaults), newSettings);
      settings := shown.value;
      hash := if settings.fields.Keys != {} then Some(settings) else None;
    }
  }

  /** `$.extend(true, target, options)`, one name after another. */
  method Extend(target: Json, options: Json) returns (r: Json)
    requires target.Tree? && options.Tree?
    ensures r == Merge(target, options)
    decreases options
  {
    var fields, names := target.fields, options.fields.Keys;
    while names != {}
      invariant names <= options.fields.Keys && fields.Keys == target.fields.Keys + (options.fields.Keys - names)
      invariant forall k :: k in fields && k in options.fields && k !in names ==>
        fields[k] == Merge(target, options).fields[k]
      invariant forall k :: k in fields && (k !in options.fields || k in names) ==> fields[k] == target.fields[k]
    {
      var name :| name in names;
      var copy := options.fields[name];
      if copy.Tree? {
        var clone := if name in fields && fields[name].Tree? then fields[name] else EMPTY;
        copy := Extend(clone, copy);
      }
      fields := fields[name := copy];
      names := names - {name};
    }
    assert fields == Merge(target, options).fields;
    r := Tree(fields);
  }

  /** `hideDefaults`, which answers null for a leaf that equals its default. */
  method HideDefaults(num: Reading, defaults: Option<Json>, added: Json) returns (r: Option<Json>)
    requires added.Tree? ==> defaults.Some? && defaults.value.Tree? && Fits(defaults.value, added)
    requires added.Leaf? && defaults.Some? ==> defaults.value.Leaf?
    ensures added.Tree? ==> r == Some(Hide(num, defaults.value, added))
    ensures added.Leaf? ==> r == if defaults.Some? && Same(num, defaults.value.value, added.value) then None
      else Some(added)
    decreases added
  {
    if added.Tree? {
      var fields, names := added.fields, added.fields.Keys;
      ghost var hidden := Hide(num, defaults.value, added).fields;
      while names != {}
        invariant names <= added.fields.Keys && fields.Keys <= added.fields.Keys
        invariant forall x :: x in added.fields ==> (x in fields <==> x in names || x in hidden)
        invariant forall k :: k in names ==> fields[k] == added.fields[k]
        invariant forall k :: k in fields && k !in names ==> fields[k] == hidden[k]
      {
        var k :| k in names;
        var d := if k in defaults.value.fields then Some(defaults.value.fields[k]) else None;
        var v := HideDefaults(num, d, added.fields[k]);
        assert v.Some? && v.value.Tree? ==> (v.value.fields.Keys == {} <==> v.value.fields == map[]);
        assert k in hidden <==> !Hidden(num, defaults.value, k, added.fields[k]);
        if v.None? || (v.value.Tree? && v.value.fields.Keys == {}) {
          fields := fields - {k};
        } else {
          fields := fields[k := v.value];
        }
        names := names - {k};
      }
      assert fields == hidden;
      r := Some(Tree(fields));
    } else {
      r := if defaults.Some? && Same(num, defaults.value.value, added.value) then None else Some(added);
    }
  }
}
