/** Public defaults filled into the arguments of a call: they add what is missing and change nothing. */
module PublicDefaults {
  import opened Ordering
  import opened JsonValues

  type Path = seq<string>

  datatype Default = Default(target: Path, value: Json)

  /** The value at a path of object keys. */
  function Dig(value: Json, path: Path): Option<Json> {
    if path == [] then Some(value)
    else if Has(value, path[0]) then Dig(Get(value, path[0]), path[1..])
    else None
  }

  /** Some proper prefix of the target holds something that is not an object. */
  predicate Blocked(value: Json, target: Path) {
    exists n :: 0 <= n < |target| && Dig(value, target[..n]).Some? && !Dig(value, target[..n]).value.Obj?
  }

  /** Nothing is left to do for a target. */
  predicate Filled(value: Json, target: Path) {
    Dig(value, target).Some? || Blocked(value, target)
  }

  /** Put a default where its target is missing, creating objects on the way. */
  function WithDefault(value: Json, target: Path, fallback: Json): Json
    requires target != []
    decreases |target|
  {
    if !value.Obj? then value
    else
      var token := target[0];
      if |target| == 1 then
        if token in value.fields then value else Obj(value.fields[token := fallback])
      else
        var child := if token in value.fields then value.fields[token] else Obj(map[]);
        if child.Obj? then Obj(value.fields[token := WithDefault(child, target[1..], fallback)]) else value
  }

  predicate WellTargeted(defaults: seq<Default>) {
    forall d :: d in defaults ==> d.target != []
  }

  /** All defaults in order. */
  function Apply(arguments: Json, defaults: seq<Default>): Json
    requires WellTargeted(defaults)
  {
    if defaults == [] then arguments
    else
      var last := |defaults| - 1;
      WithDefault(Apply(arguments, defaults[..last]), defaults[last].target, defaults[last].value)
  }

  // ---------- Nothing supplied changes ----------

  /** Everything found in `before` is in `after`: the same value, or an object with at least its members. */
  ghost predicate Extends(before: Json, after: Json) {
    forall p: Path :: Dig(before, p).Some? ==>
      && Dig(after, p).Some?
      && (if Dig(before, p).value.Obj? then Dig(after, p).value.Obj? else Dig(after, p) == Dig(before, p))
  }

  lemma ExtendsTransitive(a: Json, b: Json, c: Json)
    requires Extends(a, b) && Extends(b, c)
    ensures Extends(a, c)
  {
  }

  lemma ExtendsItself(a: Json)
    ensures Extends(a, a)
  {
  }

  lemma {:induction false} DefaultExtends(value: Json, target: Path, fallback: Json)
    requires target != []
    ensures Extends(value, WithDefault(value, target, fallback))
    decreases |target|
  {
    var after := WithDefault(value, target, fallback);
    forall p: Path | Dig(value, p).Some?
      ensures Dig(after, p).Some?
      ensures if Dig(value, p).value.Obj? then Dig(after, p).value.Obj? else Dig(after, p) == Dig(value, p)
    {
      if p != [] && |target| > 1 && p[0] == target[0] && Get(value, p[0]).Obj? {
        DefaultExtends(Get(value, p[0]), target[1..], fallback);
        assert Dig(Get(value, p[0]), p[1..]).Some?;
      }
    }
  }

  /** Applying defaults never changes a supplied value, at any path. */
  lemma {:induction false} SuppliedValuesStay(arguments: Json, defaults: seq<Default>)
    requires WellTargeted(defaults)
    ensures Extends(arguments, Apply(arguments, defaults))
  {
    if defaults == [] {
      ExtendsItself(arguments);
    } else {
      var last := |defaults| - 1;
      var before := Apply(arguments, defaults[..last]);
      SuppliedValuesStay(arguments, defaults[..last]);
      DefaultExtends(before, defaults[last].target, defaults[last].value);
      ExtendsTransitive(arguments, before, WithDefault(before, defaults[last].target, defaults[last].value));
    }
  }

  // ---------- Every target is filled ----------

  lemma BlockedBelow(value: Json, target: Path)
    requires target != [] && Has(value, target[0]) && Blocked(Get(value, target[0]), target[1..])
    ensures Blocked(value, target)
  {
    var child, rest := Get(value, target[0]), target[1..];
    var n :| 0 <= n < |rest| && Dig(child, rest[..n]).Some? && !Dig(child, rest[..n]).value.Obj?;
    assert target[..n + 1][1..] == rest[..n];
  }

  lemma BlockedAt(value: Json, target: Path, n: nat)
    requires n < |target| && Dig(value, target[..n]).Some? && !Dig(value, target[..n]).value.Obj?
    ensures Blocked(value, target)
  {
  }

  lemma {:induction false} DefaultFills(value: Json, target: Path, fallback: Json)
    requires target != []
    ensures Filled(WithDefault(value, target, fallback), target)
    decreases |target|
  {
    var after := WithDefault(value, target, fallback);
    if !value.Obj? {
      BlockedAt(after, target, 0);
    } else if |target| > 1 {
      var token := target[0];
      var child := if token in value.fields then value.fields[token] else Obj(map[]);
      if child.Obj? {
        DefaultFills(child, target[1..], fallback);
        assert Get(after, token) == WithDefault(child, target[1..], fallback);
        if Blocked(Get(after, token), target[1..]) {
          BlockedBelow(after, target);
        }
      } else {
        assert target[..1][1..] == [];
        assert Dig(after, target[..1]) == Some(child);
        BlockedAt(after, target, 1);
      }
    }
  }

  lemma FilledStays(before: Json, after: Json, target: Path)
    requires Extends(before, after) && Filled(before, target)
    ensures Filled(after, target)
  {
    if Blocked(before, target) {
      var n :| 0 <= n < |target| && Dig(before, target[..n]).Some? && !Dig(before, target[..n]).value.Obj?;
      BlockedAt(after, target, n);
    }
  }

  /** A present target and a blocked one exclude each other. */
  lemma {:induction false} PresentIsNotBlocked(value: Json, target: Path)
    requires Dig(value, target).Some?
    ensures !Blocked(value, target)
    decreases |target|
  {
    if n :| 0 <= n < |target| && Dig(value, target[..n]).Some? && !Dig(value, target[..n]).value.Obj? {
      assert n > 0 ==> target[..n][1..] == target[1..][..n - 1];
      if n > 0 {
        PresentIsNotBlocked(Get(value, target[0]), target[1..]);
      }
    }
  }

  /** Every target is present in the result unless a proper prefix of it holds a non-object. */
  lemma {:induction false} TargetsPresentUnlessBlocked(arguments: Json, defaults: seq<Default>, i: nat)
    requires WellTargeted(defaults) && i < |defaults|
    ensures Dig(Apply(arguments, defaults), defaults[i].target).None?
      <==> Blocked(Apply(arguments, defaults), defaults[i].target)
  {
    TargetFilled(arguments, defaults, i);
    if Dig(Apply(arguments, defaults), defaults[i].target).Some? {
      PresentIsNotBlocked(Apply(arguments, defaults), defaults[i].target);
    }
  }

  lemma {:induction false} TargetFilled(arguments: Json, defaults: seq<Default>, i: nat)
    requires WellTargeted(defaults) && i < |defaults|
    ensures Filled(Apply(arguments, defaults), defaults[i].target)
  {
    var last := |defaults| - 1;
    var before := Apply(arguments, defaults[..last]);
    if i < last {
      TargetFilled(arguments, defaults[..last], i);
      DefaultExtends(before, defaults[last].target, defaults[last].value);
      FilledStays(before, Apply(arguments, defaults), defaults[i].target);
    } else {
      DefaultFills(before, defaults[last].target, defaults[last].value);
    }
  }

  /** A default whose target is still open takes effect, and later defaults only add members to it. */
  lemma {:induction false} OpenTargetTakesDefault(value: Json, target: Path, fallback: Json)
    requires target != [] && !Filled(value, target)
    ensures Dig(WithDefault(value, target, fallback), target) == Some(fallback)
    decreases |target|
  {
    if !value.Obj? {
      BlockedAt(value, target, 0);
    } else if |target| > 1 {
      var token := target[0];
      var child := if token in value.fields then value.fields[token] else Obj(map[]);
      if child.Obj? {
        if Has(value, token) {
          if Blocked(child, target[1..]) { BlockedBelow(value, target); }
        } else {
          EmptyIsOpen(target[1..]);
        }
        OpenTargetTakesDefault(child, target[1..], fallback);
      } else {
        assert target[..1][1..] == [];
        BlockedAt(value, target, 1);
      }
    }
  }

  lemma EmptyIsOpen(target: Path)
    requires target != []
    ensures !Filled(Obj(map[]), target)
  {
    forall n | 0 <= n < |target| ensures Dig(Obj(map[]), target[..n]).None? || n == 0 {
      assert n > 0 ==> target[..n] != [];
    }
  }

  // ---------- Applying twice ----------

  /** A filled target leaves the value alone. */
  lemma {:induction false} FilledIsLeftAlone(value: Json, target: Path, fallback: Json)
    requires target != [] && Filled(value, target)
    ensures WithDefault(value, target, fallback) == value
    decreases |target|
  {
    if value.Obj? {
      var token := target[0];
      FilledHasKey(value, target);
      if |target| > 1 && Get(value, token).Obj? {
        if Blocked(value, target) {
          BlockedChild(value, target);
        }
        FilledIsLeftAlone(Get(value, token), target[1..], fallback);
        assert value.fields[token := Get(value, token)] == value.fields;
      }
    }
  }

  lemma FilledHasKey(value: Json, target: Path)
    requires target != [] && value.Obj? && Filled(value, target)
    ensures Has(value, target[0])
  {
    forall n | 0 < n < |target| ensures Dig(value, target[..n]).Some? ==> Has(value, target[0]) {
      assert target[..n][0] == target[0];
    }
  }

  lemma BlockedChild(value: Json, target: Path)
    requires target != [] && Has(value, target[0]) && Get(value, target[0]).Obj? && Blocked(value, target)
    ensures Blocked(Get(value, target[0]), target[1..])
  {
    var n :| 0 <= n < |target| && Dig(value, target[..n]).Some? && !Dig(value, target[..n]).value.Obj?;
    assert n > 0;
    assert target[..n][1..] == target[1..][..n - 1];
    BlockedAt(Get(value, target[0]), target[1..], n - 1);
  }

  /** Applying the defaults a second time changes nothing. */
  lemma Idempotent(arguments: Json, defaults: seq<Default>)
    requires WellTargeted(defaults)
    ensures Apply(Apply(arguments, defaults), defaults) == Apply(arguments, defaults)
  {
    forall i | 0 <= i < |defaults| ensures Filled(Apply(arguments, defaults), defaults[i].target) {
      TargetFilled(arguments, defaults, i);
    }
    AllFilled(Apply(arguments, defaults), defaults);
  }

  lemma {:induction false} AllFilled(value: Json, defaults: seq<Default>)
    requires WellTargeted(defaults) && forall i :: 0 <= i < |defaults| ==> Filled(value, defaults[i].target)
    ensures Apply(value, defaults) == value
  {
    if defaults == [] {
    } else {
      var last := |defaults| - 1;
      AllFilled(value, defaults[..last]);
      FilledIsLeftAlone(value, defaults[last].target, defaults[last].value);
    }
  }

  lemma DefaultStep(value: Json, target: Path, fallback: Json)
    requires target != [] && value.Obj?
    ensures var token, result := target[0], WithDefault(value, target, fallback);
      if |target| == 1 then result == if token in value.fields then value else Obj(value.fields[token := fallback])
      else if token !in value.fields then
        result == Obj(value.fields[token := WithDefault(Obj(map[]), target[1..], fallback)])
      else if value.fields[token].Obj? then
        result == Obj(value.fields[token := WithDefault(value.fields[token], target[1..], fallback)])
      else result == value
  {
  }

  lemma Overwritten(fields: map<string, Json>, token: string, first: Json, second: Json)
    ensures fields[token := first][token := second] == fields[token := second]
  {
  }

  // ---------- The nested dictionaries ----------

  datatype Node = Leaf(value: Json) | Nested(dict: Dict)

  /** A dictionary of the copied arguments: `Model` is its value, `Repr` holds it and all nested dictionaries. */
  class Dict {
    var fields: map<string, Node>
    ghost var Model: Json
    ghost var Repr: set<Dict>

    ghost predicate Valid()
      reads this, Repr
      decreases Repr
    {
      && this in Repr
      && Model.Obj?
      && Model.fields.Keys == fields.Keys
      && (forall k :: k in fields && fields[k].Leaf? ==> !fields[k].value.Obj? && Model.fields[k] == fields[k].value)
      && (forall k :: k in fields && fields[k].Nested? ==>
        var c := fields[k].dict;
        c in Repr && c.Repr <= Repr && this !in c.Repr && c.Valid() && Model.fields[k] == c.Model)
      && (forall j, k :: j in fields && k in fields && j != k && fields[j].Nested? && fields[k].Nested? ==>
        fields[j].dict.Repr !! fields[k].dict.Repr)
    }

    constructor ()
      ensures Valid() && fresh(Repr) && Model == Obj(map[])
    {
      fields, Model, Repr := map[], Obj(map[]), {this};
    }

    /** Enter a new key whose node shares no dictionary with this one. */
    method Put(token: string, node: Node, ghost value: Json, ghost footprint: set<Dict>)
      requires Valid() && token !in fields && Copies(node, value, footprint) && footprint !! Repr
      modifies this
      ensures Valid() && Repr == old(Repr) + footprint
      ensures fields == old(fields)[token := node]
      ensures Model == Obj(old(Model).fields[token := value])
    {
      fields := fields[token := node];
      Repr := Repr + footprint;
      Model := Obj(Model.fields[token := value]);
    }

    /** Set a default inside a nested dictionary. */
    method Descend(token: string, rest: Path, fallback: Json)
      requires Valid() && token in fields && fields[token].Nested? && rest != []
      modifies Repr
      ensures Valid() && fresh(Repr - old(Repr))
      ensures token in old(Model).fields
      ensures Model == Obj(old(Model).fields[token := WithDefault(old(Model).fields[token], rest, fallback)])
      decreases |rest|, 1
    {
      var child := fields[token].dict;
      child.SetDefault(rest, fallback);
      Adopt(token);
    }

    /** Every key but `token` still holds an unshared, valid node. */
    ghost predicate OthersValid(token: string)
      requires token in fields && fields[token].Nested?
      reads this, Repr, fields[token].dict
    {
      && this in Repr && this !in fields[token].dict.Repr
      && Model.Obj? && Model.fields.Keys == fields.Keys
      && (forall k :: k in fields && fields[k].Leaf? ==> !fields[k].value.Obj? && Model.fields[k] == fields[k].value)
      && (forall k :: k in fields && k != token && fields[k].Nested? ==>
        var c := fields[k].dict;
        && c in Repr && c.Repr <= Repr && this !in c.Repr && c.Valid() && Model.fields[k] == c.Model
        && c.Repr !! fields[token].dict.Repr)
      && (forall j, k ::
        j in fields && k in fields && j != k && j != token && k != token && fields[j].Nested? && fields[k].Nested? ==>
          fields[j].dict.Repr !! fields[k].dict.Repr)
    }

    /** Take over what the dictionary below `token` has become. */
    ghost method Adopt(token: string)
      requires token in fields && fields[token].Nested? && OthersValid(token) && fields[token].dict.Valid()
      modifies this`Repr, this`Model
      ensures Valid() && Repr == old(Repr) + fields[token].dict.Repr
      ensures Model == Obj(old(Model).fields[token := fields[token].dict.Model])
    {
      Repr := Repr + fields[token].dict.Repr;
      Model := Obj(Model.fields[token := fields[token].dict.Model]);
    }

    /** Set one default, following the target through nested dictionaries. */
    method SetDefault(target: Path, fallback: Json)
      requires Valid() && target != []
      modifies Repr
      ensures Valid() && fresh(Repr - old(Repr))
      ensures Model == WithDefault(old(Model), target, fallback)
      decreases |target|, 0
    {
      var token := target[0];
      DefaultStep(Model, target, fallback);
      if |target| == 1 {
        if token !in fields {
          var node, footprint := CopyNode(fallback);
          Put(token, node, fallback, footprint);
        }
      } else {
        if token !in fields {
          var child := new Dict();
          Overwritten(Model.fields, token, Obj(map[]), WithDefault(Obj(map[]), target[1..], fallback));
          Put(token, Nested(child), Obj(map[]), child.Repr);
        }
        if fields[token].Nested? {
          Descend(token, target[1..], fallback);
        }
      }
    }
  }

  /** `node` stands for `value` and uses exactly the dictionaries of `footprint`. */
  ghost predicate Copies(node: Node, value: Json, footprint: set<Dict>)
    reads footprint
  {
    match node
    case Leaf(v) => v == value && !value.Obj? && footprint == {}
    case Nested(c) => c in footprint && c.Repr == footprint && c.Valid() && c.Model == value
  }

  /** `copy.deepcopy`: fresh dictionaries all the way down. */
  method CopyNode(value: Json) returns (node: Node, ghost footprint: set<Dict>)
    ensures fresh(footprint) && Copies(node, value, footprint)
    decreases value, 1
  {
    if value.Obj? {
      var dict := Copy(value);
      node, footprint := Nested(dict), dict.Repr;
    } else {
      node, footprint := Leaf(value), {};
    }
  }

  method Copy(value: Json) returns (dict: Dict)
    requires value.Obj?
    ensures dict.Valid() && fresh(dict.Repr) && dict.Model == value
    decreases value, 0
  {
    dict := new Dict();
    var pending := value.fields.Keys;
    while pending != {}
      invariant pending <= value.fields.Keys
      invariant dict.Valid() && fresh(dict.Repr)
      invariant dict.Model == Obj(value.fields - pending)
    {
      var k :| k in pending;
      assert value.fields - (pending - {k}) == (value.fields - pending)[k := value.fields[k]];
      var node, footprint := CopyNode(value.fields[k]);
      dict.Put(k, node, value.fields[k], footprint);
      pending := pending - {k};
    }
  }

  /** `_apply_public_defaults`. */
  method ApplyPublicDefaults(arguments: Json, defaults: seq<Default>) returns (enriched: Dict)
    requires arguments.Obj? && WellTargeted(defaults)
    ensures enriched.Valid() && fresh(enriched.Repr)
    ensures enriched.Model == Apply(arguments, defaults)
  {
    enriched := Copy(arguments);
    for i := 0 to |defaults|
      invariant enriched.Valid() && fresh(enriched.Repr)
      invariant enriched.Model == Apply(arguments, defaults[..i])
    {
      assert defaults[..i + 1][..i] == defaults[..i];
      enriched.SetDefault(defaults[i].target, defaults[i].value);
    }
    assert defaults[..|defaults|] == defaults;
  }
}
