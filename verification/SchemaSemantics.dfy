/**
 * What a JSON Schema of the supported vocabulary means (Draft 2020-12).
 * This is the reference the subset prover is judged against; it shares only reference
 * resolution with it.
 */
module SchemaSemantics {
  import opened Ordering
  import opened JsonPointer
  import opened JsonValues

  // ---------- Local references ----------

  datatype Step = Field(name: string) | Index(i: nat)

  /** A value together with where it stands in its document: the model of Python object identity. */
  datatype Occurrence = Occurrence(path: seq<Step>, value: Json)

  function Descend(o: Occurrence, step: Step): (child: Occurrence)
    requires step.Field? ==> Has(o.value, step.name)
    requires step.Index? ==> o.value.Arr? && step.i < |o.value.items|
    ensures child.value < o.value
  {
    match step
    case Field(name) => Occurrence(o.path + [step], o.value.fields[name])
    case Index(i) => Occurrence(o.path + [step], o.value.items[i])
  }

  /** Follow object keys, as the reference resolvers do. */
  function Walk(o: Occurrence, tokens: seq<string>): Option<Occurrence>
    decreases |tokens|
  {
    if tokens == [] then Some(o)
    else if !Has(o.value, tokens[0]) then None
    else Walk(Descend(o, Field(tokens[0])), tokens[1..])
  }

  /** `_resolve_local_ref` on a string: only `#/...` resolves, and `null` counts as missing. */
  function Resolve(root: Json, reference: string): Option<Occurrence> {
    if !StartsWith(reference, "#/") then None
    else
      match Walk(Occurrence([], root), Tokens(reference[2..]))
      case None => None
      case Some(o) => if o.value.Null? then None else Some(o)
  }

  /** Every occurrence inside `o`, itself included. */
  function Occurrences(o: Occurrence): (all: set<Occurrence>)
    ensures o in all
    decreases o.value
  {
    {o} +
    match o.value
    case Arr(items) =>
      set i, x | 0 <= i < |items| && x in Occurrences(Descend(o, Index(i))) :: x
    case Obj(fields) =>
      set k, x | k in fields && x in Occurrences(Descend(o, Field(k))) :: x
    case _ => {}
  }

  lemma {:induction false} OccurrencesTransitive(outer: Occurrence, inner: Occurrence)
    requires inner in Occurrences(outer)
    ensures Occurrences(inner) <= Occurrences(outer)
    decreases outer.value
  {
    if inner == outer {
    } else {
      match outer.value
      case Arr(items) =>
        var i :| 0 <= i < |items| && inner in Occurrences(Descend(outer, Index(i)));
        OccurrencesTransitive(Descend(outer, Index(i)), inner);
      case Obj(fields) =>
        var k :| k in fields && inner in Occurrences(Descend(outer, Field(k)));
        OccurrencesTransitive(Descend(outer, Field(k)), inner);
    }
  }

  lemma {:induction false} WalkStaysInside(o: Occurrence, tokens: seq<string>)
    requires Walk(o, tokens).Some?
    ensures Walk(o, tokens).value in Occurrences(o)
    decreases |tokens|
  {
    if tokens == [] {
    } else {
      WalkStaysInside(Descend(o, Field(tokens[0])), tokens[1..]);
    }
  }

  lemma {:induction false} OccurrenceIsSubValue(outer: Occurrence, inner: Occurrence)
    requires inner in Occurrences(outer)
    ensures inner.value in SubValues(outer.value)
    decreases outer.value
  {
    if inner == outer {
    } else {
      match outer.value
      case Arr(items) =>
        var i :| 0 <= i < |items| && inner in Occurrences(Descend(outer, Index(i)));
        OccurrenceIsSubValue(Descend(outer, Index(i)), inner);
      case Obj(fields) =>
        var k :| k in fields && inner in Occurrences(Descend(outer, Field(k)));
        OccurrenceIsSubValue(Descend(outer, Field(k)), inner);
    }
  }

  lemma ResolveIsSubValue(root: Json, reference: string)
    requires Resolve(root, reference).Some?
    ensures Resolve(root, reference).value in Occurrences(Occurrence([], root))
    ensures Resolve(root, reference).value.value in SubValues(root)
  {
    WalkStaysInside(Occurrence([], root), Tokens(reference[2..]));
    OccurrenceIsSubValue(Occurrence([], root), Resolve(root, reference).value);
  }

  // ---------- Keywords ----------

  /** The list under a combinator keyword, or nothing when it is absent or not a list. */
  predicate HasList(s: Json, keyword: string) {
    Has(s, keyword) && Get(s, keyword).Arr?
  }

  function Branches(s: Json, keyword: string): (branches: seq<Json>)
    ensures forall b :: b in branches ==> b < s
  {
    if HasList(s, keyword) then Get(s, keyword).items else []
  }

  predicate AllStrings(items: seq<Json>) {
    forall i :: 0 <= i < |items| ==> items[i].Str?
  }

  function StringSet(items: seq<Json>): set<string>
    requires AllStrings(items)
  {
    set i | 0 <= i < |items| :: items[i].s
  }

  /** `_types`: the declared type names, or nothing when absent or malformed. */
  function Types(s: Json): Option<set<string>> {
    if Has(s, "type") && Get(s, "type").Str? then Some({Get(s, "type").s})
    else if HasList(s, "type") && AllStrings(Get(s, "type").items) then Some(StringSet(Get(s, "type").items))
    else None
  }

  /** The names `required` asks for; an entry that is no string asks for nothing. */
  function RequiredNames(s: Json): set<string> {
    set i | 0 <= i < |Branches(s, "required")| && Branches(s, "required")[i].Str? :: Branches(s, "required")[i].s
  }

  /** The declared `properties`; malformed counts as none. */
  function Properties(s: Json): (properties: map<string, Json>)
    ensures forall name :: name in properties ==> properties[name] < s
  {
    if Has(s, "properties") && Get(s, "properties").Obj? then Get(s, "properties").fields else map[]
  }

  predicate TypeHolds(name: string, v: Json) {
    || (name == "null" && v.Null?)
    || (name == "boolean" && v.Bool?)
    || (name == "number" && v.Num?)
    || (name == "integer" && v.Num? && IsInteger(v.n))
    || (name == "string" && v.Str?)
    || (name == "array" && v.Arr?)
    || (name == "object" && v.Obj?)
  }

  // ---------- Assertions that look at one value only ----------

  predicate TypeOk(s: Json, v: Json) {
    Types(s).Some? ==> exists t :: t in Types(s).value && TypeHolds(t, v)
  }

  predicate ValueOk(s: Json, v: Json) {
    && (Has(s, "const") ==> v == Get(s, "const"))
    && (HasList(s, "enum") ==> v in Get(s, "enum").items)
  }

  predicate LowerOk(s: Json, x: real) {
    && (HasNumber(s, "minimum") ==> x >= Get(s, "minimum").n)
    && (HasNumber(s, "exclusiveMinimum") ==> x > Get(s, "exclusiveMinimum").n)
  }

  predicate UpperOk(s: Json, x: real) {
    && (HasNumber(s, "maximum") ==> x <= Get(s, "maximum").n)
    && (HasNumber(s, "exclusiveMaximum") ==> x < Get(s, "exclusiveMaximum").n)
  }

  predicate SizeOk(s: Json, least: string, most: string, size: nat) {
    && (HasNumber(s, least) ==> size as real >= Get(s, least).n)
    && (HasNumber(s, most) ==> size as real <= Get(s, most).n)
  }

  predicate AssertionsHold(s: Json, v: Json) {
    && TypeOk(s, v)
    && ValueOk(s, v)
    && (v.Num? ==> LowerOk(s, v.n) && UpperOk(s, v.n))
    && (v.Str? ==> SizeOk(s, "minLength", "maxLength", |v.s|))
    && (v.Arr? ==> SizeOk(s, "minItems", "maxItems", |v.items|))
    && (v.Obj? ==> RequiredNames(s) <= v.fields.Keys)
  }

  // ---------- Well-founded validity ----------

  /** A document together with ranks for its schemas; see `Guarded`. */
  datatype Document = Document(root: Json, rank: map<Json, nat>)

  /** References reachable without descending into the instance. */
  function InPlaceRefs(s: Json): set<string> {
    (if Has(s, "$ref") && Get(s, "$ref").Str? then {Get(s, "$ref").s} else {})
    + (set i, r | 0 <= i < |Branches(s, "allOf")| && r in InPlaceRefs(Branches(s, "allOf")[i]) :: r)
    + (set i, r | 0 <= i < |Branches(s, "anyOf")| && r in InPlaceRefs(Branches(s, "anyOf")[i]) :: r)
    + (set i, r | 0 <= i < |Branches(s, "oneOf")| && r in InPlaceRefs(Branches(s, "oneOf")[i]) :: r)
  }

  function RefRank(d: Document, reference: string): nat {
    match Resolve(d.root, reference)
    case None => 0
    case Some(target) => Rank(d, target.value)
  }

  function Rank(d: Document, s: Json): nat {
    if s in d.rank then d.rank[s] else 0
  }

  /** One more than the largest rank in `refs`, or zero. */
  ghost function MaxRank(d: Document, refs: set<string>): (h: nat)
    ensures forall r :: r in refs ==> RefRank(d, r) < h
    ensures h == 0 || exists r :: r in refs && h == RefRank(d, r) + 1
  {
    if refs == {} then 0
    else
      var r :| r in refs;
      var rest := MaxRank(d, refs - {r});
      if RefRank(d, r) < rest then rest else RefRank(d, r) + 1
  }

  ghost function Height(d: Document, s: Json): nat {
    MaxRank(d, InPlaceRefs(s))
  }

  lemma HeightOfBranch(d: Document, s: Json, keyword: string, i: nat)
    requires keyword in {"allOf", "anyOf", "oneOf"} && i < |Branches(s, keyword)|
    ensures Height(d, Branches(s, keyword)[i]) <= Height(d, s)
  {
    assert InPlaceRefs(Branches(s, keyword)[i]) <= InPlaceRefs(s);
  }

  /**
   * Every reference leads to lower ranks until the instance shrinks. Without this a schema may
   * refer to itself on the same instance, and Draft 2020-12 Core section 9.4.1 gives it no meaning.
   */
  ghost predicate Guarded(d: Document) {
    forall s :: s in SubValues(d.root) ==> Height(d, s) <= Rank(d, s)
  }

  lemma HeightOfRef(d: Document, s: Json)
    requires Guarded(d)
    requires Has(s, "$ref") && Get(s, "$ref").Str? && Resolve(d.root, Get(s, "$ref").s).Some?
    ensures Height(d, Resolve(d.root, Get(s, "$ref").s).value.value) < Height(d, s)
  {
    assert Get(s, "$ref").s in InPlaceRefs(s);
    ResolveIsSubValue(d.root, Get(s, "$ref").s);
  }

  /**
   * Does instance `v` satisfy schema `s`, whose references live in `d`?
   * A malformed keyword, or a value that is no schema at all, asserts nothing.
   */
  predicate Valid(d: Document, s: Json, v: Json)
    requires Guarded(d)
    decreases v, Height(d, s), s, 1
  {
    match s
    case Bool(b) => b
    case Obj(_) =>
      && AssertionsHold(s, v)
      && RefValid(d, s, v)
      && AllValid(d, s, v)
      && AnyValid(d, s, v)
      && OneValid(d, s, v)
      && FieldsValid(d, s, v)
      && ItemsValid(d, s, v)
    case _ => true
  }

  /** `$ref` (Core section 8.2.3.1); an unresolvable reference accepts nothing. */
  predicate RefValid(d: Document, s: Json, v: Json)
    requires Guarded(d)
    decreases v, Height(d, s), s, 0
  {
    Has(s, "$ref") ==>
      && Get(s, "$ref").Str?
      && Resolve(d.root, Get(s, "$ref").s).Some?
      && (HeightOfRef(d, s); Valid(d, Resolve(d.root, Get(s, "$ref").s).value.value, v))
  }

  /** `allOf` (Core section 10.2.1.1). */
  predicate AllValid(d: Document, s: Json, v: Json)
    requires Guarded(d)
    decreases v, Height(d, s), s, 0
  {
    var b := Branches(s, "allOf");
    forall i | 0 <= i < |b| :: HeightOfBranch(d, s, "allOf", i); Valid(d, b[i], v)
  }

  /** `anyOf` (Core section 10.2.1.2). */
  predicate AnyValid(d: Document, s: Json, v: Json)
    requires Guarded(d)
    decreases v, Height(d, s), s, 0
  {
    var b := Branches(s, "anyOf");
    HasList(s, "anyOf") ==> exists i | 0 <= i < |b| :: HeightOfBranch(d, s, "anyOf", i); Valid(d, b[i], v)
  }

  /** `oneOf` (Core section 10.2.1.3): exactly one branch. */
  predicate OneValid(d: Document, s: Json, v: Json)
    requires Guarded(d)
    decreases v, Height(d, s), s, 0
  {
    var b := Branches(s, "oneOf");
    HasList(s, "oneOf") ==>
      exists i | 0 <= i < |b| ::
        && (HeightOfBranch(d, s, "oneOf", i); Valid(d, b[i], v))
        && forall j | 0 <= j < |b| && j != i :: HeightOfBranch(d, s, "oneOf", j); !Valid(d, b[j], v)
  }

  /** `properties` and `additionalProperties` (Core section 10.3.2). */
  predicate FieldsValid(d: Document, s: Json, v: Json)
    requires Guarded(d)
    decreases v, Height(d, s), s, 0
  {
    v.Obj? ==>
      forall name | name in v.fields ::
        if name in Properties(s) then Valid(d, Properties(s)[name], v.fields[name])
        else Has(s, "additionalProperties") ==> Valid(d, Get(s, "additionalProperties"), v.fields[name])
  }

  /** `items` (Core section 10.3.1.2). */
  predicate ItemsValid(d: Document, s: Json, v: Json)
    requires Guarded(d)
    decreases v, Height(d, s), s, 0
  {
    v.Arr? && Has(s, "items") ==>
      forall i | 0 <= i < |v.items| :: Valid(d, Get(s, "items"), v.items[i])
  }

  // ---------- Schemas without references ----------

  /** `_contains_reference`. */
  predicate ContainsReference(value: Json) {
    match value
    case Obj(fields) => "$ref" in fields || exists k | k in fields :: ContainsReference(fields[k])
    case Arr(items) => exists i | 0 <= i < |items| :: ContainsReference(items[i])
    case _ => false
  }
}
