/** The subset comparator of contracts/schema_relation.py, as a function that threads `visited`. */
module SchemaRelation {
  import opened Ordering
  import opened JsonValues
  import opened SchemaSemantics

  datatype Relation = Proven | Conflict | Unknown

  predicate AllProven(reports: seq<Relation>) {
    forall i :: 0 <= i < |reports| ==> reports[i] == Proven
  }

  lemma AllProvenSplit(a: seq<Relation>, b: seq<Relation>)
    ensures AllProven(a + b) <==> AllProven(a) && AllProven(b)
  {
    forall i | 0 <= i < |a| ensures (a + b)[i] == a[i] {}
    forall i | 0 <= i < |b| ensures (a + b)[|a| + i] == b[i] {}
  }

  /** `_combine`: a conflict wins, then an unknown. */
  function Combine(reports: seq<Relation>): (relation: Relation)
    ensures relation == Proven <==> AllProven(reports)
    ensures relation == Conflict <==> Conflict in reports
  {
    assert forall i | 0 <= i < |reports| :: reports[i].Proven? || reports[i].Conflict? || reports[i].Unknown?;
    if Conflict in reports then Conflict else if Unknown in reports then Unknown else Proven
  }

  // ---------- Vocabulary ----------

  const ANNOTATIONS: set<string> :=
    {"$comment", "$defs", "$id", "$schema", "default", "deprecated", "description", "examples",
     "readOnly", "title", "writeOnly"}

  const HANDLED: set<string> :=
    {"$ref", "additionalProperties", "allOf", "anyOf", "const", "enum", "exclusiveMaximum",
     "exclusiveMinimum", "items", "maxItems", "maxLength", "maximum", "minItems", "minLength",
     "minimum", "oneOf", "properties", "required", "type"}

  // ---------- Checks on one pair of schema objects ----------

  function CompareTypes(left: Json, right: Json): Relation {
    match (Types(left), Types(right))
    case (_, None) => Proven
    case (None, Some(_)) => Unknown
    case (Some(lt), Some(rt)) =>
      if forall t | t in lt :: t in rt || (t == "integer" && "number" in rt) then Proven else Conflict
  }

  function CompareLowerBound(left: Json, right: Json, keyword: string): Relation {
    if !HasNumber(right, keyword) then Proven
    else if !HasNumber(left, keyword) then Conflict
    else if Get(left, keyword).n >= Get(right, keyword).n then Proven else Conflict
  }

  function CompareUpperBound(left: Json, right: Json, keyword: string): Relation {
    if !HasNumber(right, keyword) then Proven
    else if !HasNumber(left, keyword) then Conflict
    else if Get(left, keyword).n <= Get(right, keyword).n then Proven else Conflict
  }

  datatype Bound = Bound(value: real, exclusive: bool)

  /** `_numeric_bound`: the tightest of the inclusive and the exclusive keyword. */
  function NumericBound(s: Json, lower: bool): Option<Bound> {
    var inclusive := if lower then "minimum" else "maximum";
    var exclusive := if lower then "exclusiveMinimum" else "exclusiveMaximum";
    if HasNumber(s, inclusive) && HasNumber(s, exclusive) then
      var i, e := Get(s, inclusive).n, Get(s, exclusive).n;
      if (if lower then i > e else i < e) then Some(Bound(i, false)) else Some(Bound(e, true))
    else if HasNumber(s, inclusive) then Some(Bound(Get(s, inclusive).n, false))
    else if HasNumber(s, exclusive) then Some(Bound(Get(s, exclusive).n, true))
    else None
  }

  function CompareNumericBound(left: Json, right: Json, lower: bool): Relation {
    match (NumericBound(left, lower), NumericBound(right, lower))
    case (_, None) => Proven
    case (None, Some(_)) => Conflict
    case (Some(lb), Some(rb)) =>
      if (if lower then lb.value > rb.value else lb.value < rb.value)
         || (lb.value == rb.value && (!rb.exclusive || lb.exclusive))
      then Proven else Conflict
  }

  /** `required` is absent or a list of strings. */
  predicate RequiredReadable(s: Json) {
    Has(s, "required") ==> HasList(s, "required") && AllStrings(Get(s, "required").items)
  }

  function CompareRequired(left: Json, right: Json): Relation {
    if !RequiredReadable(left) || !RequiredReadable(right) then Unknown
    else if RequiredNames(right) <= RequiredNames(left) then Proven else Conflict
  }

  predicate PyMember(value: Json, items: seq<Json>) {
    exists i :: 0 <= i < |items| && PyEqual(value, items[i])
  }

  function CompareConst(left: Json, right: Json): Relation {
    if Has(right, "const") && !(Has(left, "const") && PyEqual(Get(left, "const"), Get(right, "const")))
    then Conflict else Proven
  }

  function CompareEnum(left: Json, right: Json): Relation {
    if !Has(right, "enum") then Proven
    else if !HasList(left, "enum") || !HasList(right, "enum") then Unknown
    else if forall v | v in Get(left, "enum").items :: PyMember(v, Get(right, "enum").items) then Proven
    else Conflict
  }

  function LocalReports(left: Json, right: Json): seq<Relation> {
    [CompareTypes(left, right),
     CompareNumericBound(left, right, true),
     CompareNumericBound(left, right, false),
     CompareLowerBound(left, right, "minLength"),
     CompareLowerBound(left, right, "minItems"),
     CompareUpperBound(left, right, "maxLength"),
     CompareUpperBound(left, right, "maxItems"),
     CompareConst(left, right),
     CompareEnum(left, right)]
  }

  /** `_compare_finite_left`, on the values the left schema itself lists. */
  function Candidates(left: Json): Option<seq<Json>> {
    if Has(left, "const") then Some([Get(left, "const")])
    else if HasList(left, "enum") then Some(Get(left, "enum").items)
    else None
  }

  /** Validity of a schema without references, which needs no document around it. */
  predicate ValidAlone(s: Json, v: Json)
    requires !ContainsReference(s)
  {
    ReferenceFreeIsGuarded(s);
    Valid(Document(s, map[]), s, v)
  }

  function CompareFinite(left: Json, right: Json, candidates: seq<Json>): Relation
    requires !ContainsReference(left) && !ContainsReference(right)
  {
    if forall v | v in candidates :: ValidAlone(left, v) ==> ValidAlone(right, v) then Proven else Conflict
  }

  // ---------- Which sub-schemas a pair leads to ----------

  type Pair = (Occurrence, Occurrence)

  /** The two documents references are resolved in. */
  datatype Roots = Roots(left: Json, right: Json)

  /** The Boolean schema an absent keyword stands for; it has no place in a document. */
  const ANYTHING: Occurrence := Occurrence([], Bool(true))

  function AdditionalSchema(o: Occurrence): Occurrence {
    if Has(o.value, "additionalProperties") then Descend(o, Field("additionalProperties")) else ANYTHING
  }

  function ItemSchema(o: Occurrence): Occurrence {
    if Has(o.value, "items") then Descend(o, Field("items")) else ANYTHING
  }

  function PropertySchema(o: Occurrence, name: string): Occurrence
    requires name in Properties(o.value)
  {
    Descend(Descend(o, Field("properties")), Field(name))
  }

  /** `left_properties.get(name, left_additional)`. */
  function SchemaForName(o: Occurrence, name: string): Occurrence {
    if name in Properties(o.value) then PropertySchema(o, name) else AdditionalSchema(o)
  }

  function BranchOccurrences(o: Occurrence, keyword: string): (branches: seq<Occurrence>)
    ensures |branches| == |Branches(o.value, keyword)|
    ensures forall i :: 0 <= i < |branches| ==> branches[i].value == Branches(o.value, keyword)[i]
  {
    if HasList(o.value, keyword) then
      var list := Descend(o, Field(keyword));
      seq(|list.value.items|, i requires 0 <= i < |list.value.items| => Descend(list, Index(i)))
    else []
  }

  predicate PropertiesReadable(s: Json) {
    Has(s, "properties") ==> Get(s, "properties").Obj?
  }

  /** Declared names of the right schema whose left counterpart is not `False`. */
  function SharedNames(l: Occurrence, r: Occurrence): set<string> {
    set name | name in Properties(r.value) && SchemaForName(l, name).value != Bool(false)
  }

  function LeftOnlyNames(l: Occurrence, r: Occurrence): set<string> {
    Properties(l.value).Keys - Properties(r.value).Keys
  }

  function ObjectReports(l: Occurrence, r: Occurrence): seq<Relation> {
    var closed := AdditionalSchema(r).value == Bool(false);
    [CompareRequired(l.value, r.value)]
    + (if closed && LeftOnlyNames(l, r) != {} then [Conflict] else [])
    + (if closed && AdditionalSchema(l).value != Bool(false) then [Conflict] else [])
  }

  function SharedPairs(l: Occurrence, r: Occurrence): seq<Pair> {
    var names := Sorted(SharedNames(l, r));
    seq(|names|, i requires 0 <= i < |names| =>
      assert names[i] in SharedNames(l, r);
      (SchemaForName(l, names[i]), PropertySchema(r, names[i])))
  }

  function LeftOnlyPairs(l: Occurrence, r: Occurrence): seq<Pair> {
    var names := Sorted(LeftOnlyNames(l, r));
    seq(|names|, i requires 0 <= i < |names| =>
      assert names[i] in LeftOnlyNames(l, r);
      (PropertySchema(l, names[i]), AdditionalSchema(r)))
  }

  /** The recursive comparisons of `_compare_objects`, in its order. */
  function ObjectPairs(l: Occurrence, r: Occurrence): seq<Pair> {
    SharedPairs(l, r)
    + (if AdditionalSchema(r).value.Obj? then LeftOnlyPairs(l, r) else [])
    + (if AdditionalSchema(r).value.Obj? && AdditionalSchema(l).value != Bool(false)
       then [(AdditionalSchema(l), AdditionalSchema(r))] else [])
  }

  predicate Mentions(s: Json, name: string) {
    Types(s).Some? && name in Types(s).value
  }

  /** What one pair of schema objects asks for. */
  datatype Plan =
    | Settled(relation: Relation)
    | Every(local: Relation, pairs: seq<Pair>)  // every pair must be proven, and so must `local`
    | AnyOne(pairs: seq<Pair>)                  // a left `allOf`: one proven branch is enough

  function RefPlan(c: Roots, l: Occurrence, r: Occurrence): Plan {
    var left := if Has(l.value, "$ref") then ResolveValue(c.left, Get(l.value, "$ref")) else Some(l);
    var right := if Has(r.value, "$ref") then ResolveValue(c.right, Get(r.value, "$ref")) else Some(r);
    if left.None? || right.None? then Settled(Unknown)
    else if !(Keys(l.value) + Keys(r.value) <= {"$ref"} + ANNOTATIONS) then Settled(Unknown)
    else Every(Proven, [(left.value, right.value)])
  }

  function ResolveValue(root: Json, reference: Json): Option<Occurrence> {
    if reference.Str? then Resolve(root, reference.s) else None
  }

  /** `[(b, r) for b in branches]`: a left combinator against the whole right schema. */
  function LeftBranchPairs(l: Occurrence, r: Occurrence, keyword: string): (pairs: seq<Pair>)
    ensures |pairs| == |Branches(l.value, keyword)|
  {
    var b := BranchOccurrences(l, keyword);
    seq(|b|, i requires 0 <= i < |b| => (b[i], r))
  }

  function RightBranchPairs(l: Occurrence, r: Occurrence, keyword: string): (pairs: seq<Pair>)
    ensures |pairs| == |Branches(r.value, keyword)|
  {
    var b := BranchOccurrences(r, keyword);
    seq(|b|, i requires 0 <= i < |b| => (l, b[i]))
  }

  /** `_compare_combinations`; `None` when no combinator decides the pair. */
  function CombinationPlan(l: Occurrence, r: Occurrence): Option<Plan> {
    if HasList(l.value, "anyOf") then Some(Every(Proven, LeftBranchPairs(l, r, "anyOf")))
    else if HasList(l.value, "oneOf") then Some(Every(Proven, LeftBranchPairs(l, r, "oneOf")))
    else if HasList(r.value, "allOf") then Some(Every(Proven, RightBranchPairs(l, r, "allOf")))
    else if HasList(l.value, "allOf") then Some(AnyOne(LeftBranchPairs(l, r, "allOf")))
    else if Has(r.value, "anyOf") || Has(r.value, "oneOf") then Some(Settled(Unknown))
    else None
  }

  predicate ComparesObjects(l: Json, r: Json) {
    Mentions(l, "object") || Mentions(r, "object")
  }

  predicate ComparesArrays(l: Json, r: Json) {
    Mentions(l, "array") || Mentions(r, "array")
  }

  predicate ReadableObjects(l: Json, r: Json) {
    PropertiesReadable(l) && PropertiesReadable(r)
  }

  /** The relations found without recursion, object keywords included. */
  function PlainReports(l: Occurrence, r: Occurrence): seq<Relation> {
    LocalReports(l.value, r.value)
    + (if !ComparesObjects(l.value, r.value) then []
       else if ReadableObjects(l.value, r.value) then ObjectReports(l, r) else [Unknown])
  }

  function PlainPairs(l: Occurrence, r: Occurrence): seq<Pair> {
    (if ComparesObjects(l.value, r.value) && ReadableObjects(l.value, r.value) then ObjectPairs(l, r) else [])
    + (if ComparesArrays(l.value, r.value) then [(ItemSchema(l), ItemSchema(r))] else [])
  }

  function PlainPlan(l: Occurrence, r: Occurrence): Plan {
    Every(Combine(PlainReports(l, r)), PlainPairs(l, r))
  }

  predicate FiniteApplies(l: Json, r: Json) {
    Candidates(l).Some? && !ContainsReference(l) && !ContainsReference(r)
  }

  /** Everything `_compare` does with two schema objects it has not seen together before. */
  function PlanFor(c: Roots, l: Occurrence, r: Occurrence): Plan {
    if Has(l.value, "$ref") || Has(r.value, "$ref") then RefPlan(c, l, r)
    else if !(Keys(l.value) + Keys(r.value) <= HANDLED + ANNOTATIONS) then Settled(Unknown)
    else if CombinationPlan(l, r).Some? then CombinationPlan(l, r).value
    else if FiniteApplies(l.value, r.value)
    then Settled(CompareFinite(l.value, r.value, Candidates(l.value).value))
    else PlainPlan(l, r)
  }

  // ---------- The recursion ----------

  /** The answers `_compare` gives before it looks at `visited`. */
  function Immediate(left: Json, right: Json): Option<Relation> {
    if left == Bool(false) || right == Bool(true) then Some(Proven)
    else if left == Bool(true) then Some(if right == Bool(false) then Conflict else Unknown)
    else if right == Bool(false) then Some(Conflict)
    else if !left.Obj? || !right.Obj? then Some(Unknown)
    else if PyEqual(left, right) then Some(Proven)
    else None
  }

  predicate Inside(root: Json, o: Occurrence) {
    o.value.Bool? || o in Occurrences(Occurrence([], root))
  }

  predicate PairInside(c: Roots, p: Pair) {
    Inside(c.left, p.0) && Inside(c.right, p.1)
  }

  function AllPairs(c: Roots): (all: set<Pair>) {
    set a, b | a in Occurrences(Occurrence([], c.left)) && b in Occurrences(Occurrence([], c.right)) :: (a, b)
  }

  datatype Outcome = Outcome(relation: Relation, visited: set<Pair>)
  datatype Outcomes = Outcomes(relations: seq<Relation>, visited: set<Pair>)

  /**
   * `_compare`, with the shared `visited` set passed in and out. It terminates on every pair of
   * documents: each non-immediate call adds one of finitely many pairs.
   */
  function Compare(c: Roots, p: Pair, visited: set<Pair>): (out: Outcome)
    requires PairInside(c, p)
    ensures visited <= out.visited
    decreases AllPairs(c) - visited, 0
  {
    var (l, r) := p;
    if Immediate(l.value, r.value).Some? then Outcome(Immediate(l.value, r.value).value, visited)
    else if p in visited then Outcome(Proven, visited)
    else
      PlanStaysInside(c, l, r);
      var grown := visited + {p};
      assert p in AllPairs(c) - visited && p !in AllPairs(c) - grown;
      assert AllPairs(c) - grown < AllPairs(c) - visited;
      match PlanFor(c, l, r)
      case Settled(relation) => Outcome(relation, grown)
      case Every(local, pairs) =>
        var each := CompareEach(c, pairs, grown);
        Outcome(Combine([local] + each.relations), each.visited)
      case AnyOne(pairs) =>
        var each := CompareEach(c, pairs, grown);
        Outcome(if Proven in each.relations then Proven else Unknown, each.visited)
  }

  /** Compare a list of pairs from left to right, sharing `visited`. */
  function CompareEach(c: Roots, pairs: seq<Pair>, visited: set<Pair>): (out: Outcomes)
    requires forall p :: p in pairs ==> PairInside(c, p)
    ensures visited <= out.visited
    ensures |out.relations| == |pairs|
    decreases AllPairs(c) - visited, 1, |pairs|
  {
    if pairs == [] then Outcomes([], visited)
    else
      var first := Compare(c, pairs[0], visited);
      assert AllPairs(c) - first.visited <= AllPairs(c) - visited;
      var rest := CompareEach(c, pairs[1..], first.visited);
      Outcomes([first.relation] + rest.relations, rest.visited)
  }

  /** `_compare_subset`: each schema is its own root, and `visited` starts empty. */
  function CompareSubset(left: Json, right: Json): Relation {
    Compare(Roots(left, right), (Occurrence([], left), Occurrence([], right)), {}).relation
  }

  // ---------- Where a plan's pairs stand ----------

  lemma DescendStaysInside(root: Json, o: Occurrence, step: Step)
    requires o in Occurrences(Occurrence([], root))
    requires step.Field? ==> Has(o.value, step.name)
    requires step.Index? ==> o.value.Arr? && step.i < |o.value.items|
    ensures Descend(o, step) in Occurrences(Occurrence([], root))
  {
    OccurrencesTransitive(Occurrence([], root), o);
    assert Descend(o, step) in Occurrences(Descend(o, step));
    match step
    case Field(name) => assert name in o.value.fields;
    case Index(i) => assert 0 <= i < |o.value.items|;
  }

  lemma KeywordStaysInside(root: Json, o: Occurrence)
    requires o in Occurrences(Occurrence([], root))
    ensures Inside(root, AdditionalSchema(o)) && Inside(root, ItemSchema(o))
  {
    if Has(o.value, "additionalProperties") { DescendStaysInside(root, o, Field("additionalProperties")); }
    if Has(o.value, "items") { DescendStaysInside(root, o, Field("items")); }
  }

  lemma PropertyStaysInside(root: Json, o: Occurrence, name: string)
    requires o in Occurrences(Occurrence([], root))
    requires name in Properties(o.value)
    ensures Inside(root, PropertySchema(o, name))
  {
    DescendStaysInside(root, o, Field("properties"));
    DescendStaysInside(root, Descend(o, Field("properties")), Field(name));
  }

  lemma BranchStaysInside(root: Json, o: Occurrence, keyword: string, i: nat)
    requires o in Occurrences(Occurrence([], root))
    requires i < |BranchOccurrences(o, keyword)|
    ensures Inside(root, BranchOccurrences(o, keyword)[i])
  {
    DescendStaysInside(root, o, Field(keyword));
    DescendStaysInside(root, Descend(o, Field(keyword)), Index(i));
  }

  lemma ReferenceStaysInside(root: Json, reference: Json)
    requires ResolveValue(root, reference).Some?
    ensures Inside(root, ResolveValue(root, reference).value)
  {
    ResolveIsSubValue(root, reference.s);
  }

  function PlanPairs(plan: Plan): seq<Pair> {
    if plan.Settled? then [] else plan.pairs
  }

  lemma RefPlanInside(c: Roots, l: Occurrence, r: Occurrence)
    requires PairInside(c, (l, r))
    ensures forall p :: p in PlanPairs(RefPlan(c, l, r)) ==> PairInside(c, p)
  {
    if Has(l.value, "$ref") && ResolveValue(c.left, Get(l.value, "$ref")).Some? {
      ReferenceStaysInside(c.left, Get(l.value, "$ref"));
    }
    if Has(r.value, "$ref") && ResolveValue(c.right, Get(r.value, "$ref")).Some? {
      ReferenceStaysInside(c.right, Get(r.value, "$ref"));
    }
  }

  lemma CombinationPlanInside(c: Roots, l: Occurrence, r: Occurrence, i: nat)
    requires l in Occurrences(Occurrence([], c.left)) && r in Occurrences(Occurrence([], c.right))
    requires CombinationPlan(l, r).Some? && i < |PlanPairs(CombinationPlan(l, r).value)|
    ensures PairInside(c, PlanPairs(CombinationPlan(l, r).value)[i])
  {
    if HasList(l.value, "anyOf") { BranchStaysInside(c.left, l, "anyOf", i); }
    else if HasList(l.value, "oneOf") { BranchStaysInside(c.left, l, "oneOf", i); }
    else if HasList(r.value, "allOf") { BranchStaysInside(c.right, r, "allOf", i); }
    else if HasList(l.value, "allOf") { BranchStaysInside(c.left, l, "allOf", i); }
  }

  lemma SharedPairInside(c: Roots, l: Occurrence, r: Occurrence, name: string)
    requires l in Occurrences(Occurrence([], c.left)) && r in Occurrences(Occurrence([], c.right))
    requires name in SharedNames(l, r)
    ensures PairInside(c, (SchemaForName(l, name), PropertySchema(r, name)))
  {
    PropertyStaysInside(c.right, r, name);
    if name in Properties(l.value) { PropertyStaysInside(c.left, l, name); }
    else { KeywordStaysInside(c.left, l); }
  }

  lemma LeftOnlyPairInside(c: Roots, l: Occurrence, r: Occurrence, name: string)
    requires l in Occurrences(Occurrence([], c.left)) && r in Occurrences(Occurrence([], c.right))
    requires name in LeftOnlyNames(l, r)
    ensures PairInside(c, (PropertySchema(l, name), AdditionalSchema(r)))
  {
    PropertyStaysInside(c.left, l, name);
    KeywordStaysInside(c.right, r);
  }

  lemma PlainPairCases(l: Occurrence, r: Occurrence, p: Pair)
    requires p in PlainPairs(l, r)
    ensures p in SharedPairs(l, r) || p in LeftOnlyPairs(l, r)
         || p == (AdditionalSchema(l), AdditionalSchema(r)) || p == (ItemSchema(l), ItemSchema(r))
  {
    if p in ObjectPairs(l, r) {
    } else {
      assert ComparesArrays(l.value, r.value) && p == (ItemSchema(l), ItemSchema(r));
    }
  }

  lemma PlainPairInside(c: Roots, l: Occurrence, r: Occurrence, p: Pair)
    requires l in Occurrences(Occurrence([], c.left)) && r in Occurrences(Occurrence([], c.right))
    requires p in PlainPairs(l, r)
    ensures PairInside(c, p)
  {
    PlainPairCases(l, r, p);
    if p in SharedPairs(l, r) {
      var i :| 0 <= i < |SharedPairs(l, r)| && SharedPairs(l, r)[i] == p;
      SharedPairInside(c, l, r, Sorted(SharedNames(l, r))[i]);
    } else if p in LeftOnlyPairs(l, r) {
      var i :| 0 <= i < |LeftOnlyPairs(l, r)| && LeftOnlyPairs(l, r)[i] == p;
      LeftOnlyPairInside(c, l, r, Sorted(LeftOnlyNames(l, r))[i]);
    } else {
      KeywordStaysInside(c.left, l);
      KeywordStaysInside(c.right, r);
    }
  }

  lemma PlanStaysInside(c: Roots, l: Occurrence, r: Occurrence)
    requires l in Occurrences(Occurrence([], c.left)) && r in Occurrences(Occurrence([], c.right))
    ensures forall p :: p in PlanPairs(PlanFor(c, l, r)) ==> PairInside(c, p)
  {
    var plan := PlanFor(c, l, r);
    if Has(l.value, "$ref") || Has(r.value, "$ref") {
      RefPlanInside(c, l, r);
    } else {
      forall p | p in PlanPairs(plan) ensures PairInside(c, p) {
        if CombinationPlan(l, r).Some? {
          var i :| 0 <= i < |PlanPairs(plan)| && PlanPairs(plan)[i] == p;
          CombinationPlanInside(c, l, r, i);
        } else {
          PlainPairInside(c, l, r, p);
        }
      }
    }
  }

  // ---------- Schemas without references ----------

  lemma ReferenceFreeParts(s: Json, sub: Json)
    requires !ContainsReference(s) && sub in SubValues(s)
    ensures !ContainsReference(sub)
    decreases s
  {
    if sub == s {
    } else {
      match s
      case Arr(items) =>
        var i :| 0 <= i < |items| && sub in SubValues(items[i]);
        ReferenceFreeParts(items[i], sub);
      case Obj(fields) =>
        var k :| k in fields && sub in SubValues(fields[k]);
        ReferenceFreeParts(fields[k], sub);
    }
  }

  lemma ReferenceFreeBranch(s: Json, keyword: string, i: nat)
    requires !ContainsReference(s) && i < |Branches(s, keyword)|
    ensures !ContainsReference(Branches(s, keyword)[i])
  {
    assert !ContainsReference(s.fields[keyword]);
  }

  lemma ReferenceFreeInPlace(s: Json)
    requires !ContainsReference(s)
    ensures InPlaceRefs(s) == {}
  {
    forall keyword, i | 0 <= i < |Branches(s, keyword)|
      ensures InPlaceRefs(Branches(s, keyword)[i]) == {}
    {
      ReferenceFreeBranch(s, keyword, i);
      ReferenceFreeInPlace(Branches(s, keyword)[i]);
    }
  }

  lemma ReferenceFreeIsGuarded(s: Json)
    requires !ContainsReference(s)
    ensures Guarded(Document(s, map[]))
  {
    forall x | x in SubValues(s) ensures Height(Document(s, map[]), x) <= Rank(Document(s, map[]), x) {
      ReferenceFreeParts(s, x);
      ReferenceFreeInPlace(x);
    }
  }
}
