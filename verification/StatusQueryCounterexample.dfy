/**
 * An accepted status query whose required input is never delivered: the compiler compares a pointer with
 * list positions against policy paths, the enforcer uses paths without them.
 */
module StatusQueryCounterexample {
  import opened Ordering
  import opened JsonPointer
  import opened JsonValues
  import opened SchemaSemantics
  import opened SchemaRelation
  import opened SchemaSteps
  import opened PointerGuarantee
  import opened Policies
  import opened StatusQuery

  const SOURCE: Path := ["items", "0", "id"]

  /** `items` is readable, `items.id` is denied. */
  predicate Leaky(p: Policy) {
    && |p.readable| == 1 && |p.denied| == 1 && p.redactions == []
    && PolicyTokens(p.readable[0]) == ["items"] && PolicyTokens(p.denied[0]) == ["items", "id"]
  }

  function Preview(id: Json): Json {
    Obj(map["items" := Arr([Obj(map["id" := id])])])
  }

  const ANYTHING := Obj(map[])

  /** An object with one required member. */
  function Record(name: string, member: Json): Json {
    Obj(map["type" := Str("object"), "properties" := Obj(map[name := member]), "required" := Arr([Str(name)])])
  }

  function Listing(item: Json): Json {
    Obj(map["type" := Str("array"), "minItems" := Num(1.0), "items" := item])
  }

  /** A list of at least one object with an `id`. */
  function PreviewSchema(): Json {
    Record("items", Listing(Record("id", ANYTHING)))
  }

  /** The one required input is bound to the first `id` of the published preview. */
  function LeakyQuery(p: Policy, pointer: string): Query {
    Query(
      ANYTHING, p.id, Record("id", ANYTHING), {}, [Binding("id", PreparedPreview, Some(pointer))],
      Some(PreviewSchema()), Some(p), ANYTHING, None)
  }

  // ---------- The policy ----------

  lemma PrintedTokens(path: Path)
    requires path != []
    ensures PolicyTokens(Print(path)) == path && PointerTokens(Print(path)) == path
  {
    ParsePrint(path);
    assert Print(path)[0] == '/';
  }

  lemma PrintedPolicyLeaks(p: Policy)
    requires p == Policy("p", [Print(["items"])], [Print(["items", "id"])], [])
    ensures Leaky(p)
  {
    PrintedTokens(["items"]);
    PrintedTokens(["items", "id"]);
  }

  /** With its list position the source overlaps no denied path. */
  lemma SourceLooksDisclosed(p: Policy)
    requires Leaky(p)
    ensures DisclosesUnmodified(p, SOURCE)
  {
    assert SOURCE[1] != ["items", "id"][1];
    assert ["items"] <= SOURCE;
  }

  lemma StepsUpToItem(p: Policy)
    requires Leaky(p)
    ensures !Stops(p, []) && !Stops(p, ["items"]) && Denied(p, ["items", "id"])
  {
    assert !(PolicyTokens(p.denied[0]) <= ["items"]);
    assert PathsOverlap(PolicyTokens(p.readable[0]), ["items"]);
  }

  lemma IdIsRemoved(p: Policy, digest: Digest, item: Json)
    requires Leaky(p) && item.Obj?
    ensures Filter(p, digest, item, ["items"]).Some?
    ensures Child(Filter(p, digest, item, ["items"]).value, "id") == None
  {
    StepsUpToItem(p);
    assert ["items"] + ["id"] == ["items", "id"];
    assert Filter(p, digest, item, ["items"]) == Some(Obj(FilteredFields(p, digest, item, ["items"])));
  }

  lemma NothingPublished(p: Policy, digest: Digest, preview: Json, list: Json, item: Json)
    requires Leaky(p) && Child(preview, "items") == Some(list) && preview.Obj?
    requires list.Arr? && Child(list, "0") == Some(item) && item.Obj?
    ensures Lookup(FilterOutput(p, digest, preview), SOURCE) == None
  {
    SourceSteps();
    StepsUpToItem(p);
    assert [] + ["items"] == ["items"];
    ChildFiltered(p, digest, preview, [], "items", ["items"]);
    ChildFiltered(p, digest, list, ["items"], "0", ["items"]);
    IdIsRemoved(p, digest, item);
  }

  lemma SourceSteps()
    ensures SOURCE[1..] == ["0", "id"] && ["0", "id"][1..] == ["id"] && ["id"][1..] == []
    ensures IsIndex("0") && IndexOf("0") == 0
  {
    assert IndexOf("0") == IndexOf("") * 10 + 0;
  }

  // ---------- The schemas ----------

  lemma RecordShape(name: string, member: Json)
    requires member.Obj?
    ensures var s := Record(name, member);
      && !Has(s, "$ref") && !IsArraySchema(s) && Properties(s) == map[name := member]
      && Inner(s, name) == Some(member) && MustBePresent(s, name) && RequiredNames(s) == {name}
  {
    var s := Record(name, member);
    assert Branches(s, "required") == [Str(name)];
    assert Str(name) in Branches(s, "required");
  }

  lemma ListingShape(item: Json)
    requires item.Obj?
    ensures var s := Listing(item);
      !Has(s, "$ref") && IsArraySchema(s) && Inner(s, "0") == Some(item) && MustBePresent(s, "0")
  {
    SourceSteps();
  }

  /** One step of both pointer walks. */
  lemma WalksOn(root: Json, s: Json, tokens: seq<string>, next: Json)
    requires s.Obj? && !Has(s, "$ref") && tokens != []
    requires Inner(s, tokens[0]) == Some(next) && MustBePresent(s, tokens[0])
    ensures IsGuaranteed(root, s, tokens) == IsGuaranteed(root, next, tokens[1..])
    ensures SchemaAt(root, s, tokens) == SchemaAt(root, next, tokens[1..])
  {
  }

  lemma SourceIsGuaranteed(root: Json)
    requires root == PreviewSchema()
    ensures IsGuaranteed(root, root, SOURCE) && SchemaAt(root, root, SOURCE) == Some(ANYTHING)
  {
    var item := Record("id", ANYTHING);
    var list := Listing(item);
    SourceSteps();
    RecordShape("items", list);
    ListingShape(item);
    RecordShape("id", ANYTHING);
    WalksOn(root, root, SOURCE, list);
    WalksOn(root, list, ["0", "id"], item);
    WalksOn(root, item, ["id"], ANYTHING);
    assert Dereference(root, ANYTHING, {}) == Some(ANYTHING);
  }

  lemma NothingAgainst(q: Query, b: Binding, root: Json, tokens: Path, found: Json, target: Json)
    requires b.target in Properties(q.operationInput) && Properties(q.operationInput)[b.target] == target
    requires target.Obj? && b.target !in q.contextBindings && b.source == PreparedPreview
    requires b.sourcePointer.Some? && PointerTokens(b.sourcePointer.value) == tokens
    requires q.policy.Some? && q.policy.value.id == q.capabilityPolicy && DisclosesUnmodified(q.policy.value, tokens)
    requires q.previewSchema == Some(root) && SchemaAt(root, root, tokens) == Some(found)
    requires IsGuaranteed(root, root, tokens) && CompareSubset(found, target) == Proven
    ensures Objection(q, b).None?
  {
  }

  lemma BindingIsAccepted(p: Policy, pointer: string, b: Binding)
    requires Leaky(p) && PointerTokens(pointer) == SOURCE && b == Binding("id", PreparedPreview, Some(pointer))
    ensures Objection(LeakyQuery(p, pointer), b).None?
  {
    SourceLooksDisclosed(p);
    SourceIsGuaranteed(PreviewSchema());
    RecordShape("id", ANYTHING);
    AnythingProven();
    NothingAgainst(LeakyQuery(p, pointer), b, PreviewSchema(), SOURCE, ANYTHING, ANYTHING);
  }

  lemma AnythingProven()
    ensures CompareSubset(ANYTHING, ANYTHING) == Proven
  {
    assert Immediate(ANYTHING, ANYTHING) == Some(Proven);
  }

  /** Nothing is reported of a query without a success field whose one binding serves its one required input. */
  lemma OneGoodBinding(q: Query, b: Binding, accepts: Validator)
    requires TargetsReadable(q) && q.requestBindings == [b] && q.success.None?
    requires Objection(q, b).None? && RequiredTargets(q) <= {b.target}
    ensures Diagnostics(q, accepts) == []
  {
    var all := Bindings(q);
    assert ObjectionList(q, all) == [None];
    assert Raised([None]) == [];
    assert all[0].target in Constructed(q, all);
    assert RequiredTargets(q) - Constructed(q, all) == {};
  }

  lemma RecordAccepts(d: Document, name: string, member: Json, value: Json)
    requires Guarded(d) && member.Obj? && Valid(d, member, value)
    ensures Valid(d, Record(name, member), Obj(map[name := value]))
  {
    var s, v := Record(name, member), Obj(map[name := value]);
    RecordShape(name, member);
    assert forall k :: Has(s, k) ==> k in {"type", "properties", "required"};
    assert Types(s) == Some({"object"}) && TypeHolds("object", v);
    assert FieldsValid(d, s, v);
  }

  lemma ListingAccepts(d: Document, item: Json, value: Json)
    requires Guarded(d) && item.Obj? && Valid(d, item, value)
    ensures Valid(d, Listing(item), Arr([value]))
  {
    var s, v := Listing(item), Arr([value]);
    assert forall k :: Has(s, k) ==> k in {"type", "minItems", "items"};
    assert Types(s) == Some({"array"}) && TypeHolds("array", v);
    assert ItemsValid(d, s, v);
  }

  lemma PreviewIsValid(d: Document, id: Json)
    requires Guarded(d)
    ensures Valid(d, PreviewSchema(), Preview(id))
  {
    var item, value := Record("id", ANYTHING), Obj(map["id" := id]);
    NoAssertions(d, ANYTHING, id);
    RecordAccepts(d, "id", ANYTHING, id);
    ListingAccepts(d, item, value);
    RecordAccepts(d, "items", Listing(item), Arr([value]));
  }

  lemma RecordRefersToNothing(name: string, member: Json)
    requires !ContainsReference(member) && name != "$ref"
    ensures !ContainsReference(Record(name, member))
  {
    assert !ContainsReference(Obj(map[name := member])) && !ContainsReference(Arr([Str(name)]));
  }

  lemma PreviewSchemaIsGuarded()
    ensures Guarded(Document(PreviewSchema(), map[]))
  {
    RecordRefersToNothing("id", ANYTHING);
    assert !ContainsReference(Listing(Record("id", ANYTHING)));
    RecordRefersToNothing("items", Listing(Record("id", ANYTHING)));
    ReferenceFreeIsGuarded(PreviewSchema());
  }

  /**
   * The compiler reports nothing and the preview is valid, yet the only binding of the required input
   * finds no value in the published preview.
   */
  lemma AcceptedQueryDeliversNothing(
    p: Policy, pointer: string, b: Binding, accepts: Validator, digest: Digest, input: Json, id: Json, key: string)
    requires p == Policy("p", [Print(["items"])], [Print(["items", "id"])], []) && pointer == Print(SOURCE)
    requires b == Binding("id", PreparedPreview, Some(pointer))
    ensures var q, d := LeakyQuery(p, pointer), Document(PreviewSchema(), map[]);
      && Diagnostics(q, accepts) == [] && RequiredTargets(q) == {"id"} && Bindings(q) == [b]
      && Guarded(d) && Valid(d, q.previewSchema.value, Preview(id))
      && Evaluate(b, Sealed(input, FilterOutput(p, digest, Preview(id)), key)) == None
  {
    PrintedPolicyLeaks(p);
    PrintedTokens(SOURCE);
    LeakyQueryIsAccepted(p, pointer, b, accepts);
    PreviewSchemaIsGuarded();
    PreviewIsValid(Document(PreviewSchema(), map[]), id);
    PreviewIsEmptied(p, digest, id);
  }

  lemma LeakyQueryIsAccepted(p: Policy, pointer: string, b: Binding, accepts: Validator)
    requires Leaky(p) && PointerTokens(pointer) == SOURCE && b == Binding("id", PreparedPreview, Some(pointer))
    ensures var q := LeakyQuery(p, pointer);
      Diagnostics(q, accepts) == [] && RequiredTargets(q) == {"id"} && Bindings(q) == [b]
  {
    RecordShape("id", ANYTHING);
    BindingIsAccepted(p, pointer, b);
    OneGoodBinding(LeakyQuery(p, pointer), b, accepts);
  }

  lemma PreviewIsEmptied(p: Policy, digest: Digest, id: Json)
    requires Leaky(p)
    ensures Lookup(FilterOutput(p, digest, Preview(id)), SOURCE) == None
  {
    SourceSteps();
    var list := Preview(id).fields["items"];
    NothingPublished(p, digest, Preview(id), list, list.items[0]);
  }
}
