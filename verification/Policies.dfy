/** Disclosure policies: what the enforcer makes of an output, and what the compiler believes it leaves alone. */
module Policies {
  import opened Ordering
  import opened JsonPointer
  import opened JsonValues

  datatype Strategy = Remove | Mask | Hash

  datatype Redaction = Redaction(path: string, strategy: Strategy)

  datatype Policy = Policy(id: string, readable: seq<string>, denied: seq<string>, redactions: seq<Redaction>)

  type Path = seq<string>

  /** `_stable_hash`; SHA-256 is not part of this model. */
  type Digest = Json -> string

  // ---------- Paths ----------

  /** `_policy_path_tokens` of the compiler and `_parse_path` of the enforcer. */
  function PolicyTokens(path: string): Path {
    var body := if StartsWith(path, "$.") then path[2..] else path;
    if StartsWith(body, "/") then PointerTokens(body) else NonEmpty(Split(body, '.'))
  }

  function NonEmpty(parts: seq<string>): seq<string> {
    if parts == [] then []
    else (if parts[0] == "" then [] else [parts[0]]) + NonEmpty(parts[1..])
  }

  /** `_paths_overlap`: one path is a prefix of the other. */
  predicate PathsOverlap(a: Path, b: Path) {
    a <= b || b <= a
  }

  /** `_policy_discloses_unmodified`. */
  predicate DisclosesUnmodified(policy: Policy, source: Path) {
    && (exists i :: 0 <= i < |policy.readable| && PolicyTokens(policy.readable[i]) <= source)
    && (forall i :: 0 <= i < |policy.denied| ==> !PathsOverlap(source, PolicyTokens(policy.denied[i])))
    && (forall i :: 0 <= i < |policy.redactions| ==> !PathsOverlap(source, PolicyTokens(policy.redactions[i].path)))
  }

  // ---------- The enforcer ----------

  /** `_has_ancestor` among the denied paths. */
  predicate Denied(p: Policy, path: Path) {
    exists i :: 0 <= i < |p.denied| && PolicyTokens(p.denied[i]) <= path
  }

  /** `_is_readable`. */
  predicate Readable(p: Policy, path: Path) {
    exists i :: 0 <= i < |p.readable| && PathsOverlap(PolicyTokens(p.readable[i]), path)
  }

  /** `redactions.get(path)`: the last rule written for the path. */
  function Redacting(rules: seq<Redaction>, path: Path): Option<Strategy> {
    if rules == [] then None
    else
      var last := |rules| - 1;
      if PolicyTokens(rules[last].path) == path then Some(rules[last].strategy) else Redacting(rules[..last], path)
  }

  lemma {:induction false} RuleApplies(rules: seq<Redaction>, i: nat)
    requires i < |rules|
    ensures Redacting(rules, PolicyTokens(rules[i].path)).Some?
  {
    var last := |rules| - 1;
    if i == last {
    } else {
      RuleApplies(rules[..last], i);
    }
  }

  lemma {:induction false} AppliedRule(rules: seq<Redaction>, path: Path) returns (i: nat)
    requires Redacting(rules, path).Some?
    ensures i < |rules| && PolicyTokens(rules[i].path) == path
  {
    i := |rules| - 1;
    if PolicyTokens(rules[i].path) != path {
      i := AppliedRule(rules[..i], path);
    }
  }

  function Redacted(strategy: Strategy, digest: Digest, value: Json): Option<Json> {
    match strategy
    case Remove => None
    case Mask => Some(Str("***"))
    case Hash => Some(Str(digest(value)))
  }

  /** `_filter_node`; `None` where the node is removed. The items of a list have the path of the list. */
  function Filter(p: Policy, digest: Digest, value: Json, path: Path): Option<Json>
    decreases value, 1, 0
  {
    if Denied(p, path) || (path != [] && !Readable(p, path)) then None
    else if Redacting(p.redactions, path).Some? then
      Redacted(Redacting(p.redactions, path).value, digest, value)
    else
      match value
      case Obj(_) => Some(Obj(FilteredFields(p, digest, value, path)))
      case Arr(items) => Some(Arr(FilterItems(p, digest, value, path, |items|)))
      case _ => Some(value)
  }

  function FilteredFields(p: Policy, digest: Digest, value: Json, path: Path): map<string, Json>
    requires value.Obj?
    decreases value, 0, 0
  {
    map k | k in value.fields && Filter(p, digest, value.fields[k], path + [k]).Some? ::
      Filter(p, digest, value.fields[k], path + [k]).value
  }

  /** What is left of the first `n` items. */
  function FilterItems(p: Policy, digest: Digest, list: Json, path: Path, n: nat): seq<Json>
    requires list.Arr? && n <= |list.items|
    decreases list, 0, n
  {
    if n == 0 then []
    else FilterItems(p, digest, list, path, n - 1) + Listed(Filter(p, digest, list.items[n - 1], path))
  }

  function Listed(node: Option<Json>): seq<Json> {
    match node
    case None => []
    case Some(value) => [value]
  }

  /** An output that is removed altogether is published as an empty object. */
  function FilterOutput(p: Policy, digest: Digest, output: Json): Json {
    match Filter(p, digest, output, [])
    case None => Obj(map[])
    case Some(value) => value
  }

  /** `filter_output`. */
  method Publish(p: Policy, digest: Digest, output: Json) returns (published: Json)
    ensures published == FilterOutput(p, digest, output)
  {
    var node := FilterNode(p, digest, output, []);
    published := if node.Some? then node.value else Obj(map[]);
  }

  /** `_filter_node`, with its loops over members and items. */
  method FilterNode(p: Policy, digest: Digest, value: Json, path: Path) returns (result: Option<Json>)
    ensures result == Filter(p, digest, value, path)
    decreases value, 1
  {
    if Denied(p, path) || (path != [] && !Readable(p, path)) {
      return None;
    }
    var redaction := Redacting(p.redactions, path);
    if redaction.Some? {
      return Redacted(redaction.value, digest, value);
    }
    match value {
      case Obj(fields) =>
        var filtered := FilterMembers(p, digest, value, path);
        result := Some(Obj(filtered));
      case Arr(items) =>
        var kept: seq<Json> := [];
        for i := 0 to |items|
          invariant kept == FilterItems(p, digest, value, path, i)
        {
          var item := FilterNode(p, digest, items[i], path);
          kept := kept + Listed(item);
        }
        result := Some(Arr(kept));
      case _ => result := Some(value);
    }
  }

  /** The loop over the members of an object, in the order of their names. */
  method FilterMembers(p: Policy, digest: Digest, value: Json, path: Path) returns (filtered: map<string, Json>)
    requires value.Obj?
    ensures filtered == FilteredFields(p, digest, value, path)
    decreases value, 0
  {
    var keys := SortedNames(value.fields);
    ghost var all := FilteredFields(p, digest, value, path);
    filtered := map[];
    for i := 0 to |keys|
      invariant filtered == Among(all, keys[..i])
    {
      OneMoreName(all, keys, i);
      var child := FilterNode(p, digest, value.fields[keys[i]], path + [keys[i]]);
      if child.Some? {
        filtered := filtered[keys[i] := child.value];
      }
    }
    assert keys[..|keys|] == keys;
  }

  method SortedNames(fields: map<string, Json>) returns (names: seq<string>)
    ensures forall i :: 0 <= i < |names| ==> names[i] in fields
    ensures forall k :: k in fields ==> k in names
  {
    names := Sorted(fields.Keys);
    assert forall i :: 0 <= i < |names| ==> names[i] in names;
  }

  /** The members with the listed names. */
  function Among(fields: map<string, Json>, names: seq<string>): map<string, Json> {
    map k | k in fields && k in names :: fields[k]
  }

  lemma OneMoreName(fields: map<string, Json>, names: seq<string>, i: nat)
    requires i < |names|
    ensures Among(fields, names[..i + 1])
      == if names[i] in fields then Among(fields, names[..i])[names[i] := fields[names[i]]]
         else Among(fields, names[..i])
  {
    assert names[..i + 1] == names[..i] + [names[i]];
  }

  // ---------- Where the enforcer changes something ----------

  /** At this path the enforcer removes or replaces whatever it finds. */
  predicate Stops(p: Policy, path: Path) {
    Denied(p, path) || (path != [] && !Readable(p, path)) || Redacting(p.redactions, path).Some?
  }

  /** What the compiler checks says, of paths without list positions, that nothing stops above or below. */
  lemma DisclosesExactly(p: Policy, source: Path)
    ensures DisclosesUnmodified(p, source) <==> forall q :: PathsOverlap(source, q) ==> !Stops(p, q)
  {
    if DisclosesUnmodified(p, source) {
      forall q | PathsOverlap(source, q) ensures !Stops(p, q) { NothingStops(p, source, q); }
    } else {
      var q := StoppingPath(p, source);
    }
  }

  lemma NothingStops(p: Policy, source: Path, q: Path)
    requires DisclosesUnmodified(p, source) && PathsOverlap(source, q)
    ensures !Stops(p, q)
  {
    StaysReadable(p, source, q);
    StaysAllowed(p, source, q);
    if Redacting(p.redactions, q).Some? {
      var i := AppliedRule(p.redactions, q);
    }
  }

  lemma StaysReadable(p: Policy, source: Path, q: Path)
    requires DisclosesUnmodified(p, source) && PathsOverlap(source, q)
    ensures Readable(p, q)
  {
    var i :| 0 <= i < |p.readable| && PolicyTokens(p.readable[i]) <= source;
    PrefixesOverlap(PolicyTokens(p.readable[i]), source, q);
  }

  lemma StaysAllowed(p: Policy, source: Path, q: Path)
    requires DisclosesUnmodified(p, source) && PathsOverlap(source, q)
    ensures !Denied(p, q)
  {
    forall j | 0 <= j < |p.denied| ensures !(PolicyTokens(p.denied[j]) <= q) {
      if PolicyTokens(p.denied[j]) <= q { PrefixesOverlap(PolicyTokens(p.denied[j]), q, source); }
    }
  }

  /** A prefix of a path overlaps whatever that path overlaps. */
  lemma PrefixesOverlap(a: Path, b: Path, c: Path)
    requires a <= b && PathsOverlap(b, c)
    ensures PathsOverlap(a, c)
  {
    if c <= b {
      assert if |a| <= |c| then a <= c else c <= a;
    }
  }

  lemma StoppingPath(p: Policy, source: Path) returns (q: Path)
    requires !DisclosesUnmodified(p, source)
    ensures PathsOverlap(source, q) && Stops(p, q)
  {
    if i :| 0 <= i < |p.denied| && PathsOverlap(source, PolicyTokens(p.denied[i])) {
      q := PolicyTokens(p.denied[i]);
    } else if i :| 0 <= i < |p.redactions| && PathsOverlap(source, PolicyTokens(p.redactions[i].path)) {
      q := PolicyTokens(p.redactions[i].path);
      RuleApplies(p.redactions, i);
    } else {
      var names := NextNames(p, source);
      var unlisted := Longer(names);
      q := source + [unlisted];
      if i :| 0 <= i < |p.readable| && PathsOverlap(PolicyTokens(p.readable[i]), q) {
        UnlistedName(p, source, i, unlisted);
      }
    }
  }

  /** The names with which readable paths go on from `source`. */
  function NextNames(p: Policy, source: Path): (names: seq<string>)
    ensures |names| == |p.readable|
  {
    seq(|p.readable|, i requires 0 <= i < |p.readable| =>
      var rule := PolicyTokens(p.readable[i]);
      if |rule| > |source| then rule[|source|] else "")
  }

  /** A name longer than all listed ones. */
  function Longer(names: seq<string>): (name: string)
    ensures forall n :: n in names ==> |n| < |name|
  {
    if names == [] then "x" else names[0] + Longer(names[1..])
  }

  lemma UnlistedName(p: Policy, source: Path, i: nat, unlisted: string)
    requires i < |p.readable| && unlisted == Longer(NextNames(p, source))
    requires !(PolicyTokens(p.readable[i]) <= source)
    ensures !PathsOverlap(PolicyTokens(p.readable[i]), source + [unlisted])
  {
    var rule := PolicyTokens(p.readable[i]);
    assert NextNames(p, source)[i] in NextNames(p, source);
    assert |rule| > |source| ==> rule[|source|] != unlisted;
    assert rule <= source + [unlisted] && |rule| <= |source| ==> rule <= source;
  }

  // ---------- Values along a path ----------

  /** The value is found along the tokens, through lists at exactly the marked places. */
  predicate Leads(v: Json, tokens: Path, lists: seq<bool>)
    requires |lists| == |tokens|
    decreases |tokens|
  {
    tokens == [] ||
      ((lists[0] <==> v.Arr?) && Child(v, tokens[0]).Some?
       && Leads(Child(v, tokens[0]).value, tokens[1..], lists[1..]))
  }

  /** The tokens without the list positions: the path the enforcer gives the value. */
  function FieldPath(tokens: Path, lists: seq<bool>): Path
    requires |lists| == |tokens|
    decreases |tokens|
  {
    if tokens == [] then []
    else (if lists[0] then [] else [tokens[0]]) + FieldPath(tokens[1..], lists[1..])
  }

  /** A pointer that takes no list step is its own field path. */
  lemma {:induction false} FieldPathWithoutLists(tokens: Path, lists: seq<bool>)
    requires |lists| == |tokens| && true !in lists
    ensures FieldPath(tokens, lists) == tokens
    decreases |tokens|
  {
    if tokens == [] {
    } else {
      assert forall b :: b in lists[1..] ==> b in lists;
      assert lists[0] in lists;
      FieldPathWithoutLists(tokens[1..], lists[1..]);
    }
  }

  // ---------- What is disclosed is kept ----------

  /** Nothing stops at the path or below it. */
  ghost predicate Clear(p: Policy, path: Path) {
    forall q :: path <= q ==> !Stops(p, q)
  }

  lemma ClearBelow(p: Policy, path: Path, name: string)
    requires Clear(p, path)
    ensures Clear(p, path + [name])
  {
    forall q: Path | path + [name] <= q ensures !Stops(p, q) { assert path <= q; }
  }

  lemma {:induction false} Untouched(p: Policy, digest: Digest, v: Json, path: Path)
    requires Clear(p, path)
    ensures Filter(p, digest, v, path) == Some(v)
    decreases v, 1, 0
  {
    assert !Stops(p, path);
    match v
    case Obj(fields) =>
      forall k | k in fields ensures Filter(p, digest, fields[k], path + [k]) == Some(fields[k]) {
        ClearBelow(p, path, k);
        Untouched(p, digest, fields[k], path + [k]);
      }
      assert FilteredFields(p, digest, v, path) == fields;
    case Arr(items) =>
      UntouchedItems(p, digest, v, path, |items|);
      assert items[..|items|] == items;
    case _ =>
  }

  lemma {:induction false} UntouchedItems(p: Policy, digest: Digest, list: Json, path: Path, n: nat)
    requires list.Arr? && n <= |list.items| && Clear(p, path)
    ensures FilterItems(p, digest, list, path, n) == list.items[..n]
    decreases list, 0, n
  {
    if n == 0 {
    } else {
      UntouchedItems(p, digest, list, path, n - 1);
      Untouched(p, digest, list.items[n - 1], path);
      ItemAppended(list.items, n);
    }
  }

  lemma ItemAppended(items: seq<Json>, n: nat)
    requires 0 < n <= |items|
    ensures items[..n] == items[..n - 1] + Listed(Some(items[n - 1]))
  {
  }

  /** Where nothing stops at a list, each item is kept in its place. */
  lemma {:induction false} ItemsKept(p: Policy, digest: Digest, list: Json, path: Path, n: nat)
    requires list.Arr? && n <= |list.items| && !Stops(p, path)
    ensures |FilterItems(p, digest, list, path, n)| == n
    ensures forall i :: 0 <= i < n ==>
      Filter(p, digest, list.items[i], path) == Some(FilterItems(p, digest, list, path, n)[i])
  {
    if n == 0 {
    } else {
      ItemsKept(p, digest, list, path, n - 1);
      assert Filter(p, digest, list.items[n - 1], path).Some?;
    }
  }

  /** Filtering commutes with one step into the value. */
  lemma ChildFiltered(p: Policy, digest: Digest, v: Json, path: Path, token: string, below: Path)
    requires !Stops(p, path) && Child(v, token).Some? && below == if v.Arr? then path else path + [token]
    ensures Filter(p, digest, v, path).Some?
    ensures Child(Filter(p, digest, v, path).value, token) == Filter(p, digest, Child(v, token).value, below)
  {
    if v.Arr? { ItemsKept(p, digest, v, path, |v.items|); }
  }

  /** The path below one step. */
  lemma StepBelow(tokens: Path, lists: seq<bool>, path: Path, below: Path)
    requires tokens != [] && |lists| == |tokens| && below == if lists[0] then path else path + [tokens[0]]
    ensures below + FieldPath(tokens[1..], lists[1..]) == path + FieldPath(tokens, lists)
  {
  }

  lemma {:induction false} DisclosedIsKept(
    p: Policy, digest: Digest, v: Json, tokens: Path, lists: seq<bool>, path: Path, source: Path)
    requires |lists| == |tokens| && Leads(v, tokens, lists) && source == path + FieldPath(tokens, lists)
    requires forall q :: PathsOverlap(source, q) ==> !Stops(p, q)
    ensures Filter(p, digest, v, path).Some?
    ensures Lookup(Filter(p, digest, v, path).value, tokens) == Lookup(v, tokens)
    decreases |tokens|
  {
    assert PathsOverlap(source, path);
    if tokens == [] {
      assert source == path;
      assert forall q :: path <= q ==> PathsOverlap(source, q);
      assert Clear(p, path);
      Untouched(p, digest, v, path);
    } else {
      var below := if v.Arr? then path else path + [tokens[0]];
      StepBelow(tokens, lists, path, below);
      ChildFiltered(p, digest, v, path, tokens[0], below);
      DisclosedIsKept(p, digest, Child(v, tokens[0]).value, tokens[1..], lists[1..], below, source);
    }
  }

  // ---------- Nothing denied is published ----------

  predicate Allowed(p: Policy, path: Path) {
    !Denied(p, path) && (path == [] || Readable(p, path))
  }

  lemma {:induction false} KeptIsAllowed(
    p: Policy, digest: Digest, v: Json, tokens: Path, lists: seq<bool>, path: Path)
    requires Filter(p, digest, v, path).Some? && |lists| == |tokens|
    requires Leads(Filter(p, digest, v, path).value, tokens, lists)
    ensures Allowed(p, path + FieldPath(tokens, lists))
    decreases |tokens|
  {
    if tokens == [] {
      assert path + [] == path;
    } else {
      assert !Stops(p, path);
      var below := if v.Arr? then path else path + [tokens[0]];
      if v.Arr? { ItemsKept(p, digest, v, path, |v.items|); }
      ChildFiltered(p, digest, v, path, tokens[0], below);
      StepBelow(tokens, lists, path, below);
      KeptIsAllowed(p, digest, Child(v, tokens[0]).value, tokens[1..], lists[1..], below);
    }
  }

  /** Whatever the output was, every value in the published one stands at a readable path that is not denied. */
  lemma PublishedIsAllowed(p: Policy, digest: Digest, output: Json, tokens: Path, lists: seq<bool>)
    requires tokens != [] && |lists| == |tokens| && Leads(FilterOutput(p, digest, output), tokens, lists)
    ensures Allowed(p, FieldPath(tokens, lists))
  {
    assert Filter(p, digest, output, []).Some?;
    KeptIsAllowed(p, digest, output, tokens, lists, []);
    assert [] + FieldPath(tokens, lists) == FieldPath(tokens, lists);
  }

  // ---------- What is not disclosed is changed in some output ----------

  predicate Positions(tokens: Path, lists: seq<bool>)
    requires |lists| == |tokens|
  {
    forall i :: 0 <= i < |tokens| && lists[i] ==> IsIndex(tokens[i])
  }

  /** A value with `leaf` at the end of the tokens and nothing beside it. */
  function Build(tokens: Path, lists: seq<bool>, leaf: Json): Json
    requires |lists| == |tokens| && Positions(tokens, lists)
    decreases |tokens|
  {
    if tokens == [] then leaf
    else
      var below := Build(tokens[1..], lists[1..], leaf);
      if lists[0] then
        assert IsIndex(tokens[0]);
        Arr(seq(IndexOf(tokens[0]) + 1, _ => below))
      else Obj(map[tokens[0] := below])
  }

  lemma {:induction false} BuildLeads(tokens: Path, lists: seq<bool>, leaf: Json)
    requires |lists| == |tokens| && Positions(tokens, lists)
    ensures Leads(Build(tokens, lists, leaf), tokens, lists)
    ensures Lookup(Build(tokens, lists, leaf), tokens) == Some(leaf)
    decreases |tokens|
  {
    if tokens == [] {
    } else {
      assert Positions(tokens[1..], lists[1..]);
      BuildLeads(tokens[1..], lists[1..], leaf);
    }
  }

  lemma StoppedBelow(p: Policy, tokens: Path, lists: seq<bool>, path: Path, below: Path, q: Path)
    requires tokens != [] && |lists| == |tokens| && below == if lists[0] then path else path + [tokens[0]]
    requires Stops(p, q) && !Stops(p, path) && path <= q && q <= path + FieldPath(tokens, lists)
    ensures below <= q
  {
    assert q != path;
    if !lists[0] {
      assert (path + FieldPath(tokens, lists))[|path|] == tokens[0];
    }
  }

  /** A `null` whose field path is stopped somewhere does not survive. */
  lemma {:induction false} StoppedIsLost(
    p: Policy, digest: Digest, tokens: Path, lists: seq<bool>, path: Path, q: Path)
    requires |lists| == |tokens| && Positions(tokens, lists)
    requires Stops(p, q) && path <= q && q <= path + FieldPath(tokens, lists)
    ensures var kept := Filter(p, digest, Build(tokens, lists, Null), path);
      kept.Some? ==> Lookup(kept.value, tokens) != Some(Null)
    decreases |tokens|
  {
    assert tokens == [] ==> q == path;
    if Stops(p, path) {
    } else {
      var v := Build(tokens, lists, Null);
      var below := if lists[0] then path else path + [tokens[0]];
      StepBelow(tokens, lists, path, below);
      StoppedBelow(p, tokens, lists, path, below, q);
      BuildLeads(tokens, lists, Null);
      ChildFiltered(p, digest, v, path, tokens[0], below);
      StoppedIsLost(p, digest, tokens[1..], lists[1..], below, q);
    }
  }

  /**
   * The exact condition: along given tokens the enforcer leaves every output unmodified if and only if
   * the policy discloses the path without its list positions.
   */
  lemma KeptExactly(p: Policy, digest: Digest, tokens: Path, lists: seq<bool>)
    requires tokens != [] && |lists| == |tokens| && Positions(tokens, lists)
    ensures DisclosesUnmodified(p, FieldPath(tokens, lists))
      <==> forall v :: Leads(v, tokens, lists) ==>
             Lookup(FilterOutput(p, digest, v), tokens) == Lookup(v, tokens)
  {
    var source := FieldPath(tokens, lists);
    if DisclosesUnmodified(p, source) {
      forall v | Leads(v, tokens, lists) ensures Lookup(FilterOutput(p, digest, v), tokens) == Lookup(v, tokens) {
        KeptWhenDisclosed(p, digest, v, tokens, lists);
      }
    } else {
      var v := ChangedOutput(p, digest, tokens, lists);
    }
  }

  lemma KeptWhenDisclosed(p: Policy, digest: Digest, v: Json, tokens: Path, lists: seq<bool>)
    requires |lists| == |tokens| && Leads(v, tokens, lists) && DisclosesUnmodified(p, FieldPath(tokens, lists))
    ensures Lookup(FilterOutput(p, digest, v), tokens) == Lookup(v, tokens)
  {
    var source := FieldPath(tokens, lists);
    assert [] + source == source;
    DisclosesExactly(p, source);
    DisclosedIsKept(p, digest, v, tokens, lists, [], source);
  }

  lemma ChangedOutput(p: Policy, digest: Digest, tokens: Path, lists: seq<bool>) returns (v: Json)
    requires tokens != [] && |lists| == |tokens| && Positions(tokens, lists)
    requires !DisclosesUnmodified(p, FieldPath(tokens, lists))
    ensures Leads(v, tokens, lists) && Lookup(FilterOutput(p, digest, v), tokens) != Lookup(v, tokens)
  {
    var q := StoppingPath(p, FieldPath(tokens, lists));
    var rest := RestOf(FieldPath(tokens, lists), q);
    var marks := seq(|rest|, _ => false);
    LostBelow(p, digest, tokens, lists, rest, marks, q);
    var leaf := Build(rest, marks, Null);
    v := Build(tokens, lists, leaf);
    BuildLeads(tokens, lists, leaf);
    BuildLeads(rest, marks, Null);
    DifferentBelow(FilterOutput(p, digest, v), tokens, rest, leaf);
  }

  lemma RestOf(source: Path, q: Path) returns (rest: Path)
    requires PathsOverlap(source, q)
    ensures q <= source + rest
  {
    rest := if source <= q then q[|source|..] else [];
  }

  lemma DifferentBelow(value: Json, tokens: Path, rest: Path, leaf: Json)
    requires Lookup(value, tokens + rest) != Some(Null) && Lookup(leaf, rest) == Some(Null)
    ensures Lookup(value, tokens) != Some(leaf)
  {
    LookupSplit(value, tokens, rest);
  }

  lemma NoPositions(tokens: Path, lists: seq<bool>)
    requires |lists| == |tokens| && true !in lists
    ensures Positions(tokens, lists)
  {
    assert forall j :: 0 <= j < |lists| ==> lists[j] in lists;
  }

  lemma LostBelow(
    p: Policy, digest: Digest, tokens: Path, lists: seq<bool>, rest: Path, marks: seq<bool>, q: Path)
    requires tokens != [] && |lists| == |tokens| && Positions(tokens, lists) && |marks| == |rest| && true !in marks
    requires Stops(p, q) && q <= FieldPath(tokens, lists) + rest
    ensures Positions(rest, marks)
    ensures var v := Build(tokens, lists, Build(rest, marks, Null));
      Lookup(FilterOutput(p, digest, v), tokens + rest) != Some(Null)
  {
    NoPositions(rest, marks);
    BuildJoined(tokens, lists, rest, marks);
    FieldPathJoined(tokens, lists, rest, marks);
    LostInOutput(p, digest, tokens + rest, lists + marks, q);
  }

  lemma LostInOutput(p: Policy, digest: Digest, tokens: Path, lists: seq<bool>, q: Path)
    requires tokens != [] && |lists| == |tokens| && Positions(tokens, lists)
    requires Stops(p, q) && q <= FieldPath(tokens, lists)
    ensures Lookup(FilterOutput(p, digest, Build(tokens, lists, Null)), tokens) != Some(Null)
  {
    FromTheTop(FieldPath(tokens, lists), q);
    StoppedIsLost(p, digest, tokens, lists, [], q);
    LostWithNode(p, digest, Build(tokens, lists, Null), tokens);
  }

  lemma FromTheTop(source: Path, q: Path)
    requires q <= source
    ensures [] <= q && q <= [] + source
  {
    assert [] + source == source;
  }

  lemma LostWithNode(p: Policy, digest: Digest, v: Json, tokens: Path)
    requires tokens != []
    requires Filter(p, digest, v, []).Some? ==> Lookup(Filter(p, digest, v, []).value, tokens) != Some(Null)
    ensures Lookup(FilterOutput(p, digest, v), tokens) != Some(Null)
  {
    assert Lookup(Obj(map[]), tokens) == None;
  }

  lemma PositionsJoined(tokens: Path, lists: seq<bool>, rest: Path, marks: seq<bool>)
    requires |lists| == |tokens| && Positions(tokens, lists) && |marks| == |rest| && true !in marks
    ensures Positions(tokens + rest, lists + marks)
  {
    assert forall j :: 0 <= j < |marks| ==> marks[j] in marks;
    assert forall i :: 0 <= i < |tokens + rest| && (lists + marks)[i] ==> (lists + marks)[i] == lists[i];
  }

  lemma {:induction false} FieldPathJoined(tokens: Path, lists: seq<bool>, rest: Path, marks: seq<bool>)
    requires |lists| == |tokens| && |marks| == |rest| && true !in marks
    ensures FieldPath(tokens + rest, lists + marks) == FieldPath(tokens, lists) + rest
    decreases |tokens|
  {
    if tokens == [] {
      assert tokens + rest == rest && lists + marks == marks;
      FieldPathWithoutLists(rest, marks);
    } else {
      assert (tokens + rest)[1..] == tokens[1..] + rest && (lists + marks)[1..] == lists[1..] + marks;
      FieldPathJoined(tokens[1..], lists[1..], rest, marks);
    }
  }

  lemma {:induction false} BuildJoined(tokens: Path, lists: seq<bool>, rest: Path, marks: seq<bool>)
    requires |lists| == |tokens| && Positions(tokens, lists) && |marks| == |rest| && true !in marks
    ensures Positions(tokens + rest, lists + marks)
    ensures Build(tokens + rest, lists + marks, Null) == Build(tokens, lists, Build(rest, marks, Null))
    decreases |tokens|
  {
    PositionsJoined(tokens, lists, rest, marks);
    if tokens == [] {
      assert tokens + rest == rest && lists + marks == marks;
    } else {
      assert (tokens + rest)[1..] == tokens[1..] + rest && (lists + marks)[1..] == lists[1..] + marks;
      BuildJoined(tokens[1..], lists[1..], rest, marks);
    }
  }
}
