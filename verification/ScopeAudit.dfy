/** The two-way relation between exclusion rules and the routes they exclude. */
module ScopeAudit {
  import opened Ordering
  import opened JsonValues

  const CATEGORIES: set<string> := {
    "binary_or_download",
    "sensitive_configuration",
    "alternate_identity_boundary",
    "unsafe_dynamic_authorization",
    "unavailable_or_disabled",
    "operational_polling",
    "duplicate_or_subsumed",
    "low_business_value"
  }

  /** What the audit complains about; rules are named by position, routes by identifier. */
  datatype Issue =
    | RulesNotAList
    | BadRule(rule: nat)
    | BadId(rule: nat)
    | BadCategory(rule: nat)
    | BadRationale(rule: nat)
    | BadEvidence(rule: nat)
    | BadRouteIds(rule: nat)
    | UnknownRoute(rule: nat, offset: nat)
    | WrongRelation(rule: nat, offset: nat)
    | RuleRequired(route: string)
    | RuleUnknown(route: string)
    | NotListed(route: string)

  // ---------- Reading documents ----------

  function StringAt(value: Json, key: string): Option<string> {
    if Has(value, key) && Get(value, key).Str? then Some(Get(value, key).s) else None
  }

  /** `str.isspace` of one character. */
  predicate IsSpace(c: char) {
    var n := c as int;
    || 0x09 <= n <= 0x0d || 0x1c <= n <= 0x20 || n == 0x85 || n == 0xa0 || n == 0x1680
    || 0x2000 <= n <= 0x200a || n == 0x2028 || n == 0x2029 || n == 0x202f || n == 0x205f || n == 0x3000
  }

  /** `not s.strip()` */
  predicate Blank(s: string) {
    forall c :: c in s ==> IsSpace(c)
  }

  /** `s == s.strip()` */
  predicate Trimmed(s: string) {
    s == "" || (!IsSpace(s[0]) && !IsSpace(s[|s| - 1]))
  }

  predicate AllNonBlank(items: seq<Json>) {
    forall x :: x in items ==> x.Str? && !Blank(x.s)
  }

  function Texts(items: seq<Json>): (r: seq<string>)
    requires AllNonBlank(items)
    ensures |r| == |items|
  {
    seq(|items|, i requires 0 <= i < |items| => items[i].s)
  }

  /** `non_empty_string_list(value.get(key))` */
  function StringsAt(value: Json, key: string): (list: Option<seq<string>>)
    ensures list.Some? ==> Distinct(list.value)
  {
    if !Has(value, key) || !Get(value, key).Arr? then None
    else
      var items := Get(value, key).items;
      if items == [] || !AllNonBlank(items) || !Distinct(Texts(items)) then None else Some(Texts(items))
  }

  // ---------- Routes ----------

  /** Position and content of the first route with each identifier. */
  type Routes = map<string, (nat, Json)>

  function Indexed(routes: seq<Json>): Routes {
    if routes == [] then map[]
    else
      var n := |routes| - 1;
      var before, id := Indexed(routes[..n]), StringAt(routes[n], "id");
      if id.Some? && id.value != "" && id.value !in before then before[id.value := (n, routes[n])] else before
  }

  function RoutesOf(document: Json): Routes {
    if Has(document, "routes") && Get(document, "routes").Arr? then Indexed(Get(document, "routes").items) else map[]
  }

  /** The index holds exactly the identified routes, each at its first position. */
  lemma {:induction false} IndexedIsFirst(routes: seq<Json>, id: string)
    requires id != ""
    ensures id in Indexed(routes) <==> exists i :: 0 <= i < |routes| && StringAt(routes[i], "id") == Some(id)
    ensures id in Indexed(routes) ==>
      var i := Indexed(routes)[id].0;
      && i < |routes| && Indexed(routes)[id].1 == routes[i] && StringAt(routes[i], "id") == Some(id)
      && forall j :: 0 <= j < i ==> StringAt(routes[j], "id") != Some(id)
  {
    if routes == [] {
    } else {
      var n := |routes| - 1;
      IndexedIsFirst(routes[..n], id);
    }
  }

  method IndexRoutes(document: Json) returns (result: Routes)
    ensures result == RoutesOf(document)
  {
    result := map[];
    if !Has(document, "routes") || !Get(document, "routes").Arr? {
      return;
    }
    var routes := Get(document, "routes").items;
    for index := 0 to |routes|
      invariant result == Indexed(routes[..index])
    {
      assert routes[..index + 1][..index] == routes[..index];
      var id := StringAt(routes[index], "id");
      if id.Some? && id.value != "" && id.value !in result {
        result := result[id.value := (index, routes[index])];
      }
    }
    assert routes[..|routes|] == routes;
  }

  /** An eligible route that is excluded. */
  predicate Excluded(route: Json) {
    StringAt(route, "eligibility") == Some("eligible") && StringAt(route, "disposition") == Some("excluded")
  }

  // ---------- Rules ----------

  predicate HasId(rule: Json) {
    var id := StringAt(rule, "id");
    id.Some? && !Blank(id.value) && Trimmed(id.value)
  }

  function RuleId(rule: Json): string
    requires HasId(rule)
  {
    StringAt(rule, "id").value
  }

  /** A known category, a rationale and evidence. */
  predicate DescribesItself(rule: Json) {
    && StringAt(rule, "category").Some? && StringAt(rule, "category").value in CATEGORIES
    && StringAt(rule, "rationale").Some? && !Blank(StringAt(rule, "rationale").value)
    && StringsAt(rule, "evidence_sources").Some?
  }

  predicate WellFormedRule(rule: Json) {
    HasId(rule) && DescribesItself(rule) && StringsAt(rule, "route_ids").Some?
  }

  function RouteIds(rule: Json): seq<string>
    requires WellFormedRule(rule)
  {
    StringsAt(rule, "route_ids").value
  }

  /** The route is an eligible excluded one and names the rule. */
  predicate Names(routes: Routes, id: string, ruleId: string) {
    id in routes && Excluded(routes[id].1) && StringAt(routes[id].1, "exclusion_rule_id") == Some(ruleId)
  }

  predicate ListsItsOwn(routes: Routes, rule: Json)
    requires WellFormedRule(rule)
  {
    forall id :: id in RouteIds(rule) ==> Names(routes, id, RuleId(rule))
  }

  predicate WellFormedRules(rules: seq<Json>) {
    && (forall i :: 0 <= i < |rules| ==> WellFormedRule(rules[i]))
    && forall i, j :: 0 <= i < j < |rules| ==> RuleId(rules[i]) != RuleId(rules[j])
  }

  predicate RulesListTheirOwn(routes: Routes, rules: seq<Json>)
    requires WellFormedRules(rules)
  {
    forall i :: 0 <= i < |rules| ==> ListsItsOwn(routes, rules[i])
  }

  predicate Listed(rules: seq<Json>, id: string)
    requires WellFormedRules(rules)
  {
    exists i :: 0 <= i < |rules| && id in RouteIds(rules[i])
  }

  predicate EveryExclusionListed(routes: Routes, rules: seq<Json>)
    requires WellFormedRules(rules)
  {
    forall id :: id in routes && Excluded(routes[id].1) ==> Listed(rules, id)
  }

  // ---------- Partition ----------

  function ExcludedIds(routes: Routes): set<string> {
    set id | id in routes && Excluded(routes[id].1)
  }

  /** The lists are disjoint, hold exactly the eligible excluded routes, and each route names its list's rule. */
  ghost predicate Partition(routes: Routes, rules: seq<Json>)
    requires WellFormedRules(rules)
  {
    && (forall i, j, id :: 0 <= i < j < |rules| && id in RouteIds(rules[i]) ==> id !in RouteIds(rules[j]))
    && (forall id :: id in ExcludedIds(routes) <==> Listed(rules, id))
    && (forall i, id :: 0 <= i < |rules| && id in RouteIds(rules[i]) ==>
      id in routes && StringAt(routes[id].1, "exclusion_rule_id") == Some(RuleId(rules[i])))
  }

  /** The two one-way conditions the audit checks amount to a partition. */
  lemma TwoWaysIsPartition(routes: Routes, rules: seq<Json>)
    requires WellFormedRules(rules)
    ensures RulesListTheirOwn(routes, rules) && EveryExclusionListed(routes, rules) <==> Partition(routes, rules)
  {
    if RulesListTheirOwn(routes, rules) && EveryExclusionListed(routes, rules) {
      forall i, j, id | 0 <= i < j < |rules| && id in RouteIds(rules[i]) ensures id !in RouteIds(rules[j]) {
        assert ListsItsOwn(routes, rules[i]) && ListsItsOwn(routes, rules[j]);
      }
      forall id ensures id in ExcludedIds(routes) <==> Listed(rules, id) {
        if i :| 0 <= i < |rules| && id in RouteIds(rules[i]) {
          assert ListsItsOwn(routes, rules[i]);
        }
      }
    }
    if Partition(routes, rules) {
      forall i, id | 0 <= i < |rules| && id in RouteIds(rules[i]) ensures Names(routes, id, RuleId(rules[i])) {
        assert Listed(rules, id);
      }
    }
  }

  // ---------- The audit ----------

  predicate GoodRule(routes: Routes, known: map<string, Json>, owners: map<string, string>, rule: Json) {
    && WellFormedRule(rule)
    && RuleId(rule) !in known
    && ListsItsOwn(routes, rule)
    && forall id :: id in RouteIds(rule) ==> id !in owners
  }

  method AuditRuleFields(rule: Json, index: nat) returns (issues: seq<Issue>)
    ensures issues == [] <==> DescribesItself(rule)
  {
    issues := [];
    var category := StringAt(rule, "category");
    if category.None? || category.value !in CATEGORIES {
      issues := issues + [BadCategory(index)];
    }
    var rationale := StringAt(rule, "rationale");
    if rationale.None? || Blank(rationale.value) {
      issues := issues + [BadRationale(index)];
    }
    if StringsAt(rule, "evidence_sources").None? {
      issues := issues + [BadEvidence(index)];
    }
  }

  /** One round of the first loop. */
  method AuditRule(
    routes: Routes, index: nat, rule: Json, known: map<string, Json>, owners: map<string, string>, before: seq<Issue>)
    returns (rules: map<string, Json>, assignedRoutes: map<string, string>, issues: seq<Issue>)
    ensures before <= issues
    ensures issues == before <==> GoodRule(routes, known, owners, rule)
    ensures issues == before ==>
      && rules == known[RuleId(rule) := rule]
      && (forall id :: id in assignedRoutes <==> id in owners || id in RouteIds(rule))
      && (forall id :: id in RouteIds(rule) ==> assignedRoutes[id] == RuleId(rule))
      && (forall id :: id in owners ==> assignedRoutes[id] == owners[id])
  {
    rules, assignedRoutes, issues := known, owners, before;
    if !rule.Obj? {
      issues := issues + [BadRule(index)];
      return;
    }
    if !HasId(rule) || RuleId(rule) in rules {
      issues := issues + [BadId(index)];
      return;
    }
    var ruleId := RuleId(rule);
    rules := rules[ruleId := rule];
    var doubts := AuditRuleFields(rule, index);
    issues := issues + doubts;
    if StringsAt(rule, "route_ids").None? {
      issues := issues + [BadRouteIds(index)];
      return;
    }
    var found;
    assignedRoutes, found := AuditRouteIds(routes, index, ruleId, StringsAt(rule, "route_ids").value, owners);
    issues := issues + found;
  }

  method AuditRouteIds(routes: Routes, index: nat, ruleId: string, routeIds: seq<string>, owners: map<string, string>)
    returns (assignedRoutes: map<string, string>, issues: seq<Issue>)
    requires Distinct(routeIds)
    ensures issues == [] <==> forall id :: id in routeIds ==> Names(routes, id, ruleId) && id !in owners
    ensures issues == [] ==>
      && (forall id :: id in assignedRoutes <==> id in owners || id in routeIds)
      && (forall id :: id in routeIds ==> assignedRoutes[id] == ruleId)
      && (forall id :: id in owners ==> assignedRoutes[id] == owners[id])
  {
    assignedRoutes, issues := owners, [];
    for offset := 0 to |routeIds|
      invariant issues == []
        <==> forall k :: 0 <= k < offset ==> Names(routes, routeIds[k], ruleId) && routeIds[k] !in owners
      invariant forall id :: id in assignedRoutes ==> id in owners || exists k :: 0 <= k < offset && routeIds[k] == id
      invariant forall id :: id in owners ==> id in assignedRoutes
      invariant issues == [] ==> (
        && (forall k :: 0 <= k < offset ==> routeIds[k] in assignedRoutes && assignedRoutes[routeIds[k]] == ruleId)
        && (forall id :: id in owners ==> assignedRoutes[id] == owners[id]))
    {
      var id := routeIds[offset];
      if id !in routes {
        issues := issues + [UnknownRoute(index, offset)];
        continue;
      }
      var route := routes[id].1;
      if !Excluded(route) || StringAt(route, "exclusion_rule_id") != Some(ruleId) || id in assignedRoutes {
        issues := issues + [WrongRelation(index, offset)];
      }
      assignedRoutes := assignedRoutes[id := ruleId];
    }
  }

  /** The second loop: every eligible excluded route must be listed by the rule it names. */
  method AuditExclusions(routes: Routes, rules: map<string, Json>, owners: map<string, string>)
    returns (issues: seq<Issue>)
    ensures issues == []
      <==> forall id :: id in routes && Excluded(routes[id].1) ==> Assigned(routes, rules, owners, id)
  {
    var ids := Sorted(routes.Keys);
    issues := AuditEach(routes, rules, owners, ids);
    assert forall id :: id in routes ==> id in ids;
  }

  method AuditEach(routes: Routes, rules: map<string, Json>, owners: map<string, string>, ids: seq<string>)
    returns (issues: seq<Issue>)
    requires forall id :: id in ids ==> id in routes
    ensures issues == []
      <==> forall id :: id in ids && Excluded(routes[id].1) ==> Assigned(routes, rules, owners, id)
  {
    issues := [];
    for i := 0 to |ids|
      invariant issues == []
        <==> forall k :: 0 <= k < i && Excluded(routes[ids[k]].1) ==> Assigned(routes, rules, owners, ids[k])
    {
      var id := ids[i];
      if !Excluded(routes[id].1) {
        continue;
      }
      var issue := AssignmentIssue(routes, rules, owners, id);
      if issue.Some? {
        issues := issues + [issue.value];
      }
    }
  }

  /** The body of the loop, for an excluded route. */
  method AssignmentIssue(routes: Routes, rules: map<string, Json>, owners: map<string, string>, id: string)
    returns (issue: Option<Issue>)
    requires id in routes
    ensures issue.None? <==> Assigned(routes, rules, owners, id)
  {
    var named := StringAt(routes[id].1, "exclusion_rule_id");
    if named.None? || Blank(named.value) {
      return Some(RuleRequired(id));
    }
    if named.value !in rules {
      return Some(RuleUnknown(id));
    }
    if id !in owners || owners[id] != named.value {
      return Some(NotListed(id));
    }
    issue := None;
  }

  predicate Assigned(routes: Routes, rules: map<string, Json>, owners: map<string, string>, id: string)
    requires id in routes
  {
    var named := StringAt(routes[id].1, "exclusion_rule_id");
    named.Some? && !Blank(named.value) && named.value in rules && id in owners && owners[id] == named.value
  }

  /** What the first loop knows after some rules without an issue. */
  ghost predicate Tracks(rules: seq<Json>, known: map<string, Json>, owners: map<string, string>) {
    && WellFormedRules(rules)
    && (forall id :: id in known <==> HasRule(rules, id))
    && (forall id :: id in owners <==> Listed(rules, id))
    && OwnersRight(rules, owners)
  }

  function RulesOf(document: Json): Option<seq<Json>> {
    if !Has(document, "exclusion_rules") then Some([])
    else if Get(document, "exclusion_rules").Arr? then Some(Get(document, "exclusion_rules").items)
    else None
  }

  predicate SystemComplete(document: Json) {
    Has(document, "scope") && StringAt(Get(document, "scope"), "mode") == Some("system_complete")
  }

  lemma OneMoreWellFormed(before: seq<Json>, rule: Json)
    ensures WellFormedRules(before + [rule])
      <==> WellFormedRules(before) && WellFormedRule(rule) && !HasRule(before, RuleId(rule))
  {
    var after := before + [rule];
    assert forall i :: 0 <= i < |before| ==> after[i] == before[i];
    assert after[|before|] == rule;
    if WellFormedRules(after) {
      assert WellFormedRule(rule);
      forall i | 0 <= i < |before| ensures RuleId(before[i]) != RuleId(rule) {
        assert RuleId(after[i]) != RuleId(after[|before|]);
      }
    }
  }

  predicate HasRule(rules: seq<Json>, id: string)
    requires WellFormedRules(rules)
  {
    exists i :: 0 <= i < |rules| && RuleId(rules[i]) == id
  }

  lemma OneMoreListed(before: seq<Json>, rule: Json, id: string)
    requires WellFormedRules(before) && WellFormedRule(rule) && WellFormedRules(before + [rule])
    ensures Listed(before + [rule], id) <==> Listed(before, id) || id in RouteIds(rule)
    ensures HasRule(before + [rule], id) <==> HasRule(before, id) || id == RuleId(rule)
  {
    var after := before + [rule];
    if i :| 0 <= i < |before| && id in RouteIds(before[i]) { assert id in RouteIds(after[i]); }
    if i :| 0 <= i < |before| && RuleId(before[i]) == id { assert RuleId(after[i]) == id; }
    assert after[|before|] == rule;
  }

  lemma OneMoreListsItsOwn(routes: Routes, before: seq<Json>, rule: Json)
    requires WellFormedRules(before) && WellFormedRule(rule) && WellFormedRules(before + [rule])
    ensures RulesListTheirOwn(routes, before + [rule])
      <==> RulesListTheirOwn(routes, before) && ListsItsOwn(routes, rule)
  {
    var after := before + [rule];
    assert after[|before|] == rule;
    forall i | 0 <= i < |before| ensures after[i] == before[i] { }
  }

  lemma TracksNext(before: seq<Json>, rule: Json, routes: Routes,
    known: map<string, Json>, owners: map<string, string>, known': map<string, Json>, owners': map<string, string>)
    requires Tracks(before, known, owners) && GoodRule(routes, known, owners, rule)
    requires known' == known[RuleId(rule) := rule]
    requires forall id :: id in owners' <==> id in owners || id in RouteIds(rule)
    requires forall id :: id in RouteIds(rule) ==> owners'[id] == RuleId(rule)
    requires forall id :: id in owners ==> owners'[id] == owners[id]
    ensures Tracks(before + [rule], known', owners')
  {
    OneMoreWellFormed(before, rule);
    forall id
      ensures id in owners' <==> Listed(before + [rule], id)
      ensures id in known' <==> HasRule(before + [rule], id)
    {
      OneMoreListed(before, rule, id);
    }
    OwnersNext(before, rule, owners, owners');
  }

  lemma OwnersNext(before: seq<Json>, rule: Json, owners: map<string, string>, owners': map<string, string>)
    requires WellFormedRules(before) && WellFormedRule(rule) && WellFormedRules(before + [rule])
    requires OwnersRight(before, owners)
    requires forall id :: id in owners' <==> id in owners || id in RouteIds(rule)
    requires forall id :: id in RouteIds(rule) ==> owners'[id] == RuleId(rule)
    requires forall id :: id in owners && id !in RouteIds(rule) ==> owners'[id] == owners[id]
    requires forall id :: id in RouteIds(rule) ==> id !in owners
    ensures OwnersRight(before + [rule], owners')
  {
    var after := before + [rule];
    forall i | 0 <= i < |after| ensures OwnerRight(after[i], owners') {
      if i < |before| {
        assert after[i] == before[i] && OwnerRight(before[i], owners);
        OwnerStays(before[i], rule, owners, owners');
      }
    }
  }

  lemma OwnerStays(earlier: Json, rule: Json, owners: map<string, string>, owners': map<string, string>)
    requires WellFormedRule(earlier) && WellFormedRule(rule) && OwnerRight(earlier, owners)
    requires forall id :: id in owners' <==> id in owners || id in RouteIds(rule)
    requires forall id :: id in owners && id !in RouteIds(rule) ==> owners'[id] == owners[id]
    requires forall id :: id in RouteIds(rule) ==> id !in owners
    ensures OwnerRight(earlier, owners')
  {
  }

  predicate OwnerRight(rule: Json, owners: map<string, string>)
    requires WellFormedRule(rule)
  {
    forall id :: id in RouteIds(rule) ==> id in owners && owners[id] == RuleId(rule)
  }

  predicate OwnersRight(rules: seq<Json>, owners: map<string, string>)
    requires WellFormedRules(rules)
  {
    forall i :: 0 <= i < |rules| ==> OwnerRight(rules[i], owners)
  }

  /** A further rule is good exactly when the longer list is still well formed and lists its own routes. */
  lemma GoodNext(before: seq<Json>, rule: Json, routes: Routes, known: map<string, Json>, owners: map<string, string>)
    requires Tracks(before, known, owners) && RulesListTheirOwn(routes, before)
    ensures GoodRule(routes, known, owners, rule)
      <==> WellFormedRules(before + [rule]) && RulesListTheirOwn(routes, before + [rule])
  {
    OneMoreWellFormed(before, rule);
    if WellFormedRules(before + [rule]) {
      OneMoreListsItsOwn(routes, before, rule);
      if ListsItsOwn(routes, rule) {
        OwnRoutesAreNew(before, rule, routes, known, owners);
      }
    }
  }

  lemma OwnRoutesAreNew(
    before: seq<Json>, rule: Json, routes: Routes, known: map<string, Json>, owners: map<string, string>)
    requires Tracks(before, known, owners) && RulesListTheirOwn(routes, before)
    requires WellFormedRule(rule) && !HasRule(before, RuleId(rule)) && ListsItsOwn(routes, rule)
    ensures forall id :: id in RouteIds(rule) ==> id !in owners
  {
    forall i, id | 0 <= i < |before| && id in RouteIds(before[i]) ensures id !in RouteIds(rule) {
      assert ListsItsOwn(routes, before[i]) && RuleId(before[i]) != RuleId(rule);
    }
  }

  /** After a clean first loop the second one finds nothing exactly when every exclusion is listed. */
  lemma AllAssigned(routes: Routes, rules: seq<Json>, known: map<string, Json>, owners: map<string, string>)
    requires Tracks(rules, known, owners) && RulesListTheirOwn(routes, rules)
    ensures EveryExclusionListed(routes, rules)
      <==> forall id :: id in routes && Excluded(routes[id].1) ==> Assigned(routes, known, owners, id)
  {
    forall id | id in routes && Excluded(routes[id].1)
      ensures Listed(rules, id) <==> Assigned(routes, known, owners, id)
    {
      if i :| 0 <= i < |rules| && id in RouteIds(rules[i]) {
        assert ListsItsOwn(routes, rules[i]) && OwnerRight(rules[i], owners);
      }
    }
  }

  /** The first loop. */
  method AuditRules(routes: Routes, raw: seq<Json>)
    returns (rules: map<string, Json>, owners: map<string, string>, issues: seq<Issue>)
    ensures issues == [] <==> WellFormedRules(raw) && RulesListTheirOwn(routes, raw)
    ensures issues == [] ==> Tracks(raw, rules, owners)
  {
    rules, owners, issues := map[], map[], [];
    for index := 0 to |raw|
      invariant issues == [] <==> WellFormedRules(raw[..index]) && RulesListTheirOwn(routes, raw[..index])
      invariant issues == [] ==> Tracks(raw[..index], rules, owners)
    {
      assert raw[..index + 1] == raw[..index] + [raw[index]];
      var known, had, before := rules, owners, issues;
      rules, owners, issues := AuditRule(routes, index, raw[index], known, had, before);
      assert issues == [] ==> before == [];
      if before == [] {
        GoodNext(raw[..index], raw[index], routes, known, had);
        if issues == [] {
          TracksNext(raw[..index], raw[index], routes, known, had, rules, owners);
        }
      } else {
        GoodPrefix(routes, raw[..index], raw[index]);
      }
    }
    assert raw[..|raw|] == raw;
  }

  lemma GoodPrefix(routes: Routes, before: seq<Json>, rule: Json)
    ensures WellFormedRules(before + [rule]) && RulesListTheirOwn(routes, before + [rule]) ==>
      WellFormedRules(before) && RulesListTheirOwn(routes, before)
  {
    OneMoreWellFormed(before, rule);
    if WellFormedRules(before + [rule]) {
      OneMoreListsItsOwn(routes, before, rule);
    }
  }

  /**
   * `audit_exclusion_rules`: in system-complete mode it reports nothing exactly when the rules are well
   * formed and their route lists partition the eligible excluded routes, each under the rule it names.
   */
  method AuditExclusionRules(document: Json) returns (rules: map<string, Json>, issues: seq<Issue>)
    ensures issues == [] ==> RulesOf(document).Some? && WellFormedRules(RulesOf(document).value)
    ensures RulesOf(document).Some? && WellFormedRules(RulesOf(document).value) ==>
      var raw, routes := RulesOf(document).value, RoutesOf(document);
      if SystemComplete(document)
      then issues == [] <==> Partition(routes, raw)
      else issues == [] <==> RulesListTheirOwn(routes, raw)
  {
    var routes := IndexRoutes(document);
    if RulesOf(document).None? {
      return map[], [RulesNotAList];
    }
    var raw := RulesOf(document).value;
    var owners;
    rules, owners, issues := AuditRules(routes, raw);
    if SystemComplete(document) {
      if issues == [] {
        AllAssigned(routes, raw, rules, owners);
      }
      if WellFormedRules(raw) {
        TwoWaysIsPartition(routes, raw);
      }
      var missing := AuditExclusions(routes, rules, owners);
      issues := issues + missing;
    }
  }
}
