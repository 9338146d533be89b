/** Semantic differences of JSON documents, and the patch that undoes the comparison. */
module Diff {
  import opened Ordering
  import opened JsonPointer
  import opened JsonValues

  /** A value found at a token path on one side only. */
  datatype Entry<+P> = Entry(path: P, value: Json)

  /** A value that differs at one path. */
  datatype Edit<+P> = Edit(path: P, before: Json, after: Json)

  datatype Changes<+P> = Changes(added: seq<Entry<P>>, removed: seq<Entry<P>>, modified: seq<Edit<P>>)

  type Path = seq<string>

  const NOTHING: Changes<Path> := Changes([], [], [])

  function Both(x: Changes<Path>, y: Changes<Path>): Changes<Path> {
    Changes(x.added + y.added, x.removed + y.removed, x.modified + y.modified)
  }

  // ---------- The comparison ----------

  function FieldEntries(fields: map<string, Json>, keys: seq<string>, path: Path): (entries: seq<Entry<Path>>)
    requires forall k :: k in keys ==> k in fields
    ensures |entries| == |keys|
  {
    seq(|keys|, i requires 0 <= i < |keys| => Entry(path + [keys[i]], fields[keys[i]]))
  }

  function ItemEntries(items: seq<Json>, from: nat, path: Path): (entries: seq<Entry<Path>>)
    requires from <= |items|
    ensures |entries| == |items| - from
  {
    seq(|items| - from, i requires 0 <= i < |items| - from => Entry(path + [Decimal(from + i)], items[from + i]))
  }

  function Shorter(a: seq<Json>, b: seq<Json>): (n: nat)
    ensures n <= |a| && n <= |b| && (n == |a| || n == |b|)
  {
    if |a| <= |b| then |a| else |b|
  }

  /** Keys that only one side has. */
  function Sides(before: Json, after: Json, path: Path): Changes<Path>
    requires before.Obj? && after.Obj?
  {
    var b, a := before.fields, after.fields;
    Changes(FieldEntries(a, Sorted(a.Keys - b.Keys), path), FieldEntries(b, Sorted(b.Keys - a.Keys), path), [])
  }

  /** Additions and removals at the end of a list. */
  function Tails(before: Json, after: Json, path: Path): Changes<Path>
    requires before.Arr? && after.Arr?
  {
    var common := Shorter(before.items, after.items);
    Changes(ItemEntries(after.items, common, path), ItemEntries(before.items, common, path), [])
  }

  function SharedKeys(before: Json, after: Json): (keys: seq<string>)
    requires before.Obj? && after.Obj?
    ensures forall k :: k in keys <==> k in before.fields && k in after.fields
  {
    Sorted(before.fields.Keys * after.fields.Keys)
  }

  /** What `_walk_diff` appends to the three lists. */
  function Walk(before: Json, after: Json, path: Path): Changes<Path>
    decreases before, 2
  {
    if before.Obj? && after.Obj? then WalkObjects(before, after, path)
    else if before.Arr? && after.Arr? then WalkArrays(before, after, path)
    else if before != after then Changes([], [], [Edit(path, before, after)])
    else NOTHING
  }

  function WalkObjects(before: Json, after: Json, path: Path): Changes<Path>
    requires before.Obj? && after.Obj?
    decreases before, 1
  {
    Both(Sides(before, after, path), WalkFields(before, after, SharedKeys(before, after), path))
  }

  function WalkArrays(before: Json, after: Json, path: Path): Changes<Path>
    requires before.Arr? && after.Arr?
    decreases before, 1
  {
    Both(Tails(before, after, path), WalkItems(before, after, Shorter(before.items, after.items), path))
  }

  function WalkFields(before: Json, after: Json, keys: seq<string>, path: Path): Changes<Path>
    requires before.Obj? && after.Obj? && forall k :: k in keys ==> k in before.fields && k in after.fields
    decreases before, 0, |keys|
  {
    if keys == [] then NOTHING
    else
      var k := keys[|keys| - 1];
      Both(WalkFields(before, after, keys[..|keys| - 1], path), Walk(before.fields[k], after.fields[k], path + [k]))
  }

  function WalkItems(before: Json, after: Json, n: nat, path: Path): Changes<Path>
    requires before.Arr? && after.Arr? && n <= |before.items| && n <= |after.items|
    decreases before, 0, n
  {
    if n == 0 then NOTHING
    else
      Both(
        WalkItems(before, after, n - 1, path),
        Walk(before.items[n - 1], after.items[n - 1], path + [Decimal(n - 1)]))
  }

  // ---------- Mirror ----------

  function Turned(edits: seq<Edit<Path>>): (r: seq<Edit<Path>>)
    ensures |r| == |edits|
  {
    seq(|edits|, i requires 0 <= i < |edits| => Edit(edits[i].path, edits[i].after, edits[i].before))
  }

  /** Additions and removals exchanged, every edit turned around; the order of each list is kept. */
  function Mirror(d: Changes<Path>): Changes<Path> {
    Changes(d.removed, d.added, Turned(d.modified))
  }

  lemma MirrorJoin(x: Changes<Path>, y: Changes<Path>)
    ensures Mirror(Both(x, y)) == Both(Mirror(x), Mirror(y))
  {
  }

  /** Comparing the other way round gives the exact mirror image. */
  lemma {:induction false} WalkMirrors(before: Json, after: Json, path: Path)
    ensures Walk(after, before, path) == Mirror(Walk(before, after, path))
    decreases before, 2
  {
    if before.Obj? && after.Obj? {
      MirrorObjects(before, after, path);
    } else if before.Arr? && after.Arr? {
      MirrorArrays(before, after, path);
    }
  }

  lemma MirrorObjects(before: Json, after: Json, path: Path)
    requires before.Obj? && after.Obj?
    ensures WalkObjects(after, before, path) == Mirror(WalkObjects(before, after, path))
    decreases before, 1
  {
    assert after.fields.Keys * before.fields.Keys == before.fields.Keys * after.fields.Keys;
    MirrorFields(before, after, SharedKeys(before, after), path);
    MirrorJoined(
      Sides(before, after, path), WalkFields(before, after, SharedKeys(before, after), path),
      Sides(after, before, path), WalkFields(after, before, SharedKeys(before, after), path));
  }

  lemma MirrorArrays(before: Json, after: Json, path: Path)
    requires before.Arr? && after.Arr?
    ensures WalkArrays(after, before, path) == Mirror(WalkArrays(before, after, path))
    decreases before, 1
  {
    var common := Shorter(before.items, after.items);
    MirrorItems(before, after, common, path);
    MirrorJoined(
      Tails(before, after, path), WalkItems(before, after, common, path),
      Tails(after, before, path), WalkItems(after, before, common, path));
  }

  lemma {:induction false} MirrorFields(before: Json, after: Json, keys: seq<string>, path: Path)
    requires before.Obj? && after.Obj? && forall k :: k in keys ==> k in before.fields && k in after.fields
    ensures WalkFields(after, before, keys, path) == Mirror(WalkFields(before, after, keys, path))
    decreases before, 0, |keys|
  {
    if keys == [] {
    } else {
      var k := keys[|keys| - 1];
      MirrorFields(before, after, keys[..|keys| - 1], path);
      WalkMirrors(before.fields[k], after.fields[k], path + [k]);
      MirrorJoin(
        WalkFields(before, after, keys[..|keys| - 1], path), Walk(before.fields[k], after.fields[k], path + [k]));
    }
  }

  lemma {:induction false} MirrorItems(before: Json, after: Json, n: nat, path: Path)
    requires before.Arr? && after.Arr? && n <= |before.items| && n <= |after.items|
    ensures WalkItems(after, before, n, path) == Mirror(WalkItems(before, after, n, path))
    decreases before, 0, n
  {
    if n == 0 {
    } else {
      MirrorItems(before, after, n - 1, path);
      MirrorItem(before, after, n, path);
    }
  }

  lemma MirrorItem(before: Json, after: Json, n: nat, path: Path)
    requires before.Arr? && after.Arr? && 0 < n <= |before.items| && n <= |after.items|
    requires WalkItems(after, before, n - 1, path) == Mirror(WalkItems(before, after, n - 1, path))
    ensures WalkItems(after, before, n, path) == Mirror(WalkItems(before, after, n, path))
    decreases before, 0, n, 0
  {
    var here := path + [Decimal(n - 1)];
    var b, a := before.items[n - 1], after.items[n - 1];
    WalkMirrors(b, a, here);
    ItemsStep(before, after, n, path);
    ItemsStep(after, before, n, path);
    MirrorJoined(
      WalkItems(before, after, n - 1, path), Walk(b, a, here), WalkItems(after, before, n - 1, path), Walk(a, b, here));
  }

  lemma MirrorJoined(x: Changes<Path>, y: Changes<Path>, mx: Changes<Path>, my: Changes<Path>)
    requires mx == Mirror(x) && my == Mirror(y)
    ensures Both(mx, my) == Mirror(Both(x, y))
  {
    MirrorJoin(x, y);
  }

  lemma ItemsStep(before: Json, after: Json, n: nat, path: Path)
    requires before.Arr? && after.Arr? && 0 < n <= |before.items| && n <= |after.items|
    ensures WalkItems(before, after, n, path)
      == Both(
        WalkItems(before, after, n - 1, path),
        Walk(before.items[n - 1], after.items[n - 1], path + [Decimal(n - 1)]))
  {
  }

  // ---------- Nothing outside the compared subtree ----------

  /** Every change lies at or below `path`. */
  predicate Below(d: Changes<Path>, path: Path) {
    && (forall e :: e in d.added ==> path < e.path)
    && (forall e :: e in d.removed ==> path < e.path)
    && (forall e :: e in d.modified ==> path <= e.path)
  }

  lemma BelowUp(d: Changes<Path>, path: Path, token: string)
    requires Below(d, path + [token])
    ensures Below(d, path)
  {
    assert path < path + [token];
  }

  lemma {:induction false} WalkStaysBelow(before: Json, after: Json, path: Path)
    ensures Below(Walk(before, after, path), path)
    decreases before, 2
  {
    if before.Obj? && after.Obj? {
      FieldsStayBelow(before, after, SharedKeys(before, after), path);
    } else if before.Arr? && after.Arr? {
      ItemsStayBelow(before, after, Shorter(before.items, after.items), path);
    }
  }

  lemma {:induction false} FieldsStayBelow(before: Json, after: Json, keys: seq<string>, path: Path)
    requires before.Obj? && after.Obj? && forall k :: k in keys ==> k in before.fields && k in after.fields
    ensures Below(WalkFields(before, after, keys, path), path)
    decreases before, 0, |keys|
  {
    if keys == [] {
    } else {
      var k := keys[|keys| - 1];
      FieldsStayBelow(before, after, keys[..|keys| - 1], path);
      WalkStaysBelow(before.fields[k], after.fields[k], path + [k]);
      BelowUp(Walk(before.fields[k], after.fields[k], path + [k]), path, k);
    }
  }

  lemma {:induction false} ItemsStayBelow(before: Json, after: Json, n: nat, path: Path)
    requires before.Arr? && after.Arr? && n <= |before.items| && n <= |after.items|
    ensures Below(WalkItems(before, after, n, path), path)
    decreases before, 0, n
  {
    if n == 0 {
    } else {
      ItemsStayBelow(before, after, n - 1, path);
      WalkStaysBelow(before.items[n - 1], after.items[n - 1], path + [Decimal(n - 1)]);
      BelowUp(Walk(before.items[n - 1], after.items[n - 1], path + [Decimal(n - 1)]), path, Decimal(n - 1));
    }
  }

  // ---------- Looking changes up by path ----------

  function Find(entries: seq<Entry<Path>>, p: Path): Option<Json> {
    if entries == [] then None
    else if entries[0].path == p then Some(entries[0].value)
    else Find(entries[1..], p)
  }

  function FindEdit(edits: seq<Edit<Path>>, p: Path): Option<Json> {
    if edits == [] then None
    else if edits[0].path == p then Some(edits[0].after)
    else FindEdit(edits[1..], p)
  }

  /** What a list of changes says about one path: value added, value removed, new value. */
  datatype Mark = Mark(added: Option<Json>, removed: Option<Json>, edited: Option<Json>)

  const UNMARKED := Mark(None, None, None)

  function At(d: Changes<Path>, p: Path): Mark {
    Mark(Find(d.added, p), Find(d.removed, p), FindEdit(d.modified, p))
  }

  function OrElse(x: Option<Json>, y: Option<Json>): Option<Json> {
    if x.Some? then x else y
  }

  lemma {:induction false} FindJoined(xs: seq<Entry<Path>>, ys: seq<Entry<Path>>, p: Path)
    ensures Find(xs + ys, p) == OrElse(Find(xs, p), Find(ys, p))
  {
    if xs == [] {
      assert xs + ys == ys;
    } else {
      assert (xs + ys)[1..] == xs[1..] + ys;
      FindJoined(xs[1..], ys, p);
    }
  }

  lemma {:induction false} FindEditJoined(xs: seq<Edit<Path>>, ys: seq<Edit<Path>>, p: Path)
    ensures FindEdit(xs + ys, p) == OrElse(FindEdit(xs, p), FindEdit(ys, p))
  {
    if xs == [] {
      assert xs + ys == ys;
    } else {
      assert (xs + ys)[1..] == xs[1..] + ys;
      FindEditJoined(xs[1..], ys, p);
    }
  }

  lemma AtJoined(x: Changes<Path>, y: Changes<Path>, p: Path)
    ensures At(x, p) == UNMARKED ==> At(Both(x, y), p) == At(y, p)
    ensures At(y, p) == UNMARKED ==> At(Both(x, y), p) == At(x, p)
  {
    FindJoined(x.added, y.added, p);
    FindJoined(x.removed, y.removed, p);
    FindEditJoined(x.modified, y.modified, p);
  }

  lemma {:induction false} FindNone(entries: seq<Entry<Path>>, p: Path)
    requires forall e :: e in entries ==> e.path != p
    ensures Find(entries, p) == None
  {
    if entries == [] {
    } else {
      FindNone(entries[1..], p);
    }
  }

  lemma {:induction false} FindEditNone(edits: seq<Edit<Path>>, p: Path)
    requires forall e :: e in edits ==> e.path != p
    ensures FindEdit(edits, p) == None
  {
    if edits == [] {
    } else {
      FindEditNone(edits[1..], p);
    }
  }

  lemma AtOutside(d: Changes<Path>, path: Path, p: Path)
    requires Below(d, path) && !(path <= p)
    ensures At(d, p) == UNMARKED
  {
    FindNone(d.added, p);
    FindNone(d.removed, p);
    FindEditNone(d.modified, p);
  }

  lemma {:induction false} FindFieldEntry(fields: map<string, Json>, keys: seq<string>, path: Path, p: Path)
    requires path <= p && forall k :: k in keys ==> k in fields
    ensures Find(FieldEntries(fields, keys, path), p)
      == if |p| == |path| + 1 && p[|path|] in keys then Some(fields[p[|path|]]) else None
  {
    var entries := FieldEntries(fields, keys, path);
    if keys == [] {
    } else {
      assert entries[1..] == FieldEntries(fields, keys[1..], path);
      FindFieldEntry(fields, keys[1..], path, p);
      assert entries[0].path == p <==> |p| == |path| + 1 && p[|path|] == keys[0];
    }
  }

  lemma DecimalInjective(i: nat, j: nat)
    requires Decimal(i) == Decimal(j)
    ensures i == j
  {
    DecimalRoundTrip(i);
    DecimalRoundTrip(j);
  }

  lemma {:induction false} FindItemEntry(items: seq<Json>, from: nat, path: Path, i: nat)
    requires from <= |items|
    ensures Find(ItemEntries(items, from, path), path + [Decimal(i)])
      == if from <= i < |items| then Some(items[i]) else None
    decreases |items| - from
  {
    var entries := ItemEntries(items, from, path);
    if from == |items| {
    } else {
      assert entries[1..] == ItemEntries(items, from + 1, path);
      FindItemEntry(items, from + 1, path, i);
      assert entries[0].path[|path|] == Decimal(from) && (path + [Decimal(i)])[|path|] == Decimal(i);
      if Decimal(from) == Decimal(i) { DecimalInjective(from, i); }
    }
  }

  lemma FindDeepItemEntry(items: seq<Json>, from: nat, path: Path, p: Path)
    requires from <= |items| && |p| != |path| + 1
    ensures Find(ItemEntries(items, from, path), p) == None
  {
    FindNone(ItemEntries(items, from, path), p);
  }

  // ---------- What the comparison says about a path ----------

  lemma {:induction false} FieldsAt(before: Json, after: Json, keys: seq<string>, path: Path, p: Path)
    requires before.Obj? && after.Obj? && forall k :: k in keys ==> k in before.fields && k in after.fields
    requires forall i, j :: 0 <= i < j < |keys| ==> keys[i] != keys[j]
    requires path <= p
    ensures At(WalkFields(before, after, keys, path), p)
      == if |p| > |path| && p[|path|] in keys
         then At(Walk(before.fields[p[|path|]], after.fields[p[|path|]], path + [p[|path|]]), p)
         else UNMARKED
    decreases |keys|
  {
    if keys == [] {
    } else {
      var init, k := keys[..|keys| - 1], keys[|keys| - 1];
      assert keys == init + [k];
      assert k !in init;
      var here := Walk(before.fields[k], after.fields[k], path + [k]);
      FieldsAt(before, after, init, path, p);
      AtJoined(WalkFields(before, after, init, path), here, p);
      WalkStaysBelow(before.fields[k], after.fields[k], path + [k]);
      if |p| == |path| || p[|path|] != k {
        assert !(path + [k] <= p) by {
          assert |p| > |path| ==> (path + [k])[|path|] == k;
        }
        AtOutside(here, path + [k], p);
      }
    }
  }

  lemma OtherIndex(path: Path, i: nat, j: nat, p: Path)
    requires path + [Decimal(i)] <= p && i != j
    ensures !(path + [Decimal(j)] <= p)
  {
    assert (path + [Decimal(i)])[|path|] == Decimal(i) && (path + [Decimal(j)])[|path|] == Decimal(j);
    if Decimal(i) == Decimal(j) { DecimalInjective(i, j); }
  }

  /** What the comparison of two items says about a path. */
  function ItemMark(before: Json, after: Json, path: Path, i: nat, p: Path): Mark
    requires before.Arr? && after.Arr? && i < |before.items| && i < |after.items|
  {
    At(Walk(before.items[i], after.items[i], path + [Decimal(i)]), p)
  }

  lemma {:induction false} ItemsAt(before: Json, after: Json, n: nat, path: Path, i: nat, p: Path)
    requires before.Arr? && after.Arr? && n <= |before.items| && n <= |after.items|
    requires path + [Decimal(i)] <= p
    ensures At(WalkItems(before, after, n, path), p)
      == if i < n then ItemMark(before, after, path, i, p) else UNMARKED
    decreases n
  {
    if n == 0 {
    } else {
      ItemsAt(before, after, n - 1, path, i, p);
      var rest := WalkItems(before, after, n - 1, path);
      var mark := if i < n then ItemMark(before, after, path, i, p) else UNMARKED;
      var last := LastItem(before, after, n, path);
      LastItemAt(rest, last, path, n - 1, i, p, mark);
    }
  }

  lemma LastItem(before: Json, after: Json, n: nat, path: Path) returns (last: Changes<Path>)
    requires before.Arr? && after.Arr? && 0 < n <= |before.items| && n <= |after.items|
    ensures last == Walk(before.items[n - 1], after.items[n - 1], path + [Decimal(n - 1)])
    ensures WalkItems(before, after, n, path) == Both(WalkItems(before, after, n - 1, path), last)
    ensures Below(last, path + [Decimal(n - 1)])
  {
    last := Walk(before.items[n - 1], after.items[n - 1], path + [Decimal(n - 1)]);
    ItemsStep(before, after, n, path);
    WalkStaysBelow(before.items[n - 1], after.items[n - 1], path + [Decimal(n - 1)]);
  }

  lemma LastItemAt(
    rest: Changes<Path>, last: Changes<Path>, path: Path, n: nat, i: nat, p: Path, mark: Mark)
    requires path + [Decimal(i)] <= p && Below(last, path + [Decimal(n)])
    requires At(rest, p) == (if i < n then mark else UNMARKED) && (i == n ==> At(last, p) == mark)
    ensures At(Both(rest, last), p) == if i <= n then mark else UNMARKED
  {
    AtJoined(rest, last, p);
    if i != n {
      OtherIndex(path, i, n, p);
      AtOutside(last, path + [Decimal(n)], p);
    }
  }

  /** A comparison of two lists says nothing about the list itself. */
  lemma {:induction false} ItemsAtSelf(before: Json, after: Json, n: nat, path: Path)
    requires before.Arr? && after.Arr? && n <= |before.items| && n <= |after.items|
    ensures At(WalkItems(before, after, n, path), path) == UNMARKED
    decreases n
  {
    if n == 0 {
    } else {
      var here := path + [Decimal(n - 1)];
      ItemsAtSelf(before, after, n - 1, path);
      AtJoined(WalkItems(before, after, n - 1, path), Walk(before.items[n - 1], after.items[n - 1], here), path);
      WalkStaysBelow(before.items[n - 1], after.items[n - 1], here);
      AtOutside(Walk(before.items[n - 1], after.items[n - 1], here), here, path);
    }
  }

  // ---------- Applying changes ----------

  /** Keys of the entries directly below `path`. */
  function AddedKeys(d: Changes<Path>, path: Path): set<string> {
    set e | e in d.added && |e.path| == |path| + 1 && path <= e.path :: e.path[|path|]
  }

  predicate Keeps(d: Changes<Path>, path: Path, fields: map<string, Json>, k: string) {
    k in fields && At(d, path + [k]).removed.None?
  }

  /** The value after all listed changes at or below `path`; list items are appended in index order. */
  function Patch(value: Json, d: Changes<Path>, path: Path): Json
    decreases value, 2
  {
    if At(d, path).edited.Some? then At(d, path).edited.value
    else if value.Obj? then Obj(PatchFields(value, d, path))
    else if value.Arr? then
      Arr(PatchItems(value, d, path, |value.items|) + NewItems(d, path, |value.items|))
    else value
  }

  function PatchFields(value: Json, d: Changes<Path>, path: Path): map<string, Json>
    requires value.Obj?
    decreases value, 1
  {
    map k | k in value.fields.Keys + AddedKeys(d, path)
          && (At(d, path + [k]).added.Some? || Keeps(d, path, value.fields, k)) ::
      if At(d, path + [k]).added.Some? then At(d, path + [k]).added.value
      else Patch(value.fields[k], d, path + [k])
  }

  function PatchItems(value: Json, d: Changes<Path>, path: Path, n: nat): seq<Json>
    requires value.Arr? && n <= |value.items|
    decreases value, 0, n
  {
    if n == 0 then []
    else
      var here := path + [Decimal(n - 1)];
      PatchItems(value, d, path, n - 1)
      + if At(d, here).removed.Some? then [] else [Patch(value.items[n - 1], d, here)]
  }

  /** Added entries directly below `path` with an index of at least `n`. */
  function Pending(d: Changes<Path>, path: Path, n: nat): set<Entry<Path>> {
    set e | e in d.added && |e.path| == |path| + 1 && path <= e.path
          && IsIndex(e.path[|path|]) && IndexOf(e.path[|path|]) >= n
  }

  function NewItems(d: Changes<Path>, path: Path, n: nat): seq<Json>
    decreases Pending(d, path, n)
  {
    if At(d, path + [Decimal(n)]).added.None? then []
    else
      PendingShrinks(d, path, n);
      [At(d, path + [Decimal(n)]).added.value] + NewItems(d, path, n + 1)
  }

  lemma {:induction false} FoundIsListed(entries: seq<Entry<Path>>, p: Path)
    requires Find(entries, p).Some?
    ensures exists e :: e in entries && e.path == p
  {
    if entries[0].path == p {
    } else {
      FoundIsListed(entries[1..], p);
    }
  }

  lemma PendingShrinks(d: Changes<Path>, path: Path, n: nat)
    requires At(d, path + [Decimal(n)]).added.Some?
    ensures Pending(d, path, n + 1) < Pending(d, path, n)
  {
    FoundIsListed(d.added, path + [Decimal(n)]);
    var e :| e in d.added && e.path == path + [Decimal(n)];
    DecimalRoundTrip(n);
    assert e.path[|path|] == Decimal(n);
    assert e in Pending(d, path, n) && e !in Pending(d, path, n + 1);
  }

  /** `d` says the same as `w` about every path at or below `path`. */
  ghost predicate Agree(d: Changes<Path>, w: Changes<Path>, path: Path) {
    forall p: Path :: path <= p ==> At(d, p) == At(w, p)
  }

  lemma FieldWalkAt(before: Json, after: Json, path: Path, p: Path)
    requires before.Obj? && after.Obj? && path <= p
    ensures var mark := At(Walk(before, after, path), p);
      if |p| == |path| then mark == UNMARKED
      else
        var k := p[|path|];
        if k in before.fields && k in after.fields
        then mark == At(Walk(before.fields[k], after.fields[k], path + [k]), p)
        else
          && (|p| == |path| + 1 && k in after.fields ==> mark == Mark(Some(after.fields[k]), None, None))
          && (|p| == |path| + 1 && k in before.fields ==> mark == Mark(None, Some(before.fields[k]), None))
          && (|p| == |path| + 1 && k !in before.fields && k !in after.fields ==> mark == UNMARKED)
  {
    var shared := SharedKeys(before, after);
    SortedDistinct(before.fields.Keys * after.fields.Keys);
    SidesAt(before, after, path, p);
    FieldsAt(before, after, shared, path, p);
    AtJoined(Sides(before, after, path), WalkFields(before, after, shared, path), p);
  }

  lemma SidesAt(before: Json, after: Json, path: Path, p: Path)
    requires before.Obj? && after.Obj? && path <= p
    ensures At(Sides(before, after, path), p)
      == if |p| == |path| + 1 && p[|path|] in after.fields && p[|path|] !in before.fields
         then Mark(Some(after.fields[p[|path|]]), None, None)
         else if |p| == |path| + 1 && p[|path|] in before.fields && p[|path|] !in after.fields
         then Mark(None, Some(before.fields[p[|path|]]), None)
         else UNMARKED
  {
    var b, a := before.fields, after.fields;
    FindFieldEntry(a, Sorted(a.Keys - b.Keys), path, p);
    FindFieldEntry(b, Sorted(b.Keys - a.Keys), path, p);
  }

  lemma TailsAt(before: Json, after: Json, path: Path, i: nat)
    requires before.Arr? && after.Arr?
    ensures At(Tails(before, after, path), path + [Decimal(i)])
      == if i < Shorter(before.items, after.items) then UNMARKED
         else Mark(
           if i < |after.items| then Some(after.items[i]) else None,
           if i < |before.items| then Some(before.items[i]) else None,
           None)
  {
    FindItemEntry(after.items, Shorter(before.items, after.items), path, i);
    FindItemEntry(before.items, Shorter(before.items, after.items), path, i);
  }

  lemma TailsElsewhere(before: Json, after: Json, path: Path, p: Path)
    requires before.Arr? && after.Arr? && |p| != |path| + 1
    ensures At(Tails(before, after, path), p) == UNMARKED
  {
    FindDeepItemEntry(after.items, Shorter(before.items, after.items), path, p);
    FindDeepItemEntry(before.items, Shorter(before.items, after.items), path, p);
  }

  lemma ItemWalkAt(before: Json, after: Json, path: Path, i: nat, p: Path)
    requires before.Arr? && after.Arr? && path + [Decimal(i)] <= p
    requires i < |before.items| && i < |after.items|
    ensures At(Walk(before, after, path), p) == At(Walk(before.items[i], after.items[i], path + [Decimal(i)]), p)
  {
    var common := Shorter(before.items, after.items);
    if |p| == |path| + 1 {
      assert p == path + [Decimal(i)];
      TailsAt(before, after, path, i);
    } else {
      TailsElsewhere(before, after, path, p);
    }
    ItemsAt(before, after, common, path, i, p);
    AtJoined(Tails(before, after, path), WalkItems(before, after, common, path), p);
  }

  lemma ItemWalkAtTail(before: Json, after: Json, path: Path, i: nat)
    requires before.Arr? && after.Arr? && i >= Shorter(before.items, after.items)
    ensures At(Walk(before, after, path), path + [Decimal(i)])
      == Mark(
        if i < |after.items| then Some(after.items[i]) else None,
        if i < |before.items| then Some(before.items[i]) else None,
        None)
  {
    var common := Shorter(before.items, after.items);
    TailsAt(before, after, path, i);
    ItemsAt(before, after, common, path, i, path + [Decimal(i)]);
    AtJoined(Tails(before, after, path), WalkItems(before, after, common, path), path + [Decimal(i)]);
  }

  lemma ItemWalkAtSelf(before: Json, after: Json, path: Path)
    requires before.Arr? && after.Arr?
    ensures At(Walk(before, after, path), path) == UNMARKED
  {
    var common := Shorter(before.items, after.items);
    TailsElsewhere(before, after, path, path);
    ItemsAtSelf(before, after, common, path);
    AtJoined(Tails(before, after, path), WalkItems(before, after, common, path), path);
  }

  lemma LeafWalkAt(before: Json, after: Json, path: Path)
    requires !(before.Obj? && after.Obj?) && !(before.Arr? && after.Arr?)
    ensures At(Walk(before, after, path), path).edited == if before != after then Some(after) else None
  {
  }

  // ---------- The patch restores the second document ----------

  lemma {:induction false} PatchYields(before: Json, after: Json, d: Changes<Path>, path: Path)
    requires Agree(d, Walk(before, after, path), path)
    ensures Patch(before, d, path) == after
    decreases before, 2
  {
    assert At(d, path) == At(Walk(before, after, path), path);
    if before.Obj? && after.Obj? {
      FieldWalkAt(before, after, path, path);
      FieldsPatched(before, after, d, path);
    } else if before.Arr? && after.Arr? {
      ItemWalkAtSelf(before, after, path);
      ArraysPatched(before, after, d, path);
    } else {
      LeafWalkAt(before, after, path);
      if before == after {
        assert !before.Obj? && !before.Arr?;
      }
    }
  }

  lemma ArraysPatched(before: Json, after: Json, d: Changes<Path>, path: Path)
    requires before.Arr? && after.Arr? && Agree(d, Walk(before, after, path), path)
    ensures PatchItems(before, d, path, |before.items|) + NewItems(d, path, |before.items|) == after.items
    decreases before, 1
  {
    ItemsPatched(before, after, d, path, |before.items|);
    ItemsAppended(before, after, d, path, |before.items|);
    Halves(after.items, |before.items|);
  }

  lemma Halves(items: seq<Json>, n: nat)
    ensures items[..if n <= |items| then n else |items|] + (if n <= |items| then items[n..] else []) == items
  {
  }

  lemma AgreeBelow(before: Json, after: Json, d: Changes<Path>, path: Path, k: string)
    requires before.Obj? && after.Obj? && k in before.fields && k in after.fields
    requires Agree(d, Walk(before, after, path), path)
    ensures Agree(d, Walk(before.fields[k], after.fields[k], path + [k]), path + [k])
  {
    forall p: Path | path + [k] <= p
      ensures At(d, p) == At(Walk(before.fields[k], after.fields[k], path + [k]), p)
    {
      assert path <= path + [k] && (path + [k])[|path|] == k;
      FieldWalkAt(before, after, path, p);
    }
  }

  lemma {:induction false} SharedFieldPatched(before: Json, after: Json, d: Changes<Path>, path: Path, k: string)
    requires before.Obj? && after.Obj? && Agree(d, Walk(before, after, path), path)
    requires k in before.fields && k in after.fields
    ensures At(d, path + [k]).added.None? && At(d, path + [k]).removed.None?
    ensures Patch(before.fields[k], d, path + [k]) == after.fields[k]
    decreases before, 0
  {
    var here := path + [k];
    var there := Walk(before.fields[k], after.fields[k], here);
    AgreeBelow(before, after, d, path, k);
    PatchYields(before.fields[k], after.fields[k], d, here);
    WalkStaysBelow(before.fields[k], after.fields[k], here);
    NothingAddedAt(there, here);
    assert At(d, here) == At(there, here);
  }

  lemma OtherFieldMarked(before: Json, after: Json, d: Changes<Path>, path: Path, k: string)
    requires before.Obj? && after.Obj? && Agree(d, Walk(before, after, path), path)
    requires k !in before.fields || k !in after.fields
    ensures k in after.fields ==> At(d, path + [k]).added == Some(after.fields[k]) && k in AddedKeys(d, path)
    ensures k !in after.fields ==> At(d, path + [k]).added.None? && !Keeps(d, path, before.fields, k)
  {
    var here := path + [k];
    assert path <= here && here[|path|] == k;
    FieldWalkAt(before, after, path, here);
    assert At(d, here) == At(Walk(before, after, path), here);
    if k in after.fields {
      AddedKeyListed(d, path, k);
    }
  }

  lemma AddedKeyListed(d: Changes<Path>, path: Path, k: string)
    requires At(d, path + [k]).added.Some?
    ensures k in AddedKeys(d, path)
  {
    FoundIsListed(d.added, path + [k]);
    var e :| e in d.added && e.path == path + [k];
    assert e.path[|path|] == k;
  }

  lemma {:induction false} FieldsPatched(before: Json, after: Json, d: Changes<Path>, path: Path)
    requires before.Obj? && after.Obj? && Agree(d, Walk(before, after, path), path)
    ensures PatchFields(before, d, path) == after.fields
    decreases before, 1
  {
    forall k
      ensures k in PatchFields(before, d, path) <==> k in after.fields
      ensures k in after.fields ==> PatchFields(before, d, path)[k] == after.fields[k]
    {
      if k in before.fields && k in after.fields {
        SharedFieldPatched(before, after, d, path, k);
      } else {
        OtherFieldMarked(before, after, d, path, k);
      }
    }
  }

  /** What lies below a path neither adds nor removes the value at the path. */
  lemma NothingAddedAt(d: Changes<Path>, path: Path)
    requires Below(d, path)
    ensures At(d, path).added.None? && At(d, path).removed.None?
  {
    FindNone(d.added, path);
    FindNone(d.removed, path);
  }

  lemma ItemAgrees(before: Json, after: Json, d: Changes<Path>, path: Path, i: nat)
    requires before.Arr? && after.Arr? && i < |before.items| && i < |after.items|
    requires Agree(d, Walk(before, after, path), path)
    ensures Agree(d, Walk(before.items[i], after.items[i], path + [Decimal(i)]), path + [Decimal(i)])
    ensures At(d, path + [Decimal(i)]).added.None? && At(d, path + [Decimal(i)]).removed.None?
  {
    var here := path + [Decimal(i)];
    var there := Walk(before.items[i], after.items[i], here);
    forall p: Path | here <= p ensures At(d, p) == At(there, p) {
      assert path <= here;
      ItemWalkAt(before, after, path, i, p);
    }
    assert At(d, here) == At(there, here);
    WalkStaysBelow(before.items[i], after.items[i], here);
    NothingAddedAt(there, here);
  }

  lemma {:induction false} ItemsPatched(before: Json, after: Json, d: Changes<Path>, path: Path, n: nat)
    requires before.Arr? && after.Arr? && n <= |before.items| && Agree(d, Walk(before, after, path), path)
    ensures PatchItems(before, d, path, n) == after.items[..if n <= |after.items| then n else |after.items|]
    decreases before, 0, n + 2
  {
    if n == 0 {
    } else {
      ItemsPatched(before, after, d, path, n - 1);
      ItemPatched(before, after, d, path, n);
    }
  }

  lemma ItemPatched(before: Json, after: Json, d: Changes<Path>, path: Path, n: nat)
    requires before.Arr? && after.Arr? && 0 < n <= |before.items| && Agree(d, Walk(before, after, path), path)
    ensures PatchItems(before, d, path, n)
      == PatchItems(before, d, path, n - 1) + if n <= |after.items| then [after.items[n - 1]] else []
    decreases before, 0, n + 1
  {
    if n <= |after.items| {
      ItemKept(before, after, d, path, n - 1);
    } else {
      ItemRemoved(before, after, d, path, n - 1);
    }
  }

  lemma ItemKept(before: Json, after: Json, d: Changes<Path>, path: Path, i: nat)
    requires before.Arr? && after.Arr? && i < |before.items| && i < |after.items|
    requires Agree(d, Walk(before, after, path), path)
    ensures At(d, path + [Decimal(i)]).removed.None?
    ensures Patch(before.items[i], d, path + [Decimal(i)]) == after.items[i]
    decreases before, 0, 0
  {
    ItemAgrees(before, after, d, path, i);
    PatchYields(before.items[i], after.items[i], d, path + [Decimal(i)]);
  }

  lemma ItemRemoved(before: Json, after: Json, d: Changes<Path>, path: Path, i: nat)
    requires before.Arr? && after.Arr? && |after.items| <= i < |before.items|
    requires Agree(d, Walk(before, after, path), path)
    ensures At(d, path + [Decimal(i)]).removed.Some?
  {
    assert path <= path + [Decimal(i)];
    ItemWalkAtTail(before, after, path, i);
  }

  lemma AddedAtEnd(before: Json, after: Json, d: Changes<Path>, path: Path, n: nat)
    requires before.Arr? && after.Arr? && n >= |before.items| && Agree(d, Walk(before, after, path), path)
    ensures At(d, path + [Decimal(n)]).added == if n < |after.items| then Some(after.items[n]) else None
  {
    assert path <= path + [Decimal(n)];
    ItemWalkAtTail(before, after, path, n);
  }

  lemma {:induction false} ItemsAppended(before: Json, after: Json, d: Changes<Path>, path: Path, n: nat)
    requires before.Arr? && after.Arr? && n >= |before.items| && Agree(d, Walk(before, after, path), path)
    ensures NewItems(d, path, n) == if n <= |after.items| then after.items[n..] else []
    decreases |after.items| - n
  {
    AddedAtEnd(before, after, d, path, n);
    if n >= |after.items| {
    } else {
      ItemsAppended(before, after, d, path, n + 1);
      assert after.items[n..] == [after.items[n]] + after.items[n + 1..];
    }
  }

  /** Applying the difference of two documents to the first gives the second. */
  lemma PatchRestores(before: Json, after: Json)
    ensures Patch(before, Walk(before, after, []), []) == after
  {
    PatchYields(before, after, Walk(before, after, []), []);
  }

  /** Applying the mirrored difference to the second gives the first. */
  lemma MirrorUndoes(before: Json, after: Json)
    ensures Patch(after, Mirror(Walk(before, after, [])), []) == before
  {
    WalkMirrors(before, after, []);
    PatchRestores(after, before);
  }

  /** Patching with nothing changes nothing. */
  lemma {:induction false} PatchNothing(value: Json, path: Path)
    ensures Patch(value, NOTHING, path) == value
    decreases value, 1
  {
    if value.Obj? {
      forall k | k in value.fields ensures Patch(value.fields[k], NOTHING, path + [k]) == value.fields[k] {
        PatchNothing(value.fields[k], path + [k]);
      }
      assert PatchFields(value, NOTHING, path) == value.fields;
    } else if value.Arr? {
      PatchNoItems(value, path, |value.items|);
    }
  }

  lemma {:induction false} PatchNoItems(value: Json, path: Path, n: nat)
    requires value.Arr? && n <= |value.items|
    ensures PatchItems(value, NOTHING, path, n) == value.items[..n]
    decreases value, 0, n
  {
    if n == 0 {
    } else {
      PatchNoItems(value, path, n - 1);
      PatchNothing(value.items[n - 1], path + [Decimal(n - 1)]);
    }
  }

  lemma {:induction false} SelfWalk(value: Json, path: Path)
    ensures Walk(value, value, path) == NOTHING
    decreases value, 1
  {
    if value.Obj? {
      assert value.fields.Keys - value.fields.Keys == {};
      assert Sides(value, value, path) == NOTHING;
      SelfWalkFields(value, SharedKeys(value, value), path);
    } else if value.Arr? {
      SelfWalkItems(value, |value.items|, path);
    }
  }

  lemma {:induction false} SelfWalkFields(value: Json, keys: seq<string>, path: Path)
    requires value.Obj? && forall k :: k in keys ==> k in value.fields
    ensures WalkFields(value, value, keys, path) == NOTHING
    decreases value, 0, |keys|
  {
    if keys == [] {
    } else {
      var k := keys[|keys| - 1];
      SelfWalkFields(value, keys[..|keys| - 1], path);
      SelfWalk(value.fields[k], path + [k]);
    }
  }

  lemma {:induction false} SelfWalkItems(value: Json, n: nat, path: Path)
    requires value.Arr? && n <= |value.items|
    ensures WalkItems(value, value, n, path) == NOTHING
    decreases value, 0, n
  {
    if n == 0 {
    } else {
      SelfWalkItems(value, n - 1, path);
      ItemsStep(value, value, n, path);
      SelfWalk(value.items[n - 1], path + [Decimal(n - 1)]);
    }
  }

  /** `has_changes` is false exactly when the documents are equal. */
  lemma NoChangesExactlyWhenEqual(before: Json, after: Json)
    ensures Walk(before, after, []) == NOTHING <==> before == after
  {
    if before == after {
      SelfWalk(before, []);
    } else if Walk(before, after, []) == NOTHING {
      PatchRestores(before, after);
      PatchNothing(before, []);
    }
  }
}
