/** `_walk_diff` as it runs: appending printed changes to three lists. */
module DiffWalker {
  import opened Ordering
  import opened JsonPointer
  import opened JsonValues
  import opened Diff

  // ---------- Printed changes ----------

  function PrintEntries(entries: seq<Entry<Path>>): (r: seq<Entry<string>>)
    ensures |r| == |entries|
  {
    seq(|entries|, i requires 0 <= i < |entries| => Entry(Print(entries[i].path), entries[i].value))
  }

  function PrintEdits(edits: seq<Edit<Path>>): (r: seq<Edit<string>>)
    ensures |r| == |edits|
  {
    seq(|edits|, i requires 0 <= i < |edits| => Edit(Print(edits[i].path), edits[i].before, edits[i].after))
  }

  /** The changes with their paths as JSON Pointers. */
  function Printed(d: Changes<Path>): Changes<string> {
    Changes(PrintEntries(d.added), PrintEntries(d.removed), PrintEdits(d.modified))
  }

  /** The token path of a printed pointer. */
  function PathOf(pointer: string): Path {
    if pointer == "" then [] else Tokens(pointer[1..])
  }

  function ParseEntries(entries: seq<Entry<string>>): (r: seq<Entry<Path>>)
    ensures |r| == |entries|
  {
    seq(|entries|, i requires 0 <= i < |entries| => Entry(PathOf(entries[i].path), entries[i].value))
  }

  function ParseEdits(edits: seq<Edit<string>>): (r: seq<Edit<Path>>)
    ensures |r| == |edits|
  {
    seq(|edits|, i requires 0 <= i < |edits| => Edit(PathOf(edits[i].path), edits[i].before, edits[i].after))
  }

  function Parsed(d: Changes<string>): Changes<Path> {
    Changes(ParseEntries(d.added), ParseEntries(d.removed), ParseEdits(d.modified))
  }

  lemma PathOfPrint(p: Path)
    ensures PathOf(Print(p)) == p
  {
    if p != [] {
      ParsePrint(p);
    }
  }

  /** The printed pointers still name every path unambiguously. */
  lemma ParsePrinted(d: Changes<Path>)
    ensures Parsed(Printed(d)) == d
  {
    forall i | 0 <= i < |d.added| ensures ParseEntries(PrintEntries(d.added))[i] == d.added[i] {
      PathOfPrint(d.added[i].path);
    }
    forall i | 0 <= i < |d.removed| ensures ParseEntries(PrintEntries(d.removed))[i] == d.removed[i] {
      PathOfPrint(d.removed[i].path);
    }
    forall i | 0 <= i < |d.modified| ensures ParseEdits(PrintEdits(d.modified))[i] == d.modified[i] {
      PathOfPrint(d.modified[i].path);
    }
  }

  /** `_pointer`. */
  function Pointer(parent: string, token: string): string {
    parent + "/" + Escape(token)
  }

  lemma PointerPrints(path: Path, token: string)
    ensures Pointer(Print(path), token) == Print(path + [token])
  {
    assert (path + [token])[..|path|] == path;
  }

  function Append(x: Changes<string>, d: Changes<Path>): Changes<string> {
    Changes(x.added + PrintEntries(d.added), x.removed + PrintEntries(d.removed), x.modified + PrintEdits(d.modified))
  }

  lemma AppendJoined(x: Changes<string>, d: Changes<Path>, e: Changes<Path>)
    ensures Append(Append(x, d), e) == Append(x, Both(d, e))
  {
    assert PrintEntries(d.added + e.added) == PrintEntries(d.added) + PrintEntries(e.added);
    assert PrintEntries(d.removed + e.removed) == PrintEntries(d.removed) + PrintEntries(e.removed);
    assert PrintEdits(d.modified + e.modified) == PrintEdits(d.modified) + PrintEdits(e.modified);
  }

  lemma AppendNothing(x: Changes<string>)
    ensures Append(x, NOTHING) == x
  {
  }

  lemma OneMoreField(before: Json, after: Json, keys: seq<string>, i: nat, path: Path)
    requires before.Obj? && after.Obj? && i < |keys|
    requires forall k :: k in keys ==> k in before.fields && k in after.fields
    ensures WalkFields(before, after, keys[..i + 1], path)
      == Both(
        WalkFields(before, after, keys[..i], path),
        Walk(before.fields[keys[i]], after.fields[keys[i]], path + [keys[i]]))
  {
    assert keys[..i + 1][..i] == keys[..i];
  }

  // ---------- The walk ----------

  class ChangeLists {
    var added: seq<Entry<string>>
    var removed: seq<Entry<string>>
    var modified: seq<Edit<string>>

    constructor ()
      ensures Contents() == Changes([], [], [])
    {
      added, removed, modified := [], [], [];
    }

    function Contents(): Changes<string>
      reads this
    {
      Changes(added, removed, modified)
    }

    method WalkDiff(before: Json, after: Json, path: string, ghost at: Path)
      requires path == Print(at)
      modifies this
      ensures Contents() == Append(old(Contents()), Walk(before, after, at))
      decreases before, 3
    {
      ghost var start := Contents();
      if before.Obj? && after.Obj? {
        WalkKeys(before, after, path, at);
      } else if before.Arr? && after.Arr? {
        WalkIndexes(before, after, path, at);
      } else if before != after {
        modified := modified + [Edit(path, before, after)];
      }
    }

    /** Record the values of some keys that only one side has. */
    method NoteFields(fields: map<string, Json>, keys: seq<string>, path: string, ghost at: Path)
      returns (entries: seq<Entry<string>>)
      requires path == Print(at) && forall k :: k in keys ==> k in fields
      ensures entries == PrintEntries(FieldEntries(fields, keys, at))
    {
      entries := [];
      for i := 0 to |keys|
        invariant entries == PrintEntries(FieldEntries(fields, keys, at))[..i]
      {
        assert keys[i] in keys;
        PointerPrints(at, keys[i]);
        entries := entries + [Entry(Pointer(path, keys[i]), fields[keys[i]])];
      }
    }

    method NoteItems(items: seq<Json>, from: nat, path: string, ghost at: Path)
      returns (entries: seq<Entry<string>>)
      requires path == Print(at) && from <= |items|
      ensures entries == PrintEntries(ItemEntries(items, from, at))
    {
      entries := [];
      for i := from to |items|
        invariant entries == PrintEntries(ItemEntries(items, from, at))[..i - from]
      {
        PointerPrints(at, Decimal(i));
        entries := entries + [Entry(Pointer(path, Decimal(i)), items[i])];
      }
    }

    method WalkKeys(before: Json, after: Json, path: string, ghost at: Path)
      requires path == Print(at) && before.Obj? && after.Obj?
      modifies this
      ensures Contents() == Append(old(Contents()), Walk(before, after, at))
      decreases before, 2
    {
      var beforeKeys, afterKeys := before.fields.Keys, after.fields.Keys;
      ghost var own := Sides(before, after, at);
      ghost var start := Contents();
      var gained := NoteFields(after.fields, Sorted(afterKeys - beforeKeys), path, at);
      added := added + gained;
      var lost := NoteFields(before.fields, Sorted(beforeKeys - afterKeys), path, at);
      removed := removed + lost;
      assert Contents() == Append(start, own);
      var keys := Sorted(beforeKeys * afterKeys);
      WalkShared(before, after, keys, path, at);
      AppendJoined(start, own, WalkFields(before, after, keys, at));
    }

    method WalkShared(before: Json, after: Json, keys: seq<string>, path: string, ghost at: Path)
      requires path == Print(at) && before.Obj? && after.Obj?
      requires forall k :: k in keys ==> k in before.fields && k in after.fields
      modifies this
      ensures Contents() == Append(old(Contents()), WalkFields(before, after, keys, at))
      decreases before, 1
    {
      ghost var start := Contents();
      AppendNothing(start);
      for i := 0 to |keys|
        invariant forall k :: k in keys[..i] ==> k in keys
        invariant Contents() == Append(start, WalkFields(before, after, keys[..i], at))
      {
        var key := keys[i];
        assert key in keys && keys[..i + 1] == keys[..i] + [key];
        PointerPrints(at, key);
        WalkDiff(before.fields[key], after.fields[key], Pointer(path, key), at + [key]);
        OneMoreField(before, after, keys, i, at);
        AppendJoined(start, WalkFields(before, after, keys[..i], at),
                     Walk(before.fields[key], after.fields[key], at + [key]));
      }
      assert keys[..|keys|] == keys;
    }

    method WalkIndexes(before: Json, after: Json, path: string, ghost at: Path)
      requires path == Print(at) && before.Arr? && after.Arr?
      modifies this
      ensures Contents() == Append(old(Contents()), Walk(before, after, at))
      decreases before, 2
    {
      var common := Shorter(before.items, after.items);
      ghost var own := Tails(before, after, at);
      ghost var start := Contents();
      var gained := NoteItems(after.items, common, path, at);
      added := added + gained;
      var lost := NoteItems(before.items, common, path, at);
      removed := removed + lost;
      assert Contents() == Append(start, own);
      WalkCommon(before, after, common, path, at);
      AppendJoined(start, own, WalkItems(before, after, common, at));
    }

    method WalkCommon(before: Json, after: Json, common: nat, path: string, ghost at: Path)
      requires path == Print(at) && before.Arr? && after.Arr?
      requires common <= |before.items| && common <= |after.items|
      modifies this
      ensures Contents() == Append(old(Contents()), WalkItems(before, after, common, at))
      decreases before, 1
    {
      ghost var start := Contents();
      AppendNothing(start);
      for i := 0 to common
        invariant Contents() == Append(start, WalkItems(before, after, i, at))
      {
        PointerPrints(at, Decimal(i));
        WalkDiff(before.items[i], after.items[i], Pointer(path, Decimal(i)), at + [Decimal(i)]);
        ItemsStep(before, after, i + 1, at);
        AppendJoined(start, WalkItems(before, after, i, at), Walk(before.items[i], after.items[i], at + [Decimal(i)]));
      }
    }
  }

  /** `semantic_diff`: reports a change exactly when there is one, and enough to patch both ways. */
  method SemanticDiff(before: Json, after: Json) returns (hasChanges: bool, changes: Changes<string>)
    ensures hasChanges <==> before != after
    ensures Parsed(changes) == Walk(before, after, [])
    ensures Patch(before, Parsed(changes), []) == after
    ensures Patch(after, Mirror(Parsed(changes)), []) == before
  {
    var lists := new ChangeLists();
    lists.WalkDiff(before, after, "", []);
    changes := lists.Contents();
    hasChanges := changes.added != [] || changes.removed != [] || changes.modified != [];
    PrintedSays(before, after, changes);
  }

  lemma AppendToNothing(d: Changes<Path>)
    ensures Append(Changes([], [], []), d) == Printed(d)
  {
  }

  lemma PrintedSays(before: Json, after: Json, changes: Changes<string>)
    requires changes == Append(Changes([], [], []), Walk(before, after, []))
    ensures Parsed(changes) == Walk(before, after, [])
    ensures changes.added == [] && changes.removed == [] && changes.modified == [] <==> before == after
    ensures Patch(before, Parsed(changes), []) == after && Patch(after, Mirror(Parsed(changes)), []) == before
  {
    AppendToNothing(Walk(before, after, []));
    ParsePrinted(Walk(before, after, []));
    NoChangesExactlyWhenEqual(before, after);
    PatchRestores(before, after);
    MirrorUndoes(before, after);
  }
}
