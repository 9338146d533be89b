/** JSON values, Python's equality on them, and RFC 6901 lookups. */
module JsonValues {
  import opened Ordering
  import opened JsonPointer

  /** A parsed JSON document. Numbers are exact rationals, so `1` and `1.0` are one value. */
  datatype Json =
    | Null
    | Bool(b: bool)
    | Num(n: real)
    | Str(s: string)
    | Arr(items: seq<Json>)
    | Obj(fields: map<string, Json>)

  predicate Has(value: Json, key: string) {
    value.Obj? && key in value.fields
  }

  function Get(value: Json, key: string): Json
    requires Has(value, key)
  {
    value.fields[key]
  }

  predicate HasNumber(value: Json, key: string) {
    Has(value, key) && Get(value, key).Num?
  }

  /** Keys of an object; a value of any other kind has none. */
  function Keys(value: Json): set<string> {
    if value.Obj? then value.fields.Keys else {}
  }

  predicate IsInteger(n: real) {
    n.Floor as real == n
  }

  /** Every value nested in `value`, itself included. */
  function SubValues(value: Json): (subs: set<Json>)
    ensures value in subs
  {
    {value} +
    match value
    case Arr(items) => set i, x | 0 <= i < |items| && x in SubValues(items[i]) :: x
    case Obj(fields) => set k, x | k in fields && x in SubValues(fields[k]) :: x
    case _ => {}
  }

  lemma {:induction false} SubValuesTransitive(outer: Json, inner: Json)
    requires inner in SubValues(outer)
    ensures SubValues(inner) <= SubValues(outer)
  {
    if inner == outer {
    } else {
      match outer
      case Arr(items) =>
        var i :| 0 <= i < |items| && inner in SubValues(items[i]);
        SubValuesTransitive(items[i], inner);
      case Obj(fields) =>
        var k :| k in fields && inner in SubValues(fields[k]);
        SubValuesTransitive(fields[k], inner);
    }
  }

  /** Every string value nested in `value`; object keys do not count. */
  function Strings(value: Json): set<string> {
    set x | x in SubValues(value) && x.Str? :: x.s
  }

  lemma StringsOfList(items: seq<Json>)
    ensures Strings(Arr(items)) == set i, s | 0 <= i < |items| && s in Strings(items[i]) :: s
  {
    forall s ensures s in Strings(Arr(items)) <==> exists i :: 0 <= i < |items| && s in Strings(items[i]) {
      if s in Strings(Arr(items)) {
        var i :| 0 <= i < |items| && Str(s) in SubValues(items[i]);
        assert s in Strings(items[i]);
      }
      if i :| 0 <= i < |items| && s in Strings(items[i]) {
        assert Str(s) in SubValues(items[i]);
        assert Str(s) in SubValues(Arr(items));
      }
    }
  }

  lemma StringsOfFields(fields: map<string, Json>)
    ensures Strings(Obj(fields)) == set k, s | k in fields && s in Strings(fields[k]) :: s
  {
    forall s ensures s in Strings(Obj(fields)) <==> exists k :: k in fields && s in Strings(fields[k]) {
      if s in Strings(Obj(fields)) {
        var k :| k in fields && Str(s) in SubValues(fields[k]);
        assert s in Strings(fields[k]);
      }
      if k :| k in fields && s in Strings(fields[k]) {
        assert Str(s) in SubValues(fields[k]);
        assert Str(s) in SubValues(Obj(fields));
      }
    }
  }

  // ---------- Python's == ----------

  /** The representative Python's `==` compares: a Boolean is the number 0 or 1. */
  function Normal(value: Json): Json {
    match value
    case Bool(b) => Num(if b then 1.0 else 0.0)
    case Arr(items) => Arr(seq(|items|, i requires 0 <= i < |items| => Normal(items[i])))
    case Obj(fields) => Obj(map k | k in fields :: Normal(fields[k]))
    case _ => value
  }

  /** `a == b` on parsed JSON: true JSON equality except that `True == 1` and `False == 0`. */
  predicate PyEqual(a: Json, b: Json) {
    Normal(a) == Normal(b)
  }

  // ---------- Lookups ----------

  /** One step of `_resolve_pointer`. */
  function Child(value: Json, token: string): Option<Json> {
    match value
    case Obj(fields) => if token in fields then Some(fields[token]) else None
    case Arr(items) =>
      if IsIndex(token) && IndexOf(token) < |items| then Some(items[IndexOf(token)]) else None
    case _ => None
  }

  /** The value at a token path, if there is one. */
  function Lookup(value: Json, tokens: seq<string>): Option<Json>
    decreases |tokens|
  {
    if tokens == [] then Some(value)
    else
      match Child(value, tokens[0])
      case None => None
      case Some(next) => Lookup(next, tokens[1..])
  }

  lemma LookupOne(value: Json, token: string)
    ensures Lookup(value, [token]) == Child(value, token)
  {
    assert [token][1..] == [];
  }

  lemma {:induction false} LookupSplit(value: Json, front: seq<string>, back: seq<string>)
    ensures Lookup(value, front + back)
         == match Lookup(value, front) { case None => None case Some(mid) => Lookup(mid, back) }
    decreases |front|
  {
    if front == [] {
      assert front + back == back;
    } else {
      assert (front + back)[1..] == front[1..] + back;
      match Child(value, front[0])
      case None =>
      case Some(next) => LookupSplit(next, front[1..], back);
    }
  }

  /** `_resolve_pointer`: `None` where the source raises `LookupError`. */
  method ResolvePointer(document: Json, pointer: string) returns (result: Option<Json>)
    requires pointer != ""
    ensures result == Lookup(document, Tokens(pointer[1..]))
  {
    var tokens := Tokens(pointer[1..]);
    var current := document;
    var i := 0;
    while i < |tokens|
      invariant 0 <= i <= |tokens|
      invariant Lookup(document, tokens) == Lookup(current, tokens[i..])
    {
      var token := tokens[i];
      assert tokens[i..][1..] == tokens[i + 1..];
      if current.Obj? && token in current.fields {
        current := current.fields[token];
      } else if current.Arr? {
        if !IsIndex(token) || IndexOf(token) >= |current.items| {
          return None;
        }
        current := current.items[IndexOf(token)];
      } else {
        return None;
      }
      i := i + 1;
    }
    result := Some(current);
  }
}
