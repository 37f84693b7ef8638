/**
  Plain JavaScript objects as the client sees them: an ordered list of
  (property name, value) pairs, iterated in insertion order the way
  `Object.keys` does for non-numeric names.
 */
module Fields {
  import opened Wrappers

  /** The values a caller may store in an item; the client never looks inside them. */
  datatype Value =
    | Null
    | Bool(b: bool)
    | Number(n: int)
    | Text(s: string)
    | List(items: seq<Value>)
    | Object(fields: seq<(string, Value)>)

  /** An object's own enumerable properties, in enumeration order. */
  type FieldMap = seq<(string, Value)>

  function KeysOf(m: FieldMap): seq<string>
  {
    seq(|m|, i requires 0 <= i < |m| => m[i].0)
  }

  /** A JavaScript object never holds the same property twice. */
  predicate UniqueKeys(m: FieldMap)
  {
    forall i, j :: 0 <= i < j < |m| ==> m[i].0 != m[j].0
  }

  /** Property read `m[k]`: the value stored under `k`, or `undefined` when there is none. */
  function Lookup(m: FieldMap, k: string): (r: Option<Value>)
    ensures r.None? <==> k !in KeysOf(m)
    ensures r.Some? ==> exists i :: 0 <= i < |m| && m[i] == (k, r.value)
  {
    if m == [] then None
    else if m[0].0 == k then
      assert KeysOf(m)[0] == k;
      Some(m[0].1)
    else
      var r := Lookup(m[1..], k);
      assert KeysOf(m) == [m[0].0] + KeysOf(m[1..]);
      assert r.Some? ==> exists i :: 0 <= i < |m[1..]| && m[1..][i] == (k, r.value);
      r
  }

  /**
    Property write `m[k] = v`: an existing property keeps its place and takes
    the new value; a new property is appended at the end.
   */
  function Assign(m: FieldMap, k: string, v: Value): (r: FieldMap)
  {
    if m == [] then [(k, v)]
    else if m[0].0 == k then [(k, v)] + m[1..]
    else [m[0]] + Assign(m[1..], k, v)
  }

  /** With unique keys, reading a property that is present gives its stored value. */
  lemma {:induction false} LookupAt(m: FieldMap, i: nat)
    requires UniqueKeys(m) && i < |m|
    ensures Lookup(m, m[i].0) == Some(m[i].1)
  {
    if i > 0 && m[0].0 != m[i].0 {
      LookupAt(m[1..], i - 1);
    }
  }

  /** After `m[k] = v` the property `k` reads `v` and every other property reads what it did before. */
  lemma {:induction false} AssignLookup(m: FieldMap, k: string, v: Value, k': string)
    ensures Lookup(Assign(m, k, v), k') == if k' == k then Some(v) else Lookup(m, k')
  {
    if m != [] && m[0].0 != k {
      AssignLookup(m[1..], k, v, k');
      assert Assign(m, k, v)[1..] == Assign(m[1..], k, v);
    }
  }

  /** `m[k] = v` keeps the order of the existing properties; a new name goes last. */
  lemma {:induction false} AssignKeys(m: FieldMap, k: string, v: Value)
    ensures KeysOf(Assign(m, k, v)) == if k in KeysOf(m) then KeysOf(m) else KeysOf(m) + [k]
  {
    var r := Assign(m, k, v);
    if m == [] {
    } else if m[0].0 == k {
      assert KeysOf(m) == [k] + KeysOf(m[1..]);
      assert KeysOf(r) == [k] + KeysOf(m[1..]);
    } else {
      AssignKeys(m[1..], k, v);
      assert r[1..] == Assign(m[1..], k, v);
      assert KeysOf(m) == [m[0].0] + KeysOf(m[1..]);
      assert KeysOf(r) == [m[0].0] + KeysOf(Assign(m[1..], k, v));
    }
  }

  /** `m[k] = v` never duplicates a property name. */
  lemma AssignUnique(m: FieldMap, k: string, v: Value)
    requires UniqueKeys(m)
    ensures UniqueKeys(Assign(m, k, v))
  {
    AssignKeys(m, k, v);
    var r := Assign(m, k, v);
    forall i, j | 0 <= i < j < |r| ensures r[i].0 != r[j].0 {
      assert r[i].0 == KeysOf(r)[i] && r[j].0 == KeysOf(r)[j];
      if j == |m| {
        assert KeysOf(r)[i] == KeysOf(m)[i];
      }
    }
  }

  /**
    A caller's object, which the client may change in place: `insert` and
    `updateByKey` write a timestamp property into the very object they were given.
   */
  class Document {
    var fields: FieldMap

    ghost predicate Valid()
      reads this
    {
      UniqueKeys(fields)
    }

    constructor(fields: FieldMap)
      ensures this.fields == fields
    {
      this.fields := fields;
    }

    /** `this[k] = v` */
    method Set(k: string, v: Value)
      modifies this
      ensures fields == Assign(old(fields), k, v)
      ensures old(Valid()) ==> Valid()
    {
      if Valid() {
        AssignUnique(fields, k, v);
      }
      fields := Assign(fields, k, v);
    }
  }
}
