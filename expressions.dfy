/**
  `DynamoDB._generateExpression`: turns an object of attribute conditions or
  updates into a DynamoDB expression that refers to attributes only through
  placeholders: `#i` for the i-th attribute name and `:vali` for its value.
 */
module Expressions {
  import opened Wrappers
  import opened Fields
  import opened Text

  /**
    The three parts handed to DynamoDB: the expression text (`data`), the
    `ExpressionAttributeValues` object and the `ExpressionAttributeNames` object.
    A value of `None` is a property that is present and holds `undefined`.
   */
  datatype Expression = Expression(
    data: string,
    values: map<string, Option<Value>>,
    names: map<string, string>)

  function Placeholder(prefix: string, i: nat): string
  {
    prefix + Decimal(i)
  }

  /** `#i`, the placeholder for the i-th attribute name. */
  function NameKey(i: nat): string
  {
    Placeholder("#", i)
  }

  /** `:vali`, the placeholder for the i-th attribute value. */
  function ValueKey(i: nat): string
  {
    Placeholder(":val", i)
  }

  /** Distinct indices give distinct placeholders. */
  lemma PlaceholderInjective(prefix: string, i: nat, j: nat)
    requires Placeholder(prefix, i) == Placeholder(prefix, j)
    ensures i == j
  {
    assert Decimal(i) == Placeholder(prefix, i)[|prefix|..];
    assert Decimal(j) == Placeholder(prefix, j)[|prefix|..];
    DecimalInjective(i, j);
  }

  /** The i-th sub-clause, `#i = :vali`. */
  function SubClause(i: nat): string
  {
    NameKey(i) + " = " + ValueKey(i)
  }

  /** The sub-clauses of an object with `n` properties, in property order. */
  function SubClauses(n: nat): (r: seq<string>)
    ensures |r| == n
    ensures forall i :: 0 <= i < n ==> r[i] == SubClause(i)
  {
    if n == 0 then [] else SubClauses(n - 1) + [SubClause(n - 1)]
  }

  /** `Array.prototype.join`: the parts with `sep` between neighbours; no parts give "". */
  function Join(parts: seq<string>, sep: string): string
  {
    if |parts| == 0 then ""
    else if |parts| == 1 then parts[0]
    else parts[0] + sep + Join(parts[1..], sep)
  }

  /** The expression text for `n` properties: the sub-clauses joined by `' ' + sep + ' '`. */
  function Clause(n: nat, sep: string): string
  {
    Join(SubClauses(n), " " + sep + " ")
  }

  /** `ExpressionAttributeNames` after the first `k` properties: `#i` is the i-th name, sanitised. */
  function NamesUpTo(data: FieldMap, k: nat): map<string, string>
    requires k <= |data|
  {
    if k == 0 then map[]
    else NamesUpTo(data, k - 1)[NameKey(k - 1) := Sanitize(data[k - 1].0)]
  }

  /**
    `ExpressionAttributeValues` after the first `k` properties: `:vali` is the
    object's value read under the SANITISED i-th name, as the source does.
   */
  function ValuesUpTo(data: FieldMap, k: nat): map<string, Option<Value>>
    requires k <= |data|
  {
    if k == 0 then map[]
    else ValuesUpTo(data, k - 1)[ValueKey(k - 1) := Lookup(data, Sanitize(data[k - 1].0))]
  }

  /** The expression `_generateExpression(data, sep)` returns. */
  function ExpressionOf(data: FieldMap, sep: string): Expression
  {
    Expression(Clause(|data|, sep), ValuesUpTo(data, |data|), NamesUpTo(data, |data|))
  }

  /**
    The loop of `_generateExpression`: for each property, in order, push the
    sub-clause and record the value and name placeholders; then join.
   */
  method GenerateExpression(data: FieldMap, sep: string) returns (e: Expression)
    ensures e == ExpressionOf(data, sep)
  {
    var expressionData: seq<string> := [];
    var values: map<string, Option<Value>> := map[];
    var names: map<string, string> := map[];
    var index := 0;
    while index < |data|
      invariant index <= |data|
      invariant expressionData == SubClauses(index)
      invariant values == ValuesUpTo(data, index)
      invariant names == NamesUpTo(data, index)
    {
      var key := Sanitize(data[index].0);
      var name, value := "#" + Decimal(index), ":val" + Decimal(index);
      expressionData := expressionData + [name + " = " + value];
      values := values[value := Lookup(data, key)];
      names := names[name := key];
      index := index + 1;
    }
    e := Expression(Join(expressionData, " " + sep + " "), values, names);
  }

  /** Entry i of both side maps is in place once the loop has passed property i. */
  lemma {:induction false} EntriesUpTo(data: FieldMap, k: nat, i: nat)
    requires i < k <= |data|
    ensures NameKey(i) in NamesUpTo(data, k)
    ensures NamesUpTo(data, k)[NameKey(i)] == Sanitize(data[i].0)
    ensures ValueKey(i) in ValuesUpTo(data, k)
    ensures ValuesUpTo(data, k)[ValueKey(i)] == Lookup(data, Sanitize(data[i].0))
  {
    if i < k - 1 {
      EntriesUpTo(data, k - 1, i);
      if NameKey(i) == NameKey(k - 1) {
        PlaceholderInjective("#", i, k - 1);
      }
      if ValueKey(i) == ValueKey(k - 1) {
        PlaceholderInjective(":val", i, k - 1);
      }
    }
  }

  /** After `k` properties each side map holds exactly the placeholders 0..k-1. */
  lemma {:induction false} KeysUpTo(data: FieldMap, k: nat)
    requires k <= |data|
    ensures forall p :: p in NamesUpTo(data, k) ==> exists i :: 0 <= i < k && p == NameKey(i)
    ensures forall p :: p in ValuesUpTo(data, k) ==> exists i :: 0 <= i < k && p == ValueKey(i)
    ensures |NamesUpTo(data, k)| == k
    ensures |ValuesUpTo(data, k)| == k
  {
    if k > 0 {
      KeysUpTo(data, k - 1);
      if NameKey(k - 1) in NamesUpTo(data, k - 1) {
        var i :| 0 <= i < k - 1 && NameKey(k - 1) == NameKey(i);
        PlaceholderInjective("#", i, k - 1);
      }
      if ValueKey(k - 1) in ValuesUpTo(data, k - 1) {
        var i :| 0 <= i < k - 1 && ValueKey(k - 1) == ValueKey(i);
        PlaceholderInjective(":val", i, k - 1);
      }
    }
  }

  /**
    For an object with n properties the expression has exactly n name and n
    value placeholders, `#0..#(n-1)` and `:val0..:val(n-1)`, and placeholder i
    belongs to the i-th property.
   */
  lemma ExpressionPlaceholders(data: FieldMap, sep: string)
    ensures |ExpressionOf(data, sep).names| == |data|
    ensures |ExpressionOf(data, sep).values| == |data|
    ensures forall p :: p in ExpressionOf(data, sep).names <==> exists i :: 0 <= i < |data| && p == NameKey(i)
    ensures forall p :: p in ExpressionOf(data, sep).values <==> exists i :: 0 <= i < |data| && p == ValueKey(i)
  {
    KeysUpTo(data, |data|);
    forall i | 0 <= i < |data| {
      EntriesUpTo(data, |data|, i);
    }
  }

  /** Name placeholder i stands for the i-th property name with every non-letter removed. */
  lemma ExpressionNames(data: FieldMap, sep: string, i: nat)
    requires i < |data|
    ensures NameKey(i) in ExpressionOf(data, sep).names
    ensures ExpressionOf(data, sep).names[NameKey(i)] == Sanitize(data[i].0)
    ensures IsLetters(ExpressionOf(data, sep).names[NameKey(i)])
  {
    EntriesUpTo(data, |data|, i);
  }

  /**
    Value placeholder i holds what the object stores under the SANITISED i-th
    name: the property's own value when its name is letters only, and
    `undefined` when the sanitised name is not a property of the object.
   */
  lemma ExpressionValues(data: FieldMap, sep: string, i: nat)
    requires i < |data|
    ensures ValueKey(i) in ExpressionOf(data, sep).values
    ensures ExpressionOf(data, sep).values[ValueKey(i)] == Lookup(data, Sanitize(data[i].0))
    ensures UniqueKeys(data) && IsLetters(data[i].0) ==> ExpressionOf(data, sep).values[ValueKey(i)] == Some(data[i].1)
    ensures Sanitize(data[i].0) !in KeysOf(data) ==> ExpressionOf(data, sep).values[ValueKey(i)] == None
  {
    EntriesUpTo(data, |data|, i);
    if UniqueKeys(data) && IsLetters(data[i].0) {
      LookupAt(data, i);
    }
  }

  /**
    Two properties whose names sanitise to the same string still get distinct
    placeholders; only the names they stand for coincide.
   */
  lemma CollidingNames(data: FieldMap, sep: string, i: nat, j: nat)
    requires i < j < |data|
    requires Sanitize(data[i].0) == Sanitize(data[j].0)
    ensures NameKey(i) != NameKey(j) && ValueKey(i) != ValueKey(j)
    ensures NameKey(i) in ExpressionOf(data, sep).names && NameKey(j) in ExpressionOf(data, sep).names
    ensures ExpressionOf(data, sep).names[NameKey(i)] == ExpressionOf(data, sep).names[NameKey(j)]
  {
    ExpressionNames(data, sep, i);
    ExpressionNames(data, sep, j);
    if NameKey(i) == NameKey(j) {
      PlaceholderInjective("#", i, j);
    }
    if ValueKey(i) == ValueKey(j) {
      PlaceholderInjective(":val", i, j);
    }
  }

  /** An object without properties gives an empty expression text and empty side maps. */
  lemma EmptyExpression(sep: string)
    ensures ExpressionOf([], sep) == Expression("", map[], map[])
  {
  }

  /** A character of a join comes from the separator or from one of the parts. */
  lemma {:induction false} JoinChars(parts: seq<string>, sep: string, c: char)
    requires c in Join(parts, sep)
    ensures c in sep || exists i :: 0 <= i < |parts| && c in parts[i]
  {
    if |parts| > 1 && c !in parts[0] && c !in sep {
      JoinChars(parts[1..], sep, c);
      var i :| 0 <= i < |parts[1..]| && c in parts[1..][i];
      assert c in parts[i + 1];
    }
  }

  /** The characters placeholders and sub-clauses are made of. */
  predicate PlaceholderChar(c: char)
  {
    c in "#:=alv " || IsDigit(c)
  }

  /**
    The expression text is built from placeholders and the separator only: no
    attribute name and no attribute value is ever written into it.
   */
  lemma ClauseAlphabet(n: nat, sep: string, c: char)
    requires c in Clause(n, sep)
    ensures PlaceholderChar(c) || c in sep
  {
    JoinChars(SubClauses(n), " " + sep + " ", c);
    if c !in " " + sep + " " {
      var i :| 0 <= i < n && c in SubClauses(n)[i];
      assert c in "#" || c in Decimal(i) || c in " = " || c in ":val";
    }
  }

  lemma FirstSubClauses()
    ensures SubClause(0) == "#0 = :val0" && SubClause(1) == "#1 = :val1"
  {
  }

  /** The filter text `getWhere` (separator "AND") produces for two properties. */
  lemma FilterClauseExample()
    ensures Clause(2, "AND") == "#0 = :val0 AND #1 = :val1"
  {
    FirstSubClauses();
    var parts := SubClauses(2);
    assert parts[1..] == [SubClause(1)];
    assert " " + "AND" + " " == " AND ";
    assert Join(parts, " AND ") == SubClause(0) + " AND " + SubClause(1);
  }

  /** The update text `updateByKey` (separator ",") produces for one and two properties. */
  lemma UpdateClauseExamples()
    ensures Clause(1, ",") == "#0 = :val0"
    ensures Clause(2, ",") == "#0 = :val0 , #1 = :val1"
  {
    FirstSubClauses();
    var parts := SubClauses(2);
    assert parts[1..] == [SubClause(1)];
    assert " " + "," + " " == " , ";
    assert Join(parts, " , ") == SubClause(0) + " , " + SubClause(1);
    assert SubClauses(1) == [SubClause(0)];
  }

  /**
    A property whose name has non-letters is sent under its sanitised name and
    with an `undefined` value, since the object has no property of that name.
   */
  lemma SanitisedLookupExample()
    ensures ExpressionOf([("user_id", Text("u1"))], ",")
         == Expression("#0 = :val0", map[":val0" := None], map["#0" := "userid"])
  {
    var data := [("user_id", Text("u1"))];
    assert Sanitize("user_id") == "userid" by {
      SanitizeConcat("user", "_id");
      assert "user" + "_id" == "user_id";
      assert Sanitize("_id") == "id";
    }
    assert KeysOf(data) == ["user_id"];
    assert Lookup(data, "userid") == None;
    assert Decimal(0) == "0" && NameKey(0) == "#0" && ValueKey(0) == ":val0";
    assert NamesUpTo(data, 1) == map["#0" := "userid"];
    assert ValuesUpTo(data, 1) == map[":val0" := None];
    UpdateClauseExamples();
  }
}
