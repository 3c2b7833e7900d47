/**
 * The builder state of class `DB` and its chained mutators. Every mutator
 * of the PHP class changes `$this` and returns it; here each is a pure
 * function from the state before the call to the state after it.
 */
module Builder {
  import opened Optional
  import opened Php
  import opened Assoc

  /**
   * The statement kind held in `$action`. `Unset` stands for the empty
   * string `init` stores and for any other string the public field may hold.
   */
  datatype Action = Unset | Select | Insert | Update | Delete | Count

  /** A `where` value: a scalar, or an array that renders as a bracketed list. */
  datatype WVal = One(v: Scalar) | Many(vs: seq<Scalar>)

  /** One entry of `$where`: column, operator and value. */
  datatype Pred = Pred(column: string, op: string, value: WVal)

  /** The fields of a `DB` instance that describe the statement under construction. */
  datatype State = State(
    prefix: string,                    // `$prefix`, set by the constructor, never reset
    table: string,                     // `$table`
    action: Action,                    // `$action`
    where: seq<Pred>,                  // `$where`, in registration order
    whereValues: seq<Scalar>,          // `$where_values`, the flattened predicate values
    orderBy: seq<(string, string)>,    // `$order_by`, column => direction
    data: seq<(string, Scalar)>        // `$data`, column => value
  )

  /** The values one `where` value contributes to `$where_values` (`array_merge` of a list or of `[v]`). */
  function Flat(w: WVal): seq<Scalar>
  {
    match w
    case One(v) => [v]
    case Many(vs) => vs
  }

  /** All predicate values, predicate by predicate, in registration order. */
  function Flatten(ps: seq<Pred>): seq<Scalar>
  {
    if |ps| == 0 then [] else Flat(ps[0].value) + Flatten(ps[1..])
  }

  /** Registering one more predicate extends the flattened values by that predicate's values. */
  lemma {:induction false} FlattenAppend(ps: seq<Pred>, p: Pred)
    ensures Flatten(ps + [p]) == Flatten(ps) + Flat(p.value)
  {
    if |ps| == 0 {
      assert ps + [p] == [p];
    } else {
      assert (ps + [p])[1..] == ps[1..] + [p];
      FlattenAppend(ps[1..], p);
    }
  }

  /**
   * What the mutators maintain: `$where_values` is exactly the flattening of
   * `$where`, and the two key-value fields, being PHP arrays, have distinct keys.
   */
  predicate Consistent(s: State)
  {
    && s.whereValues == Flatten(s.where)
    && DistinctKeys(s.orderBy)
    && DistinctKeys(s.data)
  }

  /** No statement state at all: the state `init` leaves behind. */
  predicate Blank(s: State)
  {
    && s.table == ""
    && s.action == Unset
    && s.where == []
    && s.whereValues == []
    && s.orderBy == []
    && s.data == []
  }

  /** `init`: forget the statement under construction, keep the prefix. */
  function Init(s: State): (r: State)
    ensures Blank(r) && Consistent(r)
    ensures r.prefix == s.prefix
  {
    State(s.prefix, "", Unset, [], [], [], [])
  }

  /** The statement fields of a freshly constructed `DB` (the connection itself is not modelled). */
  function New(prefix: string): (r: State)
    ensures Blank(r) && Consistent(r)
    ensures r.prefix == prefix
  {
    Init(State(prefix, "", Unset, [], [], [], [])).(prefix := prefix)
  }

  /** `__table(name)`: target `prefix + name` and default to SELECT. */
  function Table(s: State, name: string): (r: State)
    ensures r.table == s.prefix + name
    ensures r.action == Select
    ensures r.(table := s.table, action := s.action) == s
    ensures Consistent(s) ==> Consistent(r)
  {
    s.(table := s.prefix + name, action := Select)
  }

  /** `select()`: only the action changes. */
  function SelectAll(s: State): (r: State)
    ensures r.action == Select
    ensures r.(action := s.action) == s
    ensures Consistent(s) ==> Consistent(r)
  {
    s.(action := Select)
  }

  /** `delete()`: only the action changes. */
  function DeleteRows(s: State): (r: State)
    ensures r.action == Delete
    ensures r.(action := s.action) == s
    ensures Consistent(s) ==> Consistent(r)
  {
    s.(action := Delete)
  }

  /** `insert(data)`: the action and the payload change, nothing else. */
  function InsertRow(s: State, data: seq<(string, Scalar)>): (r: State)
    ensures r.action == Insert && r.data == data
    ensures r.(action := s.action, data := s.data) == s
    ensures Consistent(s) && DistinctKeys(data) ==> Consistent(r)
  {
    s.(action := Insert, data := data)
  }

  /** `update(data)`: the action and the payload change, nothing else. */
  function UpdateRows(s: State, data: seq<(string, Scalar)>): (r: State)
    ensures r.action == Update && r.data == data
    ensures r.(action := s.action, data := s.data) == s
    ensures Consistent(s) && DistinctKeys(data) ==> Consistent(r)
  {
    s.(action := Update, data := data)
  }

  /**
   * The operator text of the three-argument form: PHP concatenation
   * turns the argument into a string, and an array into "Array".
   */
  function OperatorText(w: WVal): string
  {
    match w
    case One(v) => ToText(v)
    case Many(_) => "Array"
  }

  /**
   * `where(column, operatorOrValue, value = null)`. A null third argument,
   * omitted or explicit, selects the two-argument form: operator `=` and
   * the second argument as the value. Otherwise the second argument is the
   * operator. Exactly one predicate is appended and its values are appended
   * to the flattened list.
   */
  function Where(s: State, column: string, operatorOrValue: WVal, value: WVal): (r: State)
    ensures |r.where| == |s.where| + 1 && r.where[..|s.where|] == s.where
    ensures r.where[|s.where|].column == column
    ensures value == One(Null) ==>
      r.where[|s.where|].op == "=" && r.where[|s.where|].value == operatorOrValue
    ensures value != One(Null) ==>
      r.where[|s.where|].op == OperatorText(operatorOrValue) && r.where[|s.where|].value == value
    ensures r.whereValues == s.whereValues + Flat(r.where[|s.where|].value)
    ensures r.(where := s.where, whereValues := s.whereValues) == s
    ensures Consistent(s) ==> Consistent(r)
  {
    var twoArg := value == One(Null);
    var op := if twoArg then "=" else OperatorText(operatorOrValue);
    var v := if twoArg then operatorOrValue else value;
    FlattenAppend(s.where, Pred(column, op, v));
    s.(where := s.where + [Pred(column, op, v)], whereValues := s.whereValues + Flat(v))
  }

  /** The direction `orderBy` uses when none is given. */
  const DefaultDirection := "ASC"

  /**
   * `orderBy(column, direction = "ASC")`: an unseen column is appended at
   * the end; a column already present keeps its position and only its
   * direction is overwritten.
   */
  function OrderBy(s: State, column: string, direction: Option<string>): (r: State)
    ensures column !in Keys(s.orderBy) ==>
      r.orderBy == s.orderBy + [(column, direction.GetOr(DefaultDirection))]
    ensures column in Keys(s.orderBy) ==>
      var i := First(s.orderBy, column);
      r.orderBy == s.orderBy[..i] + [(column, direction.GetOr(DefaultDirection))] + s.orderBy[i + 1..]
    ensures r.(orderBy := s.orderBy) == s
    ensures Consistent(s) ==> Consistent(r)
  {
    var d := direction.GetOr(DefaultDirection);
    OrderByFacts(s, column, d);
    s.(orderBy := Put(s.orderBy, column, d))
  }

  /** What `Put` does to the orderings, in the terms `OrderBy` states it. */
  lemma {:induction false} OrderByFacts(s: State, column: string, d: string)
    ensures column !in Keys(s.orderBy) ==> Put(s.orderBy, column, d) == s.orderBy + [(column, d)]
    ensures column in Keys(s.orderBy) ==>
      var i := First(s.orderBy, column);
      Put(s.orderBy, column, d) == s.orderBy[..i] + [(column, d)] + s.orderBy[i + 1..]
    ensures Consistent(s) ==> Consistent(s.(orderBy := Put(s.orderBy, column, d)))
  {
    PutShape(s.orderBy, column, d);
    PutDistinct(s.orderBy, column, d);
  }

  /** The ordered columns after `orderBy`: unchanged for a known column, one more at the end otherwise. */
  lemma {:induction false} OrderByKeys(s: State, column: string, direction: Option<string>)
    ensures Keys(OrderBy(s, column, direction).orderBy) ==
      if column in Keys(s.orderBy) then Keys(s.orderBy) else Keys(s.orderBy) + [column]
  {
    PutKeys(s.orderBy, column, direction.GetOr(DefaultDirection));
  }

  /** The direction recorded for the column is the one given (or ASC); other columns keep theirs. */
  lemma {:induction false} OrderByDirection(s: State, column: string, direction: Option<string>)
    ensures Get(OrderBy(s, column, direction).orderBy, column) == Some(direction.GetOr(DefaultDirection))
    ensures forall c :: c != column ==> Get(OrderBy(s, column, direction).orderBy, c) == Get(s.orderBy, c)
  {
    PutGet(s.orderBy, column, direction.GetOr(DefaultDirection));
  }

  /** The two calling conventions of `where`, seen from the predicate they record. */
  lemma {:induction false} WhereForms(s: State, column: string, op: string, value: WVal, v: WVal)
    requires value != One(Null)
    ensures Where(s, column, v, One(Null)).where == s.where + [Pred(column, "=", v)]
    ensures Where(s, column, One(Str(op)), value).where == s.where + [Pred(column, op, value)]
  {
    var r2 := Where(s, column, v, One(Null));
    var r3 := Where(s, column, One(Str(op)), value);
    assert r2.where == r2.where[..|s.where|] + [r2.where[|s.where|]];
    assert r3.where == r3.where[..|s.where|] + [r3.where[|s.where|]];
  }

  /** A chain of `where` calls leaves `$where_values` equal to the flattening of `$where`, in order. */
  lemma {:induction false} WhereChainConsistent(s: State, calls: seq<(string, WVal, WVal)>)
    requires Consistent(s)
    ensures Consistent(WhereChain(s, calls))
    ensures |WhereChain(s, calls).where| == |s.where| + |calls|
    decreases |calls|
  {
    if |calls| > 0 {
      WhereChainConsistent(Where(s, calls[0].0, calls[0].1, calls[0].2), calls[1..]);
    }
  }

  /** Apply `where(c, a, b)` for each `(c, a, b)` of `calls`, left to right. */
  function WhereChain(s: State, calls: seq<(string, WVal, WVal)>): State
    decreases |calls|
  {
    if |calls| == 0 then s else WhereChain(Where(s, calls[0].0, calls[0].1, calls[0].2), calls[1..])
  }

  /** `init` forgets everything but the prefix, so applying it twice is applying it once. */
  lemma {:induction false} InitIdempotent(s: State)
    ensures Init(Init(s)) == Init(s)
    ensures forall t: State :: t.prefix == s.prefix ==> Init(t) == Init(s)
  {
  }
}
