/**
 * The pure part of `run()`: which value list is handed to `execute` for
 * each action, whether `execute` is reached at all, what is returned, and
 * that the builder is reset on a normal return. The PDO connection and
 * statement are an oracle passed in as a parameter.
 */
module Execute {
  import opened Optional
  import opened Php
  import opened Assoc
  import opened Builder
  import opened Render
  import opened Fragments

  /** A fetched row, column name to value. */
  type Row = seq<(string, Scalar)>

  /**
   * The answers of the PDO connection for one rendered statement `sql`:
   * whether `prepare` succeeds, whether `execute` with the given values
   * succeeds, and what the fetch calls and `lastInsertID` then produce.
   */
  datatype Driver = Driver(
    prepare: string -> bool,
    execute: (string, seq<Scalar>) -> bool,
    fetchAll: (string, seq<Scalar>, string) -> seq<Row>,   // rows mapped to the named class
    fetchColumn: (string, seq<Scalar>) -> int,              // first column, after the `(int)` cast
    lastInsertId: string
  )

  /** What `run()` returns: `false`, the fetched rows, the new id, an execute flag or a count. */
  datatype RunValue = Flag(b: bool) | Rows(rows: seq<Row>) | InsertId(id: string) | Counted(n: int)

  /**
   * How `run()` ends: it throws (leaving the builder as it was), or it
   * returns a value, having handed `executed` to `execute` (None when
   * `execute` was never called), with the builder reset.
   */
  datatype Outcome =
    | Threw(fault: Fault, state: State)
    | Returned(value: RunValue, executed: Option<seq<Scalar>>, state: State)

  /**
   * The value list `run()` hands to `execute`, or None when it never calls
   * it: an unknown action, or INSERT/UPDATE with an empty payload (the
   * `$this->data &&` guard).
   */
  function Params(s: State): (r: Option<seq<Scalar>>)
    ensures r.None? <==>
      s.action == Unset || ((s.action == Insert || s.action == Update) && |s.data| == 0)
  {
    match s.action
    case Select => Some(s.whereValues)
    case Insert => if |s.data| == 0 then None else Some(Values(s.data))
    case Update => if |s.data| == 0 then None else Some(Values(s.data) + s.whereValues)
    case Delete => Some(s.whereValues)
    case Count => Some(s.whereValues)
    case Unset => None
  }

  /** The value `run()` returns once `execute(params)` has been called on `sql`. */
  function Answer(s: State, db: Driver, sql: string, params: seq<Scalar>, classname: string): RunValue
  {
    var ok := db.execute(sql, params);
    match s.action
    case Select => if ok then Rows(db.fetchAll(sql, params, classname)) else Flag(false)
    case Insert => if ok then InsertId(db.lastInsertId) else Flag(false)
    case Count => if ok then Counted(db.fetchColumn(sql, params)) else Flag(false)
    case _ => Flag(ok)
  }

  /** `run(classname)`: render, prepare, execute with the selected values, reset. */
  function Run(s: State, db: Driver, classname: string): (r: Outcome)
    ensures r.Returned? <==> ToSql(s).Success? && db.prepare(ToSql(s).value)
    ensures r.Threw? ==> r.state == s
    ensures r.Threw? && ToSql(s).Failure? ==> r.fault == NegativeRepeatCount
    ensures r.Threw? && ToSql(s).Success? ==> r.fault == PrepareFailed
    ensures r.Returned? ==> Blank(r.state) && r.state.prefix == s.prefix
    ensures r.Returned? ==> r.executed == Params(s)
    ensures r.Returned? && r.executed.None? ==> r.value == Flag(false)
    ensures r.Returned? && r.executed.Some? && !db.execute(ToSql(s).value, r.executed.value) ==>
      r.value == Flag(false)
    ensures r.Returned? && r.executed.Some? && db.execute(ToSql(s).value, r.executed.value) ==>
      var sql, p := ToSql(s).value, r.executed.value;
      match s.action
      case Select => r.value == Rows(db.fetchAll(sql, p, classname))
      case Insert => r.value == InsertId(db.lastInsertId)
      case Count => r.value == Counted(db.fetchColumn(sql, p))
      case _ => r.value == Flag(true)
  {
    match ToSql(s)
    case Failure(e) => Threw(e, s)
    case Success(sql) =>
      if !db.prepare(sql) then Threw(PrepareFailed, s)
      else
        var p := Params(s);
        var value := if p.None? then Flag(false) else Answer(s, db, sql, p.value, classname);
        Returned(value, p, Init(s))
  }

  /**
   * The central invariant: for a consistent state whose names hold no `?`,
   * the bound values are exactly the values of the placeholders of the
   * rendered SQL, in the order the placeholders appear, so the number of
   * `?` equals the number of bound values. INSERT binds only its payload,
   * so there it holds when no predicate was added.
   */
  lemma {:induction false} PlaceholdersMatchParams(s: State)
    requires Consistent(s) && NamesClean(s) && Renderable(s) && Params(s).Some?
    requires s.action == Insert ==> s.where == []
    ensures ToSql(s) == Success(Text(Frags(s)))
    ensures Holes(Frags(s)) == Params(s).value
    ensures Occurrences('?', Text(Frags(s))) == |Params(s).value|
  {
    FragsMatchToSql(s);
    CountHoles(Frags(s));
  }

  /**
   * Whatever the action, the rendered SQL has one `?` per payload value
   * of an INSERT or non-empty UPDATE plus one per predicate value. For an
   * INSERT that also has predicates this is more than `run()` binds.
   */
  lemma {:induction false} PlaceholderCount(s: State)
    requires Consistent(s) && NamesClean(s) && ToSql(s).Success?
    requires s.action == Update ==> |s.data| >= 1
    ensures Occurrences('?', ToSql(s).value) == |HeadValues(s)| + |s.whereValues|
    ensures s.action == Insert ==>
      Occurrences('?', ToSql(s).value) == |Params(s).value| + |s.whereValues|
  {
    FragsMatchToSql(s);
    CountHoles(Frags(s));
  }

  /** For each action, the values `run()` binds and where they come from. */
  lemma {:induction false} ParamsByAction(s: State)
    ensures s.action == Select || s.action == Delete || s.action == Count ==>
      Params(s) == Some(s.whereValues)
    ensures s.action == Insert && |s.data| >= 1 ==> Params(s) == Some(Values(s.data))
    ensures s.action == Update && |s.data| >= 1 ==>
      Params(s) == Some(Values(s.data) + s.whereValues)
    ensures Consistent(s) && Params(s).Some? && s.action != Insert ==>
      Params(s).value == HeadValues(s) + Flatten(s.where)
  {
  }

  /** After a normal return, a second `run()` renders the empty statement and never executes. */
  lemma {:induction false} NothingSurvivesRun(s: State, db: Driver, db': Driver, classname: string)
    requires Run(s, db, classname).Returned?
    requires db'.prepare("")
    ensures ToSql(Run(s, db, classname).state) == Success("")
    ensures Run(Run(s, db, classname).state, db', classname) ==
      Returned(Flag(false), None, Run(s, db, classname).state)
  {
  }

  /** An INSERT with an empty payload throws while rendering: `execute` is never reached. */
  lemma {:induction false} EmptyInsertThrows(s: State, db: Driver, classname: string)
    requires s.action == Insert && |s.data| == 0
    ensures Run(s, db, classname) == Threw(NegativeRepeatCount, s)
  {
  }

  /** An UPDATE with an empty payload that prepares returns false without executing. */
  lemma {:induction false} EmptyUpdateReturnsFalse(s: State, db: Driver, classname: string)
    requires s.action == Update && |s.data| == 0 && NoEmptyList(s.where)
    requires db.prepare(ToSql(s).value)
    ensures Run(s, db, classname) == Returned(Flag(false), None, Init(s))
  {
  }
}
