/**
 * Concrete builder chains and the SQL and bound values they produce,
 * including the rendering quirks of `DB::toSql`: the UPDATE backticks,
 * the missing ` AND ` after a list predicate and the missing separator
 * between ORDER BY entries.
 */
module Examples {
  import opened Optional
  import opened Php
  import opened Assoc
  import opened Builder
  import opened Render
  import opened Execute

  /** `DB::table("users")` on a builder with prefix "p_". */
  function Users(): (s: State)
    ensures s.table == "p_users" && s.action == Select
    ensures s.where == [] && s.whereValues == [] && s.orderBy == [] && s.data == []
  {
    Table(New("p_"), "users")
  }

  lemma {:induction false} SelectWithoutClauses()
    ensures ToSql(Users()) == Success("SELECT * FROM p_users")
    ensures Params(Users()) == Some([])
  {
    assert Head(Users()) == "SELECT * FROM p_users";
  }

  lemma {:induction false} InsertTwoColumns()
    ensures var s := InsertRow(Users(), [("a", Int(1)), ("b", Int(2))]);
      ToSql(s) == Success("INSERT INTO p_users(`a`,`b`) VALUES (?,?)")
      && Params(s) == Some([Int(1), Int(2)])
  {
    var d := [("a", Int(1)), ("b", Int(2))];
    var s := InsertRow(Users(), d);
    assert s == State("p_", "p_users", Insert, [], [], [], d);
    InsertHead();
    assert Values(d) == [Int(1), Int(2)];
  }

  lemma {:induction false} InsertHead()
    ensures Head(State("p_", "p_users", Insert, [], [], [], [("a", Int(1)), ("b", Int(2))]))
      == "INSERT INTO p_users(`a`,`b`) VALUES (?,?)"
  {
    var d := [("a", Int(1)), ("b", Int(2))];
    assert Keys(d) == ["a", "b"];
    assert Implode("`,`", ["a", "b"]) == "a`,`b";
    assert StrRepeat(",?", 1) == ",?";
    assert Placeholders(2) == "?,?";
    InsertText();
  }

  lemma {:induction false} InsertText()
    ensures "INSERT INTO " + "p_users" + "(`" + "a`,`b" + "`) VALUES (" + "?,?" + ")"
      == "INSERT INTO p_users(`a`,`b`) VALUES (?,?)"
  {
  }

  /** The SELECT head of any state on the "p_users" table. */
  lemma {:induction false} SelectHead(s: State)
    requires s.action == Select && s.table == "p_users"
    ensures Head(s) == "SELECT * FROM p_users"
  {
  }

  /** A renderable state's SQL is its head, WHERE clause and ORDER BY clause, in that order. */
  lemma {:induction false} Assemble(s: State, h: string, w: string, o: string)
    requires Renderable(s) && Head(s) == h && WhereClause(s.where) == w && OrderClause(s.orderBy) == o
    ensures ToSql(s) == Success(h + w + o)
  {
  }

  lemma {:induction false} UpdateHead(s: State)
    requires s.action == Update && s.table == "p_users" && s.data == [("a", Int(1)), ("b", Int(2))]
    ensures Head(s) == "UPDATE p_users SET `a = ?`, `b` = ?"
  {
    var d := [("a", Int(1)), ("b", Int(2))];
    assert Keys(d) == ["a", "b"];
    UpdateKeys();
    UpdateHeadText();
  }

  lemma {:induction false} UpdateKeys()
    ensures Implode(" = ?`, `", ["a", "b"]) == "a = ?`, `b"
  {
    assert ["a", "b"][1..] == ["b"];
    assert Implode(" = ?`, `", ["a", "b"]) == "a" + " = ?`, `" + "b";
  }

  lemma {:induction false} UpdateHeadText()
    ensures "UPDATE " + "p_users" + " SET `" + "a = ?`, `b" + "` = ?" == "UPDATE p_users SET `a = ?`, `b` = ?"
  {
  }

  lemma {:induction false} IdEqualsClause()
    ensures WhereClause([Pred("id", "=", One(Int(5)))]) == " WHERE id = ?"
  {
    var p := Pred("id", "=", One(Int(5)));
    assert WhereTerm(p, true) == "id" + " " + "=" + (" ?" + "");
    assert WhereTerms([p]) == WhereTerm(p, true) + WhereTerms([]);
  }

  /** `where(column, op, v)` with a string operator and a non-null scalar. */
  lemma {:induction false} OperatorWhere(s: State, column: string, op: string, v: WVal)
    requires v != One(Null)
    ensures Where(s, column, One(Str(op)), v)
      == s.(where := s.where + [Pred(column, op, v)], whereValues := s.whereValues + Flat(v))
  {
    assert OperatorText(One(Str(op))) == op;
  }

  /** `where(column, v)`: the two-argument form. */
  lemma {:induction false} EqualsWhere(s: State, column: string, v: Scalar)
    ensures Where(s, column, One(v), One(Null))
      == s.(where := s.where + [Pred(column, "=", One(v))], whereValues := s.whereValues + [v])
  {
  }

  lemma {:induction false} UpdateChain()
    ensures Where(UpdateRows(Users(), [("a", Int(1)), ("b", Int(2))]), "id", One(Str("=")), One(Int(5)))
      == State("p_", "p_users", Update, [Pred("id", "=", One(Int(5)))], [Int(5)], [], [("a", Int(1)), ("b", Int(2))])
  {
    var d := [("a", Int(1)), ("b", Int(2))];
    var s := UpdateRows(Users(), d);
    assert s == State("p_", "p_users", Update, [], [], [], d);
    OperatorWhere(s, "id", "=", One(Int(5)));
  }

  lemma {:induction false} UpdateWithPredicate()
    ensures var s := Where(UpdateRows(Users(), [("a", Int(1)), ("b", Int(2))]), "id", One(Str("=")), One(Int(5)));
      ToSql(s) == Success("UPDATE p_users SET `a = ?`, `b` = ? WHERE id = ?")
      && Params(s) == Some([Int(1), Int(2), Int(5)])
  {
    var d := [("a", Int(1)), ("b", Int(2))];
    var s := State("p_", "p_users", Update, [Pred("id", "=", One(Int(5)))], [Int(5)], [], d);
    UpdateChain();
    UpdateHead(s);
    IdEqualsClause();
    Assemble(s, "UPDATE p_users SET `a = ?`, `b` = ?", " WHERE id = ?", "");
    UpdateText();
    UpdateParams();
  }

  lemma {:induction false} UpdateText()
    ensures "UPDATE p_users SET `a = ?`, `b` = ?" + " WHERE id = ?" + ""
      == "UPDATE p_users SET `a = ?`, `b` = ? WHERE id = ?"
  {
  }

  lemma {:induction false} UpdateParams()
    ensures Params(State("p_", "p_users", Update, [Pred("id", "=", One(Int(5)))], [Int(5)], [], [("a", Int(1)), ("b", Int(2))]))
      == Some([Int(1), Int(2), Int(5)])
  {
    var vs := Values([("a", Int(1)), ("b", Int(2))]);
    assert vs == [Int(1), Int(2)];
    assert vs + [Int(5)] == [Int(1), Int(2), Int(5)];
  }

  lemma {:induction false} ScalarPairClause()
    ensures WhereClause([Pred("x", "=", One(Int(1))), Pred("y", ">", One(Int(2)))])
      == " WHERE x = ? AND y > ?"
  {
    var p, q := Pred("x", "=", One(Int(1))), Pred("y", ">", One(Int(2)));
    assert WhereTerm(p, false) == "x = ? AND ";
    assert WhereTerm(q, true) == "y > ?";
    assert [p, q][1..] == [q];
    assert WhereTerms([q]) == "y > ?" + WhereTerms([]);
    assert WhereTerms([p, q]) == "x = ? AND " + "y > ?";
  }

  lemma {:induction false} ScalarPredicatesJoinedByAnd()
    ensures var s := Where(Where(Users(), "x", One(Int(1)), One(Null)), "y", One(Str(">")), One(Int(2)));
      ToSql(s) == Success("SELECT * FROM p_users WHERE x = ? AND y > ?")
      && Params(s) == Some([Int(1), Int(2)])
  {
    var ps := [Pred("x", "=", One(Int(1))), Pred("y", ">", One(Int(2)))];
    var s := State("p_", "p_users", Select, ps, [Int(1), Int(2)], [], []);
    ScalarChain();
    ScalarPairClause();
    SelectHead(s);
    Assemble(s, "SELECT * FROM p_users", " WHERE x = ? AND y > ?", "");
    ScalarText();
  }

  lemma {:induction false} ScalarChain()
    ensures Where(Where(Users(), "x", One(Int(1)), One(Null)), "y", One(Str(">")), One(Int(2)))
      == State("p_", "p_users", Select, [Pred("x", "=", One(Int(1))), Pred("y", ">", One(Int(2)))], [Int(1), Int(2)], [], [])
  {
    var s0 := Users();
    EqualsWhere(s0, "x", Int(1));
    var s1 := Where(s0, "x", One(Int(1)), One(Null));
    assert s1 == State("p_", "p_users", Select, [Pred("x", "=", One(Int(1)))], [Int(1)], [], []);
    OperatorWhere(s1, "y", ">", One(Int(2)));
  }

  lemma {:induction false} ScalarText()
    ensures "SELECT * FROM p_users" + " WHERE x = ? AND y > ?" + "" == "SELECT * FROM p_users WHERE x = ? AND y > ?"
  {
  }

  lemma {:induction false} ListThenScalarClause()
    ensures WhereClause([Pred("id", "IN", Many([Int(1), Int(2)])), Pred("x", "=", One(Int(3)))])
      == " WHERE id IN (?,?)x = ?"
  {
    var p, q := Pred("id", "IN", Many([Int(1), Int(2)])), Pred("x", "=", One(Int(3)));
    assert StrRepeat(",?", 1) == ",?";
    assert Placeholders(2) == "?,?";
    assert WhereTerm(p, false) == "id IN (?,?)";
    assert WhereTerm(q, true) == "x = ?";
    assert [p, q][1..] == [q];
    assert WhereTerms([q]) == "x = ?" + WhereTerms([]);
    assert WhereTerms([p, q]) == "id IN (?,?)" + "x = ?";
  }

  lemma {:induction false} ListPredicateNotJoined()
    ensures var s := Where(Where(Users(), "id", One(Str("IN")), Many([Int(1), Int(2)])), "x", One(Int(3)), One(Null));
      ToSql(s) == Success("SELECT * FROM p_users WHERE id IN (?,?)x = ?")
      && Params(s) == Some([Int(1), Int(2), Int(3)])
  {
    var ps := [Pred("id", "IN", Many([Int(1), Int(2)])), Pred("x", "=", One(Int(3)))];
    var s := State("p_", "p_users", Select, ps, [Int(1), Int(2), Int(3)], [], []);
    ListChain();
    ListThenScalarClause();
    SelectHead(s);
    Assemble(s, "SELECT * FROM p_users", " WHERE id IN (?,?)x = ?", "");
    ListText();
  }

  lemma {:induction false} ListChain()
    ensures Where(Where(Users(), "id", One(Str("IN")), Many([Int(1), Int(2)])), "x", One(Int(3)), One(Null))
      == State("p_", "p_users", Select, [Pred("id", "IN", Many([Int(1), Int(2)])), Pred("x", "=", One(Int(3)))],
               [Int(1), Int(2), Int(3)], [], [])
  {
    var s0 := Users();
    OperatorWhere(s0, "id", "IN", Many([Int(1), Int(2)]));
    var s1 := Where(s0, "id", One(Str("IN")), Many([Int(1), Int(2)]));
    assert s1 == State("p_", "p_users", Select, [Pred("id", "IN", Many([Int(1), Int(2)]))], [Int(1), Int(2)], [], []);
    EqualsWhere(s1, "x", Int(3));
    assert [Int(1), Int(2)] + [Int(3)] == [Int(1), Int(2), Int(3)];
  }

  lemma {:induction false} ListText()
    ensures "SELECT * FROM p_users" + " WHERE id IN (?,?)x = ?" + "" == "SELECT * FROM p_users WHERE id IN (?,?)x = ?"
  {
  }

  lemma {:induction false} TwoOrderings()
    ensures OrderClause([("a", "DESC"), ("b", "DESC")]) == " ORDER BY a DESCb DESC"
  {
    var ob := [("a", "DESC"), ("b", "DESC")];
    assert ob[1..] == [("b", "DESC")];
    assert OrderTerms([("b", "DESC")]) == "b" + " " + "DESC" + OrderTerms([]);
    assert OrderTerms(ob) == "a" + " " + "DESC" + "b DESC";
  }

  /** Re-ordering on "a" keeps it first and only flips its direction. */
  lemma {:induction false} OrderingChain()
    ensures OrderBy(OrderBy(OrderBy(Users(), "a", None), "b", Some("DESC")), "a", Some("DESC"))
      == State("p_", "p_users", Select, [], [], [("a", "DESC"), ("b", "DESC")], [])
  {
    var s1 := OrderBy(Users(), "a", None);
    var s2 := OrderBy(s1, "b", Some("DESC"));
    FirstOrdering();
    SecondOrdering(s1);
    Reordering(s2);
  }

  lemma {:induction false} FirstOrdering()
    ensures OrderBy(Users(), "a", None) == State("p_", "p_users", Select, [], [], [("a", "ASC")], [])
  {
    assert Keys(Users().orderBy) == [];
  }

  lemma {:induction false} SecondOrdering(s: State)
    requires s == State("p_", "p_users", Select, [], [], [("a", "ASC")], [])
    ensures OrderBy(s, "b", Some("DESC")) == State("p_", "p_users", Select, [], [], [("a", "ASC"), ("b", "DESC")], [])
  {
    assert Keys(s.orderBy) == ["a"];
  }

  lemma {:induction false} Reordering(s: State)
    requires s == State("p_", "p_users", Select, [], [], [("a", "ASC"), ("b", "DESC")], [])
    ensures OrderBy(s, "a", Some("DESC")) == State("p_", "p_users", Select, [], [], [("a", "DESC"), ("b", "DESC")], [])
  {
    assert Keys(s.orderBy) == ["a", "b"];
    assert First(s.orderBy, "a") == 0;
    assert s.orderBy[..0] + [("a", "DESC")] + s.orderBy[1..] == [("a", "DESC"), ("b", "DESC")];
  }

  lemma {:induction false} OrderingsNotSeparated()
    ensures var s := OrderBy(OrderBy(OrderBy(Users(), "a", None), "b", Some("DESC")), "a", Some("DESC"));
      ToSql(s) == Success("SELECT * FROM p_users ORDER BY a DESCb DESC")
  {
    var s := State("p_", "p_users", Select, [], [], [("a", "DESC"), ("b", "DESC")], []);
    OrderingChain();
    TwoOrderings();
    SelectHead(s);
    Assemble(s, "SELECT * FROM p_users", "", " ORDER BY a DESCb DESC");
    OrderText();
  }

  lemma {:induction false} OrderText()
    ensures "SELECT * FROM p_users" + "" + " ORDER BY a DESCb DESC" == "SELECT * FROM p_users ORDER BY a DESCb DESC"
  {
  }

  lemma {:induction false} EmptyListPredicateThrows()
    ensures ToSql(Where(Users(), "id", One(Str("IN")), Many([]))) == Failure(NegativeRepeatCount)
  {
    assert Where(Users(), "id", One(Str("IN")), Many([])).where == [Pred("id", "IN", Many([]))];
  }
}
