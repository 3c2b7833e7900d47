/**
 * A structured reading of the rendered statement: a sequence of literal
 * text pieces and placeholders, each placeholder carrying the value bound
 * to it. The string `toSql` builds is the text of this sequence, and the
 * values the placeholders carry, in order, are the ones `run` binds.
 */
module Fragments {
  import opened Php
  import opened Assoc
  import opened Builder
  import opened Render

  /** A literal piece of SQL text, or a `?` together with the value it stands for. */
  datatype Frag = Lit(text: string) | Hole(value: Scalar) {

    /** How the fragment appears in the SQL text. */
    function Piece(): string {
      if Lit? then text else "?"
    }

    /** The values the fragment binds. */
    function Bound(): seq<Scalar> {
      if Lit? then [] else [value]
    }
  }

  /** The SQL text: literals verbatim, each hole as `?`. */
  function Text(fs: seq<Frag>): string
  {
    if |fs| == 0 then "" else fs[0].Piece() + Text(fs[1..])
  }

  /** The values the holes carry, left to right. */
  function Holes(fs: seq<Frag>): seq<Scalar>
  {
    if |fs| == 0 then [] else fs[0].Bound() + Holes(fs[1..])
  }

  /** No literal contains a `?`, so every `?` of the text is a hole. */
  predicate Clean(fs: seq<Frag>)
  {
    forall i :: 0 <= i < |fs| && fs[i].Lit? ==> '?' !in fs[i].text
  }

  // ----- generic facts about fragment sequences -----

  lemma {:induction false} TextOfAppend(a: seq<Frag>, b: seq<Frag>)
    ensures Text(a + b) == Text(a) + Text(b)
  {
    if |a| == 0 {
      assert a + b == b;
    } else {
      assert (a + b)[0] == a[0];
      assert (a + b)[1..] == a[1..] + b;
      TextOfAppend(a[1..], b);
    }
  }

  lemma {:induction false} HolesOfAppend(a: seq<Frag>, b: seq<Frag>)
    ensures Holes(a + b) == Holes(a) + Holes(b)
  {
    if |a| == 0 {
      assert a + b == b;
    } else {
      assert (a + b)[0] == a[0];
      assert (a + b)[1..] == a[1..] + b;
      HolesOfAppend(a[1..], b);
    }
  }

  lemma {:induction false} CleanAppend(a: seq<Frag>, b: seq<Frag>)
    requires Clean(a) && Clean(b)
    ensures Clean(a + b)
  {
  }

  lemma {:induction false} LitFacts(t: string)
    ensures Text([Lit(t)]) == t
    ensures Holes([Lit(t)]) == []
    ensures '?' !in t ==> Clean([Lit(t)])
  {
    assert Text([Lit(t)]) == t + Text([]);
    assert Holes([Lit(t)]) == [] + Holes([]);
  }

  lemma {:induction false} HoleFacts(v: Scalar)
    ensures Text([Hole(v)]) == "?"
    ensures Holes([Hole(v)]) == [v]
    ensures Clean([Hole(v)])
  {
    assert Text([Hole(v)]) == "?" + Text([]);
    assert Holes([Hole(v)]) == [v] + Holes([]);
  }

  /** Text of three consecutive runs. */
  lemma {:induction false} TextOfThree(x: seq<Frag>, y: seq<Frag>, z: seq<Frag>)
    ensures Text(x + y + z) == (Text(x) + Text(y)) + Text(z)
  {
    TextOfAppend(x, y);
    TextOfAppend(x + y, z);
  }

  /** Holes of three consecutive runs. */
  lemma {:induction false} HolesOfThree(x: seq<Frag>, y: seq<Frag>, z: seq<Frag>)
    ensures Holes(x + y + z) == Holes(x) + Holes(y) + Holes(z)
  {
    HolesOfAppend(x, y);
    HolesOfAppend(x + y, z);
  }

  /** Regrouping a four-part concatenation. */
  lemma {:induction false} Regroup(a: string, b: string, c: string, d: string)
    ensures ((a + b) + c) + d == a + ((b + c) + d)
  {
  }

  /** In a clean sequence the text has exactly one `?` per hole. */
  lemma {:induction false} CountHoles(fs: seq<Frag>)
    requires Clean(fs)
    ensures Occurrences('?', Text(fs)) == |Holes(fs)|
  {
    if |fs| > 0 {
      assert Clean(fs[1..]) by {
        assert forall i :: 0 <= i < |fs| - 1 ==> fs[1..][i] == fs[i + 1];
      }
      CountHoles(fs[1..]);
      var h := fs[0].Piece();
      OccurrencesAppend('?', h, Text(fs[1..]));
      if fs[0].Lit? {
        OccurrencesAbsent('?', h);
      } else {
        assert Occurrences('?', "?") == 1;
      }
    }
  }

  // ----- placeholder lists -----

  /** `?,?,…,?`, one hole per value. */
  function ListFrags(vs: seq<Scalar>): seq<Frag>
    requires |vs| >= 1
  {
    if |vs| == 1 then [Hole(vs[0])] else [Hole(vs[0])] + [Lit(",")] + ListFrags(vs[1..])
  }

  lemma {:induction false} ListFragsText(vs: seq<Scalar>)
    requires |vs| >= 1
    ensures Text(ListFrags(vs)) == Placeholders(|vs|)
  {
    HoleFacts(vs[0]);
    if |vs| > 1 {
      ListFragsText(vs[1..]);
      LitFacts(",");
      TextOfThree([Hole(vs[0])], [Lit(",")], ListFrags(vs[1..]));
      PlaceholdersStep(|vs|);
    }
  }

  lemma {:induction false} ListFragsClean(vs: seq<Scalar>)
    requires |vs| >= 1
    ensures Clean(ListFrags(vs))
  {
    HoleFacts(vs[0]);
    if |vs| > 1 {
      ListFragsClean(vs[1..]);
      LitFacts(",");
      CleanAppend([Hole(vs[0])], [Lit(",")]);
      CleanAppend([Hole(vs[0])] + [Lit(",")], ListFrags(vs[1..]));
    }
  }

  lemma {:induction false} ListFragsHoles(vs: seq<Scalar>)
    requires |vs| >= 1
    ensures Holes(ListFrags(vs)) == vs
  {
    HoleFacts(vs[0]);
    if |vs| > 1 {
      ListFragsHoles(vs[1..]);
      LitFacts(",");
      HolesOfThree([Hole(vs[0])], [Lit(",")], ListFrags(vs[1..]));
      assert vs == [vs[0]] + vs[1..];
    }
  }

  // ----- the SET list of an UPDATE -----

  /** `k1 = ?`, `k2 = ?`, …, `kn` = ?`, one hole per payload value. */
  function SetFrags(d: seq<(string, Scalar)>): seq<Frag>
    requires |d| >= 1
  {
    if |d| == 1 then [Lit(d[0].0 + "` = ")] + [Hole(d[0].1)]
    else [Lit(d[0].0 + " = ")] + [Hole(d[0].1)] + [Lit("`, `")] + SetFrags(d[1..])
  }

  /** No key of the array contains a `?`. */
  predicate KeysClean<V>(d: seq<(string, V)>)
  {
    forall i :: 0 <= i < |d| ==> '?' !in d[i].0
  }

  /** The step of the SET-list proof: one more key in front. */
  lemma {:induction false} SetStep(k: string, j: string, e: string)
    ensures ((k + " = ") + "?") + "`, `" + (j + e) == ((k + " = ?`, `") + j) + e
  {
  }

  /** The SET list of a single key. */
  lemma {:induction false} SetFragsOne(d: seq<(string, Scalar)>)
    requires |d| == 1
    ensures Text(SetFrags(d)) == Implode(" = ?`, `", Keys(d)) + "` = ?"
  {
    var k, v := d[0].0, d[0].1;
    LitFacts(k + "` = ");
    HoleFacts(v);
    TextOfAppend([Lit(k + "` = ")], [Hole(v)]);
    assert Keys(d) == [k];
    assert "` = ?" == "` = " + "?";
  }

  /** The SET list of several keys, given the list of all but the first. */
  lemma {:induction false} SetFragsMore(d: seq<(string, Scalar)>)
    requires |d| >= 2
    requires Text(SetFrags(d[1..])) == Implode(" = ?`, `", Keys(d[1..])) + "` = ?"
    ensures Text(SetFrags(d)) == Implode(" = ?`, `", Keys(d)) + "` = ?"
  {
    var k, v := d[0].0, d[0].1;
    var rest := d[1..];
    LitFacts(k + " = ");
    LitFacts("`, `");
    HoleFacts(v);
    var head := [Lit(k + " = ")] + [Hole(v)] + [Lit("`, `")];
    TextOfThree([Lit(k + " = ")], [Hole(v)], [Lit("`, `")]);
    TextOfAppend(head, SetFrags(rest));
    assert SetFrags(d) == head + SetFrags(rest);
    assert Keys(d)[1..] == Keys(rest);
    SetStep(k, Implode(" = ?`, `", Keys(rest)), "` = ?");
  }

  lemma {:induction false} SetFragsText(d: seq<(string, Scalar)>)
    requires |d| >= 1
    ensures Text(SetFrags(d)) == Implode(" = ?`, `", Keys(d)) + "` = ?"
  {
    if |d| == 1 {
      SetFragsOne(d);
    } else {
      SetFragsText(d[1..]);
      SetFragsMore(d);
    }
  }

  lemma {:induction false} SetFragsClean(d: seq<(string, Scalar)>)
    requires |d| >= 1 && KeysClean(d)
    ensures Clean(SetFrags(d))
  {
    var k, v := d[0].0, d[0].1;
    assert '?' !in k;
    SuffixClean(k, "` = ");
    SuffixClean(k, " = ");
    LitFacts(k + "` = ");
    LitFacts(k + " = ");
    LitFacts("`, `");
    HoleFacts(v);
    if |d| == 1 {
      CleanAppend([Lit(k + "` = ")], [Hole(v)]);
    } else {
      var rest := d[1..];
      assert KeysClean(rest) by {
        assert forall i :: 0 <= i < |rest| ==> rest[i] == d[i + 1];
      }
      SetFragsClean(rest);
      CleanAppend([Lit(k + " = ")], [Hole(v)]);
      CleanAppend([Lit(k + " = ")] + [Hole(v)], [Lit("`, `")]);
      CleanAppend([Lit(k + " = ")] + [Hole(v)] + [Lit("`, `")], SetFrags(rest));
    }
  }

  /** A name without `?` followed by a `?`-free constant. */
  lemma {:induction false} SuffixClean(name: string, suffix: string)
    requires '?' !in name && '?' !in suffix
    ensures '?' !in name + suffix
  {
  }

  lemma {:induction false} SetFragsHoles(d: seq<(string, Scalar)>)
    requires |d| >= 1
    ensures Holes(SetFrags(d)) == Values(d)
  {
    var k, v := d[0].0, d[0].1;
    LitFacts(k + "` = ");
    LitFacts(k + " = ");
    LitFacts("`, `");
    HoleFacts(v);
    if |d| == 1 {
      HolesOfAppend([Lit(k + "` = ")], [Hole(v)]);
    } else {
      var rest := d[1..];
      SetFragsHoles(rest);
      var head := [Lit(k + " = ")] + [Hole(v)] + [Lit("`, `")];
      HolesOfThree([Lit(k + " = ")], [Hole(v)], [Lit("`, `")]);
      HolesOfAppend(head, SetFrags(rest));
      assert Values(d) == [v] + Values(rest);
    }
  }

  // ----- WHERE predicates -----

  /** One predicate: its column and operator, its holes, and ` AND ` after a scalar that is not last. */
  function TermFrags(p: Pred, last: bool): seq<Frag>
    requires p.value != Many([])
  {
    match p.value
    case One(v) => [Lit(p.column + " " + p.op + " ")] + [Hole(v)] + (if last then [] else [Lit(" AND ")])
    case Many(vs) => [Lit(p.column + " " + p.op + " (")] + ListFrags(vs) + [Lit(")")]
  }

  /** No column or operator of the predicates contains a `?`. */
  predicate PredsClean(ps: seq<Pred>)
  {
    forall i :: 0 <= i < |ps| ==> '?' !in ps[i].column && '?' !in ps[i].op
  }

  lemma {:induction false} TermFragsText(p: Pred, last: bool)
    requires p.value != Many([])
    ensures Text(TermFrags(p, last)) == WhereTerm(p, last)
  {
    var name := p.column + " " + p.op;
    match p.value
    case One(v) =>
      var t := if last then "" else " AND ";
      var tail: seq<Frag> := if last then [] else [Lit(" AND ")];
      LitFacts(name + " ");
      HoleFacts(v);
      LitFacts(" AND ");
      assert Text(tail) == t;
      TextOfThree([Lit(name + " ")], [Hole(v)], tail);
      OneMarks(v, last);
      Regroup(name, " ", "?", t);
    case Many(vs) =>
      LitFacts(name + " (");
      LitFacts(")");
      ListFragsText(vs);
      TextOfThree([Lit(name + " (")], ListFrags(vs), [Lit(")")]);
      Regroup(name, " (", Placeholders(|vs|), ")");
  }

  /** The marks of a one-value predicate, split at the placeholder. */
  lemma {:induction false} OneMarks(v: Scalar, last: bool)
    ensures ValueMarks(One(v), last) == (" " + "?") + (if last then "" else " AND ")
  {
    assert " ?" == " " + "?";
  }

  lemma {:induction false} TermFragsClean(p: Pred, last: bool)
    requires p.value != Many([])
    requires '?' !in p.column && '?' !in p.op
    ensures Clean(TermFrags(p, last))
  {
    var name := p.column + " " + p.op;
    NameClean(p.column, p.op);
    match p.value
    case One(v) =>
      var tail: seq<Frag> := if last then [] else [Lit(" AND ")];
      SuffixClean(name, " ");
      LitFacts(name + " ");
      HoleFacts(v);
      LitFacts(" AND ");
      CleanAppend([Lit(name + " ")], [Hole(v)]);
      CleanAppend([Lit(name + " ")] + [Hole(v)], tail);
    case Many(vs) =>
      SuffixClean(name, " (");
      LitFacts(name + " (");
      LitFacts(")");
      ListFragsClean(vs);
      CleanAppend([Lit(name + " (")], ListFrags(vs));
      CleanAppend([Lit(name + " (")] + ListFrags(vs), [Lit(")")]);
  }

  /** `column operator` holds no `?` when neither part does. */
  lemma {:induction false} NameClean(column: string, op: string)
    requires '?' !in column && '?' !in op
    ensures '?' !in column + " " + op
  {
  }

  lemma {:induction false} TermFragsHoles(p: Pred, last: bool)
    requires p.value != Many([])
    ensures Holes(TermFrags(p, last)) == Flat(p.value)
  {
    var name := p.column + " " + p.op;
    match p.value
    case One(v) =>
      var tail: seq<Frag> := if last then [] else [Lit(" AND ")];
      LitFacts(name + " ");
      HoleFacts(v);
      LitFacts(" AND ");
      assert Holes(tail) == [];
      HolesOfThree([Lit(name + " ")], [Hole(v)], tail);
    case Many(vs) =>
      LitFacts(name + " (");
      LitFacts(")");
      ListFragsHoles(vs);
      HolesOfThree([Lit(name + " (")], ListFrags(vs), [Lit(")")]);
  }

  /** The predicates in registration order, the final one flagged as last. */
  function WhereFrags(ps: seq<Pred>): seq<Frag>
    requires NoEmptyList(ps)
  {
    if |ps| == 0 then [] else TermFrags(ps[0], |ps| == 1) + WhereFrags(ps[1..])
  }

  lemma {:induction false} WhereFragsText(ps: seq<Pred>)
    requires NoEmptyList(ps)
    ensures Text(WhereFrags(ps)) == WhereTerms(ps)
  {
    if |ps| > 0 {
      WhereFragsText(ps[1..]);
      TermFragsText(ps[0], |ps| == 1);
      TextOfAppend(TermFrags(ps[0], |ps| == 1), WhereFrags(ps[1..]));
    }
  }

  lemma {:induction false} WhereFragsHoles(ps: seq<Pred>)
    requires NoEmptyList(ps)
    ensures Holes(WhereFrags(ps)) == Flatten(ps)
  {
    if |ps| > 0 {
      WhereFragsHoles(ps[1..]);
      TermFragsHoles(ps[0], |ps| == 1);
      HolesOfAppend(TermFrags(ps[0], |ps| == 1), WhereFrags(ps[1..]));
    }
  }

  lemma {:induction false} WhereFragsClean(ps: seq<Pred>)
    requires NoEmptyList(ps) && PredsClean(ps)
    ensures Clean(WhereFrags(ps))
  {
    if |ps| > 0 {
      var rest := ps[1..];
      assert PredsClean(rest) by {
        assert forall i :: 0 <= i < |rest| ==> rest[i] == ps[i + 1];
      }
      WhereFragsClean(rest);
      TermFragsClean(ps[0], |ps| == 1);
      CleanAppend(TermFrags(ps[0], |ps| == 1), WhereFrags(rest));
    }
  }

  /** The WHERE clause as fragments: nothing without predicates. */
  function WhereClauseFrags(ps: seq<Pred>): seq<Frag>
    requires NoEmptyList(ps)
  {
    if |ps| == 0 then [] else [Lit(" WHERE ")] + WhereFrags(ps)
  }

  lemma {:induction false} WhereClauseText(ps: seq<Pred>)
    requires NoEmptyList(ps)
    ensures Text(WhereClauseFrags(ps)) == WhereClause(ps)
  {
    WhereFragsText(ps);
    if |ps| > 0 {
      LitFacts(" WHERE ");
      TextOfAppend([Lit(" WHERE ")], WhereFrags(ps));
    }
  }

  lemma {:induction false} WhereClauseHoles(ps: seq<Pred>)
    requires NoEmptyList(ps)
    ensures Holes(WhereClauseFrags(ps)) == Flatten(ps)
  {
    WhereFragsHoles(ps);
    if |ps| > 0 {
      LitFacts(" WHERE ");
      HolesOfAppend([Lit(" WHERE ")], WhereFrags(ps));
    }
  }

  lemma {:induction false} WhereClauseClean(ps: seq<Pred>)
    requires NoEmptyList(ps) && PredsClean(ps)
    ensures Clean(WhereClauseFrags(ps))
  {
    if |ps| > 0 {
      WhereFragsClean(ps);
      LitFacts(" WHERE ");
      CleanAppend([Lit(" WHERE ")], WhereFrags(ps));
    }
  }

  // ----- the statement head -----

  /**
   * The statement head. An UPDATE with an empty payload still renders
   * "`` = ?": that `?` has no value, so it stays inside a literal.
   */
  function HeadFrags(s: State): seq<Frag>
    requires s.action == Insert ==> |s.data| >= 1
  {
    match s.action
    case Insert =>
      [Lit("INSERT INTO " + s.table + "(`" + Implode("`,`", Keys(s.data)) + "`) VALUES (")]
      + ListFrags(Values(s.data)) + [Lit(")")]
    case Update =>
      if |s.data| == 0 then [Lit(Head(s))]
      else [Lit("UPDATE " + s.table + " SET `")] + SetFrags(s.data)
    case _ => [Lit(Head(s))]
  }

  /** The payload values the head binds: the data values for INSERT and UPDATE, none otherwise. */
  function HeadValues(s: State): seq<Scalar>
  {
    if s.action == Insert || s.action == Update then Values(s.data) else []
  }

  /** No name that ends up in the SQL text (table, payload keys, columns, operators, directions) holds a `?`. */
  predicate NamesClean(s: State)
  {
    && '?' !in s.table
    && KeysClean(s.data)
    && PredsClean(s.where)
    && KeysClean(s.orderBy)
    && forall i :: 0 <= i < |s.orderBy| ==> '?' !in s.orderBy[i].1
  }

  lemma {:induction false} InsertHeadText(s: State)
    requires s.action == Insert && |s.data| >= 1
    ensures Text(HeadFrags(s)) == Head(s)
  {
    var t := "INSERT INTO " + s.table + "(`" + Implode("`,`", Keys(s.data)) + "`) VALUES (";
    LitFacts(t);
    LitFacts(")");
    ListFragsText(Values(s.data));
    TextOfThree([Lit(t)], ListFrags(Values(s.data)), [Lit(")")]);
  }

  lemma {:induction false} InsertHeadHoles(s: State)
    requires s.action == Insert && |s.data| >= 1
    ensures Holes(HeadFrags(s)) == Values(s.data)
  {
    var t := "INSERT INTO " + s.table + "(`" + Implode("`,`", Keys(s.data)) + "`) VALUES (";
    var vs := Values(s.data);
    assert HeadFrags(s) == [Lit(t)] + ListFrags(vs) + [Lit(")")];
    LitFacts(t);
    LitFacts(")");
    ListFragsHoles(vs);
    HolesOfThree([Lit(t)], ListFrags(vs), [Lit(")")]);
  }

  lemma {:induction false} InsertHeadClean(s: State)
    requires s.action == Insert && |s.data| >= 1
    requires '?' !in s.table && KeysClean(s.data)
    ensures Clean(HeadFrags(s))
  {
    var j := Implode("`,`", Keys(s.data));
    var t := "INSERT INTO " + s.table + "(`" + j + "`) VALUES (";
    ImplodeAvoids('?', "`,`", Keys(s.data));
    InsertLitClean(s.table, j);
    LitFacts(t);
    LitFacts(")");
    ListFragsClean(Values(s.data));
    CleanAppend([Lit(t)], ListFrags(Values(s.data)));
    CleanAppend([Lit(t)] + ListFrags(Values(s.data)), [Lit(")")]);
  }

  /** The literal part of an INSERT head holds no `?` when the table and the keys do not. */
  lemma {:induction false} InsertLitClean(table: string, j: string)
    requires '?' !in table && '?' !in j
    ensures '?' !in "INSERT INTO " + table + "(`" + j + "`) VALUES ("
  {
  }

  lemma {:induction false} UpdateHeadText(s: State)
    requires s.action == Update && |s.data| >= 1
    ensures Text(HeadFrags(s)) == Head(s)
  {
    var t := "UPDATE " + s.table + " SET `";
    LitFacts(t);
    SetFragsText(s.data);
    TextOfAppend([Lit(t)], SetFrags(s.data));
  }

  lemma {:induction false} UpdateHeadHoles(s: State)
    requires s.action == Update && |s.data| >= 1
    ensures Holes(HeadFrags(s)) == Values(s.data)
  {
    var t := "UPDATE " + s.table + " SET `";
    assert HeadFrags(s) == [Lit(t)] + SetFrags(s.data);
    LitFacts(t);
    SetFragsHoles(s.data);
    HolesOfAppend([Lit(t)], SetFrags(s.data));
  }

  lemma {:induction false} UpdateHeadClean(s: State)
    requires s.action == Update && |s.data| >= 1
    requires '?' !in s.table && KeysClean(s.data)
    ensures Clean(HeadFrags(s))
  {
    var t := "UPDATE " + s.table + " SET `";
    UpdateLitClean(s.table);
    LitFacts(t);
    SetFragsClean(s.data);
    CleanAppend([Lit(t)], SetFrags(s.data));
  }

  /** The literal part of an UPDATE head holds no `?` when the table does not. */
  lemma {:induction false} UpdateLitClean(table: string)
    requires '?' !in table
    ensures '?' !in "UPDATE " + table + " SET `"
  {
  }

  lemma {:induction false} HeadFragsText(s: State)
    requires s.action == Insert ==> |s.data| >= 1
    ensures Text(HeadFrags(s)) == Head(s)
    ensures Holes(HeadFrags(s)) == HeadValues(s)
  {
    if s.action == Insert {
      InsertHeadText(s);
      InsertHeadHoles(s);
    } else if s.action == Update && |s.data| >= 1 {
      UpdateHeadText(s);
      UpdateHeadHoles(s);
    } else {
      LitFacts(Head(s));
    }
  }

  lemma {:induction false} HeadFragsClean(s: State)
    requires s.action == Insert ==> |s.data| >= 1
    requires s.action == Update ==> |s.data| >= 1
    requires '?' !in s.table && KeysClean(s.data)
    ensures Clean(HeadFrags(s))
  {
    match s.action
    case Insert => InsertHeadClean(s);
    case Update => UpdateHeadClean(s);
    case Select =>
      SuffixClean("SELECT * FROM ", s.table);
      LitFacts(Head(s));
    case Delete =>
      SuffixClean("DELETE FROM ", s.table);
      LitFacts(Head(s));
    case Count =>
      SuffixClean("SELECT COUNT(*) FROM ", s.table);
      LitFacts(Head(s));
    case Unset =>
      LitFacts(Head(s));
  }

  // ----- the whole statement -----

  /** The whole statement as fragments. */
  function Frags(s: State): seq<Frag>
    requires Renderable(s)
  {
    HeadFrags(s) + WhereClauseFrags(s.where) + [Lit(OrderClause(s.orderBy))]
  }

  lemma {:induction false} OrderTermsClean(ob: seq<(string, string)>)
    requires KeysClean(ob) && forall i :: 0 <= i < |ob| ==> '?' !in ob[i].1
    ensures '?' !in OrderTerms(ob)
  {
    if |ob| > 0 {
      var rest := ob[1..];
      assert forall i :: 0 <= i < |rest| ==> rest[i] == ob[i + 1];
      OrderTermsClean(rest);
    }
  }

  /**
   * The fragments are a faithful reading of `toSql`: their text is the
   * rendered SQL, their holes carry the payload values followed by all
   * predicate values in registration order, and, when no name holds a `?`,
   * every `?` in the SQL is one of those holes.
   */
  lemma {:induction false} FragsMatchToSql(s: State)
    requires Renderable(s)
    ensures ToSql(s).Success? && Text(Frags(s)) == ToSql(s).value
    ensures Holes(Frags(s)) == HeadValues(s) + Flatten(s.where)
    ensures NamesClean(s) && (s.action == Update ==> |s.data| >= 1) ==> Clean(Frags(s))
  {
    var h := HeadFrags(s);
    var w := WhereClauseFrags(s.where);
    var o := [Lit(OrderClause(s.orderBy))];
    HeadFragsText(s);
    WhereClauseText(s.where);
    WhereClauseHoles(s.where);
    LitFacts(OrderClause(s.orderBy));
    TextOfThree(h, w, o);
    HolesOfThree(h, w, o);
    if NamesClean(s) && (s.action == Update ==> |s.data| >= 1) {
      FragsClean(s);
    }
  }

  lemma {:induction false} FragsClean(s: State)
    requires Renderable(s) && NamesClean(s) && (s.action == Update ==> |s.data| >= 1)
    ensures Clean(Frags(s))
  {
    var h := HeadFrags(s);
    var w := WhereClauseFrags(s.where);
    var o := [Lit(OrderClause(s.orderBy))];
    HeadFragsClean(s);
    WhereClauseClean(s.where);
    if |s.orderBy| > 0 {
      OrderTermsClean(s.orderBy);
      SuffixClean(" ORDER BY ", OrderTerms(s.orderBy));
    }
    LitFacts(OrderClause(s.orderBy));
    CleanAppend(h, w);
    CleanAppend(h + w, o);
  }
}
