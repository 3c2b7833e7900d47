/**
 * `toSql`: the rendering of a builder state into SQL text with positional
 * `?` placeholders.
 */
module Render {
  import opened Optional
  import opened Php
  import opened Assoc
  import opened Builder

  /** Why `toSql` (or `run`) can stop without returning. */
  datatype Fault =
    | NegativeRepeatCount   // `str_repeat` given a count of -1 throws a ValueError
    | PrepareFailed         // `prepare` returned false and `run` threw

  /** `"?" . str_repeat(",?", n - 1)`: n comma-separated placeholders. */
  function Placeholders(n: nat): (r: string)
    requires n >= 1
    ensures |r| == 2 * n - 1
    ensures forall i :: 0 <= i < |r| ==> r[i] == (if i % 2 == 0 then '?' else ',')
    ensures Occurrences('?', r) == n
  {
    var tail := StrRepeat(",?", n - 1);
    RepeatCommaQ(n - 1);
    OccurrencesAppend('?', "?", tail);
    ShiftParity("?", tail);
    "?" + tail
  }

  /** One more placeholder in front: `?,` followed by the shorter list. */
  lemma {:induction false} PlaceholdersStep(n: nat)
    requires n >= 2
    ensures Placeholders(n) == ("?" + ",") + Placeholders(n - 1)
  {
    var t := StrRepeat(",?", n - 2);
    assert StrRepeat(",?", n - 1) == ",?" + t;
    assert ",?" == "," + "?";
    SplitFront("?", ",", "?", t);
  }

  lemma {:induction false} SplitFront(a: string, b: string, c: string, t: string)
    ensures a + ((b + c) + t) == (a + b) + (c + t)
  {
  }

  /** Prefixing one character flips the parity of every position of `tail`. */
  lemma {:induction false} ShiftParity(head: string, tail: string)
    requires |head| == 1 && head[0] == '?'
    requires forall i :: 0 <= i < |tail| ==> tail[i] == (if i % 2 == 0 then ',' else '?')
    ensures forall i :: 0 <= i < |head + tail| ==>
      (head + tail)[i] == (if i % 2 == 0 then '?' else ',')
  {
    forall i | 0 <= i < |head + tail|
      ensures (head + tail)[i] == (if i % 2 == 0 then '?' else ',')
    {
      if i > 0 {
        assert (head + tail)[i] == tail[i - 1];
        assert (i - 1) % 2 == 0 <==> i % 2 == 1;
      }
    }
  }

  /** `str_repeat(",?", m)` alternates commas and question marks, m of each. */
  lemma {:induction false} RepeatCommaQ(m: nat)
    ensures |StrRepeat(",?", m)| == 2 * m
    ensures forall i :: 0 <= i < |StrRepeat(",?", m)| ==>
      StrRepeat(",?", m)[i] == (if i % 2 == 0 then ',' else '?')
    ensures Occurrences('?', StrRepeat(",?", m)) == m
  {
    if m > 0 {
      var tail := StrRepeat(",?", m - 1);
      RepeatCommaQ(m - 1);
      OccurrencesAppend('?', ",?", tail);
      assert Occurrences('?', ",?") == 1;
      forall i | 0 <= i < |",?" + tail|
        ensures (",?" + tail)[i] == (if i % 2 == 0 then ',' else '?')
      {
        if i >= 2 {
          assert (",?" + tail)[i] == tail[i - 2];
          assert (i - 2) % 2 == i % 2;
        }
      }
    }
  }

  /** No array value in the predicates is empty (an empty one makes `str_repeat` throw). */
  predicate NoEmptyList(ps: seq<Pred>)
  {
    forall i :: 0 <= i < |ps| ==> ps[i].value != Many([])
  }

  /** The states `toSql` renders without throwing. */
  predicate Renderable(s: State)
  {
    && (s.action == Insert ==> |s.data| >= 1)
    && NoEmptyList(s.where)
  }

  /** The statement head chosen by the action; an unset action contributes nothing. */
  function Head(s: State): string
    requires s.action == Insert ==> |s.data| >= 1
  {
    match s.action
    case Select => "SELECT * FROM " + s.table
    case Insert =>
      "INSERT INTO " + s.table + "(`" + Implode("`,`", Keys(s.data)) + "`) VALUES ("
      + Placeholders(|s.data|) + ")"
    case Update => "UPDATE " + s.table + " SET `" + Implode(" = ?`, `", Keys(s.data)) + "` = ?"
    case Delete => "DELETE FROM " + s.table
    case Count => "SELECT COUNT(*) FROM " + s.table
    case Unset => ""
  }

  /**
   * One predicate: `column operator`, then ` (?,…,?)` for a list or ` ?`
   * for a scalar. Only a scalar that is not the last predicate is followed
   * by ` AND `; a list never is.
   */
  function WhereTerm(p: Pred, last: bool): string
    requires p.value != Many([])
  {
    p.column + " " + p.op + ValueMarks(p.value, last)
  }

  /** The placeholder part of one predicate and the joiner that follows it. */
  function ValueMarks(w: WVal, last: bool): string
    requires w != Many([])
  {
    match w
    case Many(vs) => " (" + Placeholders(|vs|) + ")"
    case One(_) => " ?" + (if last then "" else " AND ")
  }

  /** The predicates in registration order, the final one flagged as last. */
  function WhereTerms(ps: seq<Pred>): string
    requires NoEmptyList(ps)
  {
    if |ps| == 0 then "" else WhereTerm(ps[0], |ps| == 1) + WhereTerms(ps[1..])
  }

  /** The WHERE clause: absent without predicates. */
  function WhereClause(ps: seq<Pred>): string
    requires NoEmptyList(ps)
  {
    if |ps| == 0 then "" else " WHERE " + WhereTerms(ps)
  }

  /** The ordering entries in insertion order, `column direction` each, with no separator. */
  function OrderTerms(ob: seq<(string, string)>): string
  {
    if |ob| == 0 then "" else ob[0].0 + " " + ob[0].1 + OrderTerms(ob[1..])
  }

  /** The ORDER BY clause: absent without orderings. */
  function OrderClause(ob: seq<(string, string)>): string
  {
    if |ob| == 0 then "" else " ORDER BY " + OrderTerms(ob)
  }

  /** `toSql()`: head, WHERE clause, ORDER BY clause; throws where `str_repeat` would. */
  function ToSql(s: State): (r: Result<string, Fault>)
    ensures r.Failure? <==> !Renderable(s)
    ensures r.Failure? ==> r.error == NegativeRepeatCount
    ensures r.Success? ==> s.where == [] && s.orderBy == [] ==> r.value == Head(s)
  {
    if !Renderable(s) then Failure(NegativeRepeatCount)
    else Success(Head(s) + WhereClause(s.where) + OrderClause(s.orderBy))
  }

  /** The ` AND ` a predicate gains when another one follows it: only a scalar gains one. */
  function Joiner(p: Pred): string
  {
    if p.value.One? then " AND " else ""
  }

  /** A predicate that stops being the last one gains exactly its joiner. */
  lemma {:induction false} NotLastAnymore(a: Pred)
    requires a.value != Many([])
    ensures WhereTerm(a, false) == WhereTerm(a, true) + Joiner(a)
  {
    assert ValueMarks(a.value, false) == ValueMarks(a.value, true) + Joiner(a);
  }

  /**
   * Adding a predicate after others: a scalar predicate before it gains the
   * ` AND ` it lacked as the last one; a list predicate before it gains nothing.
   */
  lemma {:induction false} WhereTermsAppend(ps: seq<Pred>, p: Pred)
    requires NoEmptyList(ps) && |ps| >= 1 && p.value != Many([])
    ensures NoEmptyList(ps + [p])
    ensures WhereTerms(ps + [p]) == WhereTerms(ps) + Joiner(ps[|ps| - 1]) + WhereTerm(p, true)
  {
    NoEmptyListAppend(ps, p);
    var qs := ps + [p];
    if |ps| == 1 {
      assert qs == [ps[0], p] && qs[1..] == [p];
      UnfoldLast([p]);
      UnfoldLast(ps);
      UnfoldFront(qs);
      NotLastAnymore(ps[0]);
    } else {
      var rest := ps[1..];
      assert qs[0] == ps[0] && qs[1..] == rest + [p];
      assert rest[|rest| - 1] == ps[|ps| - 1];
      WhereTermsAppend(rest, p);
      UnfoldFront(qs);
      UnfoldFront(ps);
      Regroup3(WhereTerm(ps[0], false), WhereTerms(rest), Joiner(ps[|ps| - 1]), WhereTerm(p, true));
    }
  }

  lemma {:induction false} NoEmptyListAppend(ps: seq<Pred>, p: Pred)
    requires NoEmptyList(ps) && p.value != Many([])
    ensures NoEmptyList(ps + [p])
  {
    var qs := ps + [p];
    assert forall i :: 0 <= i < |ps| ==> qs[i] == ps[i];
  }

  /** A single predicate is the last one. */
  lemma {:induction false} UnfoldLast(ps: seq<Pred>)
    requires NoEmptyList(ps) && |ps| == 1
    ensures WhereTerms(ps) == WhereTerm(ps[0], true)
  {
    assert WhereTerms(ps) == WhereTerm(ps[0], true) + WhereTerms(ps[1..]);
  }

  /** The first of two or more predicates is not the last one. */
  lemma {:induction false} UnfoldFront(ps: seq<Pred>)
    requires NoEmptyList(ps) && |ps| >= 2
    ensures WhereTerms(ps) == WhereTerm(ps[0], false) + WhereTerms(ps[1..])
  {
  }

  lemma {:induction false} Regroup3(h: string, a: string, b: string, c: string)
    ensures h + (a + b + c) == (h + a) + b + c
  {
  }

  /** Ordering on one more column appends `column direction` directly, with no comma. */
  lemma {:induction false} OrderTermsAppend(ob: seq<(string, string)>, column: string, direction: string)
    ensures OrderTerms(ob + [(column, direction)]) == OrderTerms(ob) + column + " " + direction
  {
    if |ob| == 0 {
      assert ob + [(column, direction)] == [(column, direction)];
    } else {
      assert (ob + [(column, direction)])[0] == ob[0];
      assert (ob + [(column, direction)])[1..] == ob[1..] + [(column, direction)];
      OrderTermsAppend(ob[1..], column, direction);
      RegroupTail(ob[0].0 + " " + ob[0].1, OrderTerms(ob[1..]), column, direction);
    }
  }

  /** Moving an appended ordering entry out of the recursive tail. */
  lemma {:induction false} RegroupTail(h: string, x: string, column: string, direction: string)
    ensures h + (x + column + " " + direction) == h + x + column + " " + direction
  {
  }

  /** The clauses are absent exactly when their lists are empty, and open with their keyword otherwise. */
  lemma {:induction false} ClauseShapes(ps: seq<Pred>, ob: seq<(string, string)>)
    requires NoEmptyList(ps)
    ensures WhereClause(ps) == "" <==> ps == []
    ensures ps != [] ==> WhereClause(ps)[..7] == " WHERE "
    ensures OrderClause(ob) == "" <==> ob == []
    ensures ob != [] ==> OrderClause(ob)[..10] == " ORDER BY "
  {
  }
}
