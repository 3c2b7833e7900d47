# DB query builder, modelled in Dafny

The repository's one class, `DB`, is a fluent SQL query builder over PDO.
Each chained call (`__table`, `select`, `where`, `orderBy`, `insert`,
`update`, `delete`) updates a small record of statement state:

- the table;
- the action;
- the predicate list and its flattened values (`where_values`);
- the ordered `order_by` map;
- the ordered `data` map.

`toSql` renders that record as SQL text with positional `?` placeholders.
`run` then prepares the text, hands one ordered value list to `execute`,
and resets the builder with `init`.

The model is functional. One immutable `State` datatype holds the record.
Each chained call is a pure function from the state before the call to
the state after it. The PHP ordered arrays are sequences of key-value pairs
whose keys are distinct. `toSql` is a function returning a `Result`, and
`run` is a function over an abstract driver oracle.

The main result is `Execute.PlaceholdersMatchParams`. Take a state that
meets all of these conditions:

- it is consistent, and `toSql` renders it without throwing;
- `run` reaches `execute` for it;
- its table, payload keys, columns, operators, ordering columns and
  directions contain no `?`;
- if it is an INSERT, it has no predicates.

For such a state, the placeholders of the rendered SQL are exactly the
values `run` binds, in the same order. So their number equals the number
of bound values.

The proof goes through a second, structured rendering, `Fragments.Frags`.
It is a list of literal pieces and holes, one hole per bound value.
`Fragments.FragsMatchToSql` proves that its text is `toSql`'s string and
that its holes are the payload values followed by the predicate values.

The rendering quirks of the code are kept literally:

- no ` AND ` follows a bracketed list predicate;
- ORDER BY entries have no separator between them;
- a multi-column UPDATE renders as `` `a = ?`, `b` = ? ``;
- COUNT can be rendered and run, although no method sets it (`$action` is public).

An INSERT that also carries predicates renders more `?` than `run` binds.
`Execute.PlaceholderCount` states by how many.

Modules, one per file:

- `Optional` (optional.dfy): `Option` and `Result`.
- `Php` (php.dfy): the PHP scalars, plus `str_repeat`, `implode` and the string conversion of a scalar.
- `Assoc` (assoc.dfy): string-keyed PHP arrays as ordered pairs: `array_keys`, `array_values`, `$m[$k] = $v`.
- `Builder` (builder.dfy): the state and the chained calls.
- `Render` (render.dfy): `toSql`.
- `Fragments` (fragments.dfy): the structured rendering and its agreement with `toSql`.
- `Execute` (execute.dfy): `run`.
- `Examples` (examples.dfy): concrete chains and the exact SQL and values they produce.

Behaviour of `DB` worth noting:

- When `run` throws (rendering fails or `prepare` returns false), the builder is not reset. `init` is reached only on a normal return.
- `run` with no action, or with an unknown one, returns `false` and raises no error.
- The UPDATE head has the backtick quirk shown above.
- `str_repeat` with a negative count throws (PHP 8 semantics). Rendering therefore fails for an INSERT with an empty payload, and for a predicate whose value is an empty array. Both are modelled as `Failure(NegativeRepeatCount)`, not excluded by a precondition.

## Model

| member | source | states |
|---|---|---|
| Builder.Init | DB.php:44-53 | table and action empty; predicates, values, orderings and payload empty; the prefix kept |
| Builder.New | DB.php:27-30 | a new builder is blank and holds the given prefix |
| Builder.InitIdempotent | DB.php:44-53 | `init` depends only on the prefix, so applying it twice is applying it once |
| Builder.Table | DB.php:119-124 | `__table(n)` sets the table to prefix ++ n and the action to SELECT; no other field changes; consistency preserved |
| Builder.SelectAll | DB.php:150-154 | `select` sets the action to SELECT and changes nothing else |
| Builder.DeleteRows | DB.php:190-194 | `delete` sets the action to DELETE and changes nothing else |
| Builder.InsertRow | DB.php:174-179 | `insert(d)` sets the action to INSERT and the payload to d; nothing else changes |
| Builder.UpdateRows | DB.php:182-187 | `update(d)` sets the action to UPDATE and the payload to d; nothing else changes |
| Builder.Where | DB.php:157-164 | exactly one predicate is appended and earlier ones are kept; with a null third argument its operator is `=` and its value is the second argument, otherwise the operator is the second argument as text and the value is the third; the values list grows by the array's elements or by the scalar; nothing else changes; consistency preserved |
| Builder.OperatorText | DB.php:221 | definition of the operator's text under PHP string conversion; pinned by Builder.Where and Examples.OperatorWhere |
| Builder.WhereForms | DB.php:159-161 | the two calling forms record `(c, "=", v)` and `(c, op, v)` |
| Builder.FlattenAppend | DB.php:162 | the flattened values of the predicates after an append are the old ones followed by the new predicate's values |
| Builder.WhereChainConsistent | DB.php:161-162 | after any chain of `where` calls, `where_values` is still the in-order flattening of `where`, and one predicate was added per call |
| Builder.OrderBy | DB.php:167-171 | an unseen column is appended at the end with the given direction or ASC; a known column keeps its position and only its direction changes; nothing else changes; key distinctness preserved |
| Builder.OrderByFacts | DB.php:169 | the assignment `$order_by[$column] = $d` appends an unseen key, overwrites a known one in place, and keeps keys distinct |
| Builder.OrderByKeys | DB.php:169 | the ordered columns are unchanged for a known column, and gain the column at the end otherwise |
| Builder.OrderByDirection | DB.php:167-169 | the column then reads back as the given direction, or ASC; every other column reads as before |
| Assoc.Keys | DB.php:206 | `array_keys` gives one key per entry, in entry order |
| Assoc.Values | DB.php:256 | `array_values` gives one value per entry, in entry order |
| Assoc.First | DB.php:169 | a present key is found at the position of its first entry |
| Assoc.Put | DB.php:169 | definition of `$m[$k] = $v` on ordered pairs; pinned by Assoc.PutShape, Assoc.PutKeys and Assoc.PutGet |
| Assoc.PutAppends | DB.php:169 | assigning a key not present appends the pair at the end |
| Assoc.PutOverwrites | DB.php:169 | assigning a present key replaces that entry in place and leaves all others |
| Assoc.PutShape | DB.php:169 | both cases of an array assignment: append a new key, overwrite a present one in place |
| Assoc.PutKeys | DB.php:169 | the key order after an assignment: unchanged, or extended by the new key |
| Assoc.PutDistinct | DB.php:169 | an assignment never makes two entries share a key |
| Assoc.PutGet | DB.php:169 | after `$m[$k] = $v`, reading `$k` gives `$v` and other keys read as before |
| Php.StrRepeat | DB.php:206 | `str_repeat(t, n)` for a non-negative count has length n times the length of t; its content for `",?"` is pinned by Render.RepeatCommaQ |
| Php.Implode | DB.php:206 | definition of `implode`; pinned by Php.ImplodeAvoids, Fragments.SetFragsText and Examples.InsertTwoColumns |
| Php.ToText | DB.php:221 | definition of PHP's string conversion of a scalar; pinned by Builder.OperatorText and Examples.OperatorWhere |
| Php.ImplodeAvoids | DB.php:206 | a character found in neither the separator nor any part is absent from the `implode` result |
| Render.Placeholders | DB.php:206 | `"?" . str_repeat(",?", n - 1)` alternates `?` and `,`, has length 2n - 1 and holds exactly n `?` |
| Render.RepeatCommaQ | DB.php:223 | `str_repeat(",?", m)` has length 2m, alternates `,` and `?`, and holds m `?` |
| Render.PlaceholdersStep | DB.php:223 | a list of n ≥ 2 placeholders is `?,` followed by the list of n - 1 |
| Render.Head | DB.php:202-213 | definition of the statement head by action; pinned by Fragments.HeadFragsText and the Examples lemmas |
| Render.ToSql | DB.php:200-239 | rendering fails exactly when it is an INSERT with no payload or a predicate holds an empty array, and then with the `str_repeat` error; with no predicates and no orderings the SQL is the head alone |
| Render.NotLastAnymore | DB.php:225 | a predicate that stops being last gains ` AND ` if it is a scalar, and nothing if it is a list |
| Render.WhereTermsAppend | DB.php:216-227 | appending a predicate appends its terminal rendering, and gives the previous last predicate its joiner: ` AND ` for a scalar, nothing for a list |
| Render.OrderTermsAppend | DB.php:231-236 | ordering on one more column appends `column direction` with no separator |
| Render.ClauseShapes | DB.php:215-236 | the WHERE and ORDER BY clauses are absent exactly when their lists are empty, and otherwise open with ` WHERE ` and ` ORDER BY ` |
| Fragments.ListFragsText | DB.php:223 | the fragments of an n-element list value render as `"?" . str_repeat(",?", n - 1)`, the text inside the brackets |
| Fragments.ListFragsHoles | DB.php:222-223 | the holes of a list value are its elements, in order |
| Fragments.SetFragsText | DB.php:208 | the fragments of an UPDATE payload render as `implode(" = ?`, `", keys) . "` = ?"` |
| Fragments.SetFragsHoles | DB.php:208 | the holes of an UPDATE payload are its values in key order |
| Fragments.TermFragsText | DB.php:221-226 | one predicate's fragments render as its `column op` text followed by its placeholders and joiner |
| Fragments.TermFragsHoles | DB.php:221-226 | one predicate's holes are its values: the array's elements, or the scalar |
| Fragments.WhereClauseText | DB.php:216-228 | the WHERE fragments render as the WHERE clause |
| Fragments.WhereClauseHoles | DB.php:216-228 | the WHERE clause's holes are the in-order flattening of the predicate values |
| Fragments.HeadFragsText | DB.php:202-213 | the head fragments render as the head for each action; their holes are the payload values for INSERT and UPDATE and none otherwise |
| Fragments.FragsMatchToSql | DB.php:200-239 | a renderable state renders successfully; the fragments' text is the SQL, and their holes are the payload values followed by the predicate values; with `?`-free names only holes produce `?` |
| Fragments.FragsClean | DB.php:200-239 | with `?`-free names, and a payload for UPDATE, every `?` of the SQL comes from a hole |
| Execute.Params | DB.php:250-263 | `execute` is skipped exactly for an unknown action, or for INSERT or UPDATE with an empty payload |
| Execute.ParamsByAction | DB.php:250-263 | SELECT, DELETE and COUNT bind the predicate values; INSERT binds the payload values; UPDATE binds the payload values followed by the predicate values |
| Execute.Run | DB.php:244-267 | returns exactly when rendering succeeds and `prepare` succeeds; otherwise throws with the matching fault and leaves the builder unchanged; on return, the builder is blank with its prefix kept, `execute` received the selected values, and the result is false, rows, the insert id, true, or the count, by action and outcome |
| Execute.PlaceholdersMatchParams | DB.php:200-263 | for a renderable, consistent state with `?`-free names and no predicates on an INSERT, the SQL is the text of a fragment list whose holes are exactly the bound values in order, and its number of `?` equals the number of bound values |
| Execute.PlaceholderCount | DB.php:200-256 | the SQL holds one `?` per payload value plus one per predicate value; for INSERT that is the bound count plus the predicate values, which INSERT does not bind |
| Execute.NothingSurvivesRun | DB.php:265 | after a normal return, the builder renders the empty statement and a second `run` returns false without executing |
| Execute.EmptyInsertThrows | DB.php:206 | an INSERT with an empty payload throws while rendering, before `prepare` and `execute` |
| Execute.Answer | DB.php:250-262 | definition of the value `run` returns after `execute`, by action; pinned by Execute.Run |
| Execute.EmptyUpdateReturnsFalse | DB.php:257-258 | an UPDATE with an empty payload returns false without calling `execute`, and resets the builder |
| Examples.Users | DB.php:119-124 | `table("users")` with prefix `p_` targets `p_users` with a SELECT and no clauses |
| Examples.SelectWithoutClauses | DB.php:203-204 | a plain SELECT renders `SELECT * FROM p_users` and binds nothing |
| Examples.InsertTwoColumns | DB.php:205-206 | inserting columns a, b renders ``INSERT INTO p_users(`a`,`b`) VALUES (?,?)`` and binds 1, 2 |
| Examples.UpdateWithPredicate | DB.php:207-208 | an update of a, b with `id = 5` renders ``UPDATE p_users SET `a = ?`, `b` = ? WHERE id = ?`` and binds 1, 2, 5 |
| Examples.ScalarPredicatesJoinedByAnd | DB.php:220-226 | two scalar predicates render `WHERE x = ? AND y > ?` and bind 1, 2 |
| Examples.ListPredicateNotJoined | DB.php:222-223 | a list predicate followed by a scalar renders `WHERE id IN (?,?)x = ?` with no ` AND ` between them, and binds 1, 2, 3 |
| Examples.OrderingChain | DB.php:169 | ordering by a, then b DESC, then a DESC keeps a first, with only its direction changed |
| Examples.OrderingsNotSeparated | DB.php:231-236 | that chain renders `ORDER BY a DESCb DESC`, with no separator |
| Examples.EmptyListPredicateThrows | DB.php:223 | a predicate with an empty array makes rendering fail |

## Left out

- The PDO connection in the constructor, the static `connect` singleton, and the `__call` / `__callStatic` forwarding (DB.php:27-36, 61-90). These are I/O and PHP runtime dispatch. Only the constructor's `init` and prefix are modelled.
- `__tables` and `__columns` (DB.php:98-147). They are thin wrappers over fixed catalogue queries.
- The `prepare`, `execute`, `fetchAll`, `fetchColumn` and `lastInsertID` calls are the fields of the `Driver` oracle. Each is a function of the SQL text and the bound values. The rows are opaque, and the `(int)` cast is assumed to be inside `fetchColumn`.
- Exceptions raised by PDO itself, and PDO's own parameter-count checking, are not modelled. A `prepare` that returns false is modelled as the thrown exception.
- Keys and values:
  - Payload and ordering keys are strings. PHP integer keys are not modelled.
  - Scalar values are null, bool, int and string. Floats and nested arrays as values are not modelled.
  - A `where` column is a string.
- `$action` is public, so it can hold any string. Every string other than the five recognised ones is modelled as `Unset`, which renders no head and is never executed.
- The operator of the three-argument `where` is converted to text as PHP concatenation does, for null, bool, int and string, and an array becomes "Array". The conversion happens in `where` rather than in `toSql`, which gives the same text.
- Builder.Where: array values are modelled as lists. A string-keyed array value is not modelled. `array_merge` merges such arrays by key, so a later predicate's value can overwrite an earlier one in `where_values` while each predicate still renders its own placeholders.
- Execute.PlaceholdersMatchParams: requires that table, column, operator, key and direction names contain no `?`, and for INSERT that no predicates were added. The code renders a `?` for any such character and never binds values for predicates on an INSERT. `Execute.PlaceholderCount` covers the INSERT case.
