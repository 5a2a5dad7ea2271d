# Olive query translation, modelled in Dafny

Olive is a PHP database abstraction layer. A caller builds a query with
chained calls (`search`, `orSearch`, `join`, `select`, `sort`, `limit`,
`skip`, `from`) and then runs it with `fetch`, `fetchOne`, `fetchFirst`,
`count`, `update` or `remove`. The library translates that query into SQL
text with named parameters (the PDO adapters) or into MongoDB query
documents (the MongoDB adapters). It also shapes the rows that come back:
it moves selected fields to their aliases, joins collections in memory,
and applies filter and validator callbacks.

This project models the request builders and the translators:

- the newer query classes `AbstractQuery`, `Pdo\Query`, `Sqlite\Query` and
  `Mongodb\Query`;
- the older containers `Container`, `Pdo\Table` and `Mongo\Collection`;
- the part of the PDO adapter they use: identifier escaping, marker
  generation and DSN option joining.

The database driver is not modelled. Rows and documents a driver would
return are parameters of the fetching operations. The database settings a
collection falls back on are the `Defaults` parameter. What a run would
send to the driver is the result: SQL text plus bound values, or a Mongo
request.

The semantics modelled are those of PHP 8: loose comparison compares a
number with a non-numeric string as text, and builtins such as `count`
and `strtolower` given a value of the wrong type throw a `TypeError`.

PHP values are the `Values.Value` datatype. PHP arrays are ordered lists
of key/value entries (`Assoc`), with PHP's assignment, append
(`$a[] = v`), `array_merge`, `unset` and lookup semantics written out.
Query builders whose fields change in place are classes with `modifies`
clauses. Each such class method is proved against a function of the old
state, and the properties of those functions are lemmas.

The files follow the source's layout:
- `values.dfy`, `assoc.dfy` — PHP values, casts and arrays;
- `abstract_query.dfy` — `AbstractQuery.php`;
- `sqlite_query.dfy` — `Sqlite/Query.php`;
- `pdo.dfy` — `Pdo.php`;
- `pdo_query.dfy` — `Pdo/Query.php`;
- `documents.dfy` — Mongo query documents and what they mean;
- `mongodb_query.dfy` — `Mongodb/Query.php`;
- `container.dfy` — `Container.php`;
- `pdo_table.dfy` — `Pdo/Table.php`;
- `mongo_collection.dfy` — `Mongo/Collection.php`.

Where the code does something its documentation does not promise, the
model follows the code. The lemmas state the behaviour exactly:
- `Pdo\Query` writes `LIMIT skip,limit` with an empty skip when only a
  limit is set (`PdoQuery.LimitOnly`);
- the marker list of an `IN` predicate names every marker bound so far,
  not only the list's own (`PdoQuery.InListNamesEarlierMarkers`);
- `orSearch` with no arguments steals the first predicate of the last
  group (`AbstractQuery.OrSearchWithoutArguments`);
- in `Pdo\Table`, an OR entry always fails, because its operator is read
  from the wrong place (`PdoTable.EntryOrFails`);
- bound values are combined with `array_merge` semantics for integer and
  string keys;
- the validators of `Mongo\Collection::fetch` have no effect on the result;
- `Pdo\Table::update` executes its statement on the bare constant `values`,
  so as written it always fails (`PdoTable.UpdateAsWritten`); the rest of
  the model uses the evidently intended update (see Findings).

## Model

The definitions the operations are specified by (`MongoCollection.OpenCursor`, `PdoTable.CursorSql`, `PdoTable.InsertStatement`, `PdoQuery.LimitClause`, `Values.LooseEqualsWord` and the like) have no rows of their own: each is covered by the rows of the lemmas and methods that state its properties.

| member | source | states |
|---|---|---|
| Values.ToIntIntToStr | src/Olive/AbstractQuery.php:219 | an integer's decimal text casts back to the integer |
| Values.ToIntSkipsSpaces | src/Olive/AbstractQuery.php:219 | leading spaces, tabs, newlines, carriage returns, vertical tabs and form feeds do not change the cast |
| Values.ToIntUnsigned | src/Olive/AbstractQuery.php:219 | text starting with a digit casts to the number it starts with, and with a `-` before it to that number's negation |
| Values.ToIntTruncates | src/Olive/AbstractQuery.php:219 | `d.f` casts to d and `-d.f` to -d: the fraction is cut off |
| Values.ToIntScaled | src/Olive/AbstractQuery.php:219 | digits followed by an exponent part cast to the digits scaled by that exponent, truncated |
| Values.ToIntExponent | src/Olive/AbstractQuery.php:219 | `dex` casts to d times ten to the x, and `de-x` to d with x digits dropped |
| Values.ToIntStopsAt | src/Olive/AbstractQuery.php:219 | digits followed by a character that cannot continue a number cast to the digits alone |
| Values.ToIntNoNumber | src/Olive/AbstractQuery.php:219 | text that does not start with whitespace, a sign, a digit or a dot casts to 0 |
| ValuesExamples.ToIntSpacedExample | src/Olive/AbstractQuery.php:219 | `" 5"` casts to 5 |
| ValuesExamples.ToIntSpacedNegativeExample | src/Olive/AbstractQuery.php:219 | `" -5"` casts to -5 |
| ValuesExamples.ToIntExponentExample | src/Olive/AbstractQuery.php:219 | `"1e3"` casts to 1000 |
| ValuesExamples.ToIntNegativeExponentExample | src/Olive/AbstractQuery.php:219 | `"15e-1"` casts to 1 |
| ValuesExamples.ToIntFractionExample | src/Olive/AbstractQuery.php:219 | `"1.9"` casts to 1 |
| ValuesExamples.ToIntTrailingExample | src/Olive/AbstractQuery.php:219 | `"12abc"` casts to 12 |
| ValuesExamples.ToIntWordExample | src/Olive/AbstractQuery.php:219 | `"abc"` casts to 0 |
| AbstractQuery.ParseOp | src/Olive/AbstractQuery.php:84-103 | a parsed operator has exactly the given name; a string that is no operator's name parses to nothing |
| AbstractQuery.ParseOpName | src/Olive/AbstractQuery.php:84-103 | each of the ten operator names parses back to its operator |
| AbstractQuery.BuildSearch | src/Olive/AbstractQuery.php:57-113 | the search adds no predicate exactly when there are no arguments; any predicate it builds is well formed (an `in`/`not in` value is an array) |
| AbstractQuery.SearchById | src/Olive/AbstractQuery.php:63-79 | one string argument searches `_id is`; one array searches `_id in`; any other single argument fails with "should be a string or an array" |
| AbstractQuery.SearchByOperator | src/Olive/AbstractQuery.php:81-108 | three arguments succeed exactly when the lower-cased operator is one of the ten and `in`/`not in` have an array value; the predicate is then the field cast to string, that operator and the value; an unknown operator fails as invalid |
| AbstractQuery.SearchArity | src/Olive/AbstractQuery.php:110-112 | two, or more than three, arguments fail with "Invalid number of arguments" |
| AbstractQuery.SearchCall | src/Olive/AbstractQuery.php:57-115 | search keeps the search list well formed (no empty group); a failing call leaves the list as it was |
| AbstractQuery.OrSearchCall | src/Olive/AbstractQuery.php:134-146 | orSearch keeps the search list well formed |
| AbstractQuery.OrSearchExtendsLastGroup | src/Olive/AbstractQuery.php:134-146 | when the search builds a predicate, orSearch appends it to the last group; with no group it fails with "no valid registered search" |
| AbstractQuery.OrSearchWithoutArguments | src/Olive/AbstractQuery.php:136-144 | with no arguments, orSearch pops the last group and adds that group's first predicate to the group before it; with one group or none it fails |
| AbstractQuery.SearchMeaning | src/Olive/AbstractQuery.php:104-146 | under any reading of predicates, search adds a conjunct and orSearch adds a disjunct to the last group |
| AbstractQuery.SqliteDelegates | src/Olive/Sqlite/Query.php:31-42 | once the guard passes, the SQLite search is the parent's search; `MATCH` in upper case passes the guard and builds a `match` predicate |
| AbstractQuery.SplitPair | src/Olive/AbstractQuery.php:159-160 | exploding `c.f` on '.' gives exactly `[c, f]` |
| AbstractQuery.JoinRoundTrip | src/Olive/AbstractQuery.php:158-171 | `join("c1.f1", "c2.f2")` records exactly those four names when both fields are PHP-truthy |
| AbstractQuery.JoinRefused | src/Olive/AbstractQuery.php:159-163 | a join argument without a dot, or with an empty or "0" field, fails as an invalid join |
| AbstractQuery.Query.constructor | src/Olive/AbstractQuery.php:19-38 | a new query has empty search, select, sort, join and from, and null limit and skip |
| AbstractQuery.Query.Search | src/Olive/AbstractQuery.php:57-115 | the search list becomes what SearchCall gives; the query stays well formed |
| AbstractQuery.Query.OrSearch | src/Olive/AbstractQuery.php:134-146 | the search list becomes what OrSearchCall gives |
| AbstractQuery.Query.Join | src/Olive/AbstractQuery.php:158-171 | an accepted join is appended; a refused one leaves the join list unchanged and fails |
| AbstractQuery.Query.Select | src/Olive/AbstractQuery.php:183-189 | appends the field and alias, both cast to string |
| AbstractQuery.Query.Sort | src/Olive/AbstractQuery.php:201-207 | appends the field and the lower-cased order |
| AbstractQuery.Query.Limit | src/Olive/AbstractQuery.php:218-221 | the limit becomes PHP's `(int)` cast of the argument: leading whitespace skipped, an optional sign, digits with fraction and exponent, truncated toward zero |
| AbstractQuery.Query.Skip | src/Olive/AbstractQuery.php:232-235 | the skip becomes PHP's `(int)` cast of the argument: leading whitespace skipped, an optional sign, digits with fraction and exponent, truncated toward zero |
| AbstractQuery.Query.From | src/Olive/Pdo/Query.php:103-106 | the alias's entry names the table; every other alias is unchanged |
| SqliteQuery.MatchGuard | src/Olive/Sqlite/Query.php:32-37 | the guard only refuses three-argument calls, with "match and not match are disabled" |
| SqliteQuery.GuardOnStrings | src/Olive/Sqlite/Query.php:34 | with a string operator, the guard refuses exactly "match" and "not match" (case-sensitive, before lower-casing) |
| SqliteQuery.GuardOnTrue | src/Olive/Sqlite/Query.php:34 | PHP's loose `==` makes a boolean true operator equal to "match", so it is refused |
| Container.VerifySearchRequest | src/Olive/Container.php:86-90 | only a null search request is refused |
| Container.SearchRequestCall | src/Olive/Container.php:102-125 | no arguments reset the request to an empty array; one array argument, or three arguments as a triple, are appended; one non-array fails with "array expected"; other counts fail; a failure changes nothing |
| Container.SelectArrayEffect | src/Olive/Container.php:139-140 | an associative array is merged by array_merge: every string key reads the array's value when the array has it and the old value otherwise; keys stay unique; when the array's string keys are new, the values are the old ones followed by the array's |
| Container.SelectEffect | src/Olive/Container.php:137-149 | a list of fields is merged after the current values; a truthy alias sets that key and leaves every other key alone; otherwise the field is appended under a fresh integer key; no key is duplicated |
| Container.Overwrites | src/Olive/Container.php:163-167 | setting the field's key replaces its entry in place or appends a new key; every other key reads the same |
| Container.Register | src/Olive/Container.php:211-214 | a callback that is not callable is refused; otherwise it is registered under the field |
| Container.Container.constructor | src/Olive/Container.php:34-55 | empty search, select, sort, filter and validator arrays; null limit and skip |
| Container.Container.Search | src/Olive/Container.php:102-125 | the request becomes what SearchRequestCall gives; a set request stays set |
| Container.Container.Select | src/Olive/Container.php:137-149 | refused before search(); otherwise the select request becomes SelectCall's; keys stay unique |
| Container.Container.SelectArray | src/Olive/Container.php:137-140 | select() given an associative array: refused before search(); otherwise the select request becomes array_merge of the old request and the array, keys kept |
| Container.Container.Sort | src/Olive/Container.php:163-167 | refused before search(); otherwise the field's key is set to the order |
| Container.Container.Limit | src/Olive/Container.php:178-182 | refused before search(); otherwise PHP's `(int)` cast of the argument is stored, reading whitespace, sign, fraction and exponent as PHP does |
| Container.Container.Skip | src/Olive/Container.php:193-197 | refused before search(); otherwise PHP's `(int)` cast of the argument is stored, reading whitespace, sign, fraction and exponent as PHP does |
| Container.Container.Filter | src/Olive/Container.php:209-216 | refused before search(), or when the callback is not callable; otherwise the filter is registered |
| Container.Container.Validate | src/Olive/Container.php:228-235 | refused before search(), or when the callback is not callable; otherwise the validator is registered |
| Pdo.RunEnd | src/Olive/Pdo.php:124 | the end of a run of identifier characters stays in the string and is followed by no such character |
| Pdo.CloseFrom | src/Olive/Pdo.php:124 | the lazy `.+?\)` stops at the first `)` at or after the start |
| Pdo.RunEndIdent | src/Olive/Pdo.php:124 | every character of the run is a letter or `_` |
| Pdo.CloseFromClean | src/Olive/Pdo.php:124 | no `)` and no newline lies before the closing parenthesis found |
| Pdo.MatchAt | src/Olive/Pdo.php:124 | a match of `([a-z_]+)\((.+?)\)` at a position starts there and ends in the string |
| Pdo.MatchAtShape | src/Olive/Pdo.php:124-126 | a match has a non-empty name of identifier characters and a non-empty argument without a newline or an inner `)`; the matched text is `name(arg)` |
| Pdo.FindCallFromLeftmost | src/Olive/Pdo.php:124 | the search finds the leftmost match at or after a position |
| Pdo.FindCallLeftmost | src/Olive/Pdo.php:124 | preg_match's match is the leftmost one; when there is none, no position matches |
| Pdo.QuotePieces | src/Olive/Pdo.php:129-134 | each piece between dots is quoted with backquotes, except `*` |
| Pdo.UnwrapQuote | src/Olive/Pdo.php:131-133 | removing the backquotes gives the piece back |
| Pdo.QuoteDottedRoundTrip | src/Olive/Pdo.php:129-135 | quoting a dotted name and then unquoting it gives the name back |
| Pdo.SplitPiecesFree | src/Olive/Pdo.php:129 | no exploded piece contains the separator |
| Pdo.EscapeWithoutCallRoundTrip | src/Olive/Pdo.php:120-142 | a string without a function call is only quoted, so unquoting the result gives it back |
| Pdo.EscapeCall | src/Olive/Pdo.php:122-139 | a string holding a call `f(arg)` escapes to `f(` + quoted arg + `)`; the text around the call is dropped |
| Pdo.EscapeStars | src/Olive/Pdo.php:122-133 | `*` is left as it is, and so is `COUNT(*)` |
| Pdo.MarkerNamesDistinct | src/Olive/Pdo.php:150-152 | different counter values give different marker names |
| Pdo.Database.constructor | src/Olive/Pdo.php:17 | the marker counter starts at 0 |
| Pdo.Database.GetMarker | src/Olive/Pdo.php:150-152 | the counter goes up by one and the marker is `marker` + the new value; the marker was never issued before |
| Pdo.ConcatenateOptionsSplits | src/Olive/Pdo.php:72-78 | the DSN is `name=value` pairs joined by ';', so splitting it on ';' gives the pairs back when no pair holds a ';' |
| PdoQuery.SelectItems | src/Olive/Pdo/Query.php:244-250 | one item per selection, in order |
| PdoQuery.PrepareSelect | src/Olive/Pdo/Query.php:242-255 | the loop builds the SELECT clause its specification describes |
| PdoQuery.CountItem | src/Olive/Pdo/Query.php:244-248 | selecting `COUNT(*)` emits it unescaped |
| PdoQuery.SelectItemPlain | src/Olive/Pdo/Query.php:245-248 | a selection without an alias is the escaped field, with no `AS` |
| PdoQuery.SelectOne | src/Olive/Pdo/Query.php:252-255 | one selection gives `SELECT ` and its item |
| PdoQuery.SelectAppend | src/Olive/Pdo/Query.php:244-255 | a further selection adds `,` and its item at the end |
| PdoQuery.CountSelection | src/Olive/Pdo/Query.php:188-191 | count() adds `COUNT(*)` as the last selected item, or as the only one |
| PdoQuery.FromItems | src/Olive/Pdo/Query.php:259-269 | one `table AS alias` item per from entry, in order |
| PdoQuery.Tables | src/Olive/Pdo/Query.php:271 | the from request's tables, in order |
| PdoQuery.ContainsTable | src/Olive/Pdo/Query.php:271 | the loop finds the name exactly when it is one of the from request's tables, compared as exact text |
| PdoQuery.PrepareFrom | src/Olive/Pdo/Query.php:257-274 | the loop builds the FROM clause its specification describes |
| PdoQuery.FromOwnTable | src/Olive/Pdo/Query.php:271-274 | without from entries the clause is `FROM` and the escaped namespaced table |
| PdoQuery.FromAliasedTable | src/Olive/Pdo/Query.php:258-271 | when the table is one of the aliased ones, only the aliased items are listed |
| PdoQuery.FromAddsTable | src/Olive/Pdo/Query.php:258-274 | otherwise the own table is added after `, ` |
| PdoQuery.JoinPieces | src/Olive/Pdo/Query.php:279-298 | one LEFT JOIN piece per join |
| PdoQuery.PrepareJoin | src/Olive/Pdo/Query.php:276-300 | the loop builds the JOIN clause its specification describes |
| PdoQuery.JoinNamespace | src/Olive/Pdo/Query.php:278-292 | a join from the own table keeps its orientation only without a namespace; with one, the namespaced name is never a bare container, so the join is turned round |
| PdoQuery.BindElems | src/Olive/Pdo/Query.php:362-365 | an IN list uses one marker per element |
| PdoQuery.GroupTexts | src/Olive/Pdo/Query.php:346-376 | one SQL text per predicate of a group |
| PdoQuery.SearchTexts | src/Olive/Pdo/Query.php:343-379 | one AND text per group |
| PdoQuery.BindList | src/Olive/Pdo/Query.php:362-365 | the loop binds the list as its specification says and advances the counter by its length |
| PdoQuery.PredicateSql | src/Olive/Pdo/Query.php:348-375 | the predicate's SQL and bound values are those of the specification |
| PdoQuery.GroupSql | src/Olive/Pdo/Query.php:344-378 | a group's OR pieces and bound values are those of the specification |
| PdoQuery.PrepareWhere | src/Olive/Pdo/Query.php:339-384 | the WHERE text and values are those of the specification |
| PdoQuery.Bound | src/Olive/Pdo/Query.php:364-372 | one binding `:markerN` per value, numbered from the counter on |
| PdoQuery.BoundUnique | src/Olive/Pdo/Query.php:364-372 | the bound marker names are distinct |
| PdoQuery.BindElemsAt | src/Olive/Pdo/Query.php:362-365 | binding a list after earlier values extends the run of markers |
| PdoQuery.BindPredicateAt | src/Olive/Pdo/Query.php:361-373 | binding a predicate extends the run of markers by its values |
| PdoQuery.BindGroupAt | src/Olive/Pdo/Query.php:346-376 | binding a group extends the run of markers by the group's values |
| PdoQuery.BindSearchBound | src/Olive/Pdo/Query.php:339-384 | the bound values of a search are the run of markers over all its values, in order, and the counter moves past them |
| PdoQuery.WhereBindings | src/Olive/Pdo/Query.php:339-384 | the k-th bound value is named `:marker(m0+k+1)`; the names are unique, and there is one per search value |
| PdoQuery.Placeholders | src/Olive/Pdo/Query.php:366 | n marker names |
| PdoQuery.InListNamesEarlierMarkers | src/Olive/Pdo/Query.php:361-367 | an IN list's parentheses name every marker bound so far in the WHERE clause, not only its own |
| PdoQuery.BoundKeys | src/Olive/Pdo/Query.php:366 | array_keys of the bound values are the marker names in order |
| PdoQuery.InListExample | src/Olive/Pdo/Query.php:361-367 | `a is v1` followed by `f in [v2]` gives `f IN (:marker1,:marker2)` |
| PdoQuery.OrderItems | src/Olive/Pdo/Query.php:310-313 | one ORDER BY item per sort key, in order |
| PdoQuery.PrepareOrderBy | src/Olive/Pdo/Query.php:308-315 | the loop builds the ORDER BY clause its specification describes |
| PdoQuery.SortDirection | src/Olive/Pdo/Query.php:311-312 | a sort is ASC exactly when its lower-cased order is "asc", in any case; anything else is DESC |
| PdoQuery.LimitEmitted | src/Olive/Pdo/Query.php:317-325 | a LIMIT clause is written exactly when limit or skip is non-zero |
| PdoQuery.LimitOnly | src/Olive/Pdo/Query.php:318-319 | a limit without a skip is written `LIMIT ,n` |
| PdoQuery.LimitBoth | src/Olive/Pdo/Query.php:318-319 | limit and skip give `LIMIT skip,limit` |
| PdoQuery.LimitSkip | src/Olive/Pdo/Query.php:321-322 | a skip without a limit gives `LIMIT skip,9999999999` |
| PdoQuery.SetBind | src/Olive/Pdo/Query.php:49-53 | update takes one marker per data entry |
| PdoQuery.SetTexts | src/Olive/Pdo/Query.php:49-53 | one `field=:marker` text per data entry |
| PdoQuery.DataValues | src/Olive/Pdo/Query.php:49-51 | the data's values, in order |
| PdoQuery.UpdateSqlOf | src/Olive/Pdo/Query.php:55-57 | the UPDATE text the method assembles is the specification's |
| PdoQuery.UpdateMergeOf | src/Olive/Pdo/Query.php:58 | merging the SET values with the WHERE values gives the specification's parameters |
| PdoQuery.PrepareSet | src/Olive/Pdo/Query.php:47-53 | the loop's SET markers and values are the specification's; the counter advances by the data's size |
| PdoQuery.SetBindBound | src/Olive/Pdo/Query.php:49-53 | SET values are bound as `markerN` (no colon), numbered from the counter |
| PdoQuery.MergeSetAndWhere | src/Olive/Pdo/Query.php:58 | SET markers and `:` markers never clash, so array_merge concatenates them |
| PdoQuery.UpdateBindings | src/Olive/Pdo/Query.php:47-58 | an update binds the data under `markerN`, then the WHERE values under `:markerN`, numbered on |
| PdoQuery.FirstRow | src/Olive/Pdo/Query.php:149-155 | the first row, or an empty array when there is none |
| PdoQuery.FirstField | src/Olive/Pdo/Query.php:174-179 | the first field of a row, or null for an empty row |
| PdoQuery.SqlQuery.constructor | src/Olive/Pdo/Query.php:28-31 | a new query, empty, with an empty from request |
| PdoQuery.SqlQuery.PrepareQuery | src/Olive/Pdo/Query.php:229-328 | the clauses and values are the specification's; the counter moves past the WHERE markers |
| PdoQuery.SqlQuery.Update | src/Olive/Pdo/Query.php:40-66 | the UPDATE statement and its parameters are the specification's, and data markers are taken before WHERE markers |
| PdoQuery.SqlQuery.Remove | src/Olive/Pdo/Query.php:74-91 | the DELETE statement and its parameters are the specification's |
| PdoQuery.SqlQuery.Fetch | src/Olive/Pdo/Query.php:117-132 | the SELECT statement is the clauses in order; the rows are returned as fetched |
| PdoQuery.SqlQuery.FetchOne | src/Olive/Pdo/Query.php:143-156 | the same statement; the first row or an empty array |
| PdoQuery.SqlQuery.FetchFirst | src/Olive/Pdo/Query.php:167-180 | the same statement; the first field of the first row, or null |
| PdoQuery.SqlQuery.Count | src/Olive/Pdo/Query.php:188-191 | `COUNT(*)` is added to the selection for good, and the first field of the result is returned |
| Documents.EvalOrOf | src/Olive/Mongodb/Query.php:257-262 | an `$or` document holds exactly when one of its conditions holds |
| Documents.EvalAndOf | src/Olive/Mongodb/Query.php:265-274 | an `$and` document holds exactly when all of its conditions hold |
| PdoTable.EscapeValue | src/Olive/Pdo/Table.php:708-730 | _escape fails with a type error on an array; a string is escaped like Pdo::escape; true becomes "1" |
| PdoTable.OpTokenTable | src/Olive/Pdo/Table.php:598-606 | the six operators, in any case, give their SQL tokens; anything else is an invalid operator; an array operator is a type error |
| PdoTable.BindElems | src/Olive/Pdo/Table.php:609-614 | an array value takes one marker per element |
| PdoTable.EntrySql | src/Olive/Pdo/Table.php:595-637 | markers are never given back |
| PdoTable.SearchSql | src/Olive/Pdo/Table.php:592-643 | on success there is one AND text per search entry |
| PdoTable.EntryInvalidOperator | src/Olive/Pdo/Table.php:598-606 | an entry with an unknown operator fails before taking any marker |
| PdoTable.EntryOrFails | src/Olive/Pdo/Table.php:598-633 | an OR entry (an array of triples) always fails: its second element is a triple, not an operator, so the operator switch rejects it before the OR branch |
| PdoTable.EntryInvalidField | src/Olive/Pdo/Table.php:624-637 | a field that is neither a string nor an array fails with "Invalid search() parameter", after the value's markers were taken |
| PdoTable.EntryTextIgnoresValues | src/Olive/Pdo/Table.php:607-626 | an entry's SQL text depends on its field, its operator and the shape of its value, not on the values bound so far |
| PdoTable.BindElemsAt | src/Olive/Pdo/Table.php:609-614 | binding an array after earlier values extends the run of `markerN` keys |
| PdoTable.SearchSqlBound | src/Olive/Pdo/Table.php:592-643 | an accepted search binds all its values under consecutive markers, in order, and moves the counter past them |
| PdoTable.MapEach | src/Olive/Pdo/Table.php:501-566 | the loop maps a clause builder over a list and stops at the first error, as its specification does |
| PdoTable.SelectStar | src/Olive/Pdo/Table.php:510-513 | an empty select request gives `SELECT *` |
| PdoTable.SelectColumns | src/Olive/Pdo/Table.php:500-513 | the SELECT clause is accepted exactly when no selected field is an array; each item is the escaped field, followed by `AS` and the escaped key when the key is a string |
| PdoTable.CountColumn | src/Olive/Pdo/Table.php:368 | count's select request gives `SELECT COUNT(*)` |
| PdoTable.JoinFold | src/Olive/Pdo/Table.php:517-533 | one join text per join request; the joined list starts with the table and grows by one per join |
| PdoTable.JoinReaches | src/Olive/Pdo/Table.php:520-530 | each join text joins the table recorded as reached by that join |
| PdoTable.JoinStepOrients | src/Olive/Pdo/Table.php:521-530 | a join whose first table is joined already joins the second table; otherwise it joins the first, with its ON condition turned round; the choice matches the one Pdo\Query makes |
| PdoTable.JoinStepOf | src/Olive/Pdo/Table.php:521-530 | the joined table and the ON condition follow whether the first table is joined already |
| PdoTable.OrderByAccepts | src/Olive/Pdo/Table.php:541-551 | the ORDER BY clause is accepted exactly when every order is ASC or DESC in any case; each item is the escaped field and the upper-cased order |
| PdoTable.OrderItemOk | src/Olive/Pdo/Table.php:544-548 | one order is accepted exactly when it upper-cases to ASC or DESC |
| PdoTable.OrderExamples | src/Olive/Pdo/Table.php:544-548 | "asc" becomes ASC, "Desc" becomes DESC, "up" fails as an invalid sort parameter |
| PdoTable.LimitEmitted | src/Olive/Pdo/Table.php:553 | a LIMIT clause is written exactly when a limit is set (zero included) or a non-zero skip is |
| PdoTable.LimitIgnoresSkip | src/Olive/Pdo/Table.php:553-555 | the `||` short-circuits once a limit is set, so the skip is never read |
| PdoTable.LimitSet | src/Olive/Pdo/Table.php:554-555 | a non-zero limit gives `LIMIT 0,n` |
| PdoTable.LimitZero | src/Olive/Pdo/Table.php:557-558 | a zero limit gives `LIMIT ,999999999999999` |
| PdoTable.LimitSkip | src/Olive/Pdo/Table.php:553-560 | a skip without a limit gives `LIMIT skip,999999999999999` |
| PdoTable.GroupByEscapes | src/Olive/Pdo/Table.php:563-568 | the GROUP BY clause is accepted exactly when no field is an array; it lists the escaped fields |
| PdoTable.SearchClause | src/Olive/Pdo/Table.php:535-573 | a WHERE or HAVING clause never gives markers back |
| PdoTable.TableQuery | src/Olive/Pdo/Table.php:495-577 | preparing the query never gives markers back |
| PdoTable.TableTail | src/Olive/Pdo/Table.php:534-577 | the clauses after JOIN never give markers back |
| PdoTable.SearchClauseBound | src/Olive/Pdo/Table.php:535-538 | an accepted clause binds its values under consecutive markers |
| PdoTable.MergeBound | src/Olive/Pdo/Table.php:538-573 | array_merge of two consecutive runs of marker keys is their concatenation |
| PdoTable.MergeIntoEmpty | src/Olive/Pdo/Table.php:538 | array_merge into the empty array keeps a run of marker keys |
| PdoTable.TableQueryShape | src/Olive/Pdo/Table.php:534-577 | an accepted query's values are the WHERE values merged with the HAVING values, and the counter ends where HAVING left it |
| PdoTable.TableQueryValues | src/Olive/Pdo/Table.php:534-577 | an accepted query binds the WHERE values and then the HAVING values under consecutive markers |
| PdoTable.InsertNames | src/Olive/Pdo/Table.php:58-61 | one escaped column name per value, in order |
| PdoTable.InsertMarkers | src/Olive/Pdo/Table.php:58-61 | one `:name` marker per value, in order |
| PdoTable.InsertBinds | src/Olive/Pdo/Table.php:45-71 | the INSERT's columns, markers and parameters line up: marker i names parameter i, which is value i |
| PdoTable.UpdateStatement | src/Olive/Pdo/Table.php:93-133 | update, with the statement executed on its merged values as evidently intended, never gives markers back |
| PdoTable.UpdateAsWritten | src/Olive/Pdo/Table.php:125 | update as written fails on every input: with the undefined-constant error once the statement is built, and otherwise with the error the intended update meets; the markers drawn are the intended update's |
| PdoTable.UpdateAsWrittenFails | src/Olive/Pdo/Table.php:125 | a table with an empty search and one column to set: the intended update succeeds and binds the value to `marker1`, while the update as written fails |
| PdoTable.UpdateShape | src/Olive/Pdo/Table.php:104-116 | an update's parameters are its SET values merged with the query's values, and the SET markers come first |
| PdoTable.UpdateValues | src/Olive/Pdo/Table.php:116 | merging the SET values with the query values gives one run of markers |
| PdoTable.UpdateBindings | src/Olive/Pdo/Table.php:93-133 | the intended update binds the data, then the WHERE values, then the HAVING values, under consecutive markers |
| PdoTable.SaveEntry | src/Olive/Pdo/Table.php:164-172 | a search entry is accepted by save exactly when its operator lower-cases to "is"; it adds one column and one marker and no update |
| PdoTable.SaveSearch | src/Olive/Pdo/Table.php:164-172 | an accepted search takes one marker per entry and adds no update |
| PdoTable.SaveSearchMarkers | src/Olive/Pdo/Table.php:169-170 | the search markers are consecutive |
| PdoTable.SaveSearchStep | src/Olive/Pdo/Table.php:164-167 | the search stays accepted while each new entry is allowed |
| PdoTable.SaveSearchAccepts | src/Olive/Pdo/Table.php:164-167 | save accepts its search exactly when every entry's operator is "is" |
| PdoTable.SaveForbids | src/Olive/Pdo/Table.php:165-166 | the first entry with another operator fails with "Forbidden use of operators other than 'is'" |
| PdoTable.SaveColumn | src/Olive/Pdo/Table.php:173-181 | each data column adds an insert marker and then an update marker, taking two markers |
| PdoTable.SaveData | src/Olive/Pdo/Table.php:173-181 | the data takes two markers per column |
| PdoTable.ColumnMarkers | src/Olive/Pdo/Table.php:175-176 | the j-th insert marker of the data is `:marker(m+2j+1)` |
| PdoTable.ColumnUpdates | src/Olive/Pdo/Table.php:178-179 | the j-th update is the unescaped name with `=:marker(m+2j+2)` |
| PdoTable.SaveDataMarkers | src/Olive/Pdo/Table.php:173-181 | the data's insert markers are the odd markers after the counter |
| PdoTable.SaveDataUpdates | src/Olive/Pdo/Table.php:173-181 | the data's updates are the even markers after the counter |
| PdoTable.SearchSaveVals | src/Olive/Pdo/Table.php:171 | one bound value per search entry |
| PdoTable.DoubleVals | src/Olive/Pdo/Table.php:177-180 | each data value is bound twice |
| PdoTable.SaveSearchBound | src/Olive/Pdo/Table.php:164-172 | the search values are bound under consecutive markers |
| PdoTable.SaveDataBound | src/Olive/Pdo/Table.php:173-181 | the data values, each twice, are bound under consecutive markers |
| PdoTable.SaveShape | src/Olive/Pdo/Table.php:149-196 | an accepted save has a set search that save accepts; its parameters are what the search and then the data bind |
| PdoTable.SaveBindings | src/Olive/Pdo/Table.php:149-196 | save binds the search values, then each data value twice, under consecutive markers |
| PdoTable.RemoveStatement | src/Olive/Pdo/Table.php:224-253 | remove never gives markers back |
| PdoTable.RemoveBindings | src/Olive/Pdo/Table.php:224-253 | remove binds the WHERE and then the HAVING values under consecutive markers |
| PdoTable.ApplyFiltersKeys | src/Olive/Pdo/Table.php:287-291 | filtering keeps a row's keys and their order |
| PdoTable.ApplyFiltersReads | src/Olive/Pdo/Table.php:287-291 | after filtering, a field with a filter and a non-null value reads the callback's result; every other field reads as before |
| PdoTable.FetchRows | src/Olive/Pdo/Table.php:284-300 | fetch returns one row per fetched row: the validators' `unset` only drops the loop's reference, so no row is removed |
| PdoTable.FetchOneRow | src/Olive/Pdo/Table.php:321-343 | fetchOne filters the first row a second time; a rejecting validator gives an empty array; no rows give an empty array |
| PdoTable.FetchOneFiltersTwice | src/Olive/Pdo/Table.php:321-343 | a filtered field of fetchOne's row holds the callback applied twice |
| PdoTable.FirstValue | src/Olive/Pdo/Table.php:351-359 | fetchFirst reads key 0 of the row, or null for an empty row |
| PdoTable.Table.constructor | src/Olive/Pdo/Table.php:25-30 | a new table has empty requests, a null limit and skip, and the marker counter at 0 |
| PdoTable.Table.GetMarker | src/Olive/Pdo/Table.php:651-653 | the counter goes up by one and the marker is `marker` + its new value |
| PdoTable.Table.BindElemsQuery | src/Olive/Pdo/Table.php:609-615 | the loop binds an array as its specification says and lists the markers it took |
| PdoTable.Table.BindQuery | src/Olive/Pdo/Table.php:607-622 | a value is bound as its specification says |
| PdoTable.Table.EntryQuery | src/Olive/Pdo/Table.php:595-637 | an entry becomes what its specification gives, counter included |
| PdoTable.Table.SearchQuery | src/Olive/Pdo/Table.php:595-638 | the loop over the entries gives what SearchSql gives |
| PdoTable.Table.PrepareSearchQuery | src/Olive/Pdo/Table.php:592-643 | _prepareSearch gives what its specification gives |
| PdoTable.Table.SearchClauseQuery | src/Olive/Pdo/Table.php:535-573 | a WHERE or HAVING clause is its specification's |
| PdoTable.Table.JoinQuery | src/Olive/Pdo/Table.php:517-533 | the loop builds the JOIN clause its specification describes |
| PdoTable.Table.PrepareQuery | src/Olive/Pdo/Table.php:495-577 | _prepareQuery gives TableQuery of the table's state |
| PdoTable.Table.PrepareTail | src/Olive/Pdo/Table.php:534-577 | the clauses after JOIN are TableTail's |
| PdoTable.Table.InitCursor | src/Olive/Pdo/Table.php:440-466 | the cursor's statement is the clauses in the order SELECT, FROM, JOIN, WHERE, LIMIT, ORDER BY, GROUP BY, HAVING, with the query's values |
| PdoTable.Table.Insert | src/Olive/Pdo/Table.php:45-78 | the INSERT statement is its specification's and takes no marker |
| PdoTable.Table.SetQuery | src/Olive/Pdo/Table.php:105-111 | the SET loop binds and lists markers as its specification says |
| PdoTable.Table.Update | src/Olive/Pdo/Table.php:93-133 | the UPDATE statement and the counter are UpdateStatement's, the corrected update |
| PdoTable.Table.SaveEntryQuery | src/Olive/Pdo/Table.php:165-171 | one search entry of save, which takes a marker only when accepted |
| PdoTable.Table.SaveSearchQuery | src/Olive/Pdo/Table.php:164-172 | the loop over the search is SaveSearch |
| PdoTable.Table.SaveColumnQuery | src/Olive/Pdo/Table.php:174-180 | one data column of save, taking two markers |
| PdoTable.Table.SaveDataQuery | src/Olive/Pdo/Table.php:173-181 | the loop over the data is SaveData |
| PdoTable.Table.Save | src/Olive/Pdo/Table.php:149-210 | the INSERT ... ON DUPLICATE KEY UPDATE statement and the counter are SaveStatement's |
| PdoTable.Table.Remove | src/Olive/Pdo/Table.php:224-253 | the DELETE statement and the counter are RemoveStatement's |
| PdoTable.Table.FilterRow | src/Olive/Pdo/Table.php:287-291 | the filter loop over one row is ApplyFilters |
| PdoTable.Table.FilterAll | src/Olive/Pdo/Table.php:285-300 | the loop over the fetched rows is FetchRows |
| PdoTable.Table.Fetch | src/Olive/Pdo/Table.php:267-307 | refused before search(); otherwise the statement is prepared and the rows come back filtered |
| PdoTable.Table.Validates | src/Olive/Pdo/Table.php:331-337 | the validator loop accepts exactly when Passes does |
| PdoTable.Table.FetchOne | src/Olive/Pdo/Table.php:321-343 | fetchOne's row is FetchOneRow's once fetch succeeds |
| PdoTable.Table.FetchFirst | src/Olive/Pdo/Table.php:351-359 | the first value of fetchOne's row |
| PdoTable.Table.Count | src/Olive/Pdo/Table.php:367-370 | the select request is replaced by `COUNT(*)`, and the first value of the result is returned |
| PdoTable.Table.Join | src/Olive/Pdo/Table.php:382-386 | refused before search(); otherwise the pair is appended |
| PdoTable.Table.Group | src/Olive/Pdo/Table.php:397-401 | refused before search(); otherwise the field is appended |
| PdoTable.Table.Having | src/Olive/Pdo/Table.php:418-429 | a field or operator that is not a string is refused; otherwise the triple is appended; search() is not required |
| MongodbQuery.LikeTextCharwise | src/Olive/Mongodb/Query.php:213-217 | replacing `_` by `.` and then `%` by `.+?` rewrites each character on its own |
| MongodbQuery.LikePattern | src/Olive/Mongodb/Query.php:213-217 | a `like` value becomes the regular expression with `_` read as `.` and `%` as `.+?` |
| MongodbQuery.ConditionRoundTrip | src/Olive/Mongodb/Query.php:192-235 | each operator's condition document reads back as the field, the operator (a like pattern as its regular expression) and the value |
| MongodbQuery.LikeIsMatch | src/Olive/Mongodb/Query.php:212-232 | `like` and `not like` are `match` and `not match` on the rewritten pattern |
| MongodbQuery.FormatId | src/Olive/Mongodb/Query.php:243-252 | only `_id` values change: a scalar becomes an ObjectID, an array becomes an array of ObjectIDs |
| MongodbQuery.GroupConds | src/Olive/Mongodb/Query.php:240-255 | one condition per predicate of a group |
| MongodbQuery.GroupFilters | src/Olive/Mongodb/Query.php:238-263 | one filter per group |
| MongodbQuery.ConditionIsLeaf | src/Olive/Mongodb/Query.php:192-235 | a predicate's condition is a leaf of the filter, neither `$or` nor `$and` nor `{}` |
| MongodbQuery.FilterMeaning | src/Olive/Mongodb/Query.php:238-274 | the filter matches a document exactly when every group has a predicate whose condition matches it |
| MongodbQuery.FilterShape | src/Olive/Mongodb/Query.php:257-274 | no group gives `{}`; one group of one predicate gives its condition; one larger group gives `$or`; several groups give `$and` |
| MongodbQuery.WrapIds | src/Olive/Mongodb/Query.php:244-248 | the loop wraps each identifier of an array |
| MongodbQuery.PrepareConditions | src/Olive/Mongodb/Query.php:239-255 | the loop over a group builds its specification's conditions |
| MongodbQuery.PrepareQuery | src/Olive/Mongodb/Query.php:190-275 | the loops build the filter of SearchFilter |
| MongodbQuery.ProjectionFields | src/Olive/Mongodb/Query.php:148-153 | the projection holds 1 for exactly the selected fields without a dot |
| MongodbQuery.SortsLast | src/Olive/Mongodb/Query.php:155-164 | a field sorted twice takes its last order, 1 for "asc" and -1 otherwise |
| MongodbQuery.SortsAbsent | src/Olive/Mongodb/Query.php:155-164 | a field never sorted has no sort entry |
| MongodbQuery.PrepareProjection | src/Olive/Mongodb/Query.php:148-153 | the loop builds the projection |
| MongodbQuery.PrepareSorts | src/Olive/Mongodb/Query.php:155-164 | the loop builds the sort document |
| MongodbQuery.Resolve | src/Olive/Mongodb/Query.php:343-353 | resolving an alias keeps the number of rows |
| MongodbQuery.MoveAliasReads | src/Olive/Mongodb/Query.php:349-350 | in a row with the field set, the alias reads the field's value, the field reads null, every other key is unchanged |
| MongodbQuery.ResolveAliases | src/Olive/Mongodb/Query.php:341-374 | resolving all aliases keeps the number of rows |
| MongodbQuery.AliasTargets | src/Olive/Mongodb/Query.php:355-371 | a plain field is aliased only in the query's own collection; `coll.field` only in collection coll; a selection without an alias is skipped |
| MongodbQuery.ResolveRows | src/Olive/Mongodb/Query.php:344-352 | the loop over the rows is Resolve |
| MongodbQuery.Target | src/Olive/Mongodb/Query.php:356-371 | the field an alias applies to in a collection, if any |
| MongodbQuery.PrepareAliases | src/Olive/Mongodb/Query.php:355-373 | the loop over the selections is ResolveAliases |
| MongodbQuery.ResolveMeaning | src/Olive/Mongodb/Query.php:343-353 | resolving fails as ambiguous exactly when some row has both the field and the alias set; otherwise each row moves the field to the alias when the field is set |
| MongodbQuery.OrientLikeSql | src/Olive/Mongodb/Query.php:290-300 | a join is turned round exactly as Pdo\Query turns it round |
| MongodbQuery.JoinValuesMembers | src/Olive/Mongodb/Query.php:302-307 | the joined values are exactly the non-null values of the field in the rows |
| MongodbQuery.AddRowReads | src/Olive/Mongodb/Query.php:310-315 | one step of the map loop appends the row's position to its key's bucket, emptying the bucket first whenever the map has a key spelt like the field's name |
| MongodbQuery.RowKeys | src/Olive/Mongodb/Query.php:310-315 | the rows' field values as array keys; an array or object value is an illegal offset |
| MongodbQuery.IndexKeysHas | src/Olive/Mongodb/Query.php:310-315 | the map has exactly the keys met |
| MongodbQuery.IndexKeysPositions | src/Olive/Mongodb/Query.php:310-315 | while no key is spelt like the field's name, each bucket lists the positions of its key |
| MongodbQuery.BuildMapPositions | src/Olive/Mongodb/Query.php:310-315 | in that case a row is in a key's bucket exactly when its field value has that key |
| MongodbQuery.MapQuirk | src/Olive/Mongodb/Query.php:311-312 | once a key equal to the field's name is in the map, later rows empty their bucket: keys `[a, field, a]` leave only `[2]` under a |
| MongodbQuery.IndexKeysBuckets | src/Olive/Mongodb/Query.php:310-315 | buckets hold increasing positions of existing rows |
| MongodbQuery.MergeInto | src/Olive/Mongodb/Query.php:323-325 | merging into a bucket keeps the number of rows |
| MongodbQuery.MergeIntoRenumbers | src/Olive/Mongodb/Query.php:324 | the merge is array_merge: a secondary row's integer keys are renumbered after the row's own, so `[0 => a]` merged with `[0 => b]` gives `[0 => a, 1 => b]` |
| MongodbQuery.MergeIntoReads | src/Olive/Mongodb/Query.php:323-325 | a row in the bucket becomes array_merge of itself and the secondary row (string keys overwritten, integer keys renumbered); the others are unchanged |
| MongodbQuery.MergeRows | src/Olive/Mongodb/Query.php:322-326 | merging keeps the number of rows |
| MongodbQuery.MergeRowsMatched | src/Olive/Mongodb/Query.php:322-326 | each row is array_merged, in order, with every secondary row whose field2 value has the row's key |
| MongodbQuery.MergeRowsFails | src/Olive/Mongodb/Query.php:323 | merging fails exactly when a secondary row's field2 value is an illegal offset |
| MongodbQuery.JoinStep | src/Olive/Mongodb/Query.php:289-326 | one join keeps the number of rows |
| MongodbQuery.Joined | src/Olive/Mongodb/Query.php:287-300 | each join adds one collection to the joined list |
| MongodbQuery.JoinAll | src/Olive/Mongodb/Query.php:286-329 | the joins keep the number of rows |
| MongodbQuery.CollectValues | src/Olive/Mongodb/Query.php:302-307 | the loop collects the joined values |
| MongodbQuery.BuildIndex | src/Olive/Mongodb/Query.php:309-315 | the loop builds the map as written |
| MongodbQuery.MergeBucket | src/Olive/Mongodb/Query.php:323-325 | the loop over one bucket, array_merge row by row, is MergeInto |
| MongodbQuery.MergeAll | src/Olive/Mongodb/Query.php:322-326 | the loop over the secondary rows is MergeRows |
| MongodbQuery.JoinOne | src/Olive/Mongodb/Query.php:289-326 | one pass of the join loop is JoinStep |
| MongodbQuery.JoinCollections | src/Olive/Mongodb/Query.php:286-329 | _joinCollectionsTo is JoinAll |
| MongodbQuery.FetchRowsIds | src/Olive/Mongodb/Query.php:78-91 | fetch keeps one row per document, each with a string `_id` |
| MongodbQuery.FetchRowsPlain | src/Olive/Mongodb/Query.php:78-91 | without aliases and joins every other field comes back as the driver gave it |
| MongodbQuery.NoAliases | src/Olive/Mongodb/Query.php:355-358 | selections without an alias change no row |
| MongodbQuery.FetchOneRow | src/Olive/Mongodb/Query.php:99-114 | without a current document, `count(null)` fails |
| MongodbQuery.FetchOneIsFetch | src/Olive/Mongodb/Query.php:99-114 | fetchOne on a document is fetch on that document alone |
| MongodbQuery.UpdateOptions | src/Olive/Mongodb/Query.php:28-34 | the options get `limit` 0 and lose `upsert`; every other option is kept |
| MongodbQuery.DocQuery.constructor | src/Olive/AbstractQuery.php:35-38 | a new, empty query |
| MongodbQuery.DocQuery.FindQuery | src/Olive/Mongodb/Query.php:145-179 | the find request holds the filter, projection, sorts, limit and skip of the query |
| MongodbQuery.DocQuery.Fetch | src/Olive/Mongodb/Query.php:78-91 | the find request, and the documents as FetchRows shapes them |
| MongodbQuery.DocQuery.FetchOne | src/Olive/Mongodb/Query.php:99-114 | the find request, and the first document as FetchOneRow shapes it |
| MongodbQuery.DocQuery.FetchFirst | src/Olive/Mongodb/Query.php:122-128 | the first field of fetchOne's row |
| MongodbQuery.DocQuery.Count | src/Olive/Mongodb/Query.php:136-140 | the number of documents |
| MongodbQuery.DocQuery.Update | src/Olive/Mongodb/Query.php:26-48 | the filter, `$set` of the document, and the options with `limit` 0 and no `upsert` |
| MongodbQuery.DocQuery.Remove | src/Olive/Mongodb/Query.php:56-70 | the filter and the options as given |
| MongoCollection.FormatMongoId | src/Olive/Mongo/Collection.php:100-108 | with formatting off the id is returned as it is; an array or object id is an illegal offset |
| MongoCollection.FormatMongoIdCache | src/Olive/Mongo/Collection.php:104-107 | a new key gets a new MongoId, which is cached; a cached key gives back its object and leaves the cache alone; the cache stays valid and no other key changes |
| MongoCollection.FormatMongoIdRepeats | src/Olive/Mongo/Collection.php:104-107 | formatting an id with the same array key again gives the same object |
| MongoCollection.FormatEach | src/Olive/Mongo/Collection.php:534-536 | with formatting off the list is unchanged; on success every element is formatted |
| MongoCollection.FormatEachObjects | src/Olive/Mongo/Collection.php:534-536 | every formatted element is a MongoId made from a value with the element's key; the cache stays valid |
| MongoCollection.OldOpTable | src/Olive/Mongo/Collection.php:518-526 | the operator switch accepts exactly the six operators Pdo\Table accepts, in any case |
| MongoCollection.OldOpRefusesPatterns | src/Olive/Mongo/Collection.php:518-526 | like, not like, match and not match are invalid operators here |
| MongoCollection.ComposeRoundTrip | src/Olive/Mongo/Collection.php:517-527 | a composed condition is the newer translator's condition for the same field, operator and value |
| MongoCollection.SubConditionsSpec | src/Olive/Mongo/Collection.php:548-551 | an OR entry succeeds exactly when every triple does, and then holds their conditions in order |
| MongoCollection.OrEntryMeaning | src/Olive/Mongo/Collection.php:547-557 | an OR entry matches a document exactly when one of its conditions does |
| MongoCollection.EntryConditions | src/Olive/Mongo/Collection.php:530-562 | on success, one condition per entry |
| MongoCollection.EntryConditionsAt | src/Olive/Mongo/Collection.php:530-562 | the i-th condition is what the i-th entry gives with the cache the earlier entries left |
| MongoCollection.QueryMeaning | src/Olive/Mongo/Collection.php:563-572 | the query is the `$and` of the conditions, or the single condition, or `{}`; it matches exactly when every condition does |
| MongoCollection.IdValueKeepsCache | src/Olive/Mongo/Collection.php:532-541 | the identifier step keeps the cache valid |
| MongoCollection.EntryConditionsKeepCache | src/Olive/Mongo/Collection.php:515-573 | preparing a query keeps the cache valid |
| MongoCollection.OrIdsNotFormatted | src/Olive/Mongo/Collection.php:532-550 | an `_id` triple is formatted, but the same triple inside an OR entry is not |
| MongoCollection.InIsCaseSensitive | src/Olive/Mongo/Collection.php:533 | the identifier step compares `in` case-sensitively, so `_id IN [..]` formats the whole array and fails, while the condition itself accepts `IN` |
| MongoCollection.SortDocSpec | src/Olive/Mongo/Collection.php:468-481 | the sort document keeps each field in its place with 1 or -1; it is refused exactly when some order is neither asc nor desc, with the first such order's error |
| MongoCollection.IndexVsSort | src/Olive/Mongo/Collection.php:117-125 | index and sort agree on "asc" and "desc"; "ASC" sorts ascending but indexes descending; an unknown order indexes descending but is refused as a sort |
| MongoCollection.OpenCursorKeepsCache | src/Olive/Mongo/Collection.php:462-504 | opening a cursor keeps the cache valid |
| MongoCollection.ShapeIdReads | src/Olive/Mongo/Collection.php:335-342 | a set `_id` is dropped when a non-empty select list does not name it, and turned into a string otherwise; other fields read as before |
| MongoCollection.MoveAlias | src/Olive/Mongo/Collection.php:344-349 | an alias gets the field's value and the field is unset, every other field is kept; an alias naming its own field drops it |
| MongoCollection.ShapeRowsSpec | src/Olive/Mongo/Collection.php:333-364 | fetch shapes every document on its own and drops none; a failure is some document's failure |
| MongoCollection.FetchOneIsFetch | src/Olive/Mongo/Collection.php:376-417 | fetchOne shapes its document as fetch does, then a rejecting validator gives null |
| MongoCollection.FetchOneNoDocument | src/Olive/Mongo/Collection.php:383-399 | without a document fetchOne gives null, unless an alias writes into it and makes it an array |
| MongoCollection.FirstOf | src/Olive/Mongo/Collection.php:425-435 | the first field, or null for no row or an empty row; a MongoId is turned into a string |
| MongoCollection.DefaultReads | src/Olive/Mongo/Collection.php:197-202 | setting an option only where it is missing keeps the keys unique and reads as the given option where present |
| MongoCollection.UpdateOptions | src/Olive/Mongo/Collection.php:195-210 | `upsert` is removed; `w` defaults to the write concern and `multiple` to true; other options are kept; without options there are exactly these two |
| MongoCollection.RemoveOptions | src/Olive/Mongo/Collection.php:291-299 | only a second argument is read as options; `w` defaults to the write concern and other options are kept |
| MongoCollection.SubQueries | src/Olive/Mongo/Collection.php:548-551 | the loop over an OR entry is SubConditions |
| MongoCollection.SortOrders | src/Olive/Mongo/Collection.php:469-480 | the in-place loop over the sort request is SortDoc |
| MongoCollection.AliasLoop | src/Olive/Mongo/Collection.php:344-349 | the alias loop is MoveAliases |
| MongoCollection.FilterLoop | src/Olive/Mongo/Collection.php:351-355 | the filter loop is ApplyFilters |
| MongoCollection.Validates | src/Olive/Mongo/Collection.php:407-413 | the validator loop accepts exactly when Passes does |
| MongoCollection.ShapeOne | src/Olive/Mongo/Collection.php:335-355 | shaping one document is ShapeRow |
| MongoCollection.ShapeAll | src/Olive/Mongo/Collection.php:333-364 | fetch's loop over the documents is ShapeRows |
| MongoCollection.Collection.constructor | src/Olive/Mongo/Collection.php:31-41 | a new collection has empty requests, no settings of its own, an empty id cache and no cursor |
| MongoCollection.Collection.WriteConcern | src/Olive/Mongo/Collection.php:52-65 | without a flag, the own setting or the database's is returned; with one, its truthiness becomes the own setting |
| MongoCollection.Collection.AutoFormatIds | src/Olive/Mongo/Collection.php:76-89 | without a flag, the own setting or the database's is returned; with one, its truthiness becomes the own setting |
| MongoCollection.Collection.FormatId | src/Olive/Mongo/Collection.php:100-108 | the id and the cache follow FormatMongoId under the effective setting, which keeps a valid cache valid (FormatMongoIdCache) |
| MongoCollection.Collection.FormatIds | src/Olive/Mongo/Collection.php:534-536 | the loop and the cache follow FormatEach, which keeps a valid cache valid (FormatEachObjects) |
| MongoCollection.Collection.PrepareOne | src/Olive/Mongo/Collection.php:531-561 | one entry and the cache follow PrepareEntry, which keeps a valid cache valid (IdValueKeepsCache) |
| MongoCollection.Collection.Prepare | src/Olive/Mongo/Collection.php:515-573 | the query and the cache follow PrepareQuery; the collection stays valid |
| MongoCollection.Collection.InitCursor | src/Olive/Mongo/Collection.php:462-504 | the cursor request and the cache follow OpenCursor; a failure keeps the old cursor; the collection stays valid |
| MongoCollection.Collection.Index | src/Olive/Mongo/Collection.php:117-131 | the index document is the field with 1 or -1, and the cursor is closed |
| MongoCollection.Collection.Update | src/Olive/Mongo/Collection.php:192-229 | refused before search(); otherwise the query, `$set` of the document and the options, and the cursor is closed; the collection stays valid |
| MongoCollection.Collection.Remove | src/Olive/Mongo/Collection.php:288-318 | refused before search(); otherwise the query and the options, and the cursor is closed; the collection stays valid |
| MongoCollection.Collection.Fetch | src/Olive/Mongo/Collection.php:326-368 | refused before search(); otherwise the documents shaped by ShapeRows, and the cursor is closed unless shaping fails; the collection stays valid |
| MongoCollection.Collection.FetchOne | src/Olive/Mongo/Collection.php:376-417 | refused before search(); otherwise FetchOneRow's result, and the cursor is closed unless shaping fails; the collection stays valid |
| MongoCollection.Collection.FetchFirst | src/Olive/Mongo/Collection.php:425-435 | the first field of fetchOne's result; the cursor is closed unless shaping fails; the collection stays valid |
| MongoCollection.Collection.Count | src/Olive/Mongo/Collection.php:443-453 | refused before search(); otherwise the cursor request, and the cursor is closed; the collection stays valid |
| MongoCollection.Collection.KeepsValid | src/Olive/Mongo/Collection.php:462-504 | opening a cursor on a valid collection always leaves a valid cache, whether it succeeds or fails |

## Left out

- Database drivers: PDO, the MongoDB driver and the legacy Mongo driver are not modelled. A query's result is the request that would be sent (SQL text and bound values, or a filter document and options). The rows or documents a driver returns are parameters of the fetching operations.
- Exception classes: `Pdo\Table` and `Mongo\Collection` catch every `\Exception` raised inside their operations and throw a `DatabaseError` with the same message; `Pdo\Query` and `Mongodb\Query` throw a plain `Exception` instead. Olive's own errors raised inside those blocks, such as an invalid operator or sort order, are wrapped the same way. The model reports the inner cause (`Values.Error`), not the class that carries it. Driver exceptions are not modelled, as the drivers are not.
- Connections: `Pdo::_concatenateOptions` is modelled (`Pdo.ConcatenateOptionsSplits`). The `Pdo` constructor's credential extraction (username and password taken out of the options only when truthy) and the adapters' `_getDsn` are not. Opening the connection, setting driver attributes, `getDataContainer` and `getDataContainerNames` are driver calls and are not modelled.
- Logging: the `_log` helper of `Container` is commented out in the source, so it adds no behaviour. The cache closure handed to the adapters is not modelled either.
- prepareData and the stdClass conversion of `_formatResults`: these are driver-facing type conversions. Documents are already `Values.Value` trees in the model.
- The `(array)` and `(object)` casts: arrays and objects are both the same ordered entry lists.
- The `options` arguments of the PDO methods: they are passed to the driver untouched, so they do not affect the request.
- Mongo\Collection insert and save: each is one driver call with the `w` write option, which the model has no request text for. `Collection.WriteConcern` models the option they read.
- count: the driver produces the number. In `Pdo\Query`, `Pdo\Table` and `Mongodb\Query`, the rows or documents it counts are a parameter. `Mongo\Collection::count` returns only its request, because the number comes from the legacy driver's cursor.
- Iterators: `current`, `key`, `next`, `rewind` and `valid` of `Pdo\Table` and `Mongo\Collection` walk a live driver cursor and are not modelled. In `Mongo\Collection`, the open cursor is the `cursor` field, and `_closeCursor` resets it to `None`. `Pdo\Table` keeps no cursor state, and its `_closeCursor` is not modelled.
- Insert's return values (`lastInsertId` and `rowCount`) come from the driver and are not modelled.
- The projection of `Mongo\Collection`: the select request is not passed to the legacy driver's `find`, because that argument is commented out in `_initCursor` (src/Olive/Mongo/Collection.php:466). `MongoCollection.OpenCursor` leaves it out likewise. `Mongodb\Query` does send its projection, and `MongodbQuery.DocQuery.FindQuery` builds it.
- The secondary query of a Mongo join: the source reads variables `$collection` and `$field` that are never defined at that point. The model takes the joined side's collection and field (`collection2`, `field2`) and leaves that query's result to the `fetched` parameter.
- Model.php and the adapters other than PDO, SQLite and MongoDB are not part of this model.
- PHP integers and floats: integers are unbounded, so PHP's 64-bit overflow into floats is not modelled. There is no float value; the values are null, booleans, integers, strings, arrays and Mongo identifiers.
- Regular expressions: the `preg_match` of `Pdo::escape` is modelled for its one pattern only. Mongo regular expressions are kept as text, and the `like` meaning is proved for the characterwise rewriting.
- Callbacks: filters and validators are values of a function type, so any side effects they would have are not modelled.
- Name comparison: table and collection names are compared as exact text, in `PdoQuery.ContainsTable`, the join orientation of `Pdo\Query`, `PdoTable.JoinStep`, `MongodbQuery.OrientJoin` and the alias resolution of `MongodbQuery.AliasTarget` (src/Olive/Mongodb/Query.php:361 and :368). PHP's `in_array` and `==` compare two numeric strings as numbers, so names such as `1` and `01` match there and not in the model.
- MongodbQuery.AliasTargets: its `coll != root ==> None` clause compares collection names as exact text. PHP's `==` at src/Olive/Mongodb/Query.php:361 and :368 also matches numeric strings by value, so a selection `01.f` in collection `1` is renamed there and skipped here.
- MongodbQuery.Target: it follows `AliasTarget`, with the same exact-text comparison of collection names.
- Mongo\Collection fetch keys: `iterator_to_array` over the legacy cursor keys each document by its `_id`. The model returns the documents as a sequence in cursor order, without those keys.
- Container.SelectEffect: its argument is a `Values.Value`, whose arrays are keyless lists, so the keys an associative array would keep through array_merge are not visible in it. `Container.Container.SelectArray` and `Container.SelectArrayEffect` model select() given an associative array, keys included.
- Container.Container.Select: the same; an array argument is a keyless list here, and the keyed form is `Container.Container.SelectArray`.
- Values.List: arrays nested inside values are keyless lists. The keys of a nested document, which `_formatResults` (src/Olive/Mongodb/Query.php:385-397) converts recursively, are therefore not kept below the top level of a row. Select's associative array argument is covered by `Container.Container.SelectArray`.
- Values.ToInt: the cast is computed on the exact decimal value and truncated. PHP reads a fraction or an exponent through a double, so a value within double precision of an integer, or one beyond 64 bits, can cast differently.
- PdoTable.Table.Update: it models the corrected update, which executes the statement on its merged values. As written, the source passes the bare constant `values`, so every update fails (see Findings and `PdoTable.UpdateAsWritten`).

## Findings

| source | as written | input that shows it | evidently intended | confidence | as-written member | corrected member |
|---|---|---|---|---|---|---|
| src/Olive/Pdo/Table.php:125 | `$statement->execute(values)` passes the bare name `values`, an undefined constant, which PHP 8 rejects with an `Error`; `catch(\Exception)` does not catch it, so every update that reaches this line fails after drawing its markers | a table whose search is set, with no conditions, updated with one column `a` set to 1 | `$statement->execute($values)`, binding the SET values and then the search values | high, not executed | PdoTable.UpdateAsWritten | PdoTable.UpdateStatement |
