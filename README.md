# rewrite-sql, modelled in Dafny

This project models the core of OpenRewrite's SQL recipes:

- **Detecting SQL**: the keyword gates, `isSql`, and the extractor that turns a parsed statement into `DatabaseColumnsUsed` rows (which table and column each SELECT, UPDATE or DELETE touches). This is `SqlDetector.java`.
- **Finding SQL**: `FindSql.java` finds SQL in Java string literals, YAML scalars and `.sql` files. It counts line feeds so that it can report each statement at the line where it starts.
- **Formatting SQL**: `FormatSql.java` re-indents formatted SQL into a Java text block. The indentation is the shortest run of blanks after a newline in the literal's source.
- **Querying and renaming functions**:
  - the `SqlQuery` trait makes a parsed view of a literal or a plain-text file;
  - `FindFunction` records the calls whose name matches a glob;
  - `ChangeFunctionName` renames the matching calls and brackets each renamed call with a change marker (`ChangeTrackingExpressionDeParser`).

Foreign code is passed in as parameters:

- JSqlParser's parser is a function `parse: string -> Option<Statement>`, where `None` stands for a parse exception.
- The SQL formatter is a function `format: string -> string`.

Statements and expressions are small datatypes. Expressions are column references, wildcards, function calls, binary operators and other leaves. Statements are selects, updates, deletes and other statements. A select body is a plain select with its WHERE, GROUP BY, HAVING and ORDER BY clauses, or a set operation (UNION, INTERSECT, EXCEPT) between two bodies with its own ORDER BY. Joins, sub-selects, LIMIT, WITH and the other parts JSqlParser holds are not in the datatypes; "## Left out" lists what that leaves out. The text JSqlParser's deparsers write for a node is a fixed stand-in rendering. The model states exactly what the overridden `visit(Function)` methods and `trackChange` add to that rendering.

Code that changes state is imperative Dafny:

- the detector's row list and stacks;
- the deparser's buffer, data tables and found flag;
- the view's statement, which the rename changes in place;
- the recipes' data tables;
- the line counters;
- the `shortestPrefixAfterNewline` loop and its two-element array.

Each method is proved against a specification function. The properties of those functions are proved as lemmas.

Files:

- `wrappers.dfy`, `strings.dfy`: Option/Result, plus string helpers (Java `replace`, `split`, counting, case).
- `sql.dfy`, `tables.dfy`: statements and expressions; data-table rows; the search-result flag.
- `glob.dfy`: the glob used for function names.
- `detector.dfy`: `SqlDetector`.
- `format.dfy`: `FormatSql`, the `Indenter` and `visitLiteral`.
- `changetracking.dfy`: the change marker and `applyChange`.
- `deparse.dfy`: the expression and statement deparse with the three `visit(Function)` variants.
- `renaming.dfy`: what a deparse does to call names.
- `sqlquery.dfy`: the `SqlQuery` trait.
- `findfunction.dfy`, `changefunctionname.dfy`: the two recipes.
- `findsql.dfy`: `FindSql`.

Where the code differs from its documented design, the model follows the code:

- The change marker is the three-character string written in the source, not a single character.
- The markers bracket the whole deparsed call, name and arguments, not only the name.
- The indentation scan compares tab-weighted widths but stores unweighted ones.
- The new-name option is documented to match the casing of the call it replaces. The code sets the new name verbatim.
- `Indenter.indent` adds the line continuation unless the text block's source ends with a line feed. A text block's source always ends with `"""`, so the continuation is always added.

## Model

All source paths are under `src/main/java/org/openrewrite/sql/` unless they start with `src/test`.

| member | source | states |
|---|---|---|
| SqlDetector.ProbablySql | src/main/java/org/openrewrite/sql/SqlDetector.java:134-136 | The gate is false for null. |
| SqlDetector.ProbablySqlAt | src/main/java/org/openrewrite/sql/trait/SqlQuery.java:70-75 | The SQL gate holds iff SELECT, UPDATE, DELETE or INSERT starts at some position of the text, in any ASCII case. This is the same pattern as SqlDetector.java:46-47; the trait's package-local copy is this one definition. |
| SqlDetector.ProbablyDdlAt | src/main/java/org/openrewrite/sql/SqlDetector.java:138-140 | The DDL gate holds iff CREATE, ALTER, DROP or TRUNCATE starts at some position, in any ASCII case. |
| SqlDetector.ProbablySqlGrows | src/main/java/org/openrewrite/sql/SqlDetector.java:46-48 | `find` is a substring search, so text around a keyword never turns the gate off ("SELECTed" passes). |
| SqlDetector.ProbablyDdlGrows | src/main/java/org/openrewrite/sql/SqlDetector.java:49 | The same holds for the DDL gate. |
| SqlDetector.IsSql | src/main/java/org/openrewrite/sql/SqlDetector.java:142-154 | The loop returns true iff one of the gates holds and every `;`-separated segment, with Java `split` semantics, parses. |
| SqlDetector.IsSqlSingle | src/main/java/org/openrewrite/sql/SqlDetector.java:142-154 | Text without `;` is SQL iff a gate holds and the whole text parses. |
| SqlDetector.IsSqlTwo | src/main/java/org/openrewrite/sql/SqlDetector.java:145-147 | `a;b` is SQL iff a gate holds and both parts parse. |
| SqlDetector.IsSqlTrailingSemicolon | src/main/java/org/openrewrite/sql/SqlDetector.java:145 | `split` drops the empty trailing segment, so a trailing `;` never changes the verdict. |
| SqlDetector.Rows | src/main/java/org/openrewrite/sql/SqlDetector.java:51-132 | Returns the rows the statement visitor produces: for a set operation, the rows of each of its selects. Returns none when the gate fails or the text does not parse. |
| SqlDetector.StatementRowsShape | src/main/java/org/openrewrite/sql/SqlDetector.java:105-123 | Every row carries the source path, line and commit it was found with, and the statement's operation. The operation is never INSERT. |
| SqlDetector.BodyRowsShape | src/main/java/org/openrewrite/sql/SqlDetector.java:67-86 | Every row of a select, in every branch of a set operation, carries the location and SELECT. |
| SqlDetector.SelectRows | src/main/java/org/openrewrite/sql/SqlDetector.java:72-83 | A plain select from a table yields one SELECT row per projected column or wildcard, in order, all on that table. |
| SqlDetector.SelectNotFromTable | src/main/java/org/openrewrite/sql/SqlDetector.java:73 | A select whose FROM item is not a table yields no rows. |
| SqlDetector.SetOperationRows | src/main/java/org/openrewrite/sql/SqlDetector.java:69-85 | A set operation yields the rows of its left select followed by those of its right one; its operator and ORDER BY add none. |
| SqlDetector.UnionExample | src/main/java/org/openrewrite/sql/SqlDetector.java:69-85 | `select a from t union select b from u` yields one row for `a` on `t` and one for `b` on `u`. |
| SqlDetector.UpdateRows | src/main/java/org/openrewrite/sql/SqlDetector.java:89-101 | An update yields one UPDATE row per column of every SET group, in order, on the updated table. The WHERE clause plays no part. |
| SqlDetector.DeleteRows | src/main/java/org/openrewrite/sql/SqlDetector.java:104-127 | A delete yields one DELETE row with no column per listed table, in order, then one more row for the primary table if there is one. |
| SqlDetector.UsageExtractor.constructor | src/main/java/org/openrewrite/sql/SqlDetector.java:63-65 | The extractor starts with empty operation and table stacks and no rows. |
| SqlDetector.UsageExtractor.AddRow | src/main/java/org/openrewrite/sql/SqlDetector.java:191-197 | The row is appended; the stacks are unchanged. |
| SqlDetector.UsageExtractor.AddColumnRow | src/main/java/org/openrewrite/sql/SqlDetector.java:179-188 | One row at the extractor's location, with the given operation, table and column, is appended. |
| SqlDetector.UsageExtractor.DetectColumns | src/main/java/org/openrewrite/sql/SqlDetector.java:158-177 | The ColumnDetector appends one row per column reference or wildcard of the expression, in visiting order. |
| SqlDetector.UsageExtractor.DetectColumnsList | src/main/java/org/openrewrite/sql/SqlDetector.java:76-79 | The select items are visited in order. |
| SqlDetector.UsageExtractor.VisitSelect | src/main/java/org/openrewrite/sql/SqlDetector.java:67-86 | Appends exactly the select's rows, every branch of a set operation included. Pushes and pops leave both stacks as they were. |
| SqlDetector.UsageExtractor.VisitSelectBody | src/main/java/org/openrewrite/sql/SqlDetector.java:70-84 | With SELECT on top of the operation stack, a select body appends exactly `BodyRows`: a plain select through VisitPlainSelect, a set operation's selects left to right. The stacks are left as they were. |
| SqlDetector.UsageExtractor.VisitPlainSelect | src/main/java/org/openrewrite/sql/SqlDetector.java:72-82 | A plain select from a table appends the rows of its items' columns against that table, in item order; the pushed table is popped again, so both stacks end as they began; a select from anything else appends nothing. |
| SqlDetector.UsageExtractor.VisitUpdate | src/main/java/org/openrewrite/sql/SqlDetector.java:88-101 | Appends exactly the update's rows. The stacks are balanced. |
| SqlDetector.UsageExtractor.ReportSetColumns | src/main/java/org/openrewrite/sql/SqlDetector.java:94-97 | With UPDATE and the table on top of the stacks, the columns of one update set append one UPDATE row each against that table, in order; the stacks are untouched. |
| SqlDetector.UsageExtractor.VisitDelete | src/main/java/org/openrewrite/sql/SqlDetector.java:103-127 | Appends exactly the delete's rows. The stacks are balanced. |
| SqlDetector.UsageExtractor.Accept | src/main/java/org/openrewrite/sql/SqlDetector.java:130 | Dispatches on the statement kind. Other statements add nothing. |
| Glob.LiteralMatches | src/main/java/org/openrewrite/sql/search/FindFunction.java:63 | A pattern without wildcards matches exactly the names equal to it up to ASCII case. |
| Glob.StarMatchesAll | src/main/java/org/openrewrite/sql/ChangeFunctionName.java:62 | `*` matches every name. |
| FormatSql.ShortestPrefixAfterNewline | src/main/java/org/openrewrite/sql/FormatSql.java:195-238 | The loop, with its in-place two-element array, returns the fold of the blank runs that follow a newline, as the code folds them. |
| FormatSql.ScanMeaning | src/main/java/org/openrewrite/sql/FormatSql.java:202-230 | After any prefix, `shortest`, the pair, the counters and `afterNewline` hold the fold of the closed runs, the open run, and whether the prefix ends inside a run. |
| FormatSql.ScanStep | src/main/java/org/openrewrite/sql/FormatSql.java:204-229 | One character closes a run (a non-blank after a newline), extends it (a blank), or starts one (a newline). |
| FormatSql.TailLinesOnly | src/main/java/org/openrewrite/sql/FormatSql.java:201 | The first line never contributes: only lines after a newline count. |
| FormatSql.NoNewlineZero | src/main/java/org/openrewrite/sql/FormatSql.java:196-197 | Text without a newline gives (0, 0). |
| FormatSql.FirstLineIgnored | src/main/java/org/openrewrite/sql/FormatSql.java:201-211 | Replacing the first line does not change the result. |
| FormatSql.FoldStoresWidth | src/main/java/org/openrewrite/sql/FormatSql.java:205-208 | As written, `shortest` holds the unweighted width of the stored pair. |
| FormatSql.EmptyRunWins | src/main/java/org/openrewrite/sql/FormatSql.java:205-208 | A line with no indentation makes the result (0, 0). |
| FormatSql.BlankLineZero | src/main/java/org/openrewrite/sql/FormatSql.java:213-216 | Two consecutive newlines give (0, 0). |
| FormatSql.WiderRunKept | src/main/java/org/openrewrite/sql/FormatSql.java:205-206 | As written, for "x\n\ty\n  z" with tab size 4 the one-tab run (4 columns) is kept over two spaces (2 columns). |
| FormatSql.IntendedMinimal | src/main/java/org/openrewrite/sql/FormatSql.java:205-206 | With the weighted width stored, the result is a competing run of minimal weighted width, or (0, 0) when there is none. |
| FormatSql.FoldIntendedMinimal | src/main/java/org/openrewrite/sql/FormatSql.java:202-230 | The intended fold keeps the earliest run of minimal weighted width. |
| FormatSql.FoldsAgree | src/main/java/org/openrewrite/sql/FormatSql.java:205-206 | Where weighted and unweighted widths coincide, the two folds agree. |
| FormatSql.FinishesAgree | src/main/java/org/openrewrite/sql/FormatSql.java:232-235 | The same holds for the final open run. |
| FormatSql.NoTabsAgree | src/main/java/org/openrewrite/sql/FormatSql.java:205-206 | Without tabs, the code as written computes the intended result. |
| FormatSql.TabSizeOneAgrees | src/main/java/org/openrewrite/sql/FormatSql.java:205-206 | With tab size 1, the code as written computes the intended result. |
| FormatSql.IndentOf | src/main/java/org/openrewrite/sql/FormatSql.java:180-186 | The indentation is blanks only and has no newline. Its length is tabs plus spaces with tabs, or the weighted width with spaces. |
| FormatSql.IndentOfLead | src/main/java/org/openrewrite/sql/FormatSql.java:180-186 | Read back, the indentation is the run itself (tabs), or its width in spaces. |
| FormatSql.GetIndents | src/main/java/org/openrewrite/sql/FormatSql.java:176-187 | Returns the indentation of the scan's result. |
| FormatSql.IndentationFor | src/main/java/org/openrewrite/sql/FormatSql.java:150-156 | With the style, or IntelliJ's default, the indentation is blanks only and has no newline. |
| FormatSql.Indent | src/main/java/org/openrewrite/sql/FormatSql.java:149-174 | Returns the escaped, shifted text: a first line, and a continuation line when the source lacks a final newline. |
| FormatSql.EscapedNoTrailingSpace | src/main/java/org/openrewrite/sql/FormatSql.java:158-159 | After escaping, no space is directly followed by a newline. |
| FormatSql.EscapedRoundTrip | src/main/java/org/openrewrite/sql/FormatSql.java:159 | Reading `\s` back as a space restores the formatted text. |
| FormatSql.EscapedNewlines | src/main/java/org/openrewrite/sql/FormatSql.java:159 | Escaping keeps the number of line feeds. |
| FormatSql.ShiftLines | src/main/java/org/openrewrite/sql/FormatSql.java:160-161 | Every line after the first is prefixed with the indentation; nothing else changes. |
| FormatSql.IndentedLines | src/main/java/org/openrewrite/sql/FormatSql.java:159-172 | The result's lines are an empty first line, then the escaped lines, each indented. Without a final newline in the source, the last line gets a `\` and an indentation-only line follows. |
| FormatSql.IndentedNewlines | src/main/java/org/openrewrite/sql/FormatSql.java:163-172 | The result has one line feed more than the formatted text, or two more when the source lacks a final newline. |
| FormatSql.IndentedEnds | src/main/java/org/openrewrite/sql/FormatSql.java:163-172 | The result starts with a newline and the indentation. Without a final newline in the source, it ends with `\`, a newline and the indentation. |
| FormatSql.TextBlockSource | src/main/java/org/openrewrite/sql/FormatSql.java:130-133 | The new value source opens with `"""` and a newline. The closing `"""` sits on its own indented line. |
| FormatSql.VisitLiteral | src/main/java/org/openrewrite/sql/FormatSql.java:121-138 | Returns the literal with the formatted value and the re-indented source, or the literal unchanged. |
| FormatSql.LiteralChangesExactly | src/main/java/org/openrewrite/sql/FormatSql.java:123-137 | A literal changes iff it is a text block, holds SQL, and the formatter changes it. Its value is then the formatted text. |
| FormatSql.FormattedIsTextBlock | src/main/java/org/openrewrite/sql/FormatSql.java:130-144 | A changed literal is again a text block, with its closing delimiter on its own line. |
| FormatSql.ContinuedSource | src/main/java/org/openrewrite/sql/FormatSql.java:166-172 | A value source ending with `"""` never ends with a line feed, so the new source ends with `\`, a line feed, the indentation and `"""`. |
| FormatSql.TextBlockAlwaysContinues | src/main/java/org/openrewrite/sql/FormatSql.java:130-133 | Every literal visitLiteral changes, whose source ends with `"""`, gets the line continuation before its closing delimiter. |
| FormatSql.FormatIdempotent | src/main/java/org/openrewrite/sql/FormatSql.java:121-138 | With an idempotent formatter, formatting a literal twice is formatting it once. |
| ChangeTracking.UnmarkedUnchanged | src/main/java/org/openrewrite/sql/internal/ChangeTrackingExpressionDeParser.java:25-29 | applyChange leaves text that holds no whole marker unchanged. Text without even the marker's first character also ends where no marker can straddle. |
| ChangeTracking.ApplyChangeConcat | src/main/java/org/openrewrite/sql/internal/ChangeTrackingExpressionDeParser.java:25-29 | applyChange distributes over concatenation when no marker straddles the join. |
| ChangeTracking.MarkerRemoved | src/main/java/org/openrewrite/sql/internal/ChangeTrackingExpressionDeParser.java:23-28 | applyChange removes a marker. |
| ChangeTracking.MarkerAfter | src/main/java/org/openrewrite/sql/internal/ChangeTrackingExpressionDeParser.java:25-32 | Text with no whole marker, followed by a marker: the text is kept, whatever it ends with, and the marker is removed. |
| ChangeTracking.PairRemoved | src/main/java/org/openrewrite/sql/internal/ChangeTrackingExpressionDeParser.java:25-35 | A span bracketed by trackChange comes back without its markers, whenever neither the text before it nor the span holds a whole marker. |
| ChangeTracking.LoneHeadKept | src/main/java/org/openrewrite/sql/internal/ChangeTrackingExpressionDeParser.java:23-28 | A lone first character of the marker is not removed. |
| ChangeTracking.MarkersConcat | src/main/java/org/openrewrite/sql/internal/ChangeTrackingExpressionDeParser.java:31-35 | Markers written into two texts are written into their concatenation, so trackChange's pairs compose across a buffer. |
| ChangeTracking.MarkersRemoved | src/main/java/org/openrewrite/sql/internal/ChangeTrackingExpressionDeParser.java:25-29 | applyChange takes a text with markers written in back to the plain text, whenever the plain text holds no whole marker. |
| ChangeTracking.MarkersCounted | src/main/java/org/openrewrite/sql/internal/ChangeTrackingExpressionDeParser.java:31-35 | Each marker written in adds one marker character. |
| ChangeTracking.MarkersShown | src/main/java/org/openrewrite/sql/internal/ChangeTrackingExpressionDeParser.java:31-35 | A text with a marker written in holds a whole marker. |
| ChangeTracking.ApplyChangeNotIdempotent | src/main/java/org/openrewrite/sql/internal/ChangeTrackingExpressionDeParser.java:23-28 | As written, removing the three-character marker can assemble a new marker, so applyChange is not idempotent. |
| ChangeTracking.IntendedRemovesAll | src/main/java/org/openrewrite/sql/internal/ChangeTrackingExpressionDeParser.java:23-28 | With the one-character marker, applyChange leaves no marker and is idempotent. |
| ChangeTracking.IntendedPairRemoved | src/main/java/org/openrewrite/sql/internal/ChangeTrackingExpressionDeParser.java:31-35 | The same holds for a bracketed span with the one-character marker. |
| DeParse.QueryRowsFor | src/main/java/org/openrewrite/sql/ChangeFunctionName.java:63-66 | One query row per matching call, for FindFunction and ChangeFunctionName; none for a plain deparse. |
| DeParse.FunctionRowsFor | src/main/java/org/openrewrite/sql/search/FindFunction.java:68-72 | One function row per matching call, for FindFunction only. |
| DeParse.DeParser.constructor | src/main/java/org/openrewrite/sql/search/FindFunction.java:59-60 | A fresh deparser: empty buffer, no rows, found flag false. |
| DeParse.DeParser.ResetBuffer | src/main/java/org/openrewrite/sql/trait/SqlQuery.java:97-101 | Only the buffer is replaced, by an empty one. |
| DeParse.DeParser.VisitExpr | src/main/java/org/openrewrite/sql/search/FindFunction.java:60-77 | The state afterwards: the expression's text appended and its matching calls recorded. Returns the expression with matching calls renamed. |
| DeParse.DeParser.VisitFunction | src/main/java/org/openrewrite/sql/ChangeFunctionName.java:61-74 | A matching call is recorded, then renamed and deparsed inside trackChange; any other call is deparsed as it is. The arguments are visited either way. |
| DeParse.DeParser.RecordHit | src/main/java/org/openrewrite/sql/search/FindFunction.java:64-73 | A matching call appends one query row; under FindFunction it also appends one function row and raises the found flag. Nothing is written to the buffer. |
| DeParse.DeParser.TrackChange | src/main/java/org/openrewrite/sql/internal/ChangeTrackingExpressionDeParser.java:31-35 | Appends a marker, the renamed call's text, and a marker. |
| DeParse.DeParser.DeparseCall | src/main/java/org/openrewrite/sql/search/FindFunction.java:75 | super.visit continues into the arguments, so nested calls are checked too. |
| DeParse.DeParser.DeparseStatement | src/main/java/org/openrewrite/sql/trait/SqlQuery.java:104 | The state afterwards: the statement's text appended and its matching calls recorded, from the items and every clause of every select of a set operation. Returns the renamed statement. |
| DeParse.DeParser.DeparseSelectBody | src/main/java/org/openrewrite/sql/trait/SqlQuery.java:104 | A select body is deparsed with the same law: a plain select's items, WHERE, GROUP BY, HAVING and ORDER BY in order; a set operation's two selects around its operator, then its ORDER BY. |
| DeParse.TrackedExpr | src/main/java/org/openrewrite/sql/ChangeFunctionName.java:67-70 | The deparsed text is the plain deparse of the renamed expression with two markers written in per matching call, nested calls included, whatever the SQL and the new name hold. |
| DeParse.TrackedBody | src/main/java/org/openrewrite/sql/ChangeFunctionName.java:59-75 | The same holds for every select body, each select of a set operation included. |
| DeParse.TrackedStatement | src/main/java/org/openrewrite/sql/ChangeFunctionName.java:59-75 | The same holds for a whole statement. So the text holds two more marker characters per matching call, and applyChange gives the plain deparse of the renamed statement whenever that holds no whole marker. |
| Renaming.Hits | src/main/java/org/openrewrite/sql/search/FindFunction.java:63 | The names kept are exactly those the glob matches. |
| Renaming.MatchedAreHits | src/main/java/org/openrewrite/sql/search/FindFunction.java:62-76 | The recorded calls are exactly the calls whose names match, in visiting order, nested calls included. |
| Renaming.StmtMatchedAreHits | src/main/java/org/openrewrite/sql/search/FindFunction.java:57-78 | The same holds for a statement. |
| Renaming.BodyMatchedAreHits | src/main/java/org/openrewrite/sql/search/FindFunction.java:57-78 | The same holds for a select body: items and every clause of every select of a set operation. |
| Renaming.RenamedCallNames | src/main/java/org/openrewrite/sql/ChangeFunctionName.java:62-73 | After the deparse, each matching call carries the new name verbatim and every other call keeps its own. |
| Renaming.StmtRenamedCallNames | src/main/java/org/openrewrite/sql/ChangeFunctionName.java:68 | The view's statement, renamed in place, holds the same calls with every matching name replaced. |
| Renaming.BodyRenamedCallNames | src/main/java/org/openrewrite/sql/ChangeFunctionName.java:68 | The same holds for a select body, in every select of a set operation. |
| Renaming.Untouched | src/main/java/org/openrewrite/sql/ChangeFunctionName.java:71-73 | Without a matching call (or with no rename), the expression is unchanged and its text is the plain deparse. |
| Renaming.StmtUntouched | src/main/java/org/openrewrite/sql/ChangeFunctionName.java:71-73 | The same holds for a statement. |
| Renaming.BodyUntouched | src/main/java/org/openrewrite/sql/ChangeFunctionName.java:71-73 | The same holds for a select body. |
| Renaming.RenameIgnoresCasing | src/main/java/org/openrewrite/sql/ChangeFunctionName.java:68 | As written, renaming `nvl` to `coalesce` turns the upper-case call `NVL` into `coalesce`, which has lower-case letters. |
| Renaming.MatchCasing | src/main/java/org/openrewrite/sql/ChangeFunctionName.java:37-39 | The result equals the new name ignoring case. It has no lower-case letter when the original has upper-case letters only, and no upper-case letter in the reverse case. |
| Renaming.NewNameIntended | src/main/java/org/openrewrite/sql/ChangeFunctionName.java:37-39 | A matching call gets the new name in the casing of its old name; any other call keeps its name. |
| Renaming.IntendedCasingExample | src/main/java/org/openrewrite/sql/ChangeFunctionName.java:37-39 | With the casing matched, `NVL` renamed to `coalesce` becomes `COALESCE`. |
| SqlQuery.BaseViewOf | src/main/java/org/openrewrite/sql/trait/SqlQuery.java:87-94 | Succeeds iff the text parses, holding the node, the text and the parse; otherwise fails with a parse error. |
| SqlQuery.ViewOf | src/main/java/org/openrewrite/sql/trait/SqlQuery.java:45-59 | A view exists iff the node is a literal or plain text whose text passes the gate and parses. It then holds that node and text and their parse; there is never a partial view. |
| SqlQuery.ViewId | src/main/java/org/openrewrite/sql/trait/SqlQuery.java:108-111 | getId is the id of the viewed node. |
| SqlQuery.NoViewWithoutText | src/main/java/org/openrewrite/sql/trait/SqlQuery.java:57-58 | Other nodes and null literals yield the creation-type error. |
| SqlQuery.QueryView.constructor | src/main/java/org/openrewrite/sql/trait/SqlQuery.java:78-85 | The view holds the node, the text and the statement. |
| SqlQuery.QueryView.MapSql | src/main/java/org/openrewrite/sql/trait/SqlQuery.java:96-106 | A fresh, empty buffer; returns exactly the statement's deparse. The deparser's rows are extended, and the view's statement is left renamed. |
| FindFunction.FindFunctionRecipe.PreVisit | src/main/java/org/openrewrite/sql/search/FindFunction.java:56-81 | A node without a view is returned unmarked and the tables are untouched. Otherwise the tables grow by the query's rows, and the node is marked iff some call matched. |
| FindFunction.FoundRows | src/main/java/org/openrewrite/sql/search/FindFunction.java:63-73 | As many query rows as function rows as matching calls. The function rows carry the lower-cased name; every row carries the path and the query. |
| FindFunction.FindLeavesQuery | src/main/java/org/openrewrite/sql/search/FindFunction.java:60-77 | Finding changes neither the statement nor its text. |
| FindFunction.NvlExample | src/test/java/org/openrewrite/sql/search/FindFunctionTest.java:34-58 | In `select nvl(a, b) from table where id = 1`, `nvl(a, b)` is found for pattern `nvl`; in the same query calling `coalesce(a, b)`, nothing is. |
| FindFunction.NvlInClausesExample | src/main/java/org/openrewrite/sql/search/FindFunction.java:57-78 | `nvl(a, b)` is found in the ORDER BY of a UNION and in a GROUP BY, not only among the select items. |
| ChangeFunctionName.ChangeFunctionNameRecipe.PreVisit | src/main/java/org/openrewrite/sql/ChangeFunctionName.java:57-77 | A node without a view is returned as it is. Otherwise the result is the marked text, and the table grows by one row per matching call. |
| ChangeFunctionName.MarkedOutput | src/main/java/org/openrewrite/sql/ChangeFunctionName.java:59-75 | One marker pair written in and one query row per matching call. applyChange gives the plain text of the renamed statement whenever that holds no whole marker; its calls are the old ones with matching names replaced. |
| ChangeFunctionName.NothingMatches | src/main/java/org/openrewrite/sql/ChangeFunctionName.java:71-73 | With no match, the text is the plain deparse, the statement is unchanged, and no row is recorded. applyChange leaves the text alone when it holds no whole marker. |
| ChangeFunctionName.SomethingMatches | src/main/java/org/openrewrite/sql/ChangeFunctionName.java:62-70 | With a match, the text holds a whole marker. |
| FindSql.CountLines | src/main/java/org/openrewrite/sql/FindSql.java:181-186 | 0 for null. Otherwise one fewer than the text's lines, and 0 iff there is no line feed. |
| FindSql.CountLinesConcat | src/main/java/org/openrewrite/sql/FindSql.java:185 | Counting is additive over concatenation. |
| FindSql.CountLinesSpace | src/main/java/org/openrewrite/sql/FindSql.java:187-200 | The loop returns the line feeds of the whitespace followed by each comment's counted text (text, Javadoc rendering or nothing) and its suffix. |
| FindSql.SpaceLinesSnoc | src/main/java/org/openrewrite/sql/FindSql.java:189-198 | Each comment adds the lines of its counted text and suffix. |
| FindSql.Found | src/main/java/org/openrewrite/sql/FindSql.java:51 | SearchResult.found returns a source that differs from the one it marks, and keeps its kind and path. |
| FindSql.MarkPlainTextPasses | src/main/java/org/openrewrite/sql/FindSql.java:48-53 | The anonymous PlainTextVisitor changes exactly the plain-text sources. |
| FindSql.NotPasses | src/main/java/org/openrewrite/sql/FindSql.java:48 | `not(v)` passes exactly the sources `v` does not pass. |
| FindSql.OrPasses | src/main/java/org/openrewrite/sql/FindSql.java:47-54 | `or(a, b)` passes exactly the sources one of them passes. |
| FindSql.ScannedSources | src/main/java/org/openrewrite/sql/FindSql.java:47-55 | From those parts: every source that is not plain text is scanned; plain text is scanned iff its path ends in `.sql`. |
| FindSql.FoundRowsNeedSql | src/main/java/org/openrewrite/sql/FindSql.java:161-176 | Rows need an enclosing source file, text passing the gate, and a parse. |
| FindSql.SqlFinder.Find | src/main/java/org/openrewrite/sql/FindSql.java:159-177 | Every detector row is inserted, in order. The node is marked iff there was a row, and is returned unchanged without a source file. |
| FindSql.SqlFinder.VisitText | src/main/java/org/openrewrite/sql/FindSql.java:62-66 | A whole plain-text file is reported at line 1. |
| FindSql.JavaLineCounter.constructor | src/main/java/org/openrewrite/sql/FindSql.java:70 | Counting starts at line 1. |
| FindSql.JavaLineCounter.VisitSpace | src/main/java/org/openrewrite/sql/FindSql.java:71-75 | The counter moves past the space's lines. |
| FindSql.JavaLineCounter.VisitLiteral | src/main/java/org/openrewrite/sql/FindSql.java:77-86 | A String literal is found on the line its prefix ends on, then the counter moves past its line feeds. Other literals only move past their prefix. |
| FindSql.YamlLineCounter.constructor | src/main/java/org/openrewrite/sql/FindSql.java:90 | Counting starts at line 1. |
| FindSql.YamlLineCounter.VisitScalar | src/main/java/org/openrewrite/sql/FindSql.java:91-97 | The counter advances by the prefix's line feeds before `find` and by the value's after it. |
| FindSql.YamlLineCounter.VisitPrefix | src/main/java/org/openrewrite/sql/FindSql.java:100-108 | Documents, a document, a sequence entry (:120), an alias (:144) and an anchor (:150) move the counter past their prefix. |
| FindSql.YamlLineCounter.VisitMappingEntry | src/main/java/org/openrewrite/sql/FindSql.java:111-116 | A mapping entry moves the counter past its prefix and the text before its value indicator. |
| FindSql.YamlLineCounter.VisitMapping | src/main/java/org/openrewrite/sql/FindSql.java:124-131 | A mapping moves the counter by the prefix, the opening brace prefix, its entries and the closing brace prefix. |
| FindSql.YamlLineCounter.VisitSequence | src/main/java/org/openrewrite/sql/FindSql.java:133-140 | As written, a sequence counts the opening bracket prefix twice and the closing bracket prefix never. |
| FindSql.MappingAdvanceCounts | src/main/java/org/openrewrite/sql/FindSql.java:124-131 | Over a mapping the counter moves by exactly the line feeds of the mapping's text. |
| FindSql.SequenceAdvanceMiscounts | src/main/java/org/openrewrite/sql/FindSql.java:138 | The count as written is off by one in either direction for flow sequences whose bracket prefixes differ. |
| FindSql.SequenceAdvanceIntendedCounts | src/main/java/org/openrewrite/sql/FindSql.java:133-140 | Counting the closing bracket prefix moves the counter by exactly the sequence text's line feeds. |

## Left out

- Parsing SQL is the `parse` parameter, and JSqlParser's deparsers are a stand-in rendering. Inserts and DDL are `OtherStatement`. Exception messages are dropped from the parse error.
- SqlDetector.Rows: a select in parentheses, a WITH item, VALUES, and a select nested in an expression or a FROM item are not modelled and yield no rows, because the select datatype holds only plain selects and set operations.
- SqlDetector.UsageExtractor.VisitSelect: the same selects are not visited, for the same reason.
- DeParse.DeParser.DeparseStatement: calls in joins and their ON clauses, in sub-selects, in LIMIT, OFFSET and FETCH, in WITH items, in DISTINCT ON, and in an UPDATE's FROM, ORDER BY and LIMIT are not visited, because the statement datatype does not hold those parts. Select-item aliases are not written.
- Renaming.StmtMatchedAreHits: covers the calls the statement datatype holds. These are the select items and the WHERE, GROUP BY, HAVING and ORDER BY of every select of a set operation, and an update's values and the WHERE of updates and deletes.
- DeParse.FunctionRowsFor: lower-cases ASCII letters only, because Unicode case mapping is not modelled. Java's `toLowerCase` lower-cases every letter under the default locale: `NVLÄ` gives `nvlä` there and `nvlÄ` here.
- DeParse.DeParser.RecordHit: the function row's name is lower-cased in ASCII only, as in FunctionRowsFor.
- FindFunction.FoundRows: the function rows' names are lower-cased in ASCII only, as in FunctionRowsFor.
- The SQL formatter and its configuration (dialect, indent, column length, upper case) are the `format` parameter.
- `StringUtils.matchesGlob` is not part of this model. It is assumed to be a glob with `*`, `?` and ASCII case ignored.
- `HasSourcePath` with the glob for `.sql` files is assumed to hold iff the Unix-separated path ends in `.sql`.
- `Preconditions.not`, `Preconditions.or` and `SearchResult.found` belong to rewrite-core and are not part of this model. `FindSql.Visit` takes them to work by comparing results: `not` marks a source its visitor left unchanged, `or` returns the first result that differs, and `found` adds a search marker.
- `PathUtils.separatorsToUnix` is assumed to turn backslashes into slashes.
- The visitor framework is modelled per callback. Left out: the order in which the Java and YAML visitors reach nodes, `stopAfterPreVisit`, and the three visitors run in turn by FindSql's `preVisit` (FindSql.java:59-157). `VisitMapping` and `VisitSequence` take their entries' advance as a parameter.
- Cursors, `SearchResult` markers and data tables are modelled as a flag and sequence fields. The `ExecutionContext` and the source-file lookup become parameters (`sourcePath`, `SourceInfo`).
- ChangeFunctionName hands mapSql's String back in place of the tree. The model returns that text and does not re-embed it in a host node.
- `Integer.MAX_VALUE` is modelled as "no minimum yet" (`None`). Integer overflow is not modelled, and tab sizes are natural numbers.
- Node ids (UUIDs) are natural numbers. A literal's value is its `toString`, or `None` for null.
- `Db2ToPostgres` is a stub that throws, so it is not modelled. Neither are the recipes' display metadata.
- FormatSql.EscapedRoundTrip: holds only for formatted text without backslashes, because the source does not escape backslashes when it writes the text block.
- DeParse.TrackedStatement: applyChange gives the renamed statement's plain text only when that text holds no whole marker. Otherwise applyChange deletes that marker too, and the two differ.
- ChangeFunctionName.MarkedOutput: the condition is on the plain text of the renamed statement. It would follow from SQL and a new name that each hold no whole marker, since every call name is preceded by a blank, a comma, a parenthesis or nothing and followed by a parenthesis. That implication is not proved.
- The methods model the code as written: the three-character marker, the tab weighting of `shortestPrefixAfterNewline`, the YAML sequence count, and the verbatim new function name. The corrected definitions stand beside them with their proofs, under Findings.

## Findings

| source | as written | input that shows it | evidently intended | confidence | as-written member | corrected member |
|---|---|---|---|---|---|---|
| src/main/java/org/openrewrite/sql/internal/ChangeTrackingExpressionDeParser.java:23 | The marker is the three characters `â€»`, which are the UTF-8 bytes of `※` read as Windows-1252. applyChange removes it with a plain replace. | The changed text `â` + marker + `€»`: applyChange leaves one whole marker, and a second applyChange removes it. | The single character U+203B, which a replace cannot reassemble. | medium, not executed | ChangeTracking.ApplyChangeNotIdempotent | ChangeTracking.IntendedRemovesAll |
| src/main/java/org/openrewrite/sql/FormatSql.java:205-206 | A run wins when its tab-weighted width is below `shortest`, but its unweighted width is stored. | "x\n\ty\n  z" with tab size 4: the tab (4 columns) is kept over two spaces (2 columns). | Store the weighted width, so that the narrowest run wins. | high, not executed | FormatSql.WiderRunKept | FormatSql.IntendedMinimal |
| src/main/java/org/openrewrite/sql/FindSql.java:138 | After the entries, the opening bracket prefix is counted again. | A flow sequence with opening prefix "" and closing prefix "\n": no line counted for one line feed. | Count the closing bracket prefix, as visitMapping does with its closing brace. | high, not executed | FindSql.SequenceAdvanceMiscounts | FindSql.SequenceAdvanceIntendedCounts |
| src/main/java/org/openrewrite/sql/ChangeFunctionName.java:37-39 | The option says the new name matches the casing of the call it replaces. `setName(newFunctionName)` at :68 sets it verbatim. | `NVL(a, b)` with old name `nvl` and new name `coalesce` becomes `coalesce(a, b)`. | `COALESCE(a, b)`: the new name upper-cased for an upper-case call, lower-cased for a lower-case one. | medium, not executed | Renaming.RenameIgnoresCasing | Renaming.NewNameIntended |
