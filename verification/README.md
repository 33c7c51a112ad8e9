# Verification of parsing and schema rewriting in SQLite

This project models the table-driven parser that Lemon generates, the FTS5 query parser with its
literal tables, the parts of `alter.c` that rewrite schema text and table rows, and three smaller
pieces: the glob matcher of `mptest.c`, the expression rewrites of `parse.y`, and the linking of
compound SELECT terms.  `dafny verify dfyconfig.toml` checks it.

How the modules build on each other:

- **Lemon** (`lemon_*.dfy`).  The packed-table lookup against a plain action matrix; the driver as
  a step function on a stack and the remaining input; and the driver as a class over the array
  stack, proved to take the same steps and to make the same calls.
- **FTS5** (`fts5_*.dfy`).  The literal tables, grammar and actions.  The automaton never gets
  stuck; it accepts exactly the language of the grammar under its precedences; it does linear
  work; every value that a builder returns is used as often as it is made, and each object once;
  printing and parsing are inverse; and what an accepted query means is read off its tokens.
- **Rename** (`sql_quoting.dfy`, `rename_*.dfy`).  The linked lists of rename tokens, and the
  in-place editing of the statement in a buffer of the size that the source allocates.
- **Constraints** (`sql_tokens.dfy`, `sql_groups.dfy`, `constraint_*.dfy`).  The text functions
  behind ADD CONSTRAINT, DROP CONSTRAINT, SET NOT NULL and DROP NOT NULL, on every statement with
  a well-formed body.
- **Drop column** (`definitions.dfy`, `drop_column_*.dfy`).  The new CREATE TABLE text, and the
  rewriting of the rows.
- **The rest** (`glob*.dfy`, `expr_rewrites.dfy`, `compound_select.dfy`).

## Findings

Where the code does not do what its comments or its callers say, a lemma gives the exact condition
and another one an input.

- **DROP NOT NULL** searches for the first NOT of the column, not for NOT NULL.  On
  `CREATE TABLE t(a NOT DEFERRABLE NOT NULL)` it removes NOT DEFERRABLE, and on
  `CREATE TABLE t(a NOT NULL NOT NULL)` one of the two, so the column stays NOT NULL
  (`ConstraintNotNull.TakesNotDeferrable`, `ConstraintNotNull.LeavesTheSecond`).  The column is
  free of NOT NULL afterwards if and only if it was before, or had one NOT NULL and that is at its
  first NOT (`ConstraintNotNull.DropNotNullWorksIff`).
- **DROP CONSTRAINT of a quoted name.**  `quotedCompare` says that it takes an unquoted name, but
  `sqlite3AlterDropConstraint` gives it the token as written.  The same quoted token that adds a
  constraint does not drop it (`ConstraintNames.AddThenDropSameToken`).
- **The glob matcher** breaks its own rules in two places.  Behind a star run it takes a class the
  wrong way round and a `#` literally: `*[a]` does not match `a` and matches `b`, `*#` matches `#`
  and no number (`Glob.StarClassDiffers`, `Glob.StarNumberDiffers`), and `*[a`, which should match
  nothing, matches `x` (`GlobRules.OpenClass`).  And `#` takes all digits where the comment asks for
  any number of them, so that `#?` does not match `12` (`GlobRules.NumberThenMark`).
  `GlobRules.KeepsRulesIff` says for every pattern whether the function keeps the rules on all
  strings.
- **renameEditSql** adds a space when the byte behind an old token is the quote, but not when the
  next token is itself replaced by a quoted text.  Two such tokens without a separator run together
  (`RenameEdit.BracketsMerge`); this is the only way in which a replacement is misread
  (`RenameEdit.ReplacedTokenReads`).  This is about the function and its list of tokens: `[a][b]` is
  no SQL statement, and no statement is known in which two names to be replaced stand side by side,
  so it may be that the grammar rules the case out.

## Model

| member | source | states |
|---|---|---|
| LemonTables.RunShiftLookup | Source Code/New/sqlite_demo/lempar.c:549-608 | The lookup loop, with fallback and wildcard, returns the action of the lookup function within two rounds; a second round is taken only for a token that has a fallback. |
| LemonTables.TagsDetectCollisionsIff | Source Code/New/sqlite_demo/lempar.c:554-606 | For tables whose terminal slots come from rows: the token stored in a slot is enough to tell a hit from a collision for every state and terminal if and only if no two states with different rows share an offset. |
| LemonTables.PackedLookupRefinesMatrix | Source Code/New/sqlite_demo/lempar.c:549-608 | Under those two conditions the packed lookup computes, for every state and terminal, what the unpacked matrix says (entry, then fallback, then wildcard, then default). |
| LemonDriver.ExecAppend | Source Code/New/sqlite_demo/lempar.c:879-1083 | The push interface: calling the parser token by token is one run on the whole input. |
| LemonDriver.BoundedExec | Source Code/New/sqlite_demo/lempar.c:643-659 | A bounded stack agrees with an unbounded one exactly as long as the high-water mark of the latter fits, and otherwise overflows with an emptied stack. |
| LemonDriver.BottomStays | Source Code/New/sqlite_demo/lempar.c:742-789 | In no run is the bottom stack entry popped or overwritten. |
| LemonDriver.AmortisedReductions | Source Code/New/sqlite_demo/lempar.c:914-950 | If no turn raises a credit and each reduction spends some, the initial credit bounds the reductions of a run of any length. |
| LemonDriver.LedgerBalances | Source Code/New/sqlite_demo/lempar.c:401-475 | If what is held plus made equals what is held plus used in each turn, the same holds over a run of any length. |
| LemonParser.Parser.GrowStack | Source Code/New/sqlite_demo/lempar.c:297-332 | Growing keeps every entry and ends in twice the size and 100 more, or the limit; it is refused exactly for a fixed stack and for one that has reached the limit. |
| LemonParser.Parser.StackOverflow | Source Code/New/sqlite_demo/lempar.c:643-659 | Every entry above the bottom one is destroyed, from the top down, once. |
| LemonParser.Parser.Finalize | Source Code/New/sqlite_demo/lempar.c:450-475 | Destroys every entry above the bottom one, from the top down, once. |
| LemonParser.Parser.YyShift | Source Code/New/sqlite_demo/lempar.c:685-716 | The array code implements the shift of the specification, with growth, overflow and its destructor calls. |
| LemonParser.Parser.YyReduce | Source Code/New/sqlite_demo/lempar.c:742-789 | The in-place pop and overwrite implements the reduction of the specification and calls the rule on the popped values. |
| LemonParser.Parser.ReduceTurn | Source Code/New/sqlite_demo/lempar.c:914-950 | A reduction with the growth that an empty right-hand side may need is one turn of the specification. |
| LemonParser.Parser.Act | Source Code/New/sqlite_demo/lempar.c:914-1075 | Each kind of action leads to the state and the calls that the specification gives for it, with the destructor of a rejected token. |
| LemonParser.Parser.Parse | Source Code/New/sqlite_demo/lempar.c:879-1083 | One call computes the run of the specification on its token, with the same calls of actions and destructors in the same order. |
| Fts5Tables.RowsAreStored | Source Code/New/sqlite_demo/fts5parse.c:274-323 | The literal arrays hold the rows of the FTS5 automaton, and every terminal slot belongs to one of them. |
| Fts5Tables.OffsetsAreShared | Source Code/New/sqlite_demo/fts5parse.c:305-313 | Two states of the literal tables share an offset only if their rows have the same keys. |
| Fts5Tables.ActionIs | Source Code/New/sqlite_demo/fts5parse.c:786-845 | For every state and terminal the literal packed tables give the action of the plain automaton (derived from PackedLookupRefinesMatrix). |
| Fts5Tables.GotoIs | Source Code/New/sqlite_demo/fts5parse.c:851-875 | For every state and nonterminal the literal tables give the goto of the plain automaton, and a failed assert exactly where there is none. |
| Fts5Grammar.ActIsTyped | Source Code/New/sqlite_demo/fts5parse.c:1052-1260 | Each action reads only union members that its symbols hold and leaves the one that its left-hand side requires. |
| Fts5Automaton.TransitionsIff | Source Code/New/sqlite_demo/fts5parse.c:274-323 | The shifts and gotos of the tables are exactly the transitions of an automaton in which a state determines the symbol before it. |
| Fts5Automaton.Spelled | Source Code/New/sqlite_demo/fts5parse.c:1036-1279 | Whenever the tables ask for a reduction, the top of the stack spells the right-hand side, the pop stays above the bottom entry and the goto exists. |
| Fts5Soundness.OperandsBind | Source Code/New/sqlite_demo/fts5parse.y:76-80 | In a reduction by AND, OR or NOT both operands bind tightly enough for the declared precedence and left associativity. |
| Fts5Soundness.ReduceSound | Source Code/New/sqlite_demo/fts5parse.c:1036-1279 | A reduction keeps the stack a forest of derivation trees over the consumed input that respect the precedences and carry the values on the stack. |
| Fts5Runs.AlwaysEnds | Source Code/New/sqlite_demo/fts5parse.c:1373-1577 | On every token sequence and with every capacity the parser stops within eleven turns a token, and no assert of the driver fails. |
| Fts5Runs.AssertsHold | Source Code/New/sqlite_demo/fts5parse.c:1036-1577 | However far a parse has gone, the asserts of its next turn hold, written out: there is an action, the right-hand side is on the stack, the goto is a state or the accept action, and at acceptance one entry is left. |
| Fts5Runs.ReductionsAreLinear | Source Code/New/sqlite_demo/fts5parse.c:1409-1450 | A parse performs at most ten reductions a token. |
| Fts5Runs.SlotsAreTyped | Source Code/New/sqlite_demo/fts5parse.c:348-380 | However far a parse of any token sequence has gone, every stack slot holds the union member and the shape of value that its symbol requires. |
| Fts5Runs.AcceptanceIsSound | Source Code/New/sqlite_demo/fts5parse.c:1332-1360 | If the parser accepts, the query has a derivation that respects the precedences, and the value handed over is the value of that derivation. |
| Fts5Completeness.Takes | Source Code/New/sqlite_demo/fts5parse.y:76-197 | The tables take every derivation that respects the precedences, in every state and before every lookahead where its symbol is expected. |
| Fts5Language.AcceptsIffDerivable | Source Code/New/sqlite_demo/fts5parse.y:76-197 | With an unbounded stack, a query is accepted with a value if and only if the grammar derives it, in precedence order, with that value; every other query is a syntax error. |
| Fts5Language.BoundedAcceptsIff | Source Code/New/sqlite_demo/fts5parse.c:880-899 | With a bounded stack, exactly the derivable queries whose derivation fits are accepted, and every other derivable query overflows. |
| Fts5Language.DerivationsAgree | Source Code/New/sqlite_demo/fts5parse.y:76-80 | The precedences leave no ambiguity in value or stack use. |
| Fts5Ownership.ActionBalances | Source Code/New/sqlite_demo/fts5parse.c:1052-1260 | Each action uses every owned value of its right-hand side once, and leaves exactly what it has made and not used. |
| Fts5Ownership.EveryValueIsUsedOnce | Source Code/New/sqlite_demo/fts5parse.c:600-712 | At every point of every parse, what the builders have returned is what later builders, ParseFinished and the destructors have taken plus what the stack owns; after the parser is finalized nothing is left over. |
| Fts5Objects.NoValueIsMadeTwice | Source Code/New/sqlite_demo/fts5parse.c:1052-1260 | In a parse of a query whose words are all different, however far it goes, no builder returns a value that another call has returned. |
| Fts5Objects.EveryObjectIsUsedOnce | Source Code/New/sqlite_demo/fts5parse.c:600-712 | So for such queries the ledger is one of objects: each is used exactly once or owned by exactly one stack slot, never both, and used exactly once when the parser has been finalized. |
| Fts5RoundTrip.PrintThenParse | Source Code/New/sqlite_demo/fts5parse.y:76-197 | Printing any query tree and parsing the tokens rebuilds that tree. |
| Fts5RoundTrip.BoundedPrintThenParse | Source Code/New/sqlite_demo/fts5parse.c:880-899 | With a bounded stack the round trip works exactly for the trees whose printed form fits, and overflows for all others. |
| Fts5RoundTrip.PrintIsInjective | Source Code/New/sqlite_demo/fts5parse.y:76-197 | Different query trees print differently. |
| Fts5RoundTrip.ParseThenPrint | Source Code/New/sqlite_demo/fts5parse.y:76-197 | Every accepted query has a tree whose printed form is accepted with the same tree. |
| Fts5Meaning.FilterIsRead | Source Code/New/sqlite_demo/fts5parse.c:1068-1110 | In every derivation the value of a column filter is what is written: its words in order, inverted if and only if a minus is in front, with braces or without. |
| Fts5Meaning.FilterAdmits | Source Code/New/sqlite_demo/fts5parse.c:1068-1110 | A filter lets a column through exactly if it is one of the words, or, behind a minus, exactly if it is none of them. |
| Fts5Meaning.NearIsRead | Source Code/New/sqlite_demo/fts5parse.c:1181-1256 | In every derivation the value of a search term is what is written: the phrases with their words and prefix marks, the caret, and the name and distance of a group. |
| Fts5Meaning.FindsWhatIsAsked | Source Code/New/sqlite_demo/fts5parse.y:76-197 | For every reading of the search terms, the tree that the actions build finds a row if and only if the query, read by its operators, parentheses and filters, asks for it. |
| Fts5Meaning.AcceptedFinds | Source Code/New/sqlite_demo/fts5parse.y:76-197 | So does the tree of every accepted query, for a derivation of it that respects the precedences. |
| Fts5Meaning.BracesMakeNoDifference | Source Code/New/sqlite_demo/fts5parse.c:1068-1110 | Filters with the same words and the same sign have the same value: `{a}` is `a` and `-{a}` is `-a`. |
| Fts5Meaning.ParenthesesMakeNoDifference | Source Code/New/sqlite_demo/fts5parse.c:1144-1148 | An accepted query is accepted in parentheses, with the same value. |
| Fts5Meaning.FilterParenthesesMakeNoDifference | Source Code/New/sqlite_demo/fts5parse.c:1135-1180 | A filtered term is accepted with the same value with and without parentheses around the term. |
| Fts5Meaning.OperatorTextsMakeNoDifference | Source Code/New/sqlite_demo/fts5parse.c:1052-1260 | The texts of tokens other than words play no part: two queries that differ only in them have the same outcome. |
| Fts5Parser.ParseQuery | Source Code/New/sqlite_demo/fts5parse.c:1373-1577 | The sequence of calls for a query, on the parser object, comes to the outcome of the run on the whole query, and after the parser is freed every value has been used as often as made. |
| SqlQuoting.Dequote | Source Code/New/sqlite_demo/src/util.c:298-319 | The in-place loop leaves the text inside the quotes with doubled quotes halved, and writes nowhere else. |
| SqlQuoting.DequoteQuoted | Source Code/New/sqlite_demo/src/util.c:298-319 | A quoted text reads back as itself if and only if what follows does not start with one more quote. |
| SqlQuoting.OneTokenIff | Source Code/New/sqlite_demo/src/util.c:298-319 | A text is one quoted token if and only if quoting what is read from it gives it back. |
| SqlQuoting.DequoteOthers | Source Code/New/sqlite_demo/src/util.c:298-319 | A text in brackets is read up to its closing bracket, and one without a quote in front is left as it is. |
| RenameTokens.Unlink | Source Code/New/sqlite_demo/src/alter.c:976-984 | Taking a node out of a linked list leaves the other nodes, in order. |
| RenameTokens.RenameTokenFind | Source Code/New/sqlite_demo/src/alter.c:967-989 | Finds the first token of a parse-tree element and moves it from the one linked list to the front of the other; a null pointer or a missing token changes nothing. |
| RenameTokens.MovesConserve | Source Code/New/sqlite_demo/src/alter.c:967-989 | A move keeps every token in exactly one of the two lists. |
| RenameTokens.RenameCtx.ColumnTokenNext | Source Code/New/sqlite_demo/src/alter.c:1041-1053 | Unlinks the first of the tokens that start last in the statement, and leaves the count that sizes the allocation. |
| RenameEdit.OrderDoesNotMatter | Source Code/New/sqlite_demo/src/alter.c:1265-1309 | The new statement does not depend on the order in which the tokens were found. |
| RenameEdit.ReplacementReads | Source Code/New/sqlite_demo/src/alter.c:1272-1297 | A quoted replacement reads as the new name (or as the old string) exactly when the text behind it does not start with the quote, or the added space keeps it away. |
| RenameEdit.ReplacedTokenReads | Source Code/New/sqlite_demo/src/alter.c:1272-1297 | In the new statement a quoted replacement reads as it should, exactly unless another token starts right behind the old one, with something else than the quote, and is itself replaced by a quoted text. |
| RenameEdit.TokenReads | Source Code/New/sqlite_demo/src/alter.c:1272-1297 | What the new statement has in the place of each token of the list, in both modes: the new name as it is, or its quoted form, which reads back exactly unless a quote comes from the token right behind it. |
| RenameEdit.OtherBytesStay | Source Code/New/sqlite_demo/src/alter.c:1265-1309 | Outside the tokens the new statement has the bytes of the old one. |
| RenameEdit.BracketsMerge | Source Code/New/sqlite_demo/src/alter.c:1272-1297 | A list of edits of that kind: with `[a][b]` both renamed to x the new text reads as one name. |
| RenameEdit.RenameCanBeUndone | Source Code/New/sqlite_demo/src/alter.c:1217-1320 | Overwriting the replacements by the old tokens gives back the statement. |
| RenameBuffer.MemMove | Source Code/New/sqlite_demo/src/alter.c:1300-1306 | Moving overlapping bytes within the buffer gives each target its source byte as it was. |
| RenameBuffer.Splice | Source Code/New/sqlite_demo/src/alter.c:1299-1307 | Moving the tail, terminating and copying replaces one piece of the text in the buffer and keeps the rest. |
| RenameBuffer.Requote | Source Code/New/sqlite_demo/src/alter.c:1282-1297 | The single-quoted form built in the scratch areas is never cut off, and the statement in front of them is not touched. |
| RenameSql.RenameEditSql | Source Code/New/sqlite_demo/src/alter.c:1217-1320 | The buffer ends up as the statement with all tokens of the list substituted at once; every byte written lies in the allocation, and the text fits the part set aside for it. |
| SqlTokens.GetConstraintToken | Source Code/New/sqlite_demo/src/alter.c:2136-2162 | Steps over white space and one token, or one closed parenthesised group, and reports an unclosed group as ILLEGAL. |
| SqlGroups.TokenIs | Source Code/New/sqlite_demo/src/alter.c:2136-2162 | Counting parentheses: a step that starts with one ends at the first place where as many are closed as opened, with more opened than closed before it, and is ILLEGAL exactly if there is no such place before the first ILLEGAL token. |
| ConstraintText.BodyIs | Source Code/New/sqlite_demo/src/alter.c:2489-2506 | The body starts behind the first opening parenthesis, and SQLITE_CORRUPT is reported exactly if there is none before the first ILLEGAL token. |
| ConstraintText.NamesIs | Source Code/New/sqlite_demo/src/alter.c:2455-2482 | The name that is compared is the first token behind CONSTRAINT that is no white space. |
| ConstraintText.SameNameIs | Source Code/New/sqlite_demo/src/alter.c:2455-2482 | Two names are the same if they are so letter by letter, where the case of a letter does not count and everything else does. |
| ConstraintLaws.ScanFindsFirstNamed | Source Code/New/sqlite_demo/src/alter.c:2519-2643 | DROP CONSTRAINT finds the first constraint of that name in the body, although it skips what belongs to other constraints, and may drop it exactly when it is a NOT NULL or CHECK constraint or only a name. |
| ConstraintLaws.ScanFindsFirstNot | Source Code/New/sqlite_demo/src/alter.c:2519-2643 | DROP NOT NULL takes the constraint with the first NOT of the column, with its name, and nothing if there is none. |
| ConstraintLaws.FoundIsOneRun | Source Code/New/sqlite_demo/src/alter.c:2519-2643 | What is found lies inside one definition; for DROP NOT NULL, inside that of the column. |
| ConstraintEnds.FoundIsText | Source Code/New/sqlite_demo/src/alter.c:2418-2443 | What is found is a constraint with its name and its type, and then everything up to the next word that begins a constraint or another part of the definition, a comma or the end. |
| ConstraintEnds.DropOutcome | Source Code/New/sqlite_demo/src/alter.c:2519-2643 | Which of the four outcomes there is: by what follows the name of the first constraint of that name, and for DROP NOT NULL by whether the column has a NOT. |
| ConstraintEdits.DropLeavesOthers | Source Code/New/sqlite_demo/src/alter.c:2626-2642 | The new text reads as the old one without that run of tokens (and without the comma before it if it was a whole definition): everything else stays, token for token. |
| ConstraintText.CutIs | Source Code/New/sqlite_demo/src/alter.c:2626-2642 | Besides the constraint only the white space behind it and a comma in front of it go, and a space comes in unless a comma or a parenthesis is next. |
| ConstraintText.DropKeepsBalance | Source Code/New/sqlite_demo/src/alter.c:2626-2642 | Dropping a constraint leaves as many opened parentheses unclosed as there were. |
| ConstraintNotNull.TakesNotNullIff | Source Code/New/sqlite_demo/src/alter.c:2519-2643 | What DROP NOT NULL takes out contains NOT directly followed by NULL if and only if NULL follows the first NOT of the column. |
| ConstraintNotNull.DropNotNullCounts | Source Code/New/sqlite_demo/src/alter.c:2519-2643 | The column loses exactly one NOT NULL if NULL follows its first NOT, and otherwise none. |
| ConstraintNotNull.DropNotNullWorksIff | Source Code/New/sqlite_demo/src/alter.c:2519-2643 | After DROP NOT NULL the column has no NOT NULL if and only if it had none, or had one and that one is at its first NOT. |
| ConstraintNotNull.TakesNotDeferrable | Source Code/New/sqlite_demo/src/alter.c:2519-2643 | A statement on which it fails: `NOT DEFERRABLE` is taken and `NOT NULL` stays. |
| ConstraintNotNull.LeavesTheSecond | Source Code/New/sqlite_demo/src/alter.c:2519-2643 | Another: of `NOT NULL NOT NULL` the second stays. |
| ConstraintEnds.DropNotNullKeepsParts | Source Code/New/sqlite_demo/src/alter.c:2519-2643 | DROP NOT NULL leaves the column as many of each word that begins a part of a definition (DEFAULT, CHECK, REFERENCES and so on) as it had, less its own NOT and, if it has a name, its CONSTRAINT. |
| ConstraintSet.AddsAtColumnEnd | Source Code/New/sqlite_demo/src/alter.c:2654-2693 | A constraint added to a column comes at the end of its definition, and every other step stays. |
| ConstraintSet.AddsDefinition | Source Code/New/sqlite_demo/src/alter.c:2654-2693 | A constraint of the table becomes a definition of its own, behind all others, and every other step stays. |
| ConstraintText.AddKeepsBalance | Source Code/New/sqlite_demo/src/alter.c:2654-2693 | Adding a constraint adds its parentheses and no others. |
| ConstraintSet.SetNotNullCounts | Source Code/New/sqlite_demo/src/alter.c:2881-2925 | SET NOT NULL, drop and then add, leaves the column with the NOT NULLs it had, less the one at its first NOT, plus those of the new constraint. |
| ConstraintSet.SetNotNullLeavesOthers | Source Code/New/sqlite_demo/src/alter.c:2881-2925 | SET NOT NULL leaves every other definition of the table. |
| ConstraintRoundtrip.AddThenDrop | Source Code/New/sqlite_demo/src/alter.c:2983-3037 | Adding a named CHECK constraint that the duplicate check lets through, and dropping the name, gives back the statement token for token. |
| ConstraintNames.SpellsItselfIff | Source Code/New/sqlite_demo/src/alter.c:2455-2482 | A token given as the name to look for spells itself if and only if it is not quoted. |
| ConstraintNames.AddThenDropSameToken | Source Code/New/sqlite_demo/src/alter.c:2783-2819 | Adding and dropping by the same token gives back the statement if the token is not quoted, and "no such constraint" if it is. |
| ConstraintScan.DropConstraint | Source Code/New/sqlite_demo/src/alter.c:2519-2643 | The nested loops with their early exits compute the search and the cut of the specification, with its four outcomes. |
| ConstraintScan.AddConstraint | Source Code/New/sqlite_demo/src/alter.c:2654-2693 | The loops find the end of the column, or of the last definition, and insert there, as the specification of the lemmas on adding says; an unclosed body is SQLITE_CORRUPT. |
| ConstraintScan.FindConstraint | Source Code/New/sqlite_demo/src/alter.c:2936-2973 | The duplicate check answers whether a CONSTRAINT token outside parentheses is followed by the name. |
| ConstraintText.FindsIff | Source Code/New/sqlite_demo/src/alter.c:2936-2973 | The duplicate check answers yes exactly if one of the CONSTRAINT tokens outside parentheses, before the first ILLEGAL token, has the name. |
| DropColumnText.DropColumnText | Source Code/New/sqlite_demo/src/alter.c:2176-2240 | The new CREATE TABLE has exactly the other definitions, and the text around them, unchanged; SQLITE_CORRUPT is reported exactly for a column number out of range and for a table with one column. |
| DropColumnRows.LayoutIs | Source Code/New/sqlite_demo/src/expr.c:4417-4465 | Every stored column has one field, the key columns first and the others in table order. |
| DropColumnRows.ReadsWhatIsWritten | Source Code/New/sqlite_demo/src/expr.c:4417-4465 | Reading a column gives what was written for it, the rowid for the INTEGER PRIMARY KEY, and the default value for a column that came after the record was written. |
| DropColumnRows.RewriteRecord | Source Code/New/sqlite_demo/src/alter.c:2335-2382 | For a column that is stored, from a row to the new record: reading any remaining stored column through the reduced table gives its old value, in rowid and WITHOUT ROWID tables, and a record is never empty. |
| DropColumnRows.VirtualDropKeepsRecords | Source Code/New/sqlite_demo/src/alter.c:2323 | For a virtual column the records stay as they are, and every stored column reads the same through the reduced table. |
| DropColumnRows.DropFromRow | Source Code/New/sqlite_demo/src/alter.c:2323-2383 | Both branches together: whichever column is dropped, every stored column that is left reads as before. |
| Glob.GlobsIsMatch | Source Code/New/sqlite_demo/mptest/mptest.c:118-203 | On a pattern in which no star run is followed by a class or a `#`, the function matches exactly what its rules say, if `#` takes all digits there are. |
| Glob.ReadClass | Source Code/New/sqlite_demo/mptest/mptest.c:164-192 | The class loop finds the end of the class and whether it holds the character, with ranges, a leading `]` and `^`. |
| GlobItems.ClassIs | Source Code/New/sqlite_demo/mptest/mptest.c:164-192 | Read as a list of single characters and ranges with their two ends, a class takes a character exactly if it is closed and one item covers it, or with a `^` none does. |
| GlobItems.RangeIs | Source Code/New/sqlite_demo/mptest/mptest.c:164-192 | `[x-y]` takes x and what lies from x to y, both ends included, and `[^x-y]` everything else. |
| GlobItems.NumberIs | Source Code/New/sqlite_demo/mptest/mptest.c:193-197 | The pattern `#` takes exactly the strings of one digit or more, with one sign in front or none. |
| Glob.Strglob | Source Code/New/sqlite_demo/mptest/mptest.c:118-203 | The recursive function with its loops computes the predicate that the lemmas are about. |
| GlobRules.StarClassAlwaysDiffers | Source Code/New/sqlite_demo/mptest/mptest.c:142-153 | Behind a star run a class is wrong on every string that leaves it one character. |
| GlobRules.StarNumberAlwaysDiffers | Source Code/New/sqlite_demo/mptest/mptest.c:154-161 | Behind a star run a `#` (with stars behind it) takes a `#`, where the rules ask for a digit. |
| GlobRules.MatchesSomethingIffLive | Source Code/New/sqlite_demo/mptest/mptest.c:122-135 | Whether the rules let a pattern match any string can be read off the pattern, for both readings of `#`. |
| GlobRules.GreedyIsEnough | Source Code/New/sqlite_demo/mptest/mptest.c:193-197 | Taking all digits for a `#` gives the same matches as taking any number of them, if no `#` is followed, behind stars only, by something that can be a digit. |
| GlobRules.NotGreedyDiffers | Source Code/New/sqlite_demo/mptest/mptest.c:193-197 | For every other pattern that matches something there is a shortest string that the rules accept and that is lost by taking all digits. |
| GlobRules.DeadPattern | Source Code/New/sqlite_demo/mptest/mptest.c:118-203 | A pattern that matches nothing by the rules is treated correctly if and only if a condition on the pattern says that the function does not let it match anything either. |
| GlobRules.KeepsRulesIff | Source Code/New/sqlite_demo/mptest/mptest.c:118-203 | For every pattern, and for `#` as in the comment (any number of digits) or as in the code (all of them): exactly when the function agrees with the rules on all strings, as a condition on the pattern. |
| GlobRules.NumberThenMark | Source Code/New/sqlite_demo/mptest/mptest.c:133-134 | An input: `#?` and 12. |
| GlobRules.OpenClass | Source Code/New/sqlite_demo/mptest/mptest.c:148-152 | An input: `*[a`, which matches nothing by the rules, and x. |
| ExprRewrites.PExprIsNull | Source Code/New/sqlite_demo/parse.y:1386-1409 | Under any number of signs a literal makes the test the integer constant 0 or 1; otherwise the IS NULL or NOTNULL node is built. |
| ExprRewrites.BuildKeepsMeaning | Source Code/New/sqlite_demo/parse.y:1386-1540 | The trees that the grammar builds for IS NULL, NOTNULL, IS, IS NOT, signs, IN and NOT IN have the three-valued meaning of what was written, for every expression and every row. |
| ExprRewrites.BuildKeepsCalls | Source Code/New/sqlite_demo/parse.y:1485-1540 | No rewrite loses a call of a function or adds one, the one of `IN ()` included. |
| ExprRewrites.BuildIsNormal | Source Code/New/sqlite_demo/parse.y:1386-1540 | Every tree has all the rewrites made: it holds no test of a signed literal or of NULL, no plus below a sign, and no IN with no element or one constant. |
| ExprRewrites.InIsRewrittenIff | Source Code/New/sqlite_demo/parse.y:1485-1540 | IN becomes a constant exactly for an empty list and an operand without a call, and a comparison exactly for a list of one constant. |
| ExprRewrites.HasFuncIs | Source Code/New/sqlite_demo/parse.y:1485-1540 | The flag EP_HasFunc is set exactly where a function is called. |
| ExprRewrites.IsConstantIs | Source Code/New/sqlite_demo/parse.y:1485-1540 | The test for a constant is met exactly if no column and no function is mentioned. |
| ExprRewrites.DependsOnMentions | Source Code/New/sqlite_demo/parse.y:1386-1540 | The value of an expression depends on the columns and functions that it mentions and on nothing else. |
| ExprRewrites.OperatorsAreKleene | Source Code/New/sqlite_demo/parse.y:1386-1540 | AND takes the lesser, OR the greater and NOT the opposite of false, unknown and true. |
| ExprRewrites.InIs | Source Code/New/sqlite_demo/parse.y:1485-1540 | IN is true if an element is the same, unknown if none is but one or the operand is NULL, and false otherwise. |
| CompoundSelect.DoubleLinkSelect | Source Code/New/sqlite_demo/parse.y:543-569 | The terms up to the first misplaced clause are flagged and linked forward; a misplaced clause is reported if and only if there is one, with the message for the first; and the term limit exactly when the visited terms exceed it. |
| CompoundSelect.NextInvertsPrior | Source Code/New/sqlite_demo/parse.y:543-569 | Without an error pNext and pPrior are inverse to each other over the whole compound. |

## Left out

- Fts5Ownership.EveryValueIsUsedOnce: counts values, so equal trees are not told apart; objects are, in Fts5Objects, for queries whose words are all different.
- Fts5Meaning.FindsWhatIsAsked: takes as a parameter whether a row has a search term in given columns; the search itself is not modelled.
- Glob.Strglob: characters are compared as Dafny characters; the sign of `char` in the C code, which matters for ranges over bytes above 127, is not modelled.
- RenameSql.RenameEditSql: integers are unbounded, so the casts of offsets and lengths to int, which are safe under SQLite's limit on statement length, are not modelled; the context's nodes are not freed.
- ConstraintRoundtrip.AddThenDrop: is about named CHECK constraints added as the last definition; an unnamed one cannot be dropped by name.
- ExprRewrites.BuildKeepsMeaning: leaves out affinity, collation, row values and subqueries on the right of IN; nodes are values, so the reuse of nodes in place is not captured.
- DropColumnRows.RewriteRecord: is the effect of the generated program on one row; the cursor loop, affinity and the construction of the primary-key index of a WITHOUT ROWID table are not modelled.
- SQL text is taken as the sequence of its tokens; the tokenizer itself is not modelled, and an edit is assumed not to merge tokens that it does not separate by a space, a comma or a parenthesis.
- The name argument of DROP CONSTRAINT is never NULL here.
- The columns that DROP COLUMN sees are given by the positions of their name tokens; that the parser records these positions is not proved.
- Trimming of the text of a new constraint (`alterRtrimConstraint`), schema checks and reloading, authorization, and the search for violations in ADD CONSTRAINT and SET NOT NULL.
- The FTS5 actions build abstract trees; tokenizing of phrases, column lookup and the limits on phrase and nesting counts inside the builders, and their error codes, are not modelled.
- Tracing, coverage, the counter `yyhwm`, recovery through an error symbol, calls after the parser has accepted or failed, and failing allocations.
- The tables of the SQL parser itself (`parse.c`); the lemmas on packed tables and on the driver are stated for any tables.
- The keyword hash, the B-tree, the pager, the virtual machine and everything else.
