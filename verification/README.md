# Verified models of the control plane

This project models the hand-written logic of a Postgres control plane in Dafny and
proves what that logic promises: over all texts, all interleavings and all runs with a
crash at any write. Loops and objects of the TypeScript sources are methods and classes
here; each is proved equal to a function, and the theorems are about the functions.

`dafny verify dfyconfig.toml` checks everything.

| Files | What they model |
|---|---|
| `Text.dfy`, `Sets.dfy` | JavaScript string operations as the sources use them; two facts about sets |
| `SqlLexer.dfy`, `SqlLexing.dfy`, `SqlForms.dfy`, `SqlGaps.dfy`, `SqlSplit.dfy` | the SQL tokeniser and statement splitter: what each kind of lexeme looks like, composition, exact spans, re-lexing, gaps between tokens |
| `SqlGuard.dfy`, `SqlGuardLoops.dfy`, `SqlScripts.dfy`, `SqlParens.dfy` | what a statement costs to run, as functions and as the loops, over whole scripts, and by the words that stand outside parentheses |
| `SqlNames.dfy`, `SqlDrops.dfy`, `SqlAlters.dfy`, `SqlLimit.dfy` | printing and reading back names, drops and ALTER actions; which rung any statement reaches; when an appended LIMIT reaches the statement |
| `Capacity.dfy`, `Ports.dfy`, `Placement.dfy`, `PlacementSafety.dfy`, `Allocation.dfy` | booking, ranking and port search; interleaved placement; the tables changed in place |
| `SendGate.dfy`, `SendCaps.dfy`, `SendSolo.dfy`, `SendLimits.dfy`, `SendRecipients.dfy` | the increment, compare and roll-back protocol for any number of callers; the gate as written; each cap and its counter; what the distinct-recipient cap bounds |
| `Secrets.dfy`, `SecretRuns.dfy` | versioned secrets, their concurrent runs, and the store changed in place |
| `KeyRotation.dfy`, `RotationSafety.dfy`, `RotationRuns.dfy`, `RotationReplay.dfy`, `RotationCommands.dfy` | signing-key rotation write by write, its runs with crashes, its replay, and its commands |
| `Smtp.dfy`, `SmtpReads.dfy` | the SMTP conversation, dot-stuffing and header values; reads, timeouts and failures over a whole conversation |
| `Migrate.dfy`, `MigrateRuns.dfy`, `MigrateAlone.dfy` | migration files, any number of concurrent runners, and one alone |
| `S3Xml.dfy`, `ObjectStore.dfy`, `RepoDestroy.dfy` | XML text and paged listing; a store that others write to; the destruction of a backup repository |
| `Stdcopy.dfy`, `Palette.dfy` | Docker's multiplexed output; the command palette's matcher |

## Where the code and its documentation part

The model follows the code. For each of these one theorem says exactly when the promise holds, and another gives an input for which it does not.

- A LIMIT is appended inside a trailing line comment, which the splitter keeps in the statement's text: `SqlLimit.LimitTakesEffectIff`; `SqlLimit.CommentTakesLimit`.
- An ALTER that drops a column is read as safe when a `*` follows the table name, or when the column, written unquoted after a bare DROP, is one of the words taken to announce something harmless, which need not be quoted to name a column: `SqlAlters.AlterRungIff`, `SqlAlters.LoneDropReadIff`; `SqlAlters.StarredDropIsSafe`.
- A gap keeps the tokens around it unless it is a blank outside ASCII after a word or a line comment after a dash: `SqlGaps.GapsKeepTokensIff`; `SqlGaps.NoBreakSpaceJoinsWords`, `SqlGaps.CommentAfterDash`.
- The recipients admitted in a day pass the cap by those who were added in vain and tried again or at the same time: `SendRecipients.AdmittedCount`, `SendRecipients.AllowedWithinDistinctCap`; `SendRecipients.RetryPassesTheCap`, `SendRecipients.OverlapPassesTheCap`.
- `put` on an existing name fails once its first version has been purged: `Secrets.PutSucceedsIff`; `Secrets.PutFailsAfterPurge`.
- Reconciliation counts paused projects at their plan: `Allocation.ReconcileNoopIff`; `Allocation.OnePausedRow`.
- Retiring a key inside a half-done cut-over leaves the signing key unpublished: `RotationRuns.RetireKeepsSignerIff`; `RotationReplay.RetiredHalfWayIsLost`.
- A cut-over that crashed after deleting the row cannot be run again, and its API keys are not minted: `RotationReplay.ReplayableIff`; `RotationReplay.CrashAfterDeletion`.
- A reply that arrives while no one waits is dropped, and the next read is told the one after it: `Smtp.DroppedIff`, `SmtpReads.NothingDroppedIff`; `SmtpReads.EarlyReplyShifts`.
- A non-ASCII display name with a quote or backslash is shown with the escapes: `Smtp.DisplayNameReadsIff`; `Smtp.AccentedQuoteReadsEscaped`.

## Model

| member | source | states |
|---|---|---|
| `SqlLexer.Munch` | packages/sql-guard/src/lex.ts:64-163 | the first lexeme is never empty, stays inside the text when it is closed, and reaches to the end (or one past it) when it is not |
| `SqlLexer.Lex` | packages/sql-guard/src/lex.ts:56-167 | the loop over nested scanners returns exactly the tokens of the recursive definition, whatever the text |
| `SqlLexer.SkipLine` | packages/sql-guard/src/lex.ts:67-70 | a line comment runs up to its newline |
| `SqlLexer.SkipBlock` | packages/sql-guard/src/lex.ts:73-86 | a block comment ends where its nesting closes, or at the end of the text |
| `SqlLexer.SkipQuoted` | packages/sql-guard/src/lex.ts:119-150 | a literal or quoted identifier ends at a quote that is not doubled |
| `SqlLexer.SkipEscaped` | packages/sql-guard/src/lex.ts:102-117 | an E-string steps over escaped characters, one past the end when the text ends in a backslash |
| `SqlLexer.SkipNumber` | packages/sql-guard/src/lex.ts:152-157 | a number runs over digits, dots and underscores |
| `SqlLexer.SkipWord` | packages/sql-guard/src/lex.ts:159-163 | a word runs over word characters |
| `SqlLexer.Step` | packages/sql-guard/src/lex.ts:60-164 | one turn of the loop reads the first lexeme of the rest |
| `SqlLexing.MunchLocal` | packages/sql-guard/src/lex.ts:64-163 | a closed lexeme does not change with what follows it past a seam |
| `SqlLexing.TriviaLocal` | packages/sql-guard/src/lex.ts:64-86 | a closed blank or comment does not depend on what follows it |
| `SqlLexing.Compose` | packages/sql-guard/src/lex.ts:56-167 | the tokens of `a + b` are those of `a` followed by those of `b` at their offset, when `a` ends outside quotes and comments |
| `SqlLexing.ClosedCompose` | packages/sql-guard/src/lex.ts:56-167 | `a + b` ends outside quotes and comments exactly when `b` does |
| `SqlLexing.LexShift` | packages/sql-guard/src/lex.ts:56-167 | the same text further right has the same tokens, moved |
| `SqlLexing.SpacedRelexes` | packages/sql-guard/src/lex.ts:56-167 | writing out the tokens with single spaces and lexing again gives the same kinds and values |
| `SqlLexing.SpansTile` | packages/sql-guard/src/lex.ts:56-167 | spans cover everything but blanks and comments, and each value is its own source |
| `SqlLexing.SpansOrdered` | packages/sql-guard/src/lex.ts:56-167 | spans are in order and disjoint |
| `SqlLexing.MunchOvershoot` | packages/sql-guard/src/lex.ts:102-117 | only an E-string cut off after a backslash ends past the text, and by one |
| `SqlGaps.GapsKeepTokensIff` | packages/sql-guard/src/lex.ts:56-167 | between any two texts a run of closed blanks and comments keeps the kinds and values of the tokens on both sides exactly when it is no blank outside ASCII after a word and no line comment after a dash |
| `SqlGaps.GapsReadAsOneSpace` | packages/sql-guard/src/lex.ts:56-167 | and then it reads as one space does |
| `SqlGaps.DashIsLost` | packages/sql-guard/src/lex.ts:66-70 | a line comment right after a dash starts one character early: whatever surrounds it, the dash token is gone and no other changes |
| `SqlGaps.WordJoins` | packages/sql-guard/src/lex.ts:43-46 | a blank outside ASCII after a word is a character of that word, so the tokens differ |
| `SqlGaps.NoBreakSpaceJoinsWords` | packages/sql-guard/src/lex.ts:43-46 | an instance: a no-break space between two words makes them one |
| `SqlGaps.NoBreakSpaceParts` | packages/sql-guard/src/lex.ts:43-46 | an instance of the other half: after a number the same no-break space separates |
| `SqlGaps.CommentAfterDash` | packages/sql-guard/src/lex.ts:66-70 | an instance: a dash, a line comment and a number are read without the dash |
| `SqlForms.DollarQuoteIsOneToken` | packages/sql-guard/src/lex.ts:88-97 | a dollar quote with any tag, or none, is one literal up to the first place where its delimiter stands again, whatever it holds |
| `SqlForms.OpenDollarQuote` | packages/sql-guard/src/lex.ts:88-97 | with no such place it takes the rest of the text |
| `SqlForms.LoneDollar` | packages/sql-guard/src/lex.ts:88-97 | a dollar sign that begins no delimiter is a mark |
| `SqlForms.EscapeStringIsOneToken` | packages/sql-guard/src/lex.ts:102-117 | an escape string is one literal, whatever its backslashes stand before and however its quotes are doubled |
| `SqlForms.QuotedIsOneToken` | packages/sql-guard/src/lex.ts:119-150 | a literal or quoted identifier is one token, whatever it holds, its quotes doubled |
| `SqlForms.OpenQuoted` | packages/sql-guard/src/lex.ts:119-150 | and the rest of the text when its quote never comes |
| `SqlForms.NumberIsOneToken` | packages/sql-guard/src/lex.ts:152-157 | a digit and any digits, points and underscores are one number |
| `SqlForms.NumberEnds` | packages/sql-guard/src/lex.ts:152-157 | and the number ends before anything else |
| `SqlForms.WordIsOneToken` | packages/sql-guard/src/lex.ts:43-46 | letters of any script, underscores, and after the first digits and dollars, are one word |
| `SqlForms.WordEnds` | packages/sql-guard/src/lex.ts:159-163 | and the word ends before anything else |
| `SqlForms.MarkIsOneToken` | packages/sql-guard/src/lex.ts:163-166 | any other ASCII character that is no blank is a mark of its own |
| `SqlForms.LineCommentIsNoToken` | packages/sql-guard/src/lex.ts:66-70 | a line comment ends with its line and leaves no token |
| `SqlForms.BlockCommentIsNoToken` | packages/sql-guard/src/lex.ts:73-86 | a block comment with comments nested to any depth ends with its own nesting and leaves no token |
| `SqlForms.LiteralIsNotCode` | packages/sql-guard/src/lex.ts:188-213 | a text and a literal after it are one statement of one more token, whatever statements and names the literal holds |
| `SqlSplit.Split` | packages/sql-guard/src/lex.ts:188-213 | the loop with `depth` and `from` returns the statements of the recursive definition |
| `SqlSplit.SplitDistributes` | packages/sql-guard/src/lex.ts:188-213 | `a;b` has the statements of `a`, then those of `b` moved, when `a` ends outside quotes, comments and parentheses |
| `SqlSplit.RunAppend` | packages/sql-guard/src/lex.ts:203-211 | the splitter over two token lists goes on from where the first left it |
| `SqlGuardLoops.ReadDottedName` | packages/sql-guard/src/index.ts:164-179 | the loop reads exactly the dotted path |
| `SqlGuardLoops.FindNameListStart` | packages/sql-guard/src/index.ts:182-187 | the loop skips exactly the noise words |
| `SqlGuardLoops.ReadObjectNames` | packages/sql-guard/src/index.ts:197-210 | the loop collects the whole comma list of names and stops at the first non-name |
| `SqlGuardLoops.FindAlterActions` | packages/sql-guard/src/index.ts:230-242 | the loop finds the start of every action outside parentheses |
| `SqlGuardLoops.FindTopLevelWhere` | packages/sql-guard/src/index.ts:101-109 | true exactly when some WHERE stands outside parentheses |
| `SqlGuardLoops.DecideLimitable` | packages/sql-guard/src/index.ts:301-315 | true exactly for a SELECT with none of the excluding words outside parentheses |
| `SqlGuardLoops.FindGrantTarget` | packages/sql-guard/src/index.ts:519-546 | the name after the first ON outside parentheses |
| `SqlGuardLoops.FindGrantee` | packages/sql-guard/src/index.ts:560-596 | the first exposing role after a TO outside parentheses, none for a schema grant |
| `SqlGuardLoops.FindOnSchema` | packages/sql-guard/src/index.ts:576-579 | true exactly when ON SCHEMA occurs |
| `SqlGuardLoops.WeighActions` | packages/sql-guard/src/index.ts:378-388 | the loop over actions collects the dropped columns and constraints and whether one could not be read |
| `SqlGuardLoops.ClassifyScript` | packages/sql-guard/src/index.ts:648-663 | what is decided of a script |
| `SqlScripts.ClassifyDistributes` | packages/sql-guard/src/index.ts:648-663 | classifying `a;b` gives the statements of both in order, the worse danger, the union of the names to type without repeats, and either one's transaction control |
| `SqlScripts.DistinctAppend` | packages/sql-guard/src/index.ts:660 | the names of two lists without repeats are those of the first and then the new ones of the second |
| `SqlScripts.ScriptOfAppend` | packages/sql-guard/src/index.ts:648-663 | a script of two statement lists combines the decisions of each |
| `SqlScripts.MovedStatementClassifiesAlike` | packages/sql-guard/src/index.ts:148-154 | where a statement stands in its script does not change what is decided of it |
| `SqlScripts.ViewCompose` | packages/sql-guard/src/index.ts:148-154 | the text a person would type for each token is that of the part it is in |
| `SqlScripts.TopRungIffNames` | packages/sql-guard/src/index.ts:648-663 | a script asks for names exactly when it is on the top rung, and lists dangers exactly when it is not safe |
| `SqlScripts.NamesIffTypeName` | packages/sql-guard/src/index.ts:331-500 | a statement has names to type exactly on the top rung |
| `SqlScripts.GrantConfirmedIff` | packages/sql-guard/src/index.ts:560-596 | a GRANT is confirmed exactly when it is not on a schema and some role after TO exposes rows |
| `SqlNames.QuotedIsOneToken` | packages/sql-guard/src/lex.ts:136-150 | any name in quotes with its quotes doubled lexes as one identifier |
| `SqlNames.PartView` | packages/sql-guard/src/index.ts:148-154 | a name part reads back as written, without quotes that do no work |
| `SqlNames.PlainNameIff` | packages/sql-guard/src/index.ts:127 | quotes do no work exactly around lower-case letters, digits, underscores and dollars that begin with a letter or underscore |
| `SqlNames.DottedNameReads` | packages/sql-guard/src/index.ts:164-179 | a printed dotted name reads back whole |
| `SqlNames.NamesFromReads` | packages/sql-guard/src/index.ts:197-210 | a printed comma list reads back in order |
| `SqlDrops.DropAsksForEveryName` | packages/sql-guard/src/index.ts:331-361 | classifying any printed DROP TABLE or DROP SCHEMA gives one statement that asks for exactly the dropped names, in order |
| `SqlDrops.ClassifyWhole` | packages/sql-guard/src/index.ts:648-663 | a text that is one statement is decided as that statement |
| `SqlAlters.AlterAsksForDroppedColumns` | packages/sql-guard/src/index.ts:374-427 | classifying any printed ALTER action list asks for exactly the dropped columns, in order, with or without a trailing CASCADE; constraints and harmless DROPs add none |
| `SqlAlters.AlterDropReads` | packages/sql-guard/src/index.ts:267-281 | a printed DROP action reads back as the column or constraint it names |
| `SqlAlters.ActionsStarts` | packages/sql-guard/src/index.ts:230-242 | the actions of a printed list start where each was printed |
| `SqlAlters.RungIff` | packages/sql-guard/src/index.ts:331-500 | over all statements: names are asked for exactly when a named table, schema or column is dropped, and nothing is asked exactly for one that drops, empties, rewrites whole and exposes nothing |
| `SqlAlters.AlterRungIff` | packages/sql-guard/src/index.ts:374-427 | an ALTER asks for names exactly when some action drops a column it can name, and for nothing exactly when no action begins with DROP or each that does goes on with an exempting word |
| `SqlAlters.LoneDropReadIff` | packages/sql-guard/src/index.ts:244-281 | a column written unquoted after DROP is asked for by name exactly when it is none of the words looked for there, and goes unremarked exactly when it is an exempting word after a bare DROP |
| `SqlAlters.StarHidesDrop` | packages/sql-guard/src/index.ts:230-242 | a * after the table name makes any DROP action read as safe |
| `SqlAlters.StarredDropIsSafe` | packages/sql-guard/src/index.ts:230-242 | the plainest such text |
| `SqlLimit.LimitTakesEffectIff` | packages/sql-guard/src/index.ts:672-674 | for every script that is offered a LIMIT: it is appended to the statement's tokens and the result takes no second one exactly when the text before it ends outside quotes, comments and parentheses and not in a semicolon |
| `SqlLimit.WithLimitIsRight` | packages/sql-guard/src/index.ts:672-674 | a limitable script that ends cleanly stays one statement, with its tokens and then LIMIT and the number, and is no longer limitable |
| `SqlLimit.CleanLimit` | packages/sql-guard/src/index.ts:301-315 | the same of the text without its last semicolon |
| `SqlLimit.BaseIsLimitable` | packages/sql-guard/src/index.ts:672-674 | what is offered a LIMIT is so without its last semicolon too, inside parentheses or not |
| `SqlLimit.UncleanLimit` | packages/sql-guard/src/index.ts:672-674 | and otherwise it does not take effect |
| `SqlLimit.CommentTakesLimit` | packages/sql-guard/src/lex.ts:194-200 | a statement whose kept text ends in a line comment takes the LIMIT into the comment: no token is added |
| `SqlLimit.OpenTextSwallows` | packages/sql-guard/src/index.ts:672-674 | appending to a text inside a quote or comment adds no token |
| `SqlLimit.StrippingKeepsStatements` | packages/sql-guard/src/index.ts:673 | stripping the last semicolon keeps the statements |
| `SqlLimit.WithLimitStrips` | packages/sql-guard/src/index.ts:672-674 | a semicolon at the end goes, with the blanks after it, and the limit is written in its place |
| `SqlLimit.WithLimitKeeps` | packages/sql-guard/src/index.ts:672-674 | any other text is kept whole |
| `Text.DecimalDenotes` | packages/sql-guard/src/index.ts:673 | the digits written for a limit denote it |
| `Text.TrimIs` | packages/email/src/smtp.ts:200 | trimming takes the blanks at both ends and nothing else |
| `Text.PrecedesIff` | packages/migrate/src/index.ts:52 | the order of names is that of the first character where they differ, a name before its extensions |
| `Capacity.BookingCoversQuota` | services/worker/src/placement.ts:46-51 | the booking is the least number of whole gigabytes, one at least, that holds the cap and a fifth more |
| `Capacity.PlansBook` | services/worker/src/placement.ts:15-51 | what each plan books; an unknown plan books as a free one |
| `Capacity.RoomIff` | services/worker/src/placement.ts:119-125 | room is up to and including 85 % of both totals, in whole numbers |
| `Capacity.CanFitIff` | services/worker/src/placement.ts:111-125 | and so for RAM alone |
| `Capacity.FitsIff` | services/worker/src/placement.ts:119-125 | a booking of nothing is refused, any other answered by the room there is |
| `Capacity.RankingIsOrdered` | services/worker/src/placement.ts:144-153 | the ranking holds exactly the fitting nodes, strictly ordered by fill ratio and then hostname |
| `Capacity.RankingIsEmptiestFirst` | services/worker/src/placement.ts:139-153 | the ranking holds exactly the fitting nodes, and each stands before those whose larger fraction of RAM or disk is strictly greater, the hostname deciding exactly between equal ones |
| `Capacity.AheadIffBefore` | services/worker/src/placement.ts:98-117 | the comparison of fill ratios is that of the larger fractions, cross-multiplied |
| `Capacity.RankingIsReproducible` | services/worker/src/placement.ts:139-153 | the ranking does not depend on the order in which nodes are returned |
| `Capacity.OrderUnique` | services/worker/src/placement.ts:144-153 | an ordered list is determined by its members |
| `Capacity.RoomIsFinite` | services/worker/src/placement.ts:111-125 | a node that fits has a finite fill ratio |
| `Capacity.RoomStopsAtOne` | services/worker/src/placement.ts:98-125 | a node with room for a booking is at most at a fill of 1, the placement stop, once it is booked |
| `Capacity.FillIsTheWorse` | services/worker/src/placement.ts:98-117 | a node is as full as its fuller axis |
| `Ports.PickPort` | services/worker/src/placement.ts:170-174 | the loop finds the least free port of the range, or none |
| `Ports.PickPortPair` | services/worker/src/placement.ts:188-198 | the loop in steps of two finds the least free pair, or none |
| `Ports.FreeFromLeast` | services/worker/src/placement.ts:170-174 | the port found is free and every lower one is taken; none is found only when all are taken |
| `Ports.FreePairLeast` | services/worker/src/placement.ts:188-198 | the pair found is aligned and free and every lower slot is blocked |
| `Ports.FullIffWidth` | services/worker/src/placement.ts:170-174 | with all ports in range, the search fails exactly when as many are taken as the range is wide |
| `Ports.PairsDoNotInterleave` | services/worker/src/placement.ts:188-194 | a slot is blocked only by the pair that starts there |
| `Ports.PairsFullIffHalf` | services/worker/src/placement.ts:188-198 | the pair search fails exactly when half the width, rounded down, is held |
| `Placement.TryAccounts` | services/worker/src/placement.ts:317-347 | re-check, booking and row keep reservations equal to the sums over rows |
| `Placement.TryUnderCeiling` | services/worker/src/placement.ts:432-446 | and keep the node at or below 85 % on both axes |
| `Placement.NeverClips` | services/worker/src/placement.ts:478-491 | what a row gives back is there to give, so GREATEST never clips |
| `Placement.ReleaseNodeAccounts` | services/worker/src/placement.ts:457-497 | a release keeps the sums |
| `Placement.ReleaseRamAccounts` | services/worker/src/placement.ts:511-540 | a pause keeps the sums |
| `Placement.BookRamAccounts` | services/worker/src/placement.ts:555-594 | a resume keeps the sums |
| `Placement.NodesAccounts` | services/worker/src/placement.ts:245-260 | registration, cordoning and removal keep the sums |
| `PlacementSafety.RunGood` | services/worker/src/placement.ts:280-594 | over every interleaving of stale rankings, locks, releases, pauses, resumes, heartbeats and crashes: reservations equal the sums, ports are apart and paired, bookings are plan or nothing |
| `PlacementSafety.RunUnderCeiling` | services/worker/src/placement.ts:280-594 | in such a run where no total shrinks, no node is ever booked past 85 % of either axis |
| `PlacementSafety.ShrinkingIsTheOnlyWay` | services/worker/src/placement.ts:245-260 | new totals of a known node keep it under the ceiling exactly when they still cover what is reserved |
| `PlacementSafety.ListenersDistinct` | services/worker/src/placement.ts:317-331 | with disjoint ranges, no two listeners on a node share a port |
| `PlacementSafety.PairsExhaustedIff` | services/worker/src/placement.ts:188-198 | an allocation finds no PostgREST pair exactly when half the width of rows hold one |
| `PlacementSafety.PortsExhaustedIff` | services/worker/src/placement.ts:170-174 | and no port exactly when as many rows are on the node as the range is wide |
| `PlacementSafety.TryPorts` | services/worker/src/placement.ts:317-342 | a new row clashes with no other on its node, and its pair is adjacent and aligned |
| `PlacementSafety.StepGood` | services/worker/src/placement.ts:280-594 | each single step keeps the invariant |
| `PlacementSafety.EmptyIsGood` | services/worker/src/placement.ts:245-260 | the empty tables, where every run starts, satisfy the invariant and the ceiling |
| `Allocation.TryPlacesIff` | services/worker/src/placement.ts:317-347 | a try places the project exactly when the node is active with room, a port of each kind and a pair are free, and there is no row yet |
| `Allocation.PlacedBooks` | services/worker/src/placement.ts:317-347 | the row and the node book what the plan does |
| `Allocation.WalkGoesOn` | services/worker/src/placement.ts:302-347 | a worker whose candidate has no room goes on to the next, and is done in any other case |
| `Allocation.RegisterIs` | services/worker/src/placement.ts:245-260 | a registration adds an active, empty node, or gives a known one its new totals and leaves the rest |
| `Allocation.CordonAndRemove` | migrations/20260829120000_control_plane_init.sql:25-92 | cordoning changes one flag, and a node goes exactly when no row is on it |
| `Allocation.UndisturbedAllocation` | services/worker/src/placement.ts:381-446 | undisturbed, the first candidate is the emptiest eligible node and passes its re-check; with none eligible the attempt ends at once |
| `Allocation.BackstopNeverFires` | migrations/20260829120000_control_plane_init.sql:77-79 | under the ceiling the table's own check cannot fail |
| `Allocation.ReconcileNoopIff` | services/worker/src/reconcile.ts:398-421 | the recomputation changes nothing, and keeps the sums right, exactly when no project on the node is paused |
| `Allocation.PausedIsRebooked` | services/worker/src/reconcile.ts:398-421 | pausing any project makes the recomputation book again what the pause returned |
| `Allocation.OnePausedRow` | services/worker/src/reconcile.ts:398-421 | an instance: one paused row on one node |
| `Allocation.ReleaseUndoesPlacement` | services/worker/src/placement.ts:457-497 | releasing a placement just made restores both tables |
| `Allocation.ResumeUndoesPause` | services/worker/src/placement.ts:555-594 | resuming a project whose node no one booked restores both tables |
| `Allocation.Registry.Allocate` | services/worker/src/placement.ts:280-357 | the whole allocation in place: replayed, placed on the emptiest eligible node, or refused for the reason given |
| `Allocation.Registry.PickNode` | services/worker/src/placement.ts:432-446 | the walk takes the first candidate that is active and fits, and none only when all fail the re-check |
| `Allocation.Registry.Book` | services/worker/src/placement.ts:317-347 | the two writes leave the state that one try describes |
| `Allocation.Registry.Release` | services/worker/src/placement.ts:457-497 | the row goes and its booking is credited; a second call credits nothing |
| `Allocation.Registry.Pause` | services/worker/src/placement.ts:511-540 | only the RAM is credited and the row stays |
| `Allocation.Registry.Resume` | services/worker/src/placement.ts:555-594 | the RAM is booked again, or refused, or was already booked |
| `SendGate.AdvanceOk` | packages/email/src/gate.ts:99-137 | each Redis call leaves a caller holding exactly the units its place in the protocol says |
| `SendCaps.AdvanceConserves` | packages/email/src/gate.ts:99-137 | each Redis call moves a counter by what its caller gains or gives back |
| `SendCaps.RunBalanced` | packages/email/src/gate.ts:88-140 | in every run, with crashes and lost decrements, each counter is the number of calls that hold a unit of it |
| `SendCaps.AllowedWithinCap` | packages/email/src/gate.ts:88-140 | no counter key ever admits more sends than the largest limit brought for it |
| `SendCaps.NeverBelowAllowed` | packages/email/src/gate.ts:81-86 | crashes and lost decrements only under-send |
| `SendCaps.QuiescentExact` | packages/email/src/gate.ts:88-140 | when all calls finished without a crash or lost decrement, each counter is exactly the allowed sends |
| `SendCaps.MailBombSparesProject` | packages/email/src/gate.ts:106-114 | in every run a call that a recipient cap refuses never holds a unit of its project's budget |
| `SendCaps.LostUnitStays` | packages/email/src/gate.ts:81-86 | a decrement that fails is passed over, and its unit stays held |
| `SendSolo.SecondAttemptPasses` | packages/email/src/gate.ts:127-136 | alone, a recipient refused by the distinct cap is allowed on the next attempt |
| `SendSolo.AllowedIff` | packages/email/src/gate.ts:88-140 | alone, a call is allowed exactly when nothing suppresses it and every budget has room |
| `SendSolo.AloneIsAnswer` | packages/email/src/gate.ts:88-140 | the interleaved protocol run by one caller gives that answer and that recipient set |
| `SendSolo.AloneCounts` | packages/email/src/gate.ts:116-137 | an allowed call takes one unit of each counter and a refused one leaves all as they were |
| `SendSolo.FirstOverIs` | packages/email/src/gate.ts:110-114 | the cap that refuses is the first, tightest first, without room |
| `SendSolo.Redis.CheckAndConsume` | packages/email/src/gate.ts:88-140 | the gate as written returns the answer of a call alone, spends the units of an allowed call only, and grows the recipient set as described |
| `SendSolo.Redis.Spend` | packages/email/src/gate.ts:99-119 | increments stop at the first over its limit and are then all rolled back |
| `SendSolo.Redis.Rollback` | packages/email/src/gate.ts:117 | every unit spent is returned |
| `SendRecipients.AdmittedCount` | packages/email/src/gate.ts:122-137 | in every run the recipients admitted number exactly those admitted at their first attempt, at most the cap, plus those that a later call got in after the call that added them was refused or cut off |
| `SendRecipients.AllowedWithinDistinctCap` | packages/email/src/gate.ts:122-137 | they are at most the cap when calls for one recipient follow one another and none follows one that added it in vain |
| `SendRecipients.RetryPassesTheCap` | packages/email/src/gate.ts:127-136 | an instance from empty: under a cap of one, the second recipient is refused, tried again and allowed |
| `SendRecipients.OverlapPassesTheCap` | packages/email/src/gate.ts:127-136 | an instance from empty: of two overlapping calls under a cap of none, the second is allowed |
| `SendRecipients.FirstTimersWithinCap` | packages/email/src/gate.ts:122-137 | what the cap bounds in every run: the recipients admitted at their first attempt |
| `SendRecipients.RunAttributed` | packages/email/src/gate.ts:122-137 | in every run whoever is in the day's set was added by exactly one call, and whoever was admitted is in it |
| `SendRecipients.FinishRuns` | packages/email/src/gate.ts:88-140 | any call can be run to its end with no one in between |
| `SendLimits.AnswerIs` | packages/email/src/gate.ts:88-140 | alone: the first of perRecipientPerHour, perRecipientPerDay, perHour, perDay and distinctRecipientsPerDay whose own counter has no room refuses, and with room in all the call is allowed |
| `SendLimits.RecipientHourCap` | packages/email/src/gate.ts:99-119 | in every run at most perRecipientPerHour sends to a recipient within an hour are allowed |
| `SendLimits.RecipientDayCap` | packages/email/src/gate.ts:99-119 | at most perRecipientPerDay within a day |
| `SendLimits.ProjectHourCap` | packages/email/src/gate.ts:99-119 | at most perHour of a project within an hour |
| `SendLimits.ProjectDayCap` | packages/email/src/gate.ts:99-119 | at most perDay of a project within a day |
| `SendLimits.RefusedByItsCounter` | packages/email/src/gate.ts:99-137 | in every interleaving a call is turned away by the cap whose own counter it has just overrun |
| `Secrets.ActiveIsTop` | migrations/20260831110000_t5e_credentials.sql:13-35 | a name with rows has an active row, and it is the highest version |
| `Secrets.OneActive` | migrations/20260831110000_t5e_credentials.sql:34-35 | there are never two active rows of a name |
| `Secrets.PutSucceedsIff` | packages/secrets/src/index.ts:179-187 | `put` leaves an existing value and succeeds exactly when the name is new or its first version is not purged |
| `Secrets.PutFailsAfterPurge` | packages/secrets/src/index.ts:179-187 | after a replacement and a purge `put` breaks the one-active index |
| `Secrets.InsertGet` | packages/secrets/src/index.ts:315-322 | the insert of `ensure` is create-if-absent and touches no other name |
| `Secrets.ReplaceGet` | packages/secrets/src/index.ts:189-237 | a replacement sets the active value of its name and no other |
| `Secrets.ReplaceWf` | packages/secrets/src/index.ts:209-229 | the new version is one past the highest and the only active one |
| `Secrets.PurgeGet` | packages/secrets/src/index.ts:294-304 | a purge changes no active value and no highest version |
| `SecretRuns.ActiveIsHighestEver` | packages/secrets/src/index.ts:172-336 | in every run the active version is the highest ever used of its name |
| `SecretRuns.NeverReused` | packages/secrets/src/index.ts:260-268 | in every run no version number is written twice, purged or not |
| `SecretRuns.NoVersionReused` | packages/secrets/src/index.ts:260-268 | each step writes only a version never used, and forgets none |
| `SecretRuns.ValueKept` | packages/secrets/src/index.ts:172-336 | a name that has a value keeps one, and only a replacement of that name changes it |
| `SecretRuns.VanishedIsUnreachable` | packages/secrets/src/index.ts:324-330 | the "vanished" failure of `ensure` is unreachable |
| `SecretRuns.EnsureConverges` | packages/secrets/src/index.ts:306-336 | with no rotation of the name, all concurrent `ensure` calls answer the same active value and at most one created it |
| `SecretRuns.SecretStore.Put` | packages/secrets/src/index.ts:179-187 | create-if-absent in place, refusing when the index does |
| `SecretRuns.SecretStore.Replace` | packages/secrets/src/index.ts:189-237 | demote, insert the next version, return the previous value |
| `SecretRuns.SecretStore.Ensure` | packages/secrets/src/index.ts:306-336 | the existing value, or the generated one stored |
| `SecretRuns.SecretStore.PurgeRetired` | packages/secrets/src/index.ts:294-304 | old retiring rows go and no active value changes |
| `SecretRuns.SecretStore.Read` | packages/secrets/src/index.ts:173-177 | the active value |
| `KeyRotation.NamesInjective` | services/worker/src/key-rotation.ts:48-49 | two kids never share a private-key name |
| `KeyRotation.NamesApart` | services/worker/src/key-rotation.ts:48-49 | nor is it the name of anything else the rotation writes |
| `KeyRotation.KidOkIff` | migrations/20260904120000_p4h_signing_keys.sql:26 | a kid is four to sixty-four lower-case letters, digits and underscores |
| `KeyRotation.AcceptedIff` | services/worker/src/key-rotation.ts:64-82 | a public half is published exactly as the signing key's or by a row that is not retired |
| `KeyRotation.InvNothingLost` | services/worker/src/key-rotation.ts:64-82 | under the invariant every key that ever signed is accepted or its kid is retired |
| `RotationSafety.AtStep` | services/worker/src/key-rotation.ts:193-215 | the state after each write of a cut-over, write by write, and that none is refused |
| `RotationSafety.AtInv` | services/worker/src/key-rotation.ts:193-215 | the invariant holds after every write of a cut-over |
| `RotationSafety.CutOverKeeps` | services/worker/src/key-rotation.ts:141-220 | a cut-over stopped after any write keeps the invariant |
| `RotationSafety.RemintKeeps` | services/worker/src/key-rotation.ts:231-249 | minting API keys touches neither the signing key nor what is published |
| `RotationSafety.RemintMints` | services/worker/src/key-rotation.ts:231-249 | minting leaves each name holding its own token and registers both |
| `RotationRuns.NoSigningKeyLost` | services/worker/src/key-rotation.ts:64-293 | over every run of commands and secret purges with a crash after any write, every key that ever signed has its public half accepted until its own kid is retired |
| `RotationRuns.SignerAlwaysAccepted` | services/worker/src/key-rotation.ts:64-293 | if no half-done cut-over is retired, the key that signs now is always accepted |
| `RotationRuns.RetireKeepsSignerIff` | services/worker/src/key-rotation.ts:260-293 | a retirement keeps the signing key accepted exactly when its kid is not half cut over |
| `RotationRuns.BeginKeeps` | services/worker/src/key-rotation.ts:101-123 | begin stopped after any write keeps the invariant |
| `RotationRuns.BeginWaits` | services/worker/src/key-rotation.ts:101-110 | while a key waits, begin writes nothing |
| `RotationRuns.RetiredKeeps` | services/worker/src/key-rotation.ts:260-293 | a retirement keeps the invariant |
| `RotationRuns.PurgeKeeps` | packages/secrets/src/index.ts:294-304 | a purge of old secrets between commands keeps the invariant, every secret and every row |
| `RotationRuns.SwitchedTriple` | services/worker/src/key-rotation.ts:210-215 | a finished switch leaves the incoming pair signing and shown, and its row gone |
| `RotationRuns.ReplaySwitch` | services/worker/src/key-rotation.ts:193-215 | a switch that crashed and was run again ends as if it had not crashed |
| `RotationRuns.StoredBeforePublished` | services/worker/src/key-rotation.ts:112-121 | in every run a published key that waits has its private half stored |
| `RotationReplay.CutOverReplays` | services/worker/src/key-rotation.ts:141-220 | crash-replay reaches the same signing key, the same stored halves and the same published keys as an uninterrupted run, and the API keys of its own tokens |
| `RotationReplay.ReplayableIff` | services/worker/src/key-rotation.ts:146-154 | a cut-over stopped after any of its writes can be run again exactly when it stopped before the deletion and did not start with the incoming kid already in place |
| `RotationReplay.CrashAfterDeletion` | services/worker/src/key-rotation.ts:213-217 | a crash right after the deletion leaves the old API keys, and no command to mint the new ones |
| `RotationReplay.RetiredHalfWayIsLost` | services/worker/src/key-rotation.ts:260-293 | a run in which the signing key is not accepted: provision, begin, a cut-over crashed after three writes, and the retirement of the waiting kid |
| `RotationReplay.ProvisionedExists` | services/worker/src/key-rotation.ts:48-82 | such a provisioned project and fresh pair exist |
| `RotationCommands.Project.Begin` | services/worker/src/key-rotation.ts:101-123 | returns a waiting key unchanged, else stores the private half and then publishes |
| `RotationCommands.Project.CutOver` | services/worker/src/key-rotation.ts:141-220 | over any project, signing key or none: it refuses exactly when the plan is empty, changing nothing, and else leaves the state of its writes in order, up to one that the database refuses; done, the waiting key signs and is shown, the old one retires, and ANON_KEY and SERVICE_ROLE_KEY hold their own tokens, both registered |
| `RotationCommands.Project.Switch` | services/worker/src/key-rotation.ts:193-215 | the writes of the switch in their order, without the copy of a private half that is not there |
| `RotationCommands.SwitchLeaves` | services/worker/src/key-rotation.ts:193-215 | what a switch that went through leaves, in any project |
| `RotationCommands.Project.Retire` | services/worker/src/key-rotation.ts:260-293 | un-publishes a waiting key, or a retiring one whose window is over; any other is kept, and the answer is false |
| `RotationCommands.SwitchNeverStops` | services/worker/src/key-rotation.ts:193-215 | no write of a cut-over is refused |
| `RotationCommands.CutOverNeverStops` | services/worker/src/key-rotation.ts:141-220 | from any state a rotation can reach, the whole cut-over goes through |
| `Smtp.ChunkingIndependent` | packages/email/src/smtp.ts:76-84 | two ways of cutting the same stream give the same replies to the same callers and the same leftover |
| `Smtp.DataAppend` | packages/email/src/smtp.ts:76-84 | two pieces of input do what their concatenation does |
| `Smtp.DrainAppend` | packages/email/src/smtp.ts:94-109 | a reply that has been read stays read: later input only lengthens the leftover |
| `Smtp.DrainedIsDry` | packages/email/src/smtp.ts:76-83 | after any input the leftover holds no complete reply |
| `Smtp.DroppedIff` | packages/email/src/smtp.ts:81-82 | a reply is lost exactly when more arrive than callers wait |
| `Smtp.ReplyRoundTrip` | packages/email/src/smtp.ts:94-109 | a multi-line reply written by section 4.2.1 of RFC 5321 parses back to its code and text and leaves what follows |
| `Smtp.StreamRoundTrip` | packages/email/src/smtp.ts:94-109 | a stream of such replies is read back whole |
| `Smtp.CodeRoundTrip` | packages/email/src/smtp.ts:94-109 | a reply written with any three-digit code is read back with that number, its text and what follows |
| `Smtp.ShortReply` | packages/email/src/smtp.ts:94-109 | a line too short to hold text is a reply with none |
| `Smtp.DotStuffTransparent` | packages/email/src/smtp.ts:210-211 | the receiver of section 4.5.2 of RFC 5321 gets any body back whole and sees the end of data only after it |
| `Smtp.SplitLines` | packages/email/src/smtp.ts:211 | splitting at line ends and joining again gives the text |
| `Smtp.HeaderSafeIsSafe` | packages/email/src/smtp.ts:200 | a safe value holds no line break, and making it safe again changes nothing |
| `Smtp.RunBecomesSpace` | packages/email/src/smtp.ts:200 | a run of line breaks between two texts becomes one space and both texts stay |
| `Smtp.HeaderSafeKeeps` | packages/email/src/smtp.ts:200 | a safe value keeps every character that is no blank, in order |
| `Smtp.DisplayNameReadsIff` | packages/email/src/smtp.ts:184-190 | the reader sees the given name exactly when it is printable ASCII or holds neither quote nor backslash |
| `Smtp.AccentedQuoteReadsEscaped` | packages/email/src/smtp.ts:184-190 | an instance: an accented letter and a quote are read with the escape |
| `Smtp.UnquoteEscaped` | packages/email/src/smtp.ts:184-185 | an escaped name in quotes reads back (section 3.2.4 of RFC 5322) |
| `Smtp.Conversation.TakeOne` | packages/email/src/smtp.ts:94-109 | the loop takes one complete reply off the buffer, or leaves it |
| `Smtp.Conversation.Data` | packages/email/src/smtp.ts:76-84 | the handler delivers every complete reply to the caller that has waited longest |
| `Smtp.Conversation.Fail` | packages/email/src/smtp.ts:85-90 | a failure rejects everyone who waits |
| `Smtp.NoDrops` | packages/email/src/smtp.ts:79-83 | replies go to the callers in the order in which they wait |
| `SmtpReads.ReadsGetTheirReplies` | packages/email/src/smtp.ts:76-121 | while no reply has been dropped, the read of each number is told the reply of that number, whenever reads are made and however the stream is cut; a read that timed out keeps its place and shifts no one |
| `SmtpReads.NothingDroppedIff` | packages/email/src/smtp.ts:76-121 | over every run no reply is lost exactly when before each chunk enough reads were made for the replies it completes and none is completed after a failure |
| `SmtpReads.RunOrderly` | packages/email/src/smtp.ts:76-121 | in every run the reads made are, in order, those answered, those turned away and those that wait |
| `SmtpReads.RunTold` | packages/email/src/smtp.ts:76-109 | in every run the buffer is what the stream leaves unread and every reply of the stream was told or dropped |
| `SmtpReads.EarlyReplyShifts` | packages/email/src/smtp.ts:81-82 | a reply that comes before anyone asks is lost, and the read is told the next one |
| `SmtpReads.EarlyGreetingIsDropped` | packages/email/src/smtp.ts:81-82 | an instance: a greeting that nobody waits for |
| `Migrate.ParseIff` | packages/migrate/src/index.ts:40-44 | a file name parses exactly when it is fourteen digits, an underscore, lower-case letters, digits and underscores, and .sql, and then to the first and the third |
| `Migrate.LoadMigrations` | packages/migrate/src/index.ts:51-70 | every SQL file in order with strictly increasing versions, or the bad name or shared version that refuses the lot |
| `Migrate.ChecksumsAgreeIff` | packages/migrate/src/index.ts:46-49 | two texts have one checksum exactly when they agree once every CR LF is read as LF |
| `Migrate.CrLfIsLf` | packages/migrate/src/index.ts:46-49 | a CR LF anywhere is read as LF, and what is around it as it would be alone |
| `Migrate.SortIncreasing` | packages/migrate/src/index.ts:52 | sorting distinct names orders them strictly |
| `Migrate.VersionsIncrease` | packages/migrate/src/index.ts:53-69 | names in order with distinct versions have their versions in order |
| `MigrateRuns.AtMostOnce` | packages/migrate/src/index.ts:82-140 | in every interleaving with crashes each version's SQL commits at most once, exactly when its row exists with its checksum, and one runner at a time is past the lock |
| `MigrateRuns.RefusalAppliesNothing` | packages/migrate/src/index.ts:99-116 | drift or an unknown version applies nothing |
| `MigrateRuns.EditedFileIsDrift` | packages/migrate/src/index.ts:99-111 | a runner with a file whose version was applied from a text that reads otherwise ends in drift |
| `MigrateRuns.ReturnMeansApplied` | packages/migrate/src/index.ts:118-136 | when a run returns, the database has exactly its files applied |
| `MigrateRuns.RerunAppliesNothing` | packages/migrate/src/index.ts:118-119 | a run over a database that has its files applied applies nothing |
| `MigrateRuns.StepInv` | packages/migrate/src/index.ts:82-140 | each step of any runner keeps the invariant |
| `MigrateRuns.Database.RunMigrations` | packages/migrate/src/index.ts:82-140 | one run: refused for the reason given with nothing changed, stopped at the failing file with exactly the earlier pending ones applied and recorded, or all pending files applied and recorded in order |
| `MigrateAlone.AloneEnds` | packages/migrate/src/index.ts:82-140 | the protocol run by one runner, with no other holding the lock, ends as the function written out, and frees the lock |
| `S3Xml.EscapeDecodes` | packages/s3/src/index.ts:452-458 | decoding gives back every escaped string |
| `S3Xml.EscapeIsEach` | packages/s3/src/index.ts:452-454 | the chain of replacements escapes each character once |
| `S3Xml.DecodeStep` | packages/s3/src/index.ts:456-458 | each replacement undoes its own entity and leaves the others |
| `S3Xml.AmpersandsStartEntities` | packages/s3/src/index.ts:452-454 | in escaped text every ampersand starts exactly one of the five entities (section 4.6 of XML 1.0) |
| `S3Xml.List` | packages/s3/src/index.ts:381-405 | the paged loop over response bodies returns every key of every page in order, or fails exactly when a request fails or there are more than ten thousand pages |
| `S3Xml.ScanFindsLeaves` | packages/s3/src/index.ts:396-400 | scanning a body for an element finds the text of each of them in order, whatever else the body holds |
| `S3Xml.WrittenSays` | packages/s3/src/index.ts:396-402 | a body written from escaped keys and a token is read back as they are |
| `RepoDestroy.PrefixesApart` | services/worker/src/repo-destroy.ts:109 | two projects' prefixes have no key in common |
| `RepoDestroy.Sweeper.DeleteAll` | services/worker/src/repo-destroy.ts:116-126 | a batch and its retries take keys of the batch only, whoever else writes, and count each once; alone, they remove them all |
| `RepoDestroy.Sweeper.Sweep` | services/worker/src/repo-destroy.ts:113-127 | a round takes listed keys only; alone, it removes every one |
| `RepoDestroy.Sweeper.Destroy` | services/worker/src/repo-destroy.ts:111-135 | whoever else writes, it succeeds only if the last request listed the prefix empty, and takes keys of the prefix only; alone, the count is the number of keys there were, under any pattern of refusals, and with no failing request it succeeds exactly for at most ten million keys |
| `RepoDestroy.Sweeper.ScanOnce` | services/worker/src/repo-destroy.ts:78-171 | whoever else writes, a repository is marked only if its prefix was listed empty, no other project loses a key, and one not marked met a failed request or a key; alone, exactly those a listing can hold are marked, with their counts |
| `ObjectStore.Store.List` | packages/s3/src/index.ts:381-405 | a listing of many pages while others write: in order, every key there at some page, none missed that was there at every page, and none at all only when a single page found the prefix empty; alone, it is exactly the keys or fails over ten million |
| `ObjectStore.Store.DeleteBatch` | packages/s3/src/index.ts:424-446 | removes what is not refused and returns what was, needs no request for no keys, and fails over a thousand |
| `ObjectStore.Store.DeleteObject` | packages/s3/src/index.ts:408-415 | removes the key and nothing else |
| `ObjectStore.OnePage` | packages/s3/src/index.ts:383-403 | one more page keeps a listing sound and complete up to its token, whoever wrote in between |
| `ObjectStore.SteadyListing` | packages/s3/src/index.ts:381-405 | a listing of a prefix that nobody writes to is what is there |
| `Stdcopy.Demux` | services/worker/src/docker.ts:75-89 | the loop returns the output of the recursive definition |
| `Stdcopy.DemuxInvertsFraming` | services/worker/src/docker.ts:75-89 | any framed list comes apart into its two streams |
| `Stdcopy.TruncationGivesPrefixes` | services/worker/src/docker.ts:75-89 | output cut off anywhere gives a prefix of each stream |
| `Stdcopy.LengthRoundTrip` | services/worker/src/docker.ts:82 | a big-endian length reads back |
| `Palette.Score` | apps/dashboard/src/components/CommandPalette.tsx:48-67 | null exactly when the query is no subsequence; else its leftmost, strictly increasing places and their points |
| `Palette.GreedyIsLeftmost` | apps/dashboard/src/components/CommandPalette.tsx:48-67 | the greedy match is an embedding that no other is left of, and finds one whenever there is one |
| `Palette.PointsBounds` | apps/dashboard/src/components/CommandPalette.tsx:59-61 | each hit is worth one to four points |
| `Palette.PointsAre` | apps/dashboard/src/components/CommandPalette.tsx:56-62 | a hit is worth one point, two more if it starts a word and one more if it goes on from the hit before |
| `Palette.LowerIff` | apps/dashboard/src/components/CommandPalette.tsx:50-51 | two texts are alike to the matcher exactly when they differ in nothing but the case of letters |
| `Palette.Highlight` | apps/dashboard/src/components/CommandPalette.tsx:77-86 | the runs alternate, show the text and mark exactly the hits |
| `Palette.RunsUnique` | apps/dashboard/src/components/CommandPalette.tsx:77-86 | no other alternating runs show the same text with the same marks |
| `Palette.WordStartBeatsMiddle` | apps/dashboard/src/components/CommandPalette.tsx:43-61 | a hit that starts a word beats any hit that does not |
| `SqlParens.TopLevelIff` | packages/sql-guard/src/index.ts:92-109 | the running depth is zero exactly where no parenthesis is open: none since which as many have closed as opened |
| `SqlParens.LimitOfferedIff` | packages/sql-guard/src/index.ts:301-315 | over all texts: a LIMIT is offered exactly for one statement that begins with SELECT and has LIMIT, FETCH, OFFSET, UNION, INTERSECT, EXCEPT and INTO only inside parentheses |
| `SqlParens.QualifiedIff` | packages/sql-guard/src/index.ts:482-498 | a DELETE or UPDATE is safe exactly when a WHERE stands outside parentheses |
| `SqlParens.OwnsTransactionIff` | packages/sql-guard/src/index.ts:598-660 | a script owns its transaction exactly when some statement begins with one of six words |
| `SqlParens.GrantExposesIff` | packages/sql-guard/src/index.ts:560-596 | a GRANT is confirmed exactly when no ON SCHEMA occurs and PUBLIC, anon or "anon" stands outside parentheses after a TO that does |
| `SqlParens.SubjectIs` | packages/sql-guard/src/index.ts:182-214 | the object of a statement is the name right after the twenty-four noise words |
| `SqlParens.NameIff` | packages/sql-guard/src/index.ts:164-179 | a name is read exactly where a word or quoted identifier stands, as far as its points and parts go |
| `SqlParens.GrantSubjectIs` | packages/sql-guard/src/index.ts:519-546 | the object of an exposing GRANT is the name past the noise after the first ON outside parentheses, "everything in" it after ALL |

## Left out

- Characters: offsets count characters, not UTF-16 units, and `toUpperCase` and `toLowerCase` are exact only where the result is ASCII; a word with other letters can never equal a keyword either way.
- Reasons: the sentences of `danger` and the joining of names for them; only the rung, the object and the names are kept. The field `object` is called `subject`.
- Placement: a transaction is one step at its commit, since it holds the node's row lock; `bookRam` locks only the node row, so its booking is modelled as read under that lock. The age of a heartbeat is a parameter, `localeCompare` is the order of code units, and 0.85 and 1.2 are the exact rationals 17/20 and 6/5.
- Placement: a project's plan is fixed, and a project deleted together with its row (which returns no capacity) is not an event.
- Allocation.ReconcileNoopIff: recomputation is one step, because the two unlocked reads and the write that follows them are not interleaved with bookings here.
- Send gate: counters outlive their window and the distinct count is exact, so expiry and the estimate's error are not modelled; a recipient is its hash.
- Secrets: encryption is the identity, which versions are old enough to purge is a parameter, and the number of purged rows is not returned. A replacement that loses a race aborts and is no step.
- Key rotation: keys are opaque texts, tokens are parameters, the published keys are a set rather than a list by date, and the waits are parameters (`ready`, `due`). Commands are serial; purges of secrets run between them.
- SMTP: a code whose three characters are not digits is given no number; the change of socket for TLS, the order of commands and the encoding inside an encoded word are not modelled.
- Migrations: the hash is the identity on newline-normalised text; a crash between a commit and its acknowledgement is a commit and then a crash.
- S3: signatures; a request that fails and one answered with an error status are one outcome. Response bodies are tags and elements that hold only text. The body of a batch delete's answer is its list of refused keys. `listDetailed`, which passes its token back undecoded, is not modelled.
- ObjectStore.Store.List: a token is the last key of its page, every page but the last is full, and keys stand as they are; their passage through XML is `S3Xml.List`.
- RepoDestroy.Sweeper.ScanOnce: the database writes and the audit row do not fail here, and the totals in the log are not kept.
- Docker: only the splitting of the output stream, on bytes; decoding to text is not modelled.
- Palette: rendering. Positions are those of the lower-cased text, which has the text's length here; a character whose lower case is longer is not modelled.
- The saga runner, job claiming, storage sweeps, the disk and WAL ladders, role tables and templates would only add members about single branches.
