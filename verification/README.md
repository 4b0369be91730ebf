# A verified model of EnMasse's console query engine, watch-fed cache and messaging infrastructure client

EnMasse is a messaging platform for Kubernetes. This project models three parts of its Go code in Dafny and proves what
they promise.

**The console's query engine.** A filter such as `` `$.metadata.name` LIKE 'a%' AND NOT `$.spec.plan` IS NULL `` is lexed by
a Ragel automaton, parsed by a goyacc shift/reduce table parser, turned into an index key prefix, run as an ordered prefix
scan of the object cache under a memoised access filter, sorted stably and paged.

- `GoInt`, `FilterSyntax`, `FilterTables`, `FilterMachine`: integers, expressions, the generated tables, and the parser as the stack machine it is.
  `FilterParser` is the loop itself, over a growable array and the lexer below, and computes exactly the machine's run.
- `FilterGrammar`, `FilterCompleteness`, `FilterSoundness`: the grammar's derivations, read off its precedence and grouping, and
  the proof that the machine accepts exactly the sentences of that grammar and returns what they stand for.
- `FilterLexer`, `FilterNumbers`, `FilterPanics`, `FilterText`, `FilterTokens`: the automaton byte by byte, what number literals mean,
  exactly when a call panics, the ways to write tokens down, and that every token returned was written. `FilterFrontEnd` puts lexer and parser together: what a text stands for, and the round trip from a written text
  back to its tree.
- `FilterEval`: evaluation of the tree, with Go's ten integer types and their widening.
- `CacheScan`, `ConsoleCache`: keys, ordered scans with stateful filters, and the cache's transactions.
- `IndexPushDown`: building the key prefix, and why scanning it loses nothing.
- `StableSort`, `OrderBy`: the comparator, when it is an order, and that a stable sort has one result.
- `AccessControl`, `Query`, `TextQuery`: the whole pipeline, from parsed filters and from texts.
- `CloseConnections`: the request list that shrinks as the scan goes on.

**The watch-fed cache.** `ResourceWatcher` is the list/watch/relist loop that all generated watchers share; the cache is
compared with the server's listing with the events folded in; `ServerMirror` says the same by names and without keys. `AgentMetrics`, `AgentLinks` and `AgentWatcher` are the agent event handler, which
keeps the connections of an address space and their links together over runs of events.

**The messaging infrastructure client.** `InfraTypes`, `InfraSteps`, `InfraHosts`, `InfraPorts`, `InfraReplies`, `InfraAnswers` and `InfraClient` are
the client of `pkg/state/infra.go`: two batch workers and several direct operations, each an atomic step under one lock. Calls to
routers and brokers are parameters that say whether they succeeded. `InfraRun` takes any interleaving of steps, returns the states
it goes through, and says what holds of all such traces.

Conventions. A member that changes state is a method of a class and says what its new state is; the properties are about
functions of that state. What the code reads from outside (the API server's answers, lists and events, the outcome of a
call) is a parameter. Where several outcomes depend on Go's map iteration order, the model chooses with `:|`, so the contract
holds for every order. Go's one-slot reply channel is a map entry that must be absent when it is written.

Several properties do not hold of the code as one would first state them. For each there is an input that shows it, and the
exact condition under which it holds.

- Slice bounds of a page are valid if and only if the sum of the lower bound and the page size fits a Go `int` (`BoundsExact`,
  `BoundsFail`).
- Lexing a text never panics, except exactly on a number that is too large, or on a string or path that is not closed and comes
  right after another token while the automaton still remembers an earlier literal (`PanicExact`, `StaleLiteral`).
- Deleting a batch crashes if and only if it holds an address in a namespace with an active endpoint but without a "default"
  project (`DoDelete`). Four requests lead there (`DeletingCrashes`). No held address is of that kind (`ProjectIsThere`).
- Every port that an endpoint lists is bound to its name, in every run in which no two endpoints share a port name
  (`AlwaysBacked`). Names are joined by dashes, so they can be shared, and then freeing one endpoint unbinds the port of the other
  (`SharedNameFails`); a free keeps the property if and only if nothing that stays listed is on a port given up (`FreeingBacks`).
- Restoring the port table from a held endpoint leaves it as it was if and only if the endpoint's ports all have one name,
  because the address of a loop variable's field is stored (`RestoreExact`, `RestoreFails`). With no port listed twice, restoring it
  from all of them does if and only if that is so of each (`RestoreAllExact`).
- Removing a connection spares all others if and only if no other cached id extends the removed one (`DropIsExact`, `DropFails`).
- Reporting a connection has its effect if and only if the first prefix scan finds that connection or none, and what the second finds
  of other connections does no harm: each such link is reported and has the reported metrics, and of each reported UID a link of the
  connection is cached or more are reported than such links are found (`UpsertConnection`, `ReportFails`, `StrayFails`).
- Reporting an address changes no other if and only if it is cached or the first address whose key extends its key has the reported
  metrics already (`AddressExact`). So an event has its effect if and only if it fits the store (`HandleEvent`).
- A column is ordered properly if and only if any value beside two that are told apart has their type (`ColumnExact`,
  `ColumnFails`).
- LIKE with the literal on the left takes the object's value as the pattern, so its prefix is sound for every value if and only
  if it is empty (`ReversedLikeExact`).
- Two integers are told apart wrongly by `!=` when one is negative and the other unsigned and out of reach (`IntComparison`,
  `IntComparisonFails`).

## Model

| member | source | states |
|---|---|---|
| FilterMachine.Step | pkg/consolegraphql/filter/parser.go:373-733 | one pass of the parser keeps the stack a path of the LR automaton, and either uses up a token or lowers a rank, also over chains of default and empty reductions |
| FilterMachine.Run | pkg/consolegraphql/filter/parser.go:346-733 | every run ends, with 0 or with 1, and with 1 exactly when a syntax error was met |
| FilterParser.Parser.Parse | pkg/consolegraphql/filter/parser.go:346-733 | the loop over the growable stack array, reading from the lexer, returns and leaves there exactly what the machine's run on the text's tokens gives, with an error also for a path that does not parse; it panics exactly when the lexer does on a token that the run asks for; every table and stack index is in bounds |
| FilterParser.Parser.ChooseAction | pkg/consolegraphql/filter/parser.go:388-438 | reading the lookahead only where a state needs it does not change the action taken, and a panic of the lexer comes through exactly where a token is asked for |
| FilterParser.Parser.LookAhead | pkg/consolegraphql/filter/parser.go:307-340 | a token is read and translated at most once, and its value is the one waiting in lval |
| FilterParser.Recover | pkg/consolegraphql/filter/parser.go:439-471 | no state on the stack can shift the error token, so the first syntax error is final |
| FilterTables.NoErrorShift | pkg/consolegraphql/filter/parser.go:92-182 | the packed tables have no shift on the error token in any state |
| FilterParser.FindException | pkg/consolegraphql/filter/parser.go:420-433 | the two loops over the exception table find the entry of the state and token, and stay inside it |
| FilterParser.ReduceOn | pkg/consolegraphql/filter/parser.go:486-733 | popping the right-hand side, running the action and pushing the left-hand side in place is the machine's reduction |
| FilterParser.EnsureRoom | pkg/consolegraphql/filter/parser.go:379-384 | the stack doubles when it is full and keeps its contents |
| FilterMachine.ReduceStep | pkg/consolegraphql/filter/parser.go:486-733 | a reduction finds its whole right-hand side on the stack, leads to a state entered on its left-hand side, leaves the input alone and lowers the rank |
| FilterGrammar.Print | pkg/consolegraphql/filter/parser.go:92-182 | every expression has a derivation that stands for it and in which every pair of parentheses is needed |
| FilterCompleteness.AcceptsExpression | pkg/consolegraphql/filter/parser.go:346-733 | every filter that the grammar derives is accepted with the expression it stands for |
| FilterCompleteness.AcceptsOrderBy | pkg/consolegraphql/filter/parser.go:346-733 | every order-by list that the grammar derives is accepted with its columns in order |
| FilterCompleteness.ParseUndoesPrint | pkg/consolegraphql/filter/parser.go:346-733 | parsing the printed form of any expression of the grammar gives that expression back |
| FilterSoundness.AcceptsExactly | pkg/consolegraphql/filter/parser.go:346-733 | the parser returns 0 if and only if the grammar derives the tokens, and then returns the one thing they stand for |
| FilterSoundness.Unambiguous | pkg/consolegraphql/filter/parser.go:92-182 | two derivations of the same tokens stand for the same expression |
| FilterLexer.Lexer.Lex | pkg/consolegraphql/filter/lex.go:89-831 | a call takes the next of the tokens to come, the start token first, or returns 0 at their end and ever after, or panics; a path that does not parse leaves its error |
| FilterLexer.Lexer.Scanned | pkg/consolegraphql/filter/lex.go:102-831 | one run of the automaton, field by field, is the lexing function on the bytes left |
| FilterLexer.CallKeeps | pkg/consolegraphql/filter/lex.go:102-831 | a call that returns a token has used up a part of the text and leaves the automaton at its start, so the tokens of every text are finite |
| FilterNumbers.SpellsExactly | pkg/consolegraphql/filter/lex.go:645-657 | digits, with any number of leading zeros, are the decimal notation of exactly one number, by repeated division, and it is the one they are converted to |
| FilterNumbers.IntegralExact | pkg/consolegraphql/filter/lex.go:645-657 | a lexeme is converted to an integer exactly when a sign and its digits spell that integer |
| FilterNumbers.FloatExact | pkg/consolegraphql/filter/lex.go:659-671 | a lexeme with a point is converted to the number that, times ten to the power of its fraction digits, is the integer spelled by all its digits |
| FilterNumbers.FloatLimit | pkg/consolegraphql/filter/lex.go:659-671 | a float is refused exactly when it lies half a unit in the last place or more beyond the largest double |
| FilterPanics.PanicExact | pkg/consolegraphql/filter/lex.go:102-831 | a call panics if and only if the next number, as it is spelled, fits no int or no double, or an unclosed literal starts right there while `act` remembers an earlier one |
| FilterPanics.StaleLiteral | pkg/consolegraphql/filter/lex.go:102-831 | a text of two tokens on which the third call panics |
| FilterPanics.IntegralText | pkg/consolegraphql/filter/lex.go:645-657 | the decimal text of any integer, with zeros and a sign, is one token with that integer, or a panic if it fits no int |
| FilterText.UndoubleDoubled | pkg/consolegraphql/filter/lex.go:672-681 | doubling the quotes of any string and undoing it gives the string |
| FilterText.UntripleTripled | pkg/consolegraphql/filter/lex.go:682-696 | tripling the backticks of any path and undoing it gives the path |
| FilterText.StringLiteral | pkg/consolegraphql/filter/lex.go:202-211 | a quoted string, not followed by another quote, is consumed exactly and gives one token with the original text |
| FilterText.PathLiteral | pkg/consolegraphql/filter/lex.go:429-443 | the same for a path in backticks |
| FilterText.LexesToken | pkg/consolegraphql/filter/lex.go:89-831 | any written token, keyword in any case, punctuation, number in decimal notation, string or path, that nothing extends is returned by one call and consumed exactly |
| FilterText.LexesWritten | pkg/consolegraphql/filter/lex.go:89-831 | any sequence of written tokens with white space between them lexes to those tokens |
| FilterTokens.TokenIsWritten | pkg/consolegraphql/filter/lex.go:89-831 | a call that returns a token has skipped white space and then read a way to write that token, and nothing else |
| FilterTokens.TokensAreWritten | pkg/consolegraphql/filter/lex.go:89-831 | of any text whatever, the tokens returned are written in it one after the other, from its start to where lexing stops |
| FilterFrontEnd.ParseText | pkg/consolegraphql/filter/support.go:37-49 | lexer and parser together: no error exactly when the machine accepts the tokens, lexing got through the whole text and every path parsed |
| FilterFrontEnd.AcceptedStarves | pkg/consolegraphql/filter/parser.go:346-733 | no run is accepted before it has asked for a token past the last one, so nothing is accepted whose lexing panics |
| FilterFrontEnd.ParseFilterExpression | pkg/consolegraphql/filter/support.go:37-42 | a filter is parsed without an error if and only if the grammar derives it and its paths parse, and then into the expression it stands for |
| FilterFrontEnd.ParseOrderByExpression | pkg/consolegraphql/filter/support.go:44-49 | the same for order-by lists |
| FilterFrontEnd.FilterRoundTrip | pkg/consolegraphql/filter/support.go:37-42 | any text that spells a derivation, in any case and spacing, stands for its expression and nothing else, if its paths parse, and its lexing does not panic |
| FilterFrontEnd.OrderByRoundTrip | pkg/consolegraphql/filter/support.go:44-49 | the same for order-by texts |
| FilterFrontEnd.DenotedIsWritten | pkg/consolegraphql/filter/support.go:37-42 | a text that is accepted has a derivation of its expression written down in it |
| FilterEval.Ranges | pkg/consolegraphql/filter/support.go:708-731 | the ten integer types have the ranges of Go's |
| FilterEval.WidenKeepsInt | pkg/consolegraphql/filter/support.go:700-744 | widening never changes an integer, over all ten types |
| FilterEval.AlignedInts | pkg/consolegraphql/filter/support.go:216-232 | after widening both ways the types agree except for a negative signed value against an unsigned one that is wider or above the signed maximum |
| FilterEval.IntComparison | pkg/consolegraphql/filter/support.go:216-455 | every operator gives the true integer relation if and only if the types agree or the relation is false anyway |
| FilterEval.NumberComparison | pkg/consolegraphql/filter/support.go:216-499 | for any two numbers, floats included, an operator holds exactly when its relation does on their values and their types can be aligned |
| FilterEval.IntComparisonFails | pkg/consolegraphql/filter/support.go:216-455 | a pair of unequal integers for which `!=` is false |
| FilterEval.IntComparisonMirrors | pkg/consolegraphql/filter/support.go:216-455 | swapping the operands and mirroring the operator gives the same answer |
| FilterEval.StringComparison | pkg/consolegraphql/filter/support.go:514-532 | of strings `=` is equality, `!=` its complement, NOT LIKE the complement of LIKE, and no other operator holds |
| FilterEval.BoolComparison | pkg/consolegraphql/filter/support.go:500-513 | of booleans `=` is equality, `!=` its complement, and no other operator holds |
| FilterEval.KindsDiffer | pkg/consolegraphql/filter/support.go:216-536 | operands that are not both numbers, both strings or both booleans satisfy no operator |
| FilterEval.EvalIsClassical | pkg/consolegraphql/filter/support.go:64-198 | every tree of the grammar evaluates to a boolean, its two-valued meaning, or to an error exactly when a path that is reached fails; so the type assertion on the result never fails |
| FilterEval.DeMorgan | pkg/consolegraphql/filter/support.go:64-157 | De Morgan's laws hold for evaluation as carried out, errors and short cuts included |
| FilterEval.LikePlain | pkg/consolegraphql/filter/support.go:631-640 | a pattern without wildcards matches exactly itself |
| FilterEval.LikePrefix | pkg/consolegraphql/filter/support.go:631-640 | a plain text and `%` match exactly the strings that start with it and have no newline after it |
| FilterEval.LikeConcat | pkg/consolegraphql/filter/support.go:631-640 | a pattern in two parts matches exactly the strings in two parts that match them |
| FilterEval.LikeWildcards | pkg/consolegraphql/filter/support.go:631-640 | `_` matches exactly the one-character strings and `%` all strings, without newlines |
| CacheScan.PrefixAbove | pkg/consolegraphql/cache/cache.go:266-294 | a key with a prefix lies at or above the prefix followed by NUL unless it is the prefix |
| CacheScan.PrefixesContiguous | pkg/consolegraphql/cache/cache.go:174-210 | past the first key without the prefix, no key has it |
| CacheScan.LessExact | pkg/consolegraphql/cache/cache.go:174-210 | keys are ordered by the first character in which they differ, a prefix first |
| CacheScan.Get | pkg/consolegraphql/cache/cache.go:174-210 | the scan from the lower bound to the first key without the prefix, with any stateful filter, gives the run of the filter over all objects whose key extends the prefix, in key order, up to the first stop or failure |
| CacheScan.ScanIsComplete | pkg/consolegraphql/cache/cache.go:266-294 | the prefix scan visits what a full scan would select if and only if the prefix is not itself a key |
| ConsoleCache.PartPrefix | pkg/consolegraphql/cache/console_cache.go:41-67 | a prefix that ends a part of the key fixes that part |
| ConsoleCache.ObjectCache.Add | pkg/consolegraphql/cache/cache.go:103-113 | the store after a transaction of insertions, all or nothing |
| ConsoleCache.ObjectCache.Delete | pkg/consolegraphql/cache/cache.go:115-125 | the store after a transaction of deletions; one that is missing undoes all |
| ConsoleCache.ObjectCache.Update | pkg/consolegraphql/cache/cache.go:127-164 | the store after a transaction of updates; a missing object, a mutator that fails or a changed key undoes all |
| ConsoleCache.UpdatedKeeps | pkg/consolegraphql/cache/cache.go:127-164 | updates add and remove no key, change nothing under other keys, and make of an object named once what the mutator makes of it |
| ConsoleCache.ObjectCache.DeleteByPrefix | pkg/consolegraphql/cache/cache.go:212-220 | exactly the entries with the prefix are gone |
| ConsoleCache.AddedHas | pkg/consolegraphql/cache/cache.go:103-113 | after insertions each key holds the last object inserted under it, and all else is kept |
| ConsoleCache.RemovedAll | pkg/consolegraphql/cache/cache.go:115-125 | different objects that are all there can be deleted together |
| IndexPushDown.BuildKey | pkg/consolegraphql/resolvers/resolver.go:81-147 | the loop with its callbacks joins, for the longest run of leading key elements, the leftmost eligible comparison of each |
| IndexPushDown.TraverseFindsFirst | pkg/consolegraphql/filter/support.go:89-95 | the pruned traversal finds the leftmost eligible comparison below ANDs and adds no second one |
| IndexPushDown.TermExact | pkg/consolegraphql/resolvers/resolver.go:113-134 | a comparison offers a key element exactly if it equates it with a text, or, for the last one, says by a trailing `%` how it starts |
| IndexPushDown.FirstTermExact | pkg/consolegraphql/resolvers/resolver.go:101-140 | a key element is taken exactly from the leftmost of the conditions joined by AND that offers it |
| IndexPushDown.ElementsExact | pkg/consolegraphql/resolvers/resolver.go:81-147 | the key has as many leading elements as conditions offer, so that it is as narrow as they allow |
| IndexPushDown.TermSound | pkg/consolegraphql/resolvers/resolver.go:113-134 | a value for which a comparison holds starts with the key element it offers, and equals it but for a final LIKE |
| IndexPushDown.PrefixSound | pkg/consolegraphql/resolvers/resolver.go:81-147 | the key of every object the filter holds for starts with the built prefix |
| IndexPushDown.PushDown | pkg/consolegraphql/resolvers/resolver.go:57-147 | over entries laid out as the key elements say, scanning below the built prefix selects the same objects in the same order as scanning everything, for every filter without a reversed LIKE on the last key element, and for every filter if no object's last part holds wildcards |
| IndexPushDown.ReversedLikeExact | pkg/consolegraphql/resolvers/resolver.go:123-134 | with the literal on the left, the prefix is sound for every value if and only if it is empty |
| StableSort.SortingArranges | pkg/consolegraphql/filter/support.go:756-790 | the arrangement built by insertion is in order, keeps ties in their order and leaves nothing out |
| StableSort.StableSortIsUnique | pkg/consolegraphql/filter/support.go:756-790 | an arrangement is a stable sorted permutation if and only if it is that one |
| StableSort.SortingPermutes | pkg/consolegraphql/filter/support.go:756-790 | sorting loses and adds nothing, whatever the comparator |
| StableSort.SliceStable | pkg/consolegraphql/filter/support.go:787 | the array sorted in place is that arrangement of its old contents |
| OrderBy.Less | pkg/consolegraphql/filter/support.go:765-786 | the loop over the columns lets the first column that tells two objects apart decide |
| OrderBy.RankAntisymmetric | pkg/consolegraphql/filter/support.go:804-1001 | swapping the operands flips the sign, whatever the types and the direction |
| OrderBy.RankFollowsValues | pkg/consolegraphql/filter/support.go:804-1001 | over all values of all types, the rank says which lies below: nulls below all else, numbers of one type by size, strings by their bytes, and all others tie |
| OrderBy.DescReverses | pkg/consolegraphql/filter/support.go:804-829 | the descending rank is the ascending one negated, for all values, and its sign says which value comes first |
| OrderBy.NullsFirst | pkg/consolegraphql/filter/support.go:804-1001 | nulls come first ascending and last descending |
| OrderBy.ColumnExact | pkg/consolegraphql/filter/support.go:804-1001 | a column gives a strict weak order if and only if any value beside two that are told apart has their type |
| OrderBy.ColumnFails | pkg/consolegraphql/filter/support.go:804-1001 | a column of two numbers and a string that gives none |
| OrderBy.LessIsStrictWeak | pkg/consolegraphql/filter/support.go:756-790 | over any number of columns that evaluate and are uniform, the comparator is a strict weak order |
| OrderBy.LexicalTells | pkg/consolegraphql/filter/support.go:765-786 | objects in order tie on some first columns and are put in order by the next, or tie on all |
| AccessControl.KubernetesRbac.MakeAccessDecision | pkg/consolegraphql/accesscontroller/access_controller.go:110-129 | the decision is the answer in force; exactly that answer is remembered, none is changed or forgotten, an unanswered review permits nothing and is not remembered, and the flag is raised exactly when one was added |
| AccessControl.KubernetesRbac.CanRead | pkg/consolegraphql/accesscontroller/access_controller.go:74-100 | an object is readable exactly when nothing controls it or the answer in force for its attributes allows it; which attributes those are, by kind; only that answer is remembered, and without one reading fails |
| AccessControl.ViewDecides | pkg/consolegraphql/accesscontroller/access_controller.go:74-136 | remembering changes no decision, forgets none and invents none, and the updated flag says whether one was added |
| AccessControl.Reviewed | pkg/consolegraphql/accesscontroller/access_controller.go:74-100 | an address is read by who may get addresses in its namespace, an address space or a connection by who may get address spaces there, a link by everyone |
| Query.BoundsExact | pkg/consolegraphql/resolvers/resolver.go:38-55 | page bounds are valid if and only if the sum of offset and size does not overflow 64 bits |
| Query.BoundsFail | pkg/consolegraphql/resolvers/resolver.go:38-55 | one row, offset 1 and the largest size: the upper bound is negative |
| Query.PageIsWindow | pkg/consolegraphql/resolvers/resolver.go:38-55 | a page is the list without the rows before the offset, cut to the page size, also for missing, negative and too large arguments |
| Query.PagesCover | pkg/consolegraphql/resolvers/resolver.go:38-55 | the pages at offsets 0, n, 2n, ... put together are the list |
| Query.LiteralIsProper | pkg/consolegraphql/filter/lex.go:645-657 | the integers that lexing lets through are exactly the values of the type they are compared in |
| Query.FieldFilters | pkg/consolegraphql/non_kubernetes_types.go:25-71 | a condition that a path equals a text holds exactly for objects with that name, namespace, address space, connection, address or role |
| Query.FilterRun | pkg/consolegraphql/cache/cache.go:30-51 | running view filter and query filter together selects what is readable and matches, and fails if and only if some object's review is unanswered or a path fails on a readable one |
| Query.OrderIsStable | pkg/consolegraphql/resolvers/resolver.go:149-159 | where the columns order the objects, an arrangement is stable and sorted if and only if it is the one computed |
| Query.Sort | pkg/consolegraphql/resolvers/resolver.go:149-159 | the result is a rearrangement, the list itself without columns, and the one stable arrangement where the columns order the objects or the list is short |
| Query.RowsAscend | pkg/consolegraphql/resolvers/resolver.go:149-159 | in a sorted list every object comes before those after it at the first column that tells the two apart |
| Query.OneColumn | pkg/consolegraphql/resolvers/resolver.go:149-159 | sorted by one column, numbers and strings ascend under ASC and descend under DESC, with nulls first and last |
| Query.NarrowIsEnough | pkg/consolegraphql/resolvers/resolver.go:57-79 | scanning only below the pushed-down key loses no result |
| Query.RunQuery | pkg/consolegraphql/resolvers/resolver_address.go:93-131 | the answer is a page of the ordered list of everything readable that matches, with that list's length; errors and the bounds panic exactly when their causes are there |
| Query.Addresses | pkg/consolegraphql/resolvers/resolver_address.go:93-131 | the same for addresses, with the result of the narrow scan equal to that of scanning all addresses; the rows are addresses that match in namespaces where the user may get addresses, their total counts all of those that are cached, and the query fails exactly when a review of a scanned one is unanswered or a path fails on one that may be seen |
| Query.Connections | pkg/consolegraphql/resolvers/resolver_connection.go:128-164 | the same for connections, with a three-part key, in namespaces where the user may get address spaces |
| Query.Links | pkg/consolegraphql/resolvers/resolver_connection.go:24-66 | the same for the links of one connection, without a view filter, for ids and keys without slashes |
| Query.AddressLayout | pkg/consolegraphql/cache/console_cache.go:41-67 | address keys are laid out as the query's key elements say |
| Query.ConnectionLayout | pkg/consolegraphql/cache/console_cache.go:41-67 | so are connection keys |
| Query.LinkLayout | pkg/consolegraphql/cache/console_cache.go:41-67 | and the keys of one connection's links |
| TextQuery.Understand | pkg/consolegraphql/resolvers/resolver.go:57-79 | filter and order-by text are turned into what they stand for; an error exactly when one stands for nothing, a panic exactly when parsing it panics |
| TextQuery.OneMeaning | pkg/consolegraphql/resolvers/resolver.go:57-79 | no text stands for two filters or two orders |
| TextQuery.QueryAddresses | pkg/consolegraphql/resolvers/resolver_address.go:93-131 | the address query from its two texts to its page |
| TextQuery.QueryConnections | pkg/consolegraphql/resolvers/resolver_connection.go:128-164 | the same for connections |
| TextQuery.QueryLinks | pkg/consolegraphql/resolvers/resolver_connection.go:24-66 | the same for the links of a connection |
| CloseConnections.CloseRun | pkg/consolegraphql/resolvers/resolver_connection.go:166-192 | wherever the scan stops, it returns each visible connection before which fewer of its name were seen than requested, and leaves each request before which as many were made as connections seen |
| CloseConnections.Collect | pkg/consolegraphql/resolvers/resolver_connection.go:166-197 | the same for the scan of the cache; it fails exactly when a connection with an unanswered review comes before the one that serves the last request; what is closed was asked for by namespace and name, in namespaces where the user may get address spaces, and every request is either served by one connection or reported |
| CloseConnections.NothingLeft | pkg/consolegraphql/resolvers/resolver_connection.go:173-187 | stopping when the request list is empty loses nothing |
| CloseConnections.DistinctRequests | pkg/consolegraphql/resolvers/resolver_connection.go:166-197 | for distinct requests, each naming at most one visible connection, exactly the visible requested ones are returned and exactly the requests without one are left |
| CloseConnections.RequestsConserved | pkg/consolegraphql/resolvers/resolver_connection.go:166-197 | no request is lost and none is served twice |
| CloseConnections.ServedCount | pkg/consolegraphql/resolvers/resolver_connection.go:166-197 | of every name, as many connections are closed as were asked for and seen |
| ResourceWatcher.PrefixIsKind | pkg/consolegraphql/cache/console_cache.go:41-67 | a key has a watcher's prefix exactly when its object is of the watched kind |
| ResourceWatcher.RefreshFacts | pkg/consolegraphql/watchers/resource_watcher.go:41-70 | updating in place replaces the payload and keeps key and metrics |
| ResourceWatcher.Relist | pkg/consolegraphql/watchers/resource_watcher_address.go:144-209 | whatever the cache held, its objects of the kind are afterwards exactly the listing; other kinds are untouched and survivors keep their metrics; it fails exactly when an item has no key |
| ResourceWatcher.ApplyEvent | pkg/consolegraphql/watchers/resource_watcher_address.go:238-266 | an event changes the cached kind as it changed the server's and keeps the metrics of every holder it does not add or remove, or does not apply and changes nothing |
| ResourceWatcher.DoWatch | pkg/consolegraphql/watchers/resource_watcher_address.go:144-273 | after the relist and after each event applied, the cache is the listing with those events folded in, up to exactly the first event that does not apply, and an object listed once whose holder no event renewed has its metrics; the pass fails exactly when it does not complete, and a failed list call changes nothing |
| ResourceWatcher.Watch | pkg/consolegraphql/watchers/resource_watcher_address.go:105-129 | passes run up to exactly the first that completes, each other one counted as a restart; the last pass whose list call succeeded leaves the cache in agreement if its relist got through, also across list calls that fail after it |
| ServerMirror.KeysTell | pkg/consolegraphql/cache/console_cache.go:41-67 | two resources of a kind have one key exactly when they have one namespace and name |
| ServerMirror.CreateHasKey | pkg/consolegraphql/cache/console_cache.go:47-52 | only an address whose name has no dot lacks a key |
| ServerMirror.MirrorsServer | pkg/consolegraphql/watchers/resource_watcher_address.go:131-273 | while a pass agrees, the cache holds a resource if and only if the server has it after its listing and events |
| AgentMetrics.AllMadeAt | pkg/consolegraphql/non_kubernetes_types.go:100-153 | each of several updates of differently named metrics is made, in whatever order |
| AgentLinks.ToLinksMean | pkg/consolegraphql/watchers/resource_watcher_agent.go:665-697 | the links of a report are exactly its senders as senders and its receivers as receivers |
| AgentLinks.ResolveLinks | pkg/consolegraphql/watchers/resource_watcher_agent.go:629-663 | orphans and updating links split the cached ones by whether their UID is reported; of the reported ones, per UID, as many are new as exceed the cached ones |
| AgentLinks.RemoveByUid | pkg/consolegraphql/watchers/resource_watcher_agent.go:646-657 | swapping to the end and truncating takes off one link of the UID and no other |
| AgentLinks.ResolvedCovers | pkg/consolegraphql/watchers/resource_watcher_agent.go:629-663 | new and updating links together have exactly the reported UIDs |
| AgentLinks.BuildLinkMap | pkg/consolegraphql/watchers/resource_watcher_agent.go:699-710 | the reported links by UUID, of two with one the later |
| AgentLinks.LinkMapHas | pkg/consolegraphql/watchers/resource_watcher_agent.go:699-710 | the link found by its id is the last one with it |
| AgentLinks.UpdateLinkMetrics | pkg/consolegraphql/watchers/resource_watcher_agent.go:736-783 | the metrics of a link after a report of it: values, the ring of samples of its rate and, in a standard address space, the outcome counts and the summed backlog |
| AgentLinks.LinkMetricsMean | pkg/consolegraphql/watchers/resource_watcher_agent.go:736-783 | after a report every metric of a link has the count or the last sample that its name says, and the others are kept |
| AgentLinks.LinkMetricsTouch | pkg/consolegraphql/watchers/resource_watcher_agent.go:736-783 | no metric is lost, and every one that is new or changed bears the time of the report |
| AgentLinks.UpdateAllLinks | pkg/consolegraphql/watchers/resource_watcher_agent.go:712-734 | each link gets the metrics of the reported link of its role and name, where there is one |
| AgentLinks.MeteredMeans | pkg/consolegraphql/watchers/resource_watcher_agent.go:712-734 | a cached link is brought up to date by the last link of its id reported in its role, under the rate of that role, and nothing else of it changes |
| AgentWatcher.PrefixPicks | pkg/consolegraphql/watchers/resource_watcher_agent.go:361-379 | a prefix that ends in an id without a slash picks the objects whose id extends it |
| AgentWatcher.UpsertConnection | pkg/consolegraphql/watchers/resource_watcher_agent.go:374-433 | the connection is entered or its metrics updated, its links become exactly the reported ones, keeping the cached ones, and nothing else changes, if and only if the first scan finds the connection or none and what the second finds of other connections does no harm |
| AgentWatcher.UpsertFacts | pkg/consolegraphql/watchers/resource_watcher_agent.go:374-433 | what is under each key afterwards, other connections' links that were found included |
| AgentWatcher.UpsertMeasures | pkg/consolegraphql/watchers/resource_watcher_agent.go:506-520 | after the event the connection has the reported counts and samples under their names, and is otherwise as it was, or as reported if new |
| AgentWatcher.UpsertConnects | pkg/consolegraphql/watchers/resource_watcher_agent.go:374-433 | if the connection is found or none is, every link stays with its connection, whatever else was found |
| AgentWatcher.ReportFails | pkg/consolegraphql/watchers/resource_watcher_agent.go:374-433 | with connection "ab" cached, connection "a" is not found, so no report of it has its effect |
| AgentWatcher.StrayFails | pkg/consolegraphql/watchers/resource_watcher_agent.go:374-433 | with connections "a" and "ab" cached, a report of "a" deletes a link of "ab" that it does not name |
| AgentWatcher.UpsertedIsLinked | pkg/consolegraphql/watchers/resource_watcher_agent.go:374-433 | afterwards every cached link still belongs to a cached connection |
| AgentWatcher.DroppedIsLinked | pkg/consolegraphql/watchers/resource_watcher_agent.go:457-470 | so it does after a removal, whatever the ids |
| AgentWatcher.DropIsExact | pkg/consolegraphql/watchers/resource_watcher_agent.go:457-470 | removing a connection spares all others if and only if no other cached id extends the removed one |
| AgentWatcher.DropFails | pkg/consolegraphql/watchers/resource_watcher_agent.go:457-470 | with connection "ab" cached, removing connection "a" does not spare it |
| AgentWatcher.UpdateAddress | pkg/consolegraphql/watchers/resource_watcher_agent.go:435-452 | the first address in key order whose key extends the reported one's gets the metrics, and nothing else changes |
| AgentWatcher.AddressExact | pkg/consolegraphql/watchers/resource_watcher_agent.go:435-452 | that is the reported address, or changes nothing, if and only if it is cached or that first one has those metrics already |
| AgentWatcher.UpdateAddressMetrics | pkg/consolegraphql/watchers/resource_watcher_agent.go:522-565 | depth, senders, receivers and the samples of the two rates are set as reported, and for a subscription as summed over its shards, without senders |
| AgentWatcher.MeasuredMeans | pkg/consolegraphql/watchers/resource_watcher_agent.go:522-565 | after the event the address has the reported counts and samples under their names, and is otherwise as it was |
| AgentWatcher.AddressKeyTells | pkg/consolegraphql/watchers/resource_watcher_agent.go:435-452 | the reported key is that of the address with the reported namespace and name, and of no other object |
| AgentWatcher.HandleEvent | pkg/consolegraphql/watchers/resource_watcher_agent.go:357-480 | an event has its effect, on its own connection, address or address space only, if and only if it fits the store it finds; links stay with their connections if a reported connection is found or none is for it |
| AgentWatcher.HandleEvents | pkg/consolegraphql/watchers/resource_watcher_agent.go:357-480 | over any run, each event has its effect if and only if it fits the store it finds, and as long as reported connections are found or new, every cached link belongs to a cached connection |
| AgentWatcher.PrefixFreeFits | pkg/consolegraphql/watchers/resource_watcher_agent.go:357-480 | where no id is a prefix of another, every event about a connection fits |
| InfraSteps.EnterKeeps | pkg/state/infra.go:726-767 | entering a resource that passed the checks of its batch keeps every address with a project and an endpoint, and every queue, topic and subscription on known brokers |
| InfraSteps.LeaveKeeps | pkg/state/infra.go:1306-1363 | so does removing one that passed the checks of its batch |
| InfraSteps.ProjectIsThere | pkg/state/infra.go:949-963 | the project looked up when building is there for every request that passed a sync's checks and for every held address |
| InfraAnswers.BuildableByName | pkg/state/infra.go:949-1222 | an address can be built exactly when a broker has the name of each one that a queue, topic or subscription is scheduled to, and that of its transactional project |
| InfraAnswers.SyncExplained | pkg/state/infra.go:709-879 | the answer to a sync: no project, no active endpoint, a missing broker, an unknown type, or else the outcome of the batch, each exactly when that is so |
| InfraAnswers.DeleteExplained | pkg/state/infra.go:1290-1370 | the answer to a deletion: still in use, no active endpoint, a missing broker, an unknown type, or else the outcome of the batch |
| InfraAnswers.SyncHolds | pkg/state/infra.go:750-770 | after a sync each key holds the resource last synced under it with success, or what it held |
| InfraAnswers.DeleteHolds | pkg/state/infra.go:1342-1370 | after a deletion each key holds what it held, or nothing if a deletion under it succeeded |
| InfraHosts.HostTable.UpdateRouters | pkg/state/infra.go:170-216 | the routers become the requested ones, unchanged states are kept and each dropped one is shut down once; the directory still lists exactly all hosts if and only if no requested router has the name of a broker |
| InfraHosts.HostTable.UpdateBrokers | pkg/state/infra.go:218-277 | the same for brokers; it fails in the middle exactly when deleting the connectors of a broker that is gone for good does |
| InfraHosts.HostTable.Remove | pkg/state/infra.go:241-259 | the removal loop drops, unlists and shuts down together, up to the first failure, which comes exactly if one of the deletions it needs fails |
| InfraHosts.HostTable.Create | pkg/state/infra.go:261-276 | every host to add gets a new state and a directory entry |
| InfraHosts.Compare | pkg/state/infra.go:218-239 | the comparison loop finds exactly the requested hosts not known and the known ones that do not stay |
| InfraHosts.Converged | pkg/state/infra.go:170-277 | on success the hosts are exactly the requested ones, of two with one hostname the later |
| InfraHosts.RequestedLast | pkg/state/infra.go:170-174 | of the requested hosts with one hostname the last counts |
| InfraHosts.KnownIsNamed | pkg/state/infra.go:965-970 | a broker name is found through the directory exactly when a broker has it |
| InfraPorts.PortTable.constructor | pkg/state/infra.go:92-97 | a fresh table has the ports 40000 to 40099, all free |
| InfraPorts.PortTable.AllocatePort | pkg/state/infra.go:659-673 | a name gets the port it holds or a free one; it fails exactly when all ports are bound and none to the name |
| InfraPorts.AllocatedKeeps | pkg/state/infra.go:659-673 | no name comes to hold two ports and no bound port changes hands |
| InfraPorts.PortTable.AllocatePorts | pkg/state/infra.go:625-657 | the protocols are served in order: nothing for a name that is listed, otherwise a port of that name, allocated and listed; it fails exactly at a protocol that finds every port bound to other names, and keeps what came before |
| InfraPorts.AllocatingGrows | pkg/state/infra.go:625-657 | serving protocols changes no bound port, gives no name a second one, and lists only ports bound to their names |
| InfraPorts.PortNamesTell | pkg/state/infra.go:1459-1461 | the protocols of one endpoint have different port names |
| InfraPorts.EachItsPort | pkg/state/infra.go:625-657 | an endpoint that listed nothing gets for every protocol a port bound to its name, and no port for two of them |
| InfraPorts.PortTable.FreePorts | pkg/state/infra.go:686-704 | the endpoint's ports are freed but for websocket ports, which stay listed |
| InfraPorts.FreedExactly | pkg/state/infra.go:686-704 | exactly the ports listed for AMQP and AMQPS are freed |
| InfraPorts.RunPorts | pkg/state/infra.go:625-704 | any run of allocations and frees from a fresh table goes through a trace of tables and listings, each step with the effect of its operation; at the end the table has its 100 ports, no name holds two, and every listed port is bound to its name if no two endpoints share one |
| InfraPorts.BoundStays | pkg/state/infra.go:625-704 | a bound port keeps its name in every step, unless the step frees an endpoint that lists it, and then it is free |
| InfraPorts.AlwaysOrderly | pkg/state/infra.go:625-704 | in every state of every run the table has its 100 ports, no name holds two, and listed ports are ports of the table under the names of their endpoint and protocol |
| InfraPorts.FreeingBacks | pkg/state/infra.go:686-704 | if every listed port is bound to its name, that is so after a free if and only if nothing that stays listed is on a port given up |
| InfraPorts.AlwaysBacked | pkg/state/infra.go:625-704 | in every state of every run in which no two endpoints share a port name, every listed port is bound to its name |
| InfraPorts.SharedNameFails | pkg/state/infra.go:625-704 | two endpoints that share one, and three operations after which, in every run, a listed port is not bound |
| InfraPorts.RestoreExact | pkg/state/infra.go:453-461 | restoring leaves the table alone if and only if the endpoint's ports all have one name |
| InfraPorts.RestoreFails | pkg/state/infra.go:453-461 | an endpoint with two protocols, for which restoring gives one name two ports |
| InfraClient.Client.constructor | pkg/state/infra.go:92-119 | the initial state satisfies every invariant |
| InfraClient.Client.RequestSync | pkg/state/infra.go:593-606 | a request enters the queue unless 100 are waiting, and nothing else changes |
| InfraClient.SubmitKeeps | pkg/state/infra.go:593-606 | a new request is in one place and has no reply yet, whichever queue it enters |
| InfraClient.Client.RequestDelete | pkg/state/infra.go:1245-1258 | the same for the deletion queue |
| InfraClient.Client.TakeSync | pkg/state/infra.go:1399-1414 | collecting moves the oldest request into a batch of at most 50, and nothing else changes |
| InfraClient.TakeKeeps | pkg/state/infra.go:1399-1414 | collecting loses and doubles no request |
| InfraClient.Client.GetActiveEndpoints | pkg/state/infra.go:580-591 | a namespace has an entry exactly when it has an active endpoint, and the entry holds only active ones |
| InfraClient.Client.BuildAddress | pkg/state/infra.go:824-852 | the endpoint loop of one address sends at most one error, exactly when some endpoint cannot be built for; a missing project is a crash |
| InfraClient.Client.BuildEntities | pkg/state/infra.go:805-879 | each request that cannot be built is answered on the spot, once, and the others are returned in order; it crashes exactly when an address with an active endpoint has no project |
| InfraClient.Client.TakeDelete | pkg/state/infra.go:1399-1414 | the same for deletions |
| InfraClient.Client.DoSync | pkg/state/infra.go:709-770 | every request of the batch gets exactly one reply, sent into an empty slot so that it never blocks, decided by what was held before and by the outcome of the batch; exactly the successful ones are held afterwards, and nothing else changes; with the directory in step, which reply it is follows from the projects, the endpoints and the broker hostnames |
| InfraClient.HandledKeeps | pkg/state/infra.go:709-770 | answering a batch moves its requests from the waiting to the answered, each once |
| InfraClient.Client.DoDelete | pkg/state/infra.go:1290-1370 | the same for deletion, with the freed ports; it crashes exactly on an address whose namespace has an active endpoint but no "default" project |
| InfraClient.Client.DeleteBroker | pkg/state/infra.go:296-330 | a broker that a held project or address names is refused; otherwise just that one is removed, unlisted and shut down once |
| InfraClient.DeletedInStep | pkg/state/infra.go:296-330 | deleting a broker puts nothing on an unknown one |
| InfraClient.Client.InitPorts | pkg/state/infra.go:453-461 | every port a held endpoint lists ends up bound to the last name of such an endpoint, and no other port changes |
| InfraClient.RestoreAllExact | pkg/state/infra.go:453-461 | if every listed port is bound to its name, restoring from all held endpoints leaves the table alone if each lists one name, and only then if no port is listed twice |
| InfraClient.Client.AllocatePorts | pkg/state/infra.go:625-657 | ports are allocated as by the port table once the client is initialized, it fails exactly before that or where the table is exhausted, and nothing else of the client changes |
| InfraClient.Client.FreePorts | pkg/state/infra.go:679-704 | the ports of the endpoint are freed but for websocket ports, once the client is initialized |
| InfraClient.Client.SyncConfiguration | pkg/state/infra.go:466-503 | the ports are restored, and it fails exactly when configuring fails or a held address cannot be built for an active endpoint; the project it looks up is always there |
| InfraClient.Client.SyncAll | pkg/state/infra.go:332-451 | hosts, shutdowns, directory, ports and the flag change as its parts say and what is held stays; it fails exactly when deleting the connectors of a broker gone for good, initializing, configuring or connecting fails or a held address cannot be built, that is, with the directory in step, when one that an active endpoint reaches needs a broker that is not there; the flag is raised exactly otherwise |
| InfraClient.ResyncConverges | pkg/state/infra.go:332-451 | afterwards the routers, and unless it was cut the brokers, are exactly the requested hosts, and hosts that stay keep their state |
| InfraClient.UnbuildableByName | pkg/state/infra.go:463-503 | configuring everything fails exactly when a held address that an active endpoint reaches misses a broker |
| InfraClient.ResyncFails | pkg/state/infra.go:332-451 | a resync fails, besides through a failing call, exactly when such an address needs a broker that was not requested |
| InfraClient.ResyncShutsDown | pkg/state/infra.go:332-451 | each dropped host's state is shut down once and no other, routers and brokers together |
| InfraClient.ResyncPlaces | pkg/state/infra.go:332-451 | no queue, topic or subscription is on an unknown broker afterwards if and only if each broker such an address needs was requested |
| InfraClient.PlacedByName | pkg/state/infra.go:1116-1222 | placement is a matter of broker hostnames |
| InfraRun.Run | pkg/state/infra.go:121-147 | any interleaving of steps goes through a trace of states, each step with its effect; in every state each accepted request waits once or has its one reply and every held address has its project and an endpoint; the run crashes exactly at a deletion whose batch holds an address without a project |
| InfraRun.RepliesStay | pkg/state/infra.go:121-147 | no reply is changed or taken back |
| InfraRun.ReplyExplained | pkg/state/infra.go:121-147 | every reply of a run was given by a step of it that handled a batch with its request, as the state before that step decides |
| InfraRun.ReplyReasons | pkg/state/infra.go:121-147 | with names of their own for routers and brokers, every reply of a run has its reason in the projects, endpoints and broker hostnames of the state of one step |
| InfraRun.PlacedThroughout | pkg/state/infra.go:121-147 | with hostnames of their own for routers and brokers, the directory lists exactly the hosts in every state of every run, and as long as no resync drops a broker hostname nothing is on an unknown broker |
| InfraRun.PortStaysThroughout | pkg/state/infra.go:121-147 | through any stretch of a run, a bound port keeps its name unless a free or a successful deletion of an endpoint gives it up or a resync finds it listed |
| InfraRun.OnePortThroughout | pkg/state/infra.go:121-147 | until a resync restores ports, no name comes to hold two, however allocations, frees and deletions interleave |
| InfraRun.DeletingCrashes | pkg/state/infra.go:1290-1370 | a project and an endpoint synced, the project deleted, then an address there: a run from a fresh client that crashes |

## Left out

- Floats: literals and comparisons of floats are over `real`, without rounding.
- JSON path parsing and evaluation: a path yields a value, nothing or an error, as given.
- Lexical errors: a character that starts no token ends the input, as in the code, so what comes before it is parsed alone.
- Time values in ordering, and the regular expression engine behind LIKE beyond literal characters, `%` and `_`.
- The radix tree behind the cache: it is a sorted sequence of entries; the second index, by address and link, is not modelled.
- Objects are values: updating a cached object in place before it is put back, which a concurrent reader could see, is not captured.
- StableSort.SliceStable: insertion sort only, as the library sorts up to 20 elements, not the merging of blocks; where the comparator is an order, every stable sort has the same result (`StableSortIsUnique`).
- Query.RunQuery: which rearrangement of more than 20 objects the list is when the columns do not order them depends on that merging and is not said.
- Query.Links: equality with the scan of all the connection's links is stated for ids and keys that hold no slash and no NUL, as Kubernetes names and agent ids do not.
- Query.Addresses: equality with the full scan is stated for filters without a reversed LIKE on the last key element, or names without wildcards.
- The three queries whose key elements do not match the key layout (the addresses and connections of an address space, the links of an address).
- AgentWatcher.HandleEvents: the parts of ids are taken to hold no slash and no NUL.
- How a rate is calculated from its samples, and address space types other than standard and brokered, on which the code panics.
- AgentWatcher.UpdateAddress: the address watcher is taken to be the only other writer of addresses.
- The generated router and broker entities: building one is modelled as far as it can fail, and what it puts into the entities is not.
- InfraClient.Client.DoDelete: nothing is said about the state after a crash.
- Liveness: `Shutdown` waits for the workers while it holds the lock, so no claim is made that requests are answered eventually.
- The scheduler, TLS, AMQP, Kubernetes and Prometheus clients, the reconcilers, and the other GraphQL resolvers.
