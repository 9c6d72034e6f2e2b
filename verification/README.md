# Parser generator, virtual file system and three small cores

This project models the parts of a Python type checker that are hardest to get
right, and proves what they are meant to do:

- **The parser generator and its parser** (`crates/parsa`). Grammar rules become
  automata with empty moves, these become tables by the powerset construction,
  and from the tables come plans: for each state and each token, the chain of
  rules to enter. The parser runs the plans on an explicit stack. It writes the
  syntax tree straight into a flat array, in which it inserts nodes later on and
  from which it takes nodes away again when it backtracks over a replay buffer of
  tokens. The tree is read by walking that array.
- **The virtual file system** (`crates/vfs`). A cyclic graph says which files have
  to forget what when a file changes; it is consumed while it is walked. Open
  editor buffers have to survive whatever happens on the disk. Concurrent loaders
  agree on the index of a file. The tree of files is extended on demand.
- **Three small cores**: aggregating a profile (`crates/logging_config`), matching
  modules against override patterns (`crates/config`), and indentation
  (`crates/parsa_python`).

Where the code updates things in place, so do the methods here, and each is tied
by its `ensures` to a function of the values or to the property itself. What is
said about whole runs is said of those functions.

| module | about |
|---|---|
| Rules, Languages, Nfa, RuleLanguage | rules, regular languages, what an automaton spells, the language of a rule and the one that is built |
| Fragments, Automaton, Powerset | building the automaton of a rule and its table |
| Plans, PlanGeneration, GrammarGeneration, SoftKeywords | plans as chains of pushes, their generation, and when chains are lost |
| Trees, Parsing, ParserStack, ReplayBuffer | flat trees, the parser as a machine and as methods, the token buffer |
| Derivations, TreeBuilding, Soundness, LeftRecursion, ErrorFreeRuns, LeftoverToken, Compilation | parsing without errors: what is built, that it ends, and all the way from the rules |
| Greedy, GreedyRuns, GreedyRefusal | parsing without errors: exactly which derivations are found |
| Backtracking, ExactConservation, CalmGrammars, CalmLengths, TokenLoss, LengthLoss, ErrorMarks, Termination | parsing with errors and alternatives: when tokens are kept, which nodes are marked, and that it ends |
| Navigation, ParsedTrees | walking the flat array |
| TokenSplitting | splitting conflicting states |
| Invalidation, Vfs, Loaders, FileTree | the virtual file system |
| ProfileTree, OverrideGlob, Indentation | the small cores |

## Model

| member | source | states |
|---|---|---|
| RuleLanguage.BuiltIsMeaning | crates/parsa/src/automaton.rs:259-351 | The language that the construction spells from start to end is the regular language of the rule, for every rule whose optional parts are chains. |
| RuleLanguage.RepeatIsPlus | crates/parsa/src/automaton.rs:305-309 | Repetition needs no side condition: one round or more, whatever the operand. |
| RuleLanguage.OptionOfChain | crates/parsa/src/automaton.rs:300-304 | An option adds just the empty word if its operand has a start that nothing enters and an end that nothing leaves, or is repetitions and options around such an operand. |
| RuleLanguage.OptionIsExact | crates/parsa/src/automaton.rs:300-304 | An option adds just the empty word if and only if the extra empty move adds no round through end and start that the operand does not spell by itself. |
| RuleLanguage.OptionWithoutFreshEnd | crates/parsa/src/automaton.rs:300-309 | `[a b+]` accepts `b`: without the condition on options the language is another one. |
| Automaton.RuleAutomaton.NewNfaStates | crates/parsa/src/automaton.rs:361-369 | Two states without transitions are added; the others stay. |
| Automaton.RuleAutomaton.AddNfaTransition | crates/parsa/src/automaton.rs:371-379 | One state gets one more transition, behind those it has. |
| Automaton.RuleAutomaton.Build | crates/parsa/src/automaton.rs:259-351 | The new part of the automaton spells the built language of the rule between start and end, in every combination of the two; old states are untouched, each state has at most one typed transition, and every new state leads to the end. |
| Automaton.RuleAutomaton.BuildOr | crates/parsa/src/automaton.rs:291-299 | The alternatives hang between two new states, which spell their union. |
| Automaton.RuleAutomaton.BuildBranch | crates/parsa/src/automaton.rs:293-297 | Hanging one alternative between two states adds its language to what they spell, and nothing else. |
| Automaton.RuleAutomaton.BuildNext | crates/parsa/src/automaton.rs:336-341 | The two parts in sequence spell the concatenation. |
| Automaton.RuleAutomaton.BuildLookahead | crates/parsa/src/automaton.rs:310-331 | The operand is spelled between a transition that starts the lookahead and one that ends it. |
| Automaton.RuleAutomaton.GroupNfas | crates/parsa/src/automaton.rs:381-396 | The states found are the least set that contains the given ones and is closed under empty moves, on cyclic graphs too. |
| Powerset.LeastClosedIsClosure | crates/parsa/src/automaton.rs:381-396 | That least set is what walks of empty moves reach. |
| Automaton.RuleAutomaton.NfaToDfa | crates/parsa/src/automaton.rs:402-433 | The state for a closure is the one that is there already or a new one, so that no two states stand for one set. |
| Automaton.RuleAutomaton.GroupTransitions | crates/parsa/src/automaton.rs:447-472 | For each label, the states that some state of the set moves to by it, and no group for a label without any. |
| Automaton.RuleAutomaton.AddRowTransition | crates/parsa/src/automaton.rs:475-481 | A label goes to the state of the closure of where its moves lead. |
| Automaton.RuleAutomaton.MakeRow | crates/parsa/src/automaton.rs:474-483 | One transition for each label, whatever the order in which the labels come. |
| Automaton.RuleAutomaton.ConstructPowersetForDfa | crates/parsa/src/automaton.rs:440-499 | The recursion ends, since fewer subsets are left each time; the state and all those made on the way are finished, and finished ones are not changed again. |
| Automaton.RuleAutomaton.ConstructPowerset | crates/parsa/src/automaton.rs:435-438 | The table accepts exactly the words that the automaton spells. |
| Powerset.RunComputesReach | crates/parsa/src/automaton.rs:440-499 | After any word the table is in the state of exactly those states that the automaton can be in, and has no state if there are none. |
| Powerset.TableAcceptsSpelled | crates/parsa/src/automaton.rs:402-499 | The table accepts a word if and only if the automaton spells it from start to end. |
| Powerset.RowMoves | crates/parsa/src/automaton.rs:447-472 | A row has a label only where some state of its set moves by it. |
| Powerset.WalkMovesOn | crates/parsa/src/automaton.rs:440-499 | If some state of the set leads to the end, the state of the table is final or goes on. |
| Automaton.RuleAutomaton.Generate | crates/parsa/src/automaton.rs:714-726 | From rule to table: the table accepts the language that is built, which is that of the rule if its options are chains; the flags are those that the rule carries. |
| TokenSplitting.SplitTokens | crates/parsa/src/automaton.rs:1307-1380 | The groups are the maximal runs of one type in the ascending list of all conflicting states. |
| TokenSplitting.RunsMergeByPriority | crates/parsa/src/automaton.rs:1312-1378 | Joined together the runs are all conflicting states in order, each once; a run has one type and the next one another. |
| TokenSplitting.TakeGroup | crates/parsa/src/automaton.rs:1334-1354 | Taking from the list with the least head up to the next head takes exactly the first run. |
| PlanGeneration.PlanGenerator.AddTerminal | crates/parsa/src/automaton.rs:885-923 | After a terminal and its soft keywords, a token has a plan as a transition of a type if and only if one of the labels so far offers that; a keyword goes where the last label does that it can be taken by. It is refused only if the labels offer one token as two types, or a keyword has no type. |
| PlanGeneration.PlanGenerator.AddKeyword | crates/parsa/src/automaton.rs:963-979 | The same after a keyword. |
| PlanGeneration.PlanGenerator.AddNonterminal | crates/parsa/src/automaton.rs:924-962 | The same after a rule: its first plans are nested in a push of it. |
| PlanGeneration.NestedTakes | crates/parsa/src/automaton.rs:1228-1250 | A nested plan still takes its token, by a chain that is one push longer. |
| PlanGeneration.NestedChains | crates/parsa/src/automaton.rs:945-957 | Nesting all first plans of a rule gives every chain that begins with the rule. |
| PlanGeneration.PlanGenerator.PlansForDfa | crates/parsa/src/automaton.rs:862-979 | The plans of a state are exact: each is a chain of pushes down to a token that its last label matches, each token of a chain has a plan, a keyword goes where the last label does that it can be taken by, and all chains are there if the labels of each row agree on keywords. When plans are made, the row offers no token as two types; when they are refused, there is a reason in the tables. |
| PlanGeneration.PlanGenerator.CreateFirstPlans | crates/parsa/src/automaton.rs:826-860 | The recursion over first rules ends; plans made before stay. It is refused as indirect left recursion only if rules are first children of each other in a cycle, and as recursion without an alternative only if a rule begins with itself and has no chain that does not. Finished rules stand behind their first children. |
| PlanGeneration.OrderedHasNoCycle | crates/parsa/src/automaton.rs:924-932 | Rules that stand behind their first children are on no cycle of first children. |
| GrammarGeneration.ContinuedReads | crates/parsa/src/automaton.rs:1181-1226 | A plan by which a left-recursive rule goes on in a final state takes its token from the state behind its first child, for the type of the token itself. |
| GrammarGeneration.OwnPlanKept | crates/parsa/src/automaton.rs:1450-1454 | A plan of a state's own chains is kept if and only if the state does not go on by left recursion with the same token; otherwise the plan of left recursion is in its place. |
| GrammarGeneration.ExtendedIsSound | crates/parsa/src/automaton.rs:808-818 | With the plans of left recursion all states are sound for the tables. |
| GrammarGeneration.GrammarGenerator.ContinueLeftRecursion | crates/parsa/src/automaton.rs:808-818 | A final state of a rule that begins with itself gets its own plans, overridden by those of the state behind the first child, whether that state has had its turn or not; all other states stay. |
| GrammarGeneration.Generate | crates/parsa/src/automaton.rs:725-824 | Every state of every rule is there: its own plans are exact, and it has exactly these, overridden by those of left recursion where the rule goes on after itself; failed tokens go to the first recovering rule of the row. The grammar is made if and only if there is no reason against it: no cycle of first rules, no rule that only begins with itself or can be empty, no keyword without a type, no row that offers a token as two types. |
| GrammarGeneration.ChainsAreUnique | crates/parsa/src/automaton.rs:862-979 | If the labels of each row agree on keywords and no conflict was found, a state has one chain for a token at most. |
| SoftKeywords.ChainIsKept | crates/parsa/src/automaton.rs:1105-1128 | The chain of a label for a keyword is kept if and only if the label goes where the last one does that the keyword can be taken by. |
| SoftKeywords.ChainsKeptExactly | crates/parsa/src/automaton.rs:1105-1128 | No state loses a chain if and only if in every row the labels that a keyword can be taken by, as their own or as a soft one, go to one state. |
| SoftKeywords.SoftKeywordOverwrites | crates/parsa/src/automaton.rs:885-923 | For the rule `n x or "k" y`, with `k` a soft keyword of `n`, a grammar is made, and on the tokens `k x` its parser meets an error. |
| SoftKeywords.SentenceIsLost | crates/parsa/src/automaton.rs:1105-1128 | Those tokens are a sentence of the rule. |
| Compilation.Compile | crates/parsa/src/automaton.rs:702-824 | Compiling all rules gives tables that accept their languages, and states that are exact for these tables; it is refused if and only if there is a reason in the tables. |
| ReplayBuffer.BacktrackingTokenizer.Start | crates/parsa/src/backtracking.rs:22-31 | Recording begins at the last token, or goes on; the result is where that token is in the record. |
| ReplayBuffer.BacktrackingTokenizer.Next | crates/parsa/src/backtracking.rs:58-83 | Hands out the next token of the record or of the tokenizer, and keeps or drops the record. |
| ReplayBuffer.BacktrackingTokenizer.Reset | crates/parsa/src/backtracking.rs:34-36 | Goes to a place in the record and changes nothing else. |
| ReplayBuffer.BacktrackingTokenizer.Stop | crates/parsa/src/backtracking.rs:39-41 | Stops recording and keeps the record. |
| ReplayBuffer.BacktrackingTokenizer.ResetToLastLeaf | crates/parsa/src/backtracking.rs:43-53 | Goes to right after the last recorded token at the place of a leaf; it fails if and only if there is none. |
| ReplayBuffer.NextAtCursor | crates/parsa/src/backtracking.rs:58-83 | The buffer is a position in the list of all tokens: the next token is the one there, or there is none because the list is at its end. |
| ReplayBuffer.StartAtCursor | crates/parsa/src/backtracking.rs:22-31 | A mark denotes the position before the last token, and marks of the same recording keep their meaning. |
| ReplayBuffer.BufferIsCursor | crates/parsa/src/backtracking.rs:21-83 | Every legal run of reading, marking, going back and stopping hands out the tokens that one position in the list would. |
| ParserStack.Stack.Push | crates/parsa/src/grammar.rs:668-698 | A node is opened on the stack and, unless it may be left out, at the end of the tree. |
| ParserStack.Stack.UpdateTreeNodePosition | crates/parsa/src/grammar.rs:838-843 | The node gets the length with which it ends where the tree ends, by 32-bit subtraction; all else stays. |
| ParserStack.Stack.PopNormal | crates/parsa/src/grammar.rs:658-664 | The top node ends and leaves the stack. |
| ParserStack.Stack.CalculatePreviousNextNode | crates/parsa/src/grammar.rs:701-714 | The latest child of the top node is linked to the node that comes next. |
| ParserStack.ApplyPlan | crates/parsa/src/grammar.rs:509-625 | Carries out a plan on the stack, the tree and the buffer as the machine does, and fails exactly where the machine panics. |
| ParserStack.EndOfNode | crates/parsa/src/grammar.rs:253-274 | Ends the top node, or hands the children of an alternative down. |
| ParserStack.Fallback | crates/parsa/src/grammar.rs:321-433 | Goes back to the saved point and applies the other plan. |
| ParserStack.Replay | crates/parsa/src/grammar.rs:435-470 | Goes back before the saved point and applies the first plan again, without an alternative. |
| ParserStack.PopFailed | crates/parsa/src/grammar.rs:473-484 | Ends and marks as failed all nodes down to the one that recovers; which nodes those are is said by `PopFailedMarks`. |
| ErrorMarks.PopFailedMarks | crates/parsa/src/grammar.rs:473-484 | A node of the tree is marked afterwards if and only if it was before or is the tree node of one of the stack nodes popped, also of several; but for the mark its type stays, and no node comes or goes. |
| ErrorMarks.ErrorNodeMarked | crates/parsa/src/grammar.rs:290-311 | A token in an error node adds two nodes, both marked; all others keep their types. |
| ErrorMarks.StepKeepsMarks | crates/parsa/src/grammar.rs:176-625 | No step clears the mark of a node that stays, or changes its type otherwise; all nodes stay, unless the parser goes back to a saved count. |
| ErrorMarks.ErrorFreeMarksNone | crates/parsa/src/grammar.rs:176-274 | If the grammar itself has no marked types, a run without errors marks no node. |
| Termination.StepNearer | crates/parsa/src/grammar.rs:176-505 | Every step that does not look ahead ends the run, leaves fewer ways to go on open, weighed by how many tokens are behind them, or as many with fewer nodes on the stack, or reads a token; falling back and replaying included. |
| Termination.RunEndsExactly | crates/parsa/src/grammar.rs:176-505 | For every grammar and all tokens, with errors and alternatives, a run ends if and only if it does not from some step on only look ahead. |
| Termination.GeneratedRunsEnd | crates/parsa/src/grammar.rs:176-505 | With a generated grammar every run ends, whatever the tokens. |
| ParserStack.ErrorRecovery | crates/parsa/src/grammar.rs:276-505 | Does what the first applicable way to recover does, looking down the stack. |
| ParserStack.Parse | crates/parsa/src/grammar.rs:176-250 | The loops of the parser report what the same number of steps of the machine leads to; what that is without errors is said by `ErrorFreeExactly`. |
| TreeBuilding.ClosedWhole | crates/parsa/src/grammar.rs:658-664 | Giving a node its length turns its open children into the preorder array of the finished subtree, also if the node is left out. |
| TreeBuilding.InsertedWhole | crates/parsa/src/grammar.rs:523-540 | Inserting a node in the middle of the array, when its second child comes, makes the array that it would be if the node had been there from the start. |
| TreeBuilding.LinkedWhole | crates/parsa/src/grammar.rs:701-714 | Linking the latest child gives it its exact distance to the next sibling. |
| TreeBuilding.PlanHolds | crates/parsa/src/grammar.rs:509-625 | After a plan the array is that of the open nodes with their finished children, the token being the newest leaf; left recursion and nodes left out included. |
| TreeBuilding.EndHolds | crates/parsa/src/grammar.rs:253-274 | After a node ends, it is a finished child of the one below, and its children spell a word of its rule. |
| Soundness.StepSound | crates/parsa/src/grammar.rs:176-274 | Every step without an error keeps: the array is the preorder array of what has been parsed, the stack nodes fit their frames, and the leaves are the tokens read. |
| Soundness.ParserIsSound | crates/parsa/src/grammar.rs:176-274 | A run without errors that is done has built the flat tree of a derivation of exactly the tokens, by the tables. |
| LeftRecursion.PlanTypeIsExact | crates/parsa/src/automaton.rs:1206-1216 | A plan makes a leaf of another type than its label's if and only if it is one of left recursion and takes a soft keyword. |
| LeftRecursion.ParsedLeafTypes | crates/parsa/src/grammar.rs:541-625 | In a parse a leaf has another type than its label's if and only if it is the first leaf behind a node that its rule begins with and that is of the same rule, and its token is a soft keyword of the label. |
| LeftRecursion.ParserFinishes | crates/parsa/src/grammar.rs:176-274 | For the rule `R: R n or n`, on two tokens from 5 on, the second being a soft keyword of `n`, the parser finishes without an error with the tree of the expected derivation. |
| LeftRecursion.KeywordForLabel | crates/parsa/src/automaton.rs:1206-1216 | Its second leaf has the type of the keyword where the label is `n`. |
| LeftRecursion.StartsBeforeLeaf | crates/parsa/src/grammar.rs:541-565 | Its inner node starts at 0 where its first leaf starts at 5. |
| ErrorFreeRuns.PanicsOnInputLeft | crates/parsa/src/grammar.rs:211-250 | A step without an error panics if and only if it takes a token when the root is finished. |
| LeftoverToken.LeftoverTokenPanics | crates/parsa/src/grammar.rs:211-250 | For the root rule `1`, the tokens `1 1` lead to that panic in the fifth step, none of them needing error recovery. |
| Greedy.ErrorFreeIsGreedy | crates/parsa/src/grammar.rs:211-250 | A run without errors ends with a greedy derivation: a node that a token follows has ended in a state without a plan for that token, unless left recursion takes it as a first child by such a plan, and each further child is entered by the plan for its first token. It is one of all tokens, or of those before the token that the run panics at. |
| GreedyRuns.CutGoesOn | crates/parsa/src/grammar.rs:211-250 | Wherever a greedy derivation is cut between two tokens, the plan for the next token leads to the next cut, or there is none and ending the innermost node does. |
| GreedyRuns.GreedyIsErrorFree | crates/parsa/src/grammar.rs:176-250 | If there is a greedy derivation of a first part of the tokens, no step of any run needs error recovery. |
| GreedyRuns.GreedyDecides | crates/parsa/src/grammar.rs:176-274 | The run then ends with the array of that derivation, or with the panic if a token comes behind it. |
| GreedyRuns.ErrorFreeExactly | crates/parsa/src/grammar.rs:176-274 | No step needs error recovery if and only if there is a greedy derivation of a first part of the tokens; and the run is done with an array if and only if it is the one of a greedy derivation of all tokens. |
| GreedyRefusal.SentenceIsRefused | crates/parsa/src/grammar.rs:211-250 | For the root rule `B 1` with `B: 1+`, the tokens `1 1` are a sentence that has no greedy derivation, and the sixth step on them needs error recovery. |
| ErrorFreeRuns.StepsAreLinear | crates/parsa/src/grammar.rs:176-207 | The bound on the steps is the number of tokens times the length of the longest plan and two, and three. |
| ErrorFreeRuns.ErrorFreeRunEnds | crates/parsa/src/grammar.rs:176-274 | A run without errors ends within that bound: done, with a parse of all tokens, or with a panic, having parsed exactly the tokens before the one it panics at. |
| Compilation.DerivedByRules | crates/parsa/src/automaton.rs:259-499 | A derivation by the tables is one by the rules: the children of each node spell a word that its rule builds, and that the rule means if its options are chains. |
| Compilation.CompiledParserIsSound | crates/parsa/src/grammar.rs:155-274 | What a compiled grammar parses without an error is the tree of a derivation by the rules. |
| Compilation.CompiledParserEnds | crates/parsa/src/grammar.rs:155-274 | Without an error its parser ends, within linearly many steps, with such a tree of all tokens or of those before the token that it panics at. |
| Backtracking.InsertedPoint | crates/parsa/src/grammar.rs:523-565 | A node inserted into the tree keeps a saved point if and only if the saved count lies before it, or does not end in a leaf. |
| Backtracking.PlanKeepsExactly | crates/parsa/src/grammar.rs:509-625 | A plan keeps all saved points if and only if it inserts no node below a saved count that ends in a leaf. |
| Backtracking.FallbackKeeps | crates/parsa/src/grammar.rs:321-334 | Going back to a saved point and trying the other plan, which passes that test, puts tokens and tree in step again. |
| Backtracking.ReplayKeeps | crates/parsa/src/grammar.rs:435-470 | So does entering the first plan again. |
| Backtracking.PopFailedKeeps | crates/parsa/src/grammar.rs:473-484 | Ending failed nodes keeps the tokens; with lengths, if no popped leaf ends before the tree does. |
| Backtracking.RunConserves | crates/parsa/src/grammar.rs:176-625 | Along every run whose steps pass the tests, the leaves are the tokens read, saved points still mark their tokens, and a finished tree has all tokens. |
| ExactConservation.StepConservesExactly | crates/parsa/src/grammar.rs:176-625 | A step of any kind that does not panic keeps tokens and saved points if and only if it passes the test; with lengths, if and only if it also gives no popped or wrapped leaf another length. |
| ExactConservation.PopFailedLoses | crates/parsa/src/grammar.rs:473-484 | A leaf that is popped before the end of the tree does get another length, whatever is popped after it. |
| CalmGrammars.CalmGrammarsConserve | crates/parsa/src/grammar.rs:176-625 | If alternatives occur only in rules that are neither left out nor left-recursive, every run on every input keeps all tokens. |
| CalmLengths.CalmGrammarsKeepLengths | crates/parsa/src/grammar.rs:176-625 | If besides no state of a rule that may be left out has an error node, every run keeps them with their lengths. |
| TokenLoss.BacktrackingLosesToken | crates/parsa/src/grammar.rs:427-495 | A grammar and four tokens on which, after twelve steps, one of the two tokens read is not in the tree; the step that fails the test. |
| LengthLoss.RecoveryLosesLength | crates/parsa/src/grammar.rs:290-311 | A grammar and two tokens on which the parser finishes with a leaf of length 3 for a token of length 1; the step that fails the test. |
| Navigation.Parent | crates/parsa/src/lib.rs:300-317 | The backward scan finds the parent of every node but the root, and none for the root. |
| Navigation.ScanForParent | crates/parsa/src/lib.rs:302-316 | The scan, from the array alone: the node right before the first sibling, past all offsets that lead elsewhere. |
| Navigation.NextSiblingIsNextChild | crates/parsa/src/lib.rs:266-276 | The next sibling of a child is the next child of its parent, and the last child has none. |
| Navigation.PreviousSibling | crates/parsa/src/lib.rs:278-294 | The inverse of the next sibling; a first child and the root have none. |
| Navigation.SiblingIterator.IterChildren | crates/parsa/src/lib.rs:246-259 | The iterator starts before the first child; a leaf has none. |
| Navigation.SiblingIterator.Next | crates/parsa/src/lib.rs:472-491 | The iterator yields the children in order, each once, and then nothing. |
| Navigation.NthChild | crates/parsa/src/lib.rs:261-264 | The child of that number, or none. |
| Navigation.LastLeafInSubtree | crates/parsa/src/lib.rs:372-378 | The last leaf below a node is the last node of its part of the array. |
| Navigation.SearchIterator.Next | crates/parsa/src/lib.rs:511-539 | The next node of a wanted type that starts before the end, going on behind it or behind its subtree. |
| Navigation.Search | crates/parsa/src/lib.rs:511-539 | The nodes found are, in preorder, the wanted ones of the subtree that start before its end, only the outermost if found subtrees are avoided; it panics if and only if they are, and a wanted node that starts before the end lies on the way to the last leaf. |
| Navigation.RootOverruns | crates/parsa/src/lib.rs:511-539 | A tree of two nodes that meets the condition of the panic. |
| Navigation.SearchForRoot | crates/parsa/src/lib.rs:511-539 | Searching it for the type of its root panics. |
| ParsedTrees.ParsedIsWalkable | crates/parsa/src/grammar.rs:508-625 | The array of a parse of ordered tokens is that of a proper tree whose nodes span their leaves, sorted, no node starting before an earlier leaf ends; just the nodes of the root's rule that the leftmost branch begins with start at 0. |
| ParsedTrees.StartsAreExact | crates/parsa/src/grammar.rs:541-565 | All inner nodes but the root start at their first leaf if and only if the root may be left out, the tokens begin at 0, or the root does not begin with a node of its own rule; which nodes start at 0 otherwise. |
| ParsedTrees.CollapsedSpans | crates/parsa/src/grammar.rs:838-843 | Every node reaches from its first leaf, or from 0 on that branch, to the end of its last leaf. |
| ParsedTrees.NodeHasCut | crates/parsa/src/lib.rs:511-539 | With a trailing token of no length, searching any node finds where to stop, in its subtree or right behind it. |
| ParsedTrees.SearchParsed | crates/parsa/src/lib.rs:333-342 | So any node of a parsed tree can be searched, with the results and the panics of `Search`. |
| Invalidation.ReachIsPaths | crates/vfs/src/vfs.rs:238-294 | What is reached is what paths of dependents lead to. |
| Invalidation.ReachMore | crates/vfs/src/vfs.rs:238-263 | Files reached in the graph that earlier walks have emptied, and those walks, together reach what the whole graph does. |
| Invalidation.EmptiedMore | crates/vfs/src/tree.rs:599-604 | Two walks, one after the other, empty exactly the entries of what they reach together. |
| Vfs.Vfs.constructor | crates/vfs/src/vfs.rs:58-65 | Nothing is stored at the start, and all is in order. |
| Vfs.Vfs.Take | crates/vfs/src/tree.rs:599-604 | The dependents are taken and forgotten, unless they are everything, which stays. |
| Vfs.Vfs.InvalidateFiles | crates/vfs/src/vfs.rs:238-263 | On any graph it ends; everything has to go if and only if that can be reached; otherwise exactly what can be reached is told, exactly its entries are emptied, and its buffers are notified. |
| Vfs.Vfs.InvalidateFileByIndex | crates/vfs/src/vfs.rs:265-294 | The same for one file. |
| Vfs.Vfs.InvalidateAndUnloadFile | crates/vfs/src/vfs.rs:501-506 | The file is unloaded. Everything has to go if and only if that can be reached from it; otherwise exactly what can be reached is told, emptied and notified, and no other file or entry changes. |
| Vfs.Vfs.EnsureFile | crates/vfs/src/tree.rs:364-423 | The path has an entry: the old one, or one more that is empty, behind the others; those who waited for the path are returned. |
| Vfs.Vfs.Load | crates/vfs/src/vfs.rs:362-393 | There is an index if and only if the file was loaded before, or the disk has a text and it is wanted. A file that was not loaded has the disk's text then, under the path of its entry; the entry of a new one is the one that needs everything if that is asked for. All other files and entries stay. |
| Vfs.Vfs.StoreInMemoryFile | crates/vfs/src/vfs.rs:402-488 | The buffer has the text, other buffers theirs. If the path had a file of another text, everything has to go if and only if that can be reached from it, and then its entry needs everything; otherwise exactly what can be reached is told, emptied and notified. With the same text nothing is. A new file is the last one, and exactly what those reach who waited for the path is told. |
| Vfs.Vfs.PutText | crates/vfs/src/vfs.rs:423-473 | The same for the file of the entry, before those who waited are told: a file with this text already is left, one with another text is replaced and what it reaches invalidated, and a new one is added behind all files. |
| Vfs.Vfs.ReplaceFile | crates/vfs/src/vfs.rs:444-455 | A file that gets another text is unloaded first and all that depends on it invalidated; if everything has to go, its entry needs everything from then on. |
| Vfs.Vfs.CloseInMemoryFile | crates/vfs/src/vfs.rs:508-558 | The buffer is gone, its file has the text on the disk or is unloaded, and all other buffers stay. If the text is another one or gone, everything has to go if and only if that can be reached from the file, and otherwise exactly what can be reached is told, emptied and notified; with the same text nothing is. |
| Vfs.Vfs.InvalidatePath | crates/vfs/src/vfs.rs:591-767 | Whatever part of the tree was replaced, each open buffer keeps its text and has a place in the tree again; unless everything has to go, just the other files of that part are unloaded. |
| Vfs.Vfs.InvalidateAffected | crates/vfs/src/vfs.rs:474-488 | When a path appears, exactly what can be reached from those who waited for it is told, emptied and notified, or everything has to go. |
| Vfs.Vfs.Perform | crates/vfs/src/vfs.rs:362-767 | Over every run of events, up to the first after which everything has to go, the open buffers are those stored and not closed since, each with a loaded file that has the text last stored. |
| Loaders.LoadersAgree | crates/vfs/src/vfs.rs:362-393 | In every interleaving an entry has one slot at most besides those of sub-files, all loaders of it come to the same index, the slot points back and has a content; that is what a thread has read for this entry, or the sub-file's own text, and it is never replaced. |
| FileTree.EnsuredIsFound | crates/vfs/src/workspaces.rs:525-573 | A file that is ensured is found at its path. |
| FileTree.FoundStaysFound | crates/vfs/src/workspaces.rs:525-573 | Whatever was found before is found after, and is the same. |
| FileTree.WaitingElsewhere | crates/vfs/src/workspaces.rs:525-573 | Nobody is forgotten who waits at a path that is not on the way. |
| FileTree.InvalidationsAreUnion | crates/vfs/src/workspaces.rs:525-573 | Those who come back are all who waited along the way, everything absorbing the rest. |
| ProfileTree.MergeNeighbours | crates/logging_config/src/hprof.rs:207-230 | Merging neighbours of one name gives strictly ascending names and keeps, for every path of names, what was spent on it. |
| ProfileTree.Aggregate | crates/logging_config/src/hprof.rs:207-230 | The same at every level of the tree. |
| OverrideGlob.MatchesExactly | crates/config/src/lib.rs:703-750 | A module matches if and only if its components can be cut into one piece for each part of the pattern: a name itself, a leading star one or more, any other star any number. |
| OverrideGlob.StarExactly | crates/config/src/lib.rs:726-746 | What a star that is not the first may skip. |
| Indentation.Tokenizer.DedentIfNecessary | crates/parsa_python/src/tokenizer.rs:182-192 | One level is popped with a dedent, or becomes the new column with an error dedent, if the column is below the top. |
| Indentation.Tokenizer.EncounteredBreakToken | crates/parsa_python/src/tokenizer.rs:195-213 | A keyword that starts a statement on a new line ends brackets and f-strings, and dedents. |
| Indentation.Tokenizer.NextToken | crates/parsa_python/src/tokenizer.rs:455-590 | The next token and the state after it, at the start of a line and within it; what brackets and format strings do to it is said by `BracketsDecide`. |
| Indentation.BracketsDecide | crates/parsa_python/src/tokenizer.rs:455-590 | On every run, with the brackets and format strings counted that the calls before have opened and closed: while one is open, no newline comes, and no indent, dedent or error dedent at the start of a line; a line end gives a newline if and only if none is. An opening bracket counts one more, a closing one one less but not below none, and a keyword that breaks off ends all. |
| Indentation.DepthIsSurplus | crates/parsa_python/src/tokenizer.rs:503-520 | Without format strings and breaking keywords, the depth is the largest surplus of openings over closings in a last part of the calls. |
| Indentation.IndentsAndDedentsBalance | crates/parsa_python/src/tokenizer.rs:182-213 | On every run the levels start with 0 and increase, there are as many indents more than dedents as levels above 0, and equally many at the end. |
| Indentation.LineExactly | crates/parsa_python/src/tokenizer.rs:471-488 | A line pops every level above its column with a dedent each, except that the last becomes the column with an error dedent if the column is no level; then comes the line itself. |

## Findings

Properties that the code does not have, each with an input and the exact condition.

- **Backtracking can lose a token** (grammar.rs:427-495, 508-625). A rule that may be
  left out of the tree gets its node when its second child comes. If alternatives
  begin there, both make one, the second below the count that the first has saved;
  going back to the first then cuts off a leaf. `TokenLoss.BacktrackingLosesToken`
  is such a run. A step is safe if and only if it inserts no node below a saved
  count that ends in a leaf (`ExactConservation.StepConservesExactly`), and
  `CalmGrammars` names grammars in which all are.
- **Error recovery can change the length of a leaf** (grammar.rs:290-311, 473-484). A
  token in an error node is not counted as a child. If the stack node above it is
  one that may be left out, and has a single leaf, that leaf is taken for its node
  and made to end where the tree ends: `LengthLoss.RecoveryLosesLength`. A step is
  safe if and only if the leaves that it pops or wraps end where the tree ends;
  `CalmLengths` names grammars in which they do.
- **Options can accept too much** (automaton.rs:259-351). The empty move of an option
  goes from the start of its operand to the end, and what leaves the end can be
  walked as well: `[a b+]` accepts `b` (`RuleLanguage.OptionWithoutFreshEnd`). The
  exact condition is that of `RuleLanguage.OptionIsExact`.
- **A search can run off the tree** (lib.rs:511-539). When found subtrees are avoided
  and a found node ends with the whole tree, the iterator goes past the last node
  and panics there: `Navigation.SearchForRoot`. It does so if and only if a node of
  a wanted type that starts before the end of the searched node lies on the way to
  the last leaf (`Navigation.Search`).
- **A soft keyword next to the keyword itself is no conflict** (automaton.rs:1105-1128):
  the two have one transition type, so that the plan added later silently replaces
  the other. The rule `n x` or `"k" y`, with `k` a soft keyword of `n`, loses its
  sentence `k x` (`SoftKeywords.SoftKeywordOverwrites`, `SoftKeywords.SentenceIsLost`).
  No chain of any state is lost if and only if in every row all labels that a keyword
  can be taken by go to one state (`SoftKeywords.ChainsKeptExactly`).
- **A token behind a finished root is a panic** (grammar.rs:211-250), not an error that
  is recovered from: the root rule `1` on the tokens `1 1`
  (`LeftoverToken.LeftoverTokenPanics`). Without an error nothing else panics
  (`ErrorFreeRuns.PanicsOnInputLeft`).
- **Nodes of a left-recursive root start at 0** (grammar.rs:541-565), as the root does,
  and not at their first leaf: `R: R n` or `n` on tokens from 5 on
  (`LeftRecursion.StartsBeforeLeaf`). All inner nodes but the root start at their
  first leaf if and only if the root may be left out, the tokens begin at 0, or the
  root does not begin with a node of its own rule (`ParsedTrees.StartsAreExact`).
- **A leaf can have a keyword's type where its label is a terminal** (automaton.rs:1206-1216):
  a plan of left recursion gives its leaf the type that it is looked up by. The
  second leaf of the same run has the type of a soft keyword
  (`LeftRecursion.KeywordForLabel`). That happens if and only if the leaf is the first
  one behind a node that its rule begins with and that is of the same rule, and its
  token is a soft keyword of the label (`LeftRecursion.ParsedLeafTypes`).
- **A sentence can be refused** (grammar.rs:211-250). A node is ended only where there is
  no plan for the next token, whatever may follow it: the root rule `B 1` with `B: 1+`
  needs error recovery on its sentence `1 1` (`GreedyRefusal.SentenceIsRefused`). Tokens
  are parsed whole and without an error if and only if they have a greedy derivation
  (`GreedyRuns.ErrorFreeExactly`).
- **Left recursion silently replaces plans** (automaton.rs:1450-1454). A plan of a final
  state's own is kept if and only if the rule does not go on after itself there with
  the same token (`GrammarGeneration.OwnPlanKept`).

## Left out

- Lookaheads in plans, and plans for alternatives after a conflict was split: where the code goes on to split a conflict, the model refuses the tables. The parser takes any plans with alternatives, whoever made them.
- Reuse of a finished first child when an alternative fails (grammar.rs:338-426), an optimisation; the parser has it switched off.
- Positive and negative lookahead in conservation: an aborted negative lookahead takes its token without a leaf (grammar.rs:518-520).
- The choice on equal progress (grammar.rs:447-455) inverts all bits of a length; it is modelled with 64-bit lengths, and nothing is stated about which alternative it prefers.
- Parse: has a bound on its steps, since looking ahead may go on forever; how many steps a run with errors takes is not stated, only that it ends.
- OptionIsExact: the condition is one on languages; the one on rules in `BuiltIsMeaning` is enough but not necessary, `[a+ [b]]` being exact and not a chain.
- CalmGrammarsConserve: the class of grammars is sufficient, not necessary; the exact test is the one for each step. The same holds of CalmGrammarsKeepLengths.
- 32-bit offsets and indexes of nodes, 64-bit counts and durations of a profile, and 16-bit types but for the bit that marks errors: numbers are unbounded. Lengths of nodes do wrap around at 32 bits.
- Numbers of keywords, debug texts, the search for a leaf by position, and all typed wrappers around nodes.
- Grammar macros, the concrete Python grammar, the recognition of tokens by regular expressions, f-string contents and continued lines: a token comes as one of a few kinds.
- The disk, watching it, ignored files, links and paths of platforms: what is there is an input of each event.
- Locks in the file system: `Loaders` takes each locked region for one step; `Vfs` runs one event at a time.
- EnsuredIsFound: the tree of files is a value, with directories read as a function of their place; that it is updated in place, behind locks and on demand, is not modelled. The same holds of FoundStaysFound, WaitingElsewhere and InvalidationsAreUnion.
- Aggregate: the tree is rebuilt from values where the code takes and swaps the nodes of one vector.
- Search: also takes leaves, which the code asserts that it is not asked to search (lib.rs:334).
- InvalidatePath: says which files are unloaded, not which of their dependents are told, nor when everything has to go.
