# Verified models of LPeg, QEMU's block layer and RAM migration, and a Lua serializer

The repository bundles LPeg 0.12.2 and QEMU 2.2.0 and has a serializer of its own. The modules here model their hardest
parts and prove what those parts are for. `dafny verify dfyconfig.toml` checks everything. `Common.dfy` holds bytes,
optional values and ranges.

**LPeg.** `LpegTree.dfy` gives pattern trees and a big-step semantics of parsing expression grammars with captures;
`LpegAnalysis.dfy` the analyses of lpcode.c; `LpegVm.dfy` the matching machine; `LpegCode.dfy` the code of a tree as a function
of the tree; `LpegBlocks.dfy`, `LpegTidy.dfy` and `LpegSimulation.dfy` the proof that this code does what the tree means, under
the follow-set contract of the code generator; `LpegTailCalls.dfy` and `LpegPeephole.dfy` the two rewriting passes as
simulations; `LpegJumps.dfy` the search for final targets and the proof that accepted patterns have no circle of jumps;
`LpegGrammar.dfy` the grammar checks and termination; `LpegCompiler.dfy` the compiler as it appends to and patches its code, and
`Lpeg.dfy` the theorem about compiled code. `LpegFlat.dfy` and `LpegBuild.dfy` cover the flat arrays in which lptree.c keeps
trees, `LpegMatch.dfy` matching from the array to the answer, `LpegCharset.dfy` the bitmaps of character sets,
`LpegCaptures.dfy` the capture list. `LpegLimits.dfy` shows where the code does not do what its comments say, with inputs.

A call of the semantics carries a bound on nested rule calls; `Out` means the bound was reached, so a theorem about an answer
holds for every bound that gives one. The analyses follow at most `DEPTH` nested calls in a grammar. Their soundness holds for
every depth. `CheckEnds`, `FirstEnds` and `HeadEnds` say that the unbounded recursion returns within a depth; `AnalysesEnd`
proves them for every tree that the code generator works on, and `CheckMore`, `FirstMore` and `HeadMore` that the answer then
stays the same. The search for captures has three answers, found, none and endless; `SearchEnds` says when it ends. Assertions of
the machine are the state `Stuck`. The model machine also checks that a close capture has an open one; `LooseStep` is the machine
without those checks, and `SameMachine` proves that they never fail.

**QEMU, block layer.** `QemuRequests.dfy` models tracked requests as a state machine over the steps between two points where a
coroutine can yield, and as a class. `QemuWrites.dfy` adds the data: head and tail reads and writes of many requests interleave,
the driver writes in pieces, and the disk is proved to be what the requested bytes give one after the other.
`QemuMultiwrite.dfy` models the sorting and merging of writes.

**QEMU, migration.** `QemuXbzrle.dfy` is the delta codec, `QemuMigration.dfy` what is sent for a page and what the destination
makes of it, `QemuSearch.dfy` the search for dirty pages with its cursor, bitmap and bulk stage. The migration thread may see
anything of a page that the guest is writing; such a page is in the dirty log.

**QEMU, others.** `QemuTlb.dfy` is the software TLB with its region for large pages, `QemuDump.dfy` the layout of memory dumps.

**Serializer.** `Serialize.dfy` models printing and parsing of Lua values.

Properties that one would expect and that do not hold of the code are stated with the condition under which they do:

- compiled patterns answer as the semantics except where a repetition reuses an enclosing choice that its body commits partially
  (lpcode.c:762); `OptSafe` excludes those, `ReusedChoiceIsWrong` is an instance, `OptMatters` says when the flag matters;
- rule numbers are kept in one byte although a thousand rules are accepted; `Wf` asks that called rules have a number below 256,
  `WideGrammarIsWrong` shows a grammar for which the machine answers wrongly;
- the search for captures (lpcode.c:131-151) does not end on every accepted pattern; `SearchEnds` says that it ends if and only if
  no rule is entered while it is being searched, `SearchesEnd` asks this of every body the code generator inquires about, and
  `CaptureSearchDiverges` is an instance that meets all other conditions;
- the check for left recursion forgets at a nested grammar that the way to it can be empty (lptree.c:1025-1026); `Fit` asks for the
  check that does not forget, `KeptOrLost` says where both agree, `NestedGrammarLoops` is an accepted grammar that never answers;
- calls under a look-behind are kept out by an assertion only (lpcode.c:138), which lptypes.h:12-13 switches off; the library as it
  is built accepts `S <- B('a' &S)` and does not end (`BehindCallLoops`); `Fit` asks that there are no such calls;
- the search for dirty pages loses a page exactly in the states `LosesPage` describes: at the end of the bulk stage, if the last
  page that was sent is dirty again and is the only one. `Migrate` proves of whole migrations that only the very last page of the
  last block can be lost, `RamSaveComplete` has the equivalence, and `PageLost` is a run that loses it;
- a value comes back from its text if and only if it holds no number and no NUL character (`SerializeUnserialize`); keys that only
  differ in a NUL and three zeros become one key (`KeysCollapse`).

## Model

| member | source | states |
|---|---|---|
| Lpeg.MatchCorrect | support/lpeg-0.12.2/lpcode.c:973-982 | for every accepted pattern (grammars nested in grammars included) that meets the conditions OptSafe, Wf and SearchesEnd, every subject and start: the PEG semantics has an answer, and the machine running the compiled code halts with that answer (end position and captures) and no other |
| Lpeg.CompiledAnswers | support/lpeg-0.12.2/lpcode.c:650-982 | code after call correction and peephole answers as the semantics, wherever the semantics has an answer |
| Lpeg.NeverStuck | support/lpeg-0.12.2/lpvm.c:166-287 | no reachable machine state of a compiled pattern fails an assertion: returns pop calls, commits act on choices, at the end only the give-up entry is left |
| Lpeg.SameMachine | support/lpeg-0.12.2/lpvm.c:314-346 | two checks of captures that the model machine makes and lpvm.c does not never fail on compiled patterns: step by step both machines run alike |
| Lpeg.CapturesNested | support/lpeg-0.12.2/lpvm.c:166-346 | in every state the machine reaches, every close entry of the capture list has its open entry before it, and so it is in every list that a pending choice would restore |
| Lpeg.CapturesBalanced | support/lpeg-0.12.2/lpvm.c:314-346 | in the capture list of a match every open entry also has its close entry |
| Matching.LpMatch | support/lpeg-0.12.2/lptree.c:1143-1168 | from the array of nodes to the answer: fixes the tree in place, compiles it and runs it; the answer is the PEG answer of the pattern as it was written, at the position the Lua index denotes; fails exactly if there is a call outside all grammars |
| Matching.PrepCompile | support/lpeg-0.12.2/lptree.c:1089-1094 | the array then holds the fixed tree, and the code is that of the fixed tree |
| Matching.FixedIsGood | support/lpeg-0.12.2/lptree.c:91-130 | what the library has checked on the tree as it was built holds of the tree as it is fixed: fixing changes neither what the analyses say nor whether they end |
| Matching.StoredEval | support/lpeg-0.12.2/lptree.c:1066-1084 | fixing all grammars in a pattern, however deeply nested, keeps every match |
| Matching.FixedEval | support/lpeg-0.12.2/lptree.c:91-130 | the tree that is compiled matches as the pattern that was written |
| FlatTree.FixPattern | support/lpeg-0.12.2/lptree.c:100-130 | finalfix on a pattern outside grammars: right associative, in place; fails exactly on a call |
| Matching.InitPosition | support/lpeg-0.12.2/lptree.c:1125-1138 | positive indices count from the start, others from the end; indices beyond either end give that end |
| Peg.Eval | support/lpeg-0.12.2/lptree.h:13-29 | big-step meaning of every kind of tree, captures included; a match ends between its start and the end of the subject |
| Peg.EvalMono | support/lpeg-0.12.2/lptree.h:13-29 | an answer does not depend on how many nested calls are allowed |
| Analysis.CheckAuxSound | support/lpeg-0.12.2/lpcode.c:172-206 | not nullable: every match consumes input; no-fail: no match fails; in every grammar, at every depth of the analysis |
| Analysis.FixedLenSound | support/lpeg-0.12.2/lpcode.c:213-246 | a fixed length is the length of every match |
| Analysis.NoCapturesSound | support/lpeg-0.12.2/lpcode.c:131-151 | a pattern in which the search finds no captures leaves none |
| Analysis.SearchEnds | support/lpeg-0.12.2/lpcode.c:131-151 | the search for captures ends, at some depth of nested calls, if and only if in its order no rule is entered while it is being searched; its answer is then that of the search with a set of visited rules |
| Analysis.FindCaptures | support/lpeg-0.12.2/lpcode.c:131-151 | the recursive search as it is written, without any bound, on a pattern on which it ends |
| Analysis.CheckMore | support/lpeg-0.12.2/lpcode.c:172-206 | if the analysis returns within d nested calls, it returns the same with any larger bound |
| Analysis.FirstMore | support/lpeg-0.12.2/lpcode.c:267-342 | the same for first sets |
| Analysis.HeadMore | support/lpeg-0.12.2/lpcode.c:350-372 | the same for the head-fail test |
| Analysis.FirstSound | support/lpeg-0.12.2/lpcode.c:267-342 | a character outside the first set: the pattern fails or matches empty with the character outside the follow set; empty not accepted: it fails at the end of the subject |
| Analysis.FirstMono | support/lpeg-0.12.2/lpcode.c:267-342 | first sets grow with the follow set |
| Analysis.HeadFailExact | support/lpeg-0.12.2/lpcode.c:350-372 | a head-fail pattern succeeds exactly if the next character exists and is in its first set |
| Analysis.HeadFailTakes | support/lpeg-0.12.2/lpcode.c:350-372 | a head-fail pattern does not fail at a character of its first set |
| Analysis.HeadFailNotEmpty | support/lpeg-0.12.2/lpcode.c:350-372 | for every follow set, a head-fail pattern does not accept the empty subject |
| Layout.CharsetTypeMeans | support/lpeg-0.12.2/lpcode.c:41-82 | the class of a set: empty, full, the one member, or none of these |
| CharsetBits.ClassifySet | support/lpeg-0.12.2/lpcode.c:41-82 | one pass over the 32 bytes gives the class of the set the bitmap stands for, without listing it |
| CharsetBits.BitIndex | support/lpeg-0.12.2/lpcode.c:69-76 | halving finds the bit of a one-bit byte |
| Vm.Match | support/lpeg-0.12.2/lpvm.c:147-351 | the interpreter loop computes the answer of the small-step machine |
| Vm.Span | support/lpeg-0.12.2/lpvm.c:222-229 | the span loop stops at the first character outside the set |
| Vm.PopChoice | support/lpeg-0.12.2/lpvm.c:277-287 | failing unwinds calls down to the nearest choice and restores its position and captures |
| Vm.AnswerUnique | support/lpeg-0.12.2/lpvm.c:166-351 | a run has one answer only |
| Blocks.TestRuns | support/lpeg-0.12.2/lpcode.c:587-606 | a test falls through exactly on the characters of its set, and jumps otherwise |
| Blocks.ChoiceTestedRuns | support/lpeg-0.12.2/lpcode.c:655-667 | a choice decided by a test alone keeps the follow-set contract of its parts |
| Blocks.ChoicePartialRuns | support/lpeg-0.12.2/lpcode.c:668-672 | a partial commit that reuses the enclosing choice behaves as p / true |
| Blocks.ChoiceFullRuns | support/lpeg-0.12.2/lpcode.c:673-684 | test, choice, p1, commit, p2 behaves as the ordered choice |
| Blocks.RepSpanRuns | support/lpeg-0.12.2/lpcode.c:752-755 | a span is the repetition of a set |
| Blocks.RepTestedRuns | support/lpeg-0.12.2/lpcode.c:757-766 | a loop left by a test alone keeps the contract of the repetition |
| Blocks.RepChoiceRuns | support/lpeg-0.12.2/lpcode.c:767-784 | a loop with choice and partial commit, with or without an enclosing choice, behaves as the repetition |
| Blocks.NotHeadRuns | support/lpeg-0.12.2/lpcode.c:795-800 | test and fail behave as the negation of a head-fail pattern |
| Blocks.NotChoiceRuns | support/lpeg-0.12.2/lpcode.c:801-809 | choice, p, fail twice behave as the negation |
| Blocks.AndBehindRuns | support/lpeg-0.12.2/lpcode.c:693-699 | p followed by a step back behaves as the look-ahead, for p of fixed length without captures |
| Blocks.AndChoiceRuns | support/lpeg-0.12.2/lpcode.c:700-708 | choice, p, back commit behave as the look-ahead |
| Blocks.BehindRuns | support/lpeg-0.12.2/lpcode.c:632-636 | a step back followed by p behaves as the look-behind |
| Blocks.CaptureFullRuns | support/lpeg-0.12.2/lpcode.c:717-723 | a single full capture after p gives the entries of the capture |
| Blocks.CaptureOpenRuns | support/lpeg-0.12.2/lpcode.c:724-729 | open capture, p, close capture give the entries of the capture, merged into one if nothing lies between |
| Simulation.Sim | support/lpeg-0.12.2/lpcode.c:891-916 | follow-set contract of the code generator for every tree, test, follow set and stack: the code ends where the tree matches, fails where it fails, and may fail early only before a character outside the follow set |
| Simulation.RunRule | support/lpeg-0.12.2/lpcode.c:840-856 | calling a rule returns behind the call exactly if the rule matches |
| Simulation.GrammarEnv | support/lpeg-0.12.2/lpcode.c:840-856 | after the calls are resolved, the code of every rule is at the address its calls refer to |
| Simulation.UnusedOpt | support/lpeg-0.12.2/lpcode.c:749-765 | code that does not use the enclosing choice is the same with and without it |
| Simulation.ProgramCorrect | support/lpeg-0.12.2/lpcode.c:891-982 | the program before call correction and peephole answers as the semantics |
| Tidiness.GenTidy | support/lpeg-0.12.2/lpcode.c:891-916 | every label of the code of a tree stays inside that code, and instructions are whole |
| Tidiness.TidyCorrect | support/lpeg-0.12.2/lpcode.c:816-833 | correcting the calls leaves no open call and no label outside |
| TailCalls.TailAnswers | support/lpeg-0.12.2/lpcode.c:816-833 | replacing any set of calls that are followed only by a return with jumps keeps every answer |
| TailCalls.TailProgram | support/lpeg-0.12.2/lpcode.c:816-856 | the program with tail calls answers as the program without |
| Peephole.ImprovedAnswers | support/lpeg-0.12.2/lpcode.c:928-967 | replacing one instruction with its final target, or the jump by what it jumps to, keeps every answer of every program |
| Peephole.PeepAtAnswers | support/lpeg-0.12.2/lpcode.c:930-964 | one turn of the peephole loop keeps every answer of every program |
| Peephole.PeepAnswers | support/lpeg-0.12.2/lpcode.c:928-967 | the peephole pass keeps every answer of every program |
| Jumps.TargetIsFinal | support/lpeg-0.12.2/lpcode.c:614-626 | following jumps ends if and only if they do not go round in a circle, and then ends at an instruction that is not a jump |
| Jumps.CircleNeverStops | support/lpeg-0.12.2/lpcode.c:614-618 | on a circle of jumps the search for the target never ends |
| Jumps.FindTarget | support/lpeg-0.12.2/lpcode.c:614-618 | the loop as it is written, without any bound: ends at the final target if there is no circle |
| Jumps.RulesCorrected | support/lpeg-0.12.2/lpcode.c:816-833 | in the corrected code of an accepted grammar the jumps from every address end: a circle would need left recursion |
| Jumps.CorrectingNoCircle | support/lpeg-0.12.2/lpcode.c:816-833 | nor is there a circle in any state in which only some calls have been corrected |
| Jumps.GenNoLoop | support/lpeg-0.12.2/lpcode.c:650-916 | the jumps in the code of an accepted tree end, wherever one starts |
| Jumps.GenStarts | support/lpeg-0.12.2/lpcode.c:650-916 | the jumps at the start of the code of a tree lead to a call only if the left-recursion check enters that call, and to the end only if it finds the tree nullable |
| Jumps.ProgramNoCircle | support/lpeg-0.12.2/lpcode.c:973-982 | the program that the peephole pass gets has no circle of jumps |
| Jumps.PeepNoCircle | support/lpeg-0.12.2/lpcode.c:930-964 | each turn of the peephole loop leaves a program without circles |
| Jumps.PassNoCircle | support/lpeg-0.12.2/lpcode.c:928-967 | and so does the whole pass |
| GrammarCheck.MatchEnds | support/lpeg-0.12.2/lptree.c:950-1050 | every pattern that passes the checks, with grammars nested to any depth, has an answer on every subject at every position |
| GrammarCheck.PieceEnds | support/lpeg-0.12.2/lptree.c:989-1027 | the same for every part of every used rule, by remaining input, then left calls, then size |
| GrammarCheck.VerdictNullable | support/lpeg-0.12.2/lptree.c:989-1027 | the check reports nullable whenever the pattern may match the empty string |
| GrammarCheck.VerdictFlag | support/lpeg-0.12.2/lptree.c:989-1027 | acceptance does not depend on the flag that is passed along |
| GrammarCheck.AnalysesEnd | support/lpeg-0.12.2/lpcode.c:172-372 | on every tree the code generator works on, the three analyses return, in every part they go into, also where they do not use what they find: none follows more nested calls in a grammar than the model allows |
| GrammarCheck.KeptIsStronger | support/lpeg-0.12.2/lptree.c:989-1027 | a rule that passes with the flag kept passes the check of the code, from any weaker flag |
| GrammarCheck.KeptOrLost | support/lpeg-0.12.2/lptree.c:989-1027 | a check that keeps the nullable flag at nested grammars is stronger than the one in the code, and agrees with it unless some non-nullable nested grammar is met with the flag set |
| GrammarCheck.NothingLost | support/lpeg-0.12.2/lptree.c:1025-1026 | the verdict is the promised one wherever the flag is not lost |
| Limits.ReusedChoiceIsWrong | support/lpeg-0.12.2/lpcode.c:762 | (xy (a (ab)?)*)? on "xyaac": the compiled code ends at 3, the semantics at 4 |
| Limits.OptMatters | support/lpeg-0.12.2/lpcode.c:762 | passing the flag into the loop body changes the code if and only if the body uses the enclosing choice |
| Limits.CaptureSearchDiverges | support/lpeg-0.12.2/lpcode.c:693-695 | S <- 'a' &S / 'b' meets every other condition of the theorems, and the search that the code generator makes about it does not end at any depth |
| Limits.NestedGrammarLoops | support/lpeg-0.12.2/lptree.c:1025-1026 | a grammar that the check accepts because it loses the flag, whose matching calls itself forever; with the flag kept the check rejects it |
| Limits.BehindCallLoops | support/lpeg-0.12.2/lpcode.c:138-138 | without the assertion that a look-behind has no open call, a left-recursive call under one is accepted and never answers |
| Limits.WideGrammarIsWrong | support/lpeg-0.12.2/lpcode.c:859-863 | rule numbers are kept in a byte: in an accepted grammar with 258 rules a call of rule 257 calls rule 1, and the machine matches what the grammar does not |
| Captures.EvalBalanced | support/lpeg-0.12.2/lpvm.c:314-346 | every match leaves a well bracketed list |
| Captures.StepNested | support/lpeg-0.12.2/lpvm.c:166-346 | every instruction, in any code, keeps the capture list and the saved lists well bracketed |
| Captures.RunNested | support/lpeg-0.12.2/lpvm.c:166-346 | so does every run of any code |
| Captures.PartnersUnique | support/lpeg-0.12.2/lpcap.c:49-76 | an open entry has one partner, and so has a close entry |
| Captures.FindOpen | support/lpeg-0.12.2/lpcap.c:49-58 | from a close entry of a list that may still have open ends the search back finds its partner |
| Captures.NextCap | support/lpeg-0.12.2/lpcap.c:63-76 | the cursor moves behind the whole capture: past the partner of an open entry |
| Compiler.Compile | support/lpeg-0.12.2/lpcode.c:973-982 | the imperative compiler produces exactly the code about which the theorems are |
| Compiler.CompileState.CodeGen | support/lpeg-0.12.2/lpcode.c:891-916 | appends the code of the tree and changes nothing before it |
| Compiler.CompileState.CodeSeq1 | support/lpeg-0.12.2/lpcode.c:871-884 | appends the code of the first part, compiled for the first set of the second; keeps or drops the test |
| Compiler.CompileState.CodeChoice | support/lpeg-0.12.2/lpcode.c:650-685 | appends the code of the choice, in one of its three forms |
| Compiler.CompileState.CodeRep | support/lpeg-0.12.2/lpcode.c:749-785 | appends the code of the repetition, in one of its three forms |
| Compiler.CompileState.CodeNot | support/lpeg-0.12.2/lpcode.c:795-809 | appends the code of the negation |
| Compiler.CompileState.CodeAnd | support/lpeg-0.12.2/lpcode.c:693-709 | appends the code of the look-ahead, in the form the search for captures decides |
| Compiler.CompileState.CodeBehind | support/lpeg-0.12.2/lpcode.c:632-637 | appends the code of the look-behind |
| Compiler.CompileState.CodeCapture | support/lpeg-0.12.2/lpcode.c:717-730 | appends the code of the capture, in the form the search for captures decides |
| Compiler.CompileState.CodeTestSet | support/lpeg-0.12.2/lpcode.c:587-606 | appends the cheapest test for a set, or none |
| Compiler.CompileState.CodeCharset | support/lpeg-0.12.2/lpcode.c:561-576 | appends the match of a set, without repeating the test that protects it |
| Compiler.CompileState.CodeChar | support/lpeg-0.12.2/lpcode.c:534-540 | appends the match of a character, without repeating the test that protects it |
| Compiler.CompileState.CodeGrammar | support/lpeg-0.12.2/lpcode.c:840-856 | appends the call of the first rule, the rules, and corrects all calls |
| Compiler.CompileState.FixCalls | support/lpeg-0.12.2/lpcode.c:816-833 | corrects the open calls of the grammar and nothing else; every search for a return ends |
| Compiler.CompileState.ThreadJumps | support/lpeg-0.12.2/lpcode.c:928-967 | the peephole pass over the whole code; every search for a target ends |
| FlatTree.CorrectAssociativity | support/lpeg-0.12.2/lptree.c:78-90 | in place: the slots of the subtree hold its right-associative form, no other slot changes, and the loop ends |
| FlatTree.RotateStep | support/lpeg-0.12.2/lptree.c:81-89 | one turn: (a b) c becomes a (b c) in the same slots |
| FlatTree.RotateEval | support/lpeg-0.12.2/lptree.c:78-90 | the rotated tree matches the same, captures included |
| FlatTree.RightEval | support/lpeg-0.12.2/lptree.c:100-126 | fixing all rules keeps the result of every match |
| FlatTree.RightIsRight | support/lpeg-0.12.2/lptree.c:100-126 | no sequence or choice is left with one of its own kind as first part |
| FlatTree.FixOneCall | support/lpeg-0.12.2/lptree.c:54-68 | an open call becomes a call with the distance to its rule, and the rule gets its name; fails exactly if there is no such rule |
| FlatTree.FinalFix | support/lpeg-0.12.2/lptree.c:100-126 | in place: the slots of the tree hold the fixed tree, all other slots are unchanged but for the names of the rules it calls; fails exactly if a call has no rule |
| FlatTree.FixRules | support/lpeg-0.12.2/lptree.c:100-126 | the same for the list of rules of a grammar |
| FlatTree.FixGrammar | support/lpeg-0.12.2/lptree.c:1066-1084 | a grammar as built ends up fixed, with names for exactly the rules in use |
| FlatTree.NamedAreUsed | support/lpeg-0.12.2/lptree.c:1032-1050 | the named rules are those that the grammar check looks at |
| FlatTree.GrammarEval | support/lpeg-0.12.2/lptree.c:1066-1084 | the grammar in the array matches as the one that was built |
| FlatTree.LaidMove | support/lpeg-0.12.2/lptree.h:35-52 | what a stretch of nodes stands for depends on those nodes only, not on where they are |
| FlatTree.CheckNodes | support/lpeg-0.12.2/lpcode.c:172-206 | the unbounded recursion over the nodes, calls and nested grammars included, gives the answer of the analysis of the tree |
| Build.SequenceEval | support/lpeg-0.12.2/lptree.c:528-539 | the simplified sequence matches as the plain one |
| Build.ChoiceEval | support/lpeg-0.12.2/lptree.c:547-562 | the simplified choice matches as the plain one |
| Build.DifferenceEval | support/lpeg-0.12.2/lptree.c:623-642 | the simplified difference matches as not-t2 t1 |
| Build.AtLeastMeans | support/lpeg-0.12.2/lptree.c:572-580 | p^n: fails if fewer than n copies match, else goes on as a repetition after n of them |
| Build.AtMostMeans | support/lpeg-0.12.2/lptree.c:581-594 | p^-n: matches as many copies as it can, at most n, and never fails |
| Build.StarAtLeast | support/lpeg-0.12.2/lptree.c:572-580 | the new array has exactly the size of the tree and holds it |
| Build.StarAtMost | support/lpeg-0.12.2/lptree.c:581-594 | the new array has exactly the size of the tree and holds it |
| Build.LpStar | support/lpeg-0.12.2/lptree.c:568-598 | holds the tree of p^n; refuses exactly a loop over a body that the analysis, with open calls not nullable, finds nullable; the new tree has no empty loop |
| Build.StarChecked | support/lpeg-0.12.2/lptree.c:568-598 | what is not refused has no loop over a nullable body |
| Build.CollectRules | support/lpeg-0.12.2/lptree.c:899-925 | the position table and the size of the array, from the sizes of the rules |
| Build.BuildGrammar | support/lpeg-0.12.2/lptree.c:928-944 | the array holds the rules in their order, none named, no call resolved |
| Build.NewGrammar | support/lpeg-0.12.2/lptree.c:1066-1084 | the array holds the right-associative grammar with names for exactly the rules in use; fails exactly if a call has no rule or there are too many rules |
| Build.SeqAux | support/lpeg-0.12.2/lptree.c:385-389 | adds one sequence node and its first child |
| Serialising.RunsAreSafe | support/qemu-2.2.0/block.c:2295-2434 | in every run no two conflicting requests have both passed their wait, the counter is the number of serialising requests, and nobody waits for a waiting request |
| Serialising.StepKeeps | support/qemu-2.2.0/block.c:2295-2434 | every event keeps the invariant |
| Serialising.NoSecondWait | support/qemu-2.2.0/block.c:3255-3258 | in every run a request that has passed its wait does not wait again |
| Serialising.Acyclic | support/qemu-2.2.0/block.c:2392-2434 | in every run the waiting_for graph has no cycle; its longest paths are single edges |
| Serialising.SomeoneCanGoOn | support/qemu-2.2.0/block.c:2392-2434 | in every run, while requests are tracked, one of them has passed or is waiting for one that has ended |
| Serialising.FastPath | support/qemu-2.2.0/block.c:2399-2401 | with the counter at zero no request would make another wait |
| Serialising.ScanExclusive | support/qemu-2.2.0/block.c:2404-2431 | after the scan a request waits or conflicts with none that has passed |
| Serialising.PassedNeverWaits | support/qemu-2.2.0/block.c:2392-2434 | a request that has passed finds nothing to wait for |
| Serialising.RemarkSame | support/qemu-2.2.0/block.c:2329-2343 | marking a request again with the same alignment changes nothing |
| Serialising.MarkCovers | support/qemu-2.2.0/block.c:2329-2343 | the marked range is the aligned blocks of the request, and holds the request |
| Serialising.BegunKeeps | support/qemu-2.2.0/block.c:2308-2327 | a new request, marked or not, leaves the others exclusive, the counter right and the waiting graph without chains; nobody waits for it |
| Serialising.FinishKeeps | support/qemu-2.2.0/block.c:2295-2304 | ending a request keeps the whole invariant |
| Serialising.BlockDriverState.MarkRequestSerialising | support/qemu-2.2.0/block.c:2329-2343 | widens the range, counts the request once |
| Serialising.BlockDriverState.WaitSerialisingRequests | support/qemu-2.2.0/block.c:2392-2434 | one scan of the list: waits for the first request in it that is in the way and not waiting itself |
| Serialising.BlockDriverState.StartRequest | support/qemu-2.2.0/block.c:3333-3346 | tracking, marking and waiting together keep the invariant |
| Serialising.BlockDriverState.WakeUp | support/qemu-2.2.0/block.c:2420-2426 | waking up and scanning again keeps the invariant |
| Writes.RunsAreAtomic | support/qemu-2.2.0/block.c:3163-3413 | whatever requests run together, in any order of their steps, and however the driver splits its writes: the disk is what the requested bytes give, piece by piece in the order they were written; a write that the driver fails damages no more than its own blocks |
| Writes.WriteArrives | support/qemu-2.2.0/block.c:3299-3413 | when an unaligned write is done, all its bytes are on the disk, whatever else ran between its reads and its writes |
| Writes.DoKeeps | support/qemu-2.2.0/block.c:3299-3413 | every step of every request keeps the buffers of the others current |
| Writes.OthersCurrent | support/qemu-2.2.0/block.c:3333-3401 | a write does not touch blocks that another request has read, or is writing as the only one |
| Writes.DiskAfter | support/qemu-2.2.0/block.c:3328-3405 | each step of a write changes the disk in exactly the requested bytes, whatever ran since its blocks were read |
| Writes.PieceWrite | support/qemu-2.2.0/block.c:3328-3405 | writing any part of the padded vector changes exactly the requested bytes in it, also if head and tail share a block |
| Writes.WriteIsClaimed | support/qemu-2.2.0/block.c:3255-3258 | the aligned write lies in the range its request claims, and the request does not wait again |
| Writes.BlocksInside | support/qemu-2.2.0/block.c:3335-3401 | the blocks that are read lie inside the claimed range |
| Writes.Device.PadHead | support/qemu-2.2.0/block.c:3334-3364 | the request moved down to a block boundary, with the bytes of the disk before it put in front |
| Writes.Device.PadTail | support/qemu-2.2.0/block.c:3366-3400 | the request extended up to a block boundary, with the bytes of the disk after it put behind |
| Writes.Device.DoPwritev | support/qemu-2.2.0/block.c:3299-3413 | head read, tail read and one aligned write change exactly the requested bytes; if a read fails, nothing changes |
| Writes.Device.WriteBlocks | support/qemu-2.2.0/block.c:3240-3295 | an aligned write replaces exactly its blocks |
| Multiwrite.MultiwriteMerge | support/qemu-2.2.0/block.c:4447-4512 | the requests that remain do to any disk what the given ones do in the order of their sectors, and in any order if these write to different places; they are sorted and consistent, and no merged one exceeds the transfer or vector limit |
| Multiwrite.MergeSorted | support/qemu-2.2.0/block.c:4447-4512 | the merging loop on sorted requests: the requests that remain do to any disk what the given ones do |
| Multiwrite.AnyOrder | support/qemu-2.2.0/block.c:4427-4442 | requests for different places do the same in every order |
| Multiwrite.MergedMeans | support/qemu-2.2.0/block.c:4476-4504 | the merged request does what the two do one after the other; it has the right sector count, at most both together, and at most one more buffer |
| Multiwrite.MergedBytes | support/qemu-2.2.0/block.c:4482-4500 | the merged bytes are the first request's, overwritten by the second's |
| Multiwrite.MergeTwo | support/qemu-2.2.0/block.c:4476-4504 | the three concatenations build the merged request |
| Multiwrite.Concat | support/qemu-2.2.0/util/iov.c:298-338 | appends the parts of the vector that hold the wanted bytes, or as many as there are; its assertion holds whenever the offset is not beyond the end |
| Multiwrite.CutFlat | support/qemu-2.2.0/util/iov.c:298-322 | those parts hold exactly the wanted bytes |
| Multiwrite.TwoCuts | support/qemu-2.2.0/util/iov.c:298-322 | a vector cut in two has at most one more part |
| Xbzrle.RoundTrip | support/qemu-2.2.0/xbzrle.c:26-175 | decoding the delta onto the old page gives the new page, for all pages |
| Xbzrle.EncodeBuffer | support/qemu-2.2.0/xbzrle.c:26-126 | writes exactly the delta; gives up only if the buffer has less than two bytes more room than it |
| Xbzrle.DecodeBuffer | support/qemu-2.2.0/xbzrle.c:128-175 | decodes in place; reports exactly the malformed deltas |
| Xbzrle.EndOfEqual | support/qemu-2.2.0/xbzrle.c:43-62 | bytes, then words, then bytes: finds the end of the run of equal bytes |
| Xbzrle.EndOfDiff | support/qemu-2.2.0/xbzrle.c:85-111 | bytes, then words with the bit test: finds the end of the run of changed bytes |
| Xbzrle.ZeroByteTest | support/qemu-2.2.0/xbzrle.c:96-101 | the word test is true exactly if some byte of the word is zero |
| Xbzrle.WordTest | support/qemu-2.2.0/xbzrle.c:96-101 | on the xor of the words that eight bytes of each page make up, the test is true exactly if the pages have one of the eight bytes in common |
| Xbzrle.EmptyDelta | support/qemu-2.2.0/xbzrle.c:66-69 | the delta is empty exactly if the pages are equal |
| Xbzrle.UlebRoundTrip | support/qemu-2.2.0/util/cutils.c:490-517 | lengths survive encoding |
| Xbzrle.PutUleb | support/qemu-2.2.0/util/cutils.c:490-501 | appends the encoded length |
| Migration.SavedIsReceived | support/qemu-2.2.0/arch_init.c:577-644 | if the cache mirrors the destination for a page, what is sent for it decodes to the intended page, and the cache mirrors it again |
| Migration.SaveRestores | support/qemu-2.2.0/arch_init.c:577-644 | saving a page restores the invariant, whatever the guest writes meanwhile: the cache mirrors the destination, and every page that differs is marked |
| Migration.OtherSlots | support/qemu-2.2.0/arch_init.c:354-413 | saving a page changes no cached copy of another one |
| Migration.QuietSave | support/qemu-2.2.0/arch_init.c:577-644 | a page that the guest leaves alone arrives as it is |
| Migration.SyncKeeps | support/qemu-2.2.0/arch_init.c:452-485 | moving the dirty log to the bitmap keeps the invariant and the count |
| Migration.ClearLeaves | support/qemu-2.2.0/arch_init.c:416-437 | clearing a dirty bit leaves all but that page marked |
| Migration.NothingLeft | support/qemu-2.2.0/arch_init.c:929-956 | when nothing is marked the destination has the guest's memory |
| Migration.InsertedMeans | support/qemu-2.2.0/page_cache.c:154-181 | inserting fails exactly if the slot is empty and there is no memory; afterwards the page is cached, and of all others just the one in its slot is gone |
| RamSearch.RamMigration.FindAndSaveBlock | support/qemu-2.2.0/arch_init.c:653-693 | ends; clears a bit only for a page it gives to ram_save_page, except in the one state that loses a page; finds nothing only if no block page is dirty; keeps the invariant in both cases |
| RamSearch.RamMigration.Turn | support/qemu-2.2.0/arch_init.c:664-687 | one turn of the search loop keeps what the search knows and makes progress |
| RamSearch.RamMigration.RamSavePage | support/qemu-2.2.0/arch_init.c:577-644 | sends a zero page, a delta or a full page, and updates the cache accordingly |
| RamSearch.RamMigration.SaveXbzrle | support/qemu-2.2.0/arch_init.c:354-413 | the delta of the cached copy, or a full page on a miss or an overflow |
| RamSearch.RamMigration.FindAndReset | support/qemu-2.2.0/arch_init.c:416-437 | the next dirty page of the block, or the next page in the bulk stage; clears its bit and counts it |
| RamSearch.RamMigration.BitmapSyncRange | support/qemu-2.2.0/arch_init.c:452-485 | by words or by pages: the log of the block is moved, the count is exact |
| RamSearch.RamMigration.BitmapSync | support/qemu-2.2.0/arch_init.c:501-521 | the whole log is moved to the bitmap |
| RamSearch.RamMigration.RamSaveComplete | support/qemu-2.2.0/arch_init.c:929-956 | with the guest stopped: the destination ends up with the guest's memory except for lost pages, which are those lost before, or the one that is lost now if the state before the call loses one; it has all of it if and only if no lost page differed |
| RamSearch.RamMigration.SaveRest | support/qemu-2.2.0/arch_init.c:939-950 | the loop ends with nothing dirty; only its first search can lose a page |
| RamSearch.Migrate | support/qemu-2.2.0/arch_init.c:777-956 | a whole migration, with guest writes, synchronisations and searches in any order: the destination ends up with the guest's memory in every page but at most the very last page of the last block |
| RamSearch.RamMigration.constructor | support/qemu-2.2.0/arch_init.c:777-829 | after setup everything is dirty and the invariant holds |
| RamSearch.PageLost | support/qemu-2.2.0/arch_init.c:426-436 | a migration from setup to completion that loses a page: both pages are sent in the bulk stage, the guest writes the second, completion leaves the old one at the destination |
| RamSearch.WrapDone | support/qemu-2.2.0/arch_init.c:667-670 | after the end of the bulk stage the search ends with nothing dirty, or loses the one dirty page |
| RamSearch.NormalDone | support/qemu-2.2.0/arch_init.c:667-670 | outside the bulk stage the search ends only with nothing dirty |
| Tlb.State.FlushPage | support/qemu-2.2.0/cputlb.c:84-122 | no main or victim entry is left for a mapping whose block holds the address; entries of other pages are kept unless the whole TLB is flushed |
| Tlb.State.Flush | support/qemu-2.2.0/cputlb.c:51-71 | empties both tables and forgets the region |
| Tlb.State.SetPage | support/qemu-2.2.0/cputlb.c:248-328 | the new entry, with the flags its memory asks for in each of the three addresses, is in its slot, the old one in the victim table; everything else is kept, and so is the invariant |
| Tlb.AddLargePage | support/qemu-2.2.0/cputlb.c:224-243 | the region covers the new page and all it covered before |
| Tlb.Widened | support/qemu-2.2.0/cputlb.c:237-240 | the mask loop ends, with a mask under which both addresses agree |
| Tlb.FlushedIsGone | support/qemu-2.2.0/cputlb.c:72-82 | flushing a page removes every entry for a mapping whose block holds the address, outside the region |
| Tlb.OtherSlot | support/qemu-2.2.0/cputlb.c:107-111 | an entry in another slot cannot map the address |
| Dump.GetOffsetRange | support/qemu-2.2.0/dump.c:369-425 | gives the offset at which the dump holds the address, with as many bytes as follow in the block; none exactly if no block in range holds it |
| Dump.DumpState.DumpIterate | support/qemu-2.2.0/dump.c:603-628 | writes the parts of all blocks in range, in order, and nothing else |
| Dump.DumpState.GetStartBlock | support/qemu-2.2.0/dump.c:1399-1425 | finds the first block in range and where its part begins, or none |
| Dump.DumpState.GetNextBlock | support/qemu-2.2.0/dump.c:575-600 | finds the next block in range and where its part begins |
| Dump.OffsetsAgree | support/qemu-2.2.0/dump.c:369-425 | at the offset of every address in range the dump holds that address |
| Serialize.RoundTrip | old/c/serialize.c:79-223 | parsing what was printed of a value without numbers, wherever it stands in a text, stops right behind it and gives the value back, but for NUL characters and for keys that have become equal |
| Serialize.SerializeUnserialize | old/c/serialize.c:143-234 | for every value whose tables have no string or boolean key twice, as in Lua: the text parses, as a whole, to the value it was printed from if and only if the value holds no number and no NUL character |
| Serialize.BackSame | old/c/serialize.c:79-223 | a value is what it comes back as exactly if it holds no number and no NUL character |
| Serialize.KeysCollapse | old/c/serialize.c:191-206 | two string keys that come back as the same string are one key afterwards, with the second value |
| Serialize.SerializeVariable | old/c/serialize.c:79-136 | appends the text of the value to the buffer |
| Serialize.SerializeString | old/c/serialize.c:92-114 | appends the quoted string, escaped |
| Serialize.SerializeTable | old/c/serialize.c:115-133 | appends the entries between braces, separated by commas |
| Serialize.UnserializeVariable | old/c/serialize.c:174-223 | the moving-pointer parser computes the parse of the text |
| Serialize.UnserializeString | old/c/serialize.c:180-190 | finds the closing quote and the cleaned contents |
| Serialize.UnserializeTable | old/c/serialize.c:191-204 | reads the entries up to the closing brace |
| Serialize.PushClean | old/c/serialize.c:156-167 | copies without the backslashes |
| Serialize.QuoteFound | old/c/serialize.c:180-187 | scanning any escaped string finds its end and the length of what comes back |
| Serialize.Cleaned | old/c/serialize.c:156-167 | cleaning undoes escaping, but for NUL characters |
| Serialize.CharBuf.MakeSpace | old/c/serialize.c:39-44 | grows until there is room, keeping the contents |
| Serialize.CharBuf.AddString | old/c/serialize.c:45-50 | appends the string |
| Serialize.CharBuf.AddChar | old/c/serialize.c:51-55 | appends the character |
| Serialize.NumbersComeBackAsStrings | old/c/serialize.c:214-221 | a number comes back as the string of its leading digits, dots and signs, so without its exponent; inf and nan do not come back at all |
| Serialize.NulComesBackAsDigits | old/c/serialize.c:104-107 | every string comes back with three digits for each NUL, so unchanged exactly if it has none |

## Left out

- LPeg run-time captures, the values captures push, `substcap`, `pushnestedvalues` and `findback`: they call Lua code that is not part of this model.
- LPeg ktables: a call is known by its rule number, and rule r has key r + 1; merging and renumbering of keys is not modelled.
- LPeg's limits on the backtrack stack and the capture array: both are unbounded here, and the stack is a list.
- Lpeg.MatchCorrect: the conditions OptSafe and the byte-sized rule numbers are sufficient, not necessary; a program compiled outside them can still be right.
- GrammarCheck.MatchEnds: asks for the check that keeps the nullable flag at nested grammars and for no calls under a look-behind, because the checks of the library as it is built are too weak there; see Limits.NestedGrammarLoops and Limits.BehindCallLoops.
- Vm.Match: takes a ghost bound on the number of steps, since machine programs in general need not halt; an instruction that fails twice is stuck unless its entry is a choice.
- Build.CollectRules: takes the patterns of the rules in their order; reading them from a Lua table is not modelled.
- Serialising.RunsAreSafe: the address of a request that has ended is not used again while some request still holds it.
- Writes.RunsAreAtomic: the disk is unbounded, with anything beyond the end of the file read as it is there; a read of one block is one step; discards and flushes, which leave the bytes alone, are not modelled.
- Multiwrite.MultiwriteMerge: the order of requests for equal sectors is the C library's, so it is any order here.
- Migration.SavedIsReceived: the RDMA hooks, accounting, rate limits and the stream format around the page data are left out.
- RamSearch.RamMigration.FindAndSaveBlock: the list of blocks does not change during a migration; blocks are not empty and do not overlap.
- RamSearch.RamMigration.BitmapSyncRange: a word of the dirty log is a set of 64 pages; the bit count of a word is the size of the set.
- Tlb.State.SetPage: asks for a page-aligned address and a power-of-two size; physical addresses, the iotlb and the jump cache are left out.
- Dump.GetOffsetRange: addresses are unbounded, so that sums do not wrap; headers, notes and the compressed format are left out.
- Serialize.RoundTrip: a table is the list of its entries in the order in which they were set; the order in which 'lua_next' goes through a new table is not modelled.
- Serialize.UnserializeVariable: where the original would read past the end of the text or return success without a value, the model says Broken.
- QEMU's coroutines, event loops, block migration, block jobs, gdb stub and CPU loops, LPeg's printers, and the other C files under old/c and lua/c.
