# Models of csh and dd

This project models the hardest parts of two programs of a BSD userland, the C shell (`bin/csh`) and
`dd` (`bin/dd`), and proves what they are meant to keep, compute or undo. Code that works in place is
modelled in place: the variable tree with heap objects, buffers and vectors with arrays, tables with
the fields of a class. Each such method is proved against a specification, and the specifications are
the subject of the lemmas.

| files | what they model |
|---|---|
| `Names`, `VarTree`, `Vars`, `VarStore` | the variable table: a balanced tree with parent pointers, rebalanced by one loop for insertion and deletion (`set.c`, `str.c`) |
| `Numbers`, `Expr`, `Values` | numbers as strings, the expression evaluator with its ignore mode, and what its operators come to (`set.c`, `exp.c`) |
| `Dirs`, `DirStack` | the ring of directories with counts (`dir.c`) |
| `Procs`, `Jobs`, `Shell` | the table of processes and jobs, and whole runs of job control together with directory commands (`proc.c`, `dir.c`) |
| `Grammar`, `Parser`, `Written`, `RoundTrip`, `Parsed` | the command grammar, the parser as it runs, commands as words, parsing as the inverse of writing, and flags, keywords and errors (`parse.c`) |
| `Braces`, `Room`, `BraceRun`, `Patterns`, `Limits` | brace expansion, its worklist and its fixed buffer, the product it stands for, and when the buffer is long enough (`glob.c`) |
| `CStrings`, `Canon` | canonical path names, made in a buffer (`dir.c`) |
| `Input` | the input buffers, with and without seeking (`lex.c`) |
| `Hash` | the search for a command with and without the table of bits (`exec.c`) |
| `Dd`, `DdSizes`, `DdFields` | the operands of `dd`, the sizes in them, and what they leave (`args.c`) |
| `Options`, `Naturals` | values that may be missing, and arithmetic that several parts need |

`dafny verify dfyconfig.toml` verifies the whole.

## How the source is represented

- An `int` has 32 bits. Sums, products and the digits of `getn` wrap; a shift by less than 0 or by more than
  31 has no meaning in C and is an error of its own (`Undefined`) in the model. `dd` is modelled for an LP64
  machine: a negative offset compared with a `size_t` becomes a large number.
- Directory entries and processes live in an explicit memory, a map from pointers to records. Freeing takes
  the pointer out of the map, so every dereference is proved to be of something not yet freed. Nodes of the
  variable tree are heap objects.
- A list of words (`struct wordent`) is a sequence; a range of it is a slice, and the one thing asked of the
  word after a range, whether it begins with a closing parenthesis, is a parameter.
- What the operating system answers (fork, wait, chdir, read, stat, readdir) is a parameter. `Shell.Possible`
  says what is taken for granted: a child's id is not in use, and only a child that has not ended is reported on.

## Where the source does not keep what one would expect

- `1 || 1 << 32`: a shift is worked out even where its value is not wanted. `Expr.ExprMeaning` says exactly when
  this shows, by the shift amounts that the text leaves (`Expr.SkipFits`); `Expr.SkippedShift` gives a family of them,
  `Expr.TameQuiet` rules it out for texts without such shifts.
- `{}` is left alone as a word, and with it every word that comes down to it on the way, such as `{}{}`;
  `Patterns.ExpansionIsProduct` has the exact condition.
- Brace expansion cuts a word that does not fit its buffer, and that can happen on the way to results that are all
  short (`Limits.ShortResultsLost`). `Limits.ExactlyWhenGood` has the exact condition, which only the words left by
  the first group decide. This is `expbrace` taken alone: the readers of words (`lex.c:332`, `dol.c:194`, `dol.c:257`,
  `glob.c:758`) give up on longer ones first, and in words that short everything fits (`Room.ShortFits`).
- A last `.` after nothing but the root stays: `/.` is not made `/`. `Canon.Dcanon` has the exact condition.
- `conv=ebcdic conv=ibm` and `conv=ibm conv=ebcdic` differ in the table used (`Dd.TableDepends`), and in nothing else
  (`Dd.AnyOrder`). `Dd.OrderExact` says exactly when the order of operands shows.
- `dd` sizes that overflow are not all found out, and products of zero are refused unless the zero comes first
  (`DdSizes.OverflowPasses`, `DdSizes.ZeroRefused`). `DdSizes.TrueProduct` says exactly when a size is the product.
- A command that is put in a directory of the path after the table was made may not be found
  (`Hash.NewCommandMissed`); `Hash.TableExact` says exactly when.

## Model

| member | source | states |
|---|---|---|
| `Names.Strcmp` | bin/csh/str.c:236-253 | negative, zero or positive exactly as the first string is below, equal to or above the second in dictionary order, the end of a string being below every character |
| `Names.LexTrichotomy` | bin/csh/str.c:236-253 | of two strings exactly one is below the other or they are equal |
| `Names.LexTransitive` | bin/csh/str.c:236-253 | the dictionary order is transitive |
| `Names.Compare` | bin/csh/set.c:425-426 | the test at a node (difference of first characters, then Strcmp) has the sign of the tree's order |
| `Names.BelowTrichotomy` | bin/csh/set.c:425-426 | the composite test is total: below, equal or above, and only one of them |
| `Names.BelowTransitive` | bin/csh/set.c:425-426 | the composite test is transitive |
| `VarTree.FibonacciBound` | bin/csh/set.c:664-754 | a balanced tree of height h holds at least Fib(h+2)-1 names |
| `VarTree.HeightBound` | bin/csh/set.c:664-754 | so its height is logarithmic in the number of names |
| `VarTree.FixRightBalances` | bin/csh/set.c:689-711 | the single or double rotation of a right-heavy node gives a balanced subtree of the right height with the right balances |
| `VarTree.FixLeftBalances` | bin/csh/set.c:722-744 | the same for a left-heavy node |
| `VarTree.FixRightSameWalk` | bin/csh/set.c:689-711 | the rotation keeps the nodes and their in-order sequence |
| `VarTree.FixLeftSameWalk` | bin/csh/set.c:722-744 | the same for a left-heavy node |
| `Vars.RotateLeft` | bin/csh/set.c:637-642 | the rotation in place relinks children and parents into the rotated tree |
| `Vars.RotateRight` | bin/csh/set.c:631-636 | the same the other way round |
| `Vars.FixRightInPlace` | bin/csh/set.c:689-711 | the rotations and balance updates in place give the repaired subtree, hung where the old one was |
| `Vars.FixLeftInPlace` | bin/csh/set.c:722-744 | the same for a left-heavy node |
| `Vars.RestoreRight` | bin/csh/set.c:681-713 | a node whose right side grew or left side shrank becomes a balanced subtree; its height falls exactly when a rotation shortens it, and balance 0 says whether to stop |
| `Vars.RestoreLeft` | bin/csh/set.c:714-746 | the mirror image |
| `Vars.Balance` | bin/csh/set.c:664-754 | one loop serves insertion and deletion: wherever it stops early, the whole tree is balanced, linked both ways, and holds the same nodes in the same order |
| `VarStore.Table.Adrof1` | bin/csh/set.c:420-432 | finds a node exactly if the name is bound, with its last value, in a number of steps logarithmic in the number of variables |
| `VarStore.Table.Setq` | bin/csh/set.c:469-492 | the table becomes the old one with the name bound to the value; order, balance and parent links are kept |
| `VarStore.Table.Place` | bin/csh/set.c:475-484 | the search finds the node of that name or the empty link where it belongs |
| `VarStore.Table.Graft` | bin/csh/set.c:485-490 | a new leaf at that link, then rebalancing, adds the one name and keeps the tree well formed |
| `VarStore.Table.Unsetv1` | bin/csh/set.c:537-576 | the table becomes the old one without that name, although another node may be the one freed; the tree stays well formed |
| `VarStore.Predecessor` | bin/csh/set.c:557-558 | the rightmost node of the left subtree is the one whose contents move up |
| `VarStore.Splice` | bin/csh/set.c:567-575 | a node with one child at most is taken out and the tree is rebalanced from its parent |
| `VarStore.Table.Unsetv` | bin/csh/set.c:527-534 | removes the name if it is bound and says whether it was |
| `VarStore.Table.Unset1` | bin/csh/set.c:512-524 | exactly the variables that no pattern matches are left, with their values |
| `VarStore.Madrof` | bin/csh/set.c:406-417 | the first node in order that the pattern matches, or none if none matches |
| `VarStore.Table.Plist` | bin/csh/set.c:757-793 | lists every variable once, with its value, in strictly ascending order |
| `VarStore.Walk` | bin/csh/set.c:769-792 | the walk along parent pointers ends and visits the in-order sequence of the tree |
| `VarStore.Next` | bin/csh/set.c:783-790 | the step of the walk goes to the in-order successor |
| `VarStore.Replay` | bin/csh/set.c:469-576 | after any run of sets and unsets from an empty table the tree is well formed and holds each name with the value it was last given, if not removed since |
| `VarStore.StepsBound` | bin/csh/set.c:425-430 | a search no longer than the height takes at most logarithmically many steps |
| `Numbers.Putn1` | bin/csh/set.c:366-371 | decimal digits that denote the number, without a leading zero |
| `Numbers.Getn` | bin/csh/set.c:374-394 | the number of an optional sign and digits, wrapped to 32 bits, or the error, for every string |
| `Numbers.ReadBack` | bin/csh/set.c:334-394 | getn of putn is the identity on every int, the least one included |
| `Numbers.PutnInjective` | bin/csh/set.c:334-363 | two ints are written alike only if they are equal |
| `Numbers.PutnLeast` | bin/csh/set.c:334-363 | the least int, which cannot be negated, is written in two parts and read back |
| `DirStack.Stack.constructor` | bin/csh/dir.c:64-126 | one directory on the stack, held by nobody |
| `DirStack.Stack.Dfind` | bin/csh/dir.c:520-542 | +n names the entry n places down; not a number, and too deep, are told apart exactly |
| `DirStack.Stack.Dfree` | bin/csh/dir.c:589-599 | an entry that has left the ring is freed exactly if no job holds it, else only marked by null links |
| `DirStack.Stack.Cd` | bin/csh/dir.c:321-363 | cd puts a new entry in the first place; cd +n drops the first and rotates; the old entry is freed unless held; on an error nothing changes |
| `DirStack.Stack.PushdSwap` | bin/csh/dir.c:474-489 | pushd exchanges the first two entries |
| `DirStack.Stack.Pushd` | bin/csh/dir.c:495-513 | pushd +n rotates by n, pushd dir puts a new entry in front |
| `DirStack.Stack.Popd` | bin/csh/dir.c:556-582 | popd drops the first entry |
| `DirStack.Stack.PopdAt` | bin/csh/dir.c:556-582 | popd +n removes the nth entry and no other |
| `DirStack.Stack.Newcwd` | bin/csh/dir.c:894-900 | making another entry current rotates the stack |
| `DirStack.Stack.Hold` | bin/csh/proc.c:479-480 | a new job raises the count of the current directory by one |
| `DirStack.Stack.Release` | bin/csh/proc.c:234-237 | reaping lowers the count; the entry is freed exactly if the count reaches 0 off the stack |
| `DirStack.UnlinkAt` | bin/csh/dir.c:575-576 | unlinking an entry leaves a well linked ring that reads as the stack without it |
| `DirStack.RotateRing` | bin/csh/dir.c:894-900 | the same ring read from another entry is the stack rotated |
| `Jobs.Jobs.Palloc` | bin/csh/proc.c:443-505 | a new process is running, in the foreground exactly without an ampersand, and joins the ring of the job being built, or leads a new job that takes the current directory; its index is one above the largest while that is below 9, else the least one free |
| `Jobs.NewIndex` | bin/csh/proc.c:481-496 | the index of a new job is in use by no other and the largest index is kept |
| `Jobs.Jobs.Pchild` | bin/csh/proc.c:72-190 | a report leaves the one process it names out of the foreground and stopped, normally or abnormally exited, interrupted or killed by another signal, each told from the status, with its reason and time; once all of its job has settled, stops are marked as reported, the current and previous job change, and the job is flushed or marked for a note |
| `Jobs.Record` | bin/csh/proc.c:104-145 | the process gets exactly the state that the report names, the others of its ring keep theirs, times to print are marked, and the flags of the job are gathered round its ring |
| `Jobs.Jobs.Settle` | bin/csh/proc.c:146-188 | a stopped job becomes current and the old current one previous; a finished one is taken off both |
| `Jobs.Jobs.Pflush` | bin/csh/proc.c:384-410 | the whole ring of the job loses id, index and note, and nothing else of any process changes; indices, current and previous job are put right |
| `Jobs.MaxIndex` | bin/csh/proc.c:404-409 | the largest index still in use |
| `Jobs.Pclrcurr` | bin/csh/proc.c:417-431 | a job taken off is neither current nor previous afterwards; the previous one moves up; a mark is left empty only if no other job is left for it |
| `Jobs.Pgetcurr` | bin/csh/proc.c:1197-1211 | the first stopped job on the list if there is one, else the first running one, and none exactly if there is neither |
| `Jobs.Jobs.Pstart` | bin/csh/proc.c:1094-1123 | every process of the job that has not ended is made running, in the foreground or in the background, and no other is touched; a job put in the background is neither current nor previous |
| `Jobs.Jobs.Pendjob` | bin/csh/proc.c:622-639 | no job is being built any more; the table stays |
| `Jobs.Jobs.Reap` | bin/csh/proc.c:230-239 | exactly the flushed processes leave the list, in one pass, and their directories are released |
| `Jobs.Jobs.Unchain` | bin/csh/proc.c:231-238 | taking one process off the list frees its directory exactly if it was the last holder and the entry is off the stack |
| `Jobs.Jobs.Chdir` | bin/csh/dir.c:321-583 | a directory command between job steps keeps the whole invariant; no job loses its directory |
| `Shell.Run` | bin/csh/proc.c:72-505 | after any sequence of forks, reports, resumptions, flushes, reapings and directory commands the whole invariant holds |
| `Shell.OneCycle` | bin/csh/proc.c:443-505 | from any unflushed process, friends leads once round all processes of its job and no others, of which exactly one is the leader; all share id and index |
| `Shell.IndexTellsJobs` | bin/csh/proc.c:481-496 | different jobs have different indices from 1 up, and pmaxindex is the largest in use |
| `Shell.CurrentAndPrevious` | bin/csh/proc.c:417-431 | current, previous and the job being built are null or leaders of unflushed jobs; current and previous differ; no previous without current |
| `Shell.MarksInUse` | bin/csh/proc.c:417-431 | with two unflushed jobs one is current, and with two that are not current one is previous |
| `Shell.JustOneState` | bin/csh/proc.h:60-75 | every unflushed process has exactly one bit of PALLSTATES |
| `Shell.EntryLifetime` | bin/csh/proc.c:230-239 | a directory entry exists exactly while it is on the stack or held by an unreaped process; its count is the number of those; it is marked exactly when off the stack |
| `Jobs.FindLeader` | bin/csh/proc.c:393-394 | going round the ring from any process finds its one leader |
| `Jobs.Sweep` | bin/csh/proc.c:133-140 | the loop round a ring reaches every process of it once and gathers their flags |
| `Jobs.Tail` | bin/csh/proc.c:471-472 | the process of the ring whose friend is the leader |
| `Jobs.InUse` | bin/csh/proc.c:487-489 | an index is taken exactly if some process has it |
| `Jobs.PickNew` | bin/csh/proc.c:497-500 | a new job becomes current if there is no current one, else previous if there is no previous one |
| `Jobs.FindPid` | bin/csh/proc.c:97-100 | the process with that id, or none if no process has it |
| `Jobs.Jobs.AddFriend` | bin/csh/proc.c:463-474 | the new process is the last of its ring, shares job id and index, and holds no directory |
| `Jobs.Jobs.AddLeader` | bin/csh/proc.c:475-501 | the new process is a ring of its own and holds the current directory |
| `Jobs.Jobs.Announce` | bin/csh/proc.c:161-187 | a job is flushed at once exactly if it has finished in the background and its end is to be announced |
| `Jobs.Jobs.Wipe` | bin/csh/proc.c:398-409 | the ring loses index and ids, and the largest index is found again |
| `Jobs.Jobs.Resume` | bin/csh/proc.c:1104-1110 | every process of the job that was running or stopped is running and not stopped; the others keep their state |
| `Shell.Step` | bin/csh/proc.c:72-505 | one event keeps the invariant |
| `Expr.Logic` | bin/csh/exp.c:89-191 | levels 0 to 4 read a prefix of the words: the cursor only moves forward and stays in the vector |
| `Expr.Equate` | bin/csh/exp.c:194-237 | the same for the comparisons of strings |
| `Expr.Arithmetic` | bin/csh/exp.c:240-397 | the same for comparisons of numbers, shifts, sums and products |
| `Expr.Exp6` | bin/csh/exp.c:400-574 | the same for operands, signs, parentheses, file inquiries and commands |
| `Expr.Truncates` | bin/csh/exp.c:370-391 | division and remainder are those of C: towards zero, the remainder short of the divisor and with the sign of the dividend |
| `Expr.ReadsLogic` | bin/csh/exp.c:89-237 | for every tree, its words with parentheses only where levels ask for them are read up to what follows, and give the value of the tree grouped to the right, or its error, in every mode |
| `Expr.ReadsArithmetic` | bin/csh/exp.c:240-397 | the same at the levels of arithmetic |
| `Expr.ReadsExp6` | bin/csh/exp.c:400-574 | the same for operands and parenthesised trees |
| `Expr.WrittenNumber` | bin/csh/exp.c:427-437 | a value passed up as a string and read again is the same number |
| `Expr.SameWordsLogic` | bin/csh/exp.c:89-237 | on any words, ignoring or not makes no difference to which words are read |
| `Expr.SameWordsArithmetic` | bin/csh/exp.c:240-574 | the same at the lower levels |
| `Expr.IgnoredLogic` | bin/csh/exp.c:89-237 | on any words, nothing that is ignored divides by zero |
| `Expr.IgnoredArithmetic` | bin/csh/exp.c:240-397 | the same at the lower levels |
| `Expr.Evaluates` | bin/csh/exp.c:89-574 | for integer expressions the evaluator on words and strings gives the value of the tree under short-circuit evaluation, unless an operand left out has a shift out of range |
| `Expr.Skips` | bin/csh/exp.c:89-574 | in ignore mode an integer expression leaves a value, or meets an undefined shift, that its text alone tells, whatever files and commands answer |
| `Expr.ExprMeaning` | bin/csh/exp.c:83-107 | expr on the words of an integer expression stops just after them; it returns what short-circuit evaluation of the tree gives if and only if that is an undefined shift itself or no operand left out has a shift amount, worked out from its text, below 0 or above 31 |
| `Expr.TameQuiet` | bin/csh/exp.c:284-309 | in particular it never differs with no shift to the right of a logical and or or |
| `Expr.SkippedShift` | bin/csh/exp.c:284-309 | a concrete family where it differs: a shift is worked out even in ignore mode |
| `Values.SumsOnWords` | bin/csh/exp.c:312-369 | a sum, difference or product of any two numbers, as words, comes to that of integers modulo 2^32, and to just that where it fits |
| `Values.ComparesOnWords` | bin/csh/exp.c:194-281 | each of the six comparisons of any two numbers, as words, comes to 1 or 0 as it holds or not |
| `Values.TruthsOnWords` | bin/csh/exp.c:89-126 | or and and of any two numbers, as words |
| `Values.ShiftsOnWords` | bin/csh/exp.c:284-309 | a shift by 0 to 31 multiplies by that power of two modulo 2^32, or divides by it and rounds down; any other is undefined |
| `Values.QuotientsOnWords` | bin/csh/exp.c:370-391 | a quotient and remainder, as words: towards zero, with the remainder of C, the pair that overflows wrapped, and the two errors for zero |
| `Values.BitsOnWords` | bin/csh/exp.c:129-191 | or, exclusive or and and, as words, bit by bit in two's complement |
| `Values.ProductsBind` | bin/csh/exp.c:312-397 | products come before sums on either side |
| `Values.DifferencesGroup` | bin/csh/exp.c:312-342 | a - b - c is a - (b - c) |
| `Values.SumsBind` | bin/csh/exp.c:284-342 | sums come before shifts |
| `Values.ShiftsBind` | bin/csh/exp.c:194-309 | shifts come before comparisons, and those before equality |
| `Values.BitsBind` | bin/csh/exp.c:129-237 | equality comes before and, that before exclusive or, that before or |
| `Values.TruthsBind` | bin/csh/exp.c:89-191 | bit operators come before logical and, and that before logical or |
| `Values.CodesLeft` | bin/csh/exp.c:194-397 | in ignore mode a comparison leaves the code of its operator and sums and products leave 0, as the words of a shift tell |
| `Values.UnclosedRefused` | bin/csh/exp.c:428-436 | a parenthesis that is not closed is a syntax error, after any integer expression |
| `Values.BraceRefused` | bin/csh/exp.c:438-456 | a command whose braces are not closed is the error of a missing brace |
| `Values.InquiryRefused` | bin/csh/exp.c:472-490 | the errors of file inquiries: letters too many, no file, and a name that matches none |
| `Grammar.FindSplit` | bin/csh/parse.c:236-448 | a level splits at a separator of its own outside all parentheses |
| `Grammar.SplitDepth` | bin/csh/parse.c:296-448 | both parts of a split have their parentheses balanced |
| `Grammar.Gather` | bin/csh/parse.c:541-627 | in a balanced segment every parenthesis that opens a group has been closed after it, so the group handed to syn0 is well defined |
| `Parser.Count` | bin/csh/parse.c:493-531 | the first pass of syn3 never counts below zero |
| `Parser.CountWords` | bin/csh/parse.c:493-531 | the loop of the first pass computes that count |
| `Parser.AbsorbCount` | bin/csh/parse.c:541-622 | what one step of the second pass stores is within what the first pass counted for its words |
| `Parser.Collect` | bin/csh/parse.c:493-622 | every store of the second pass is inside the vector, the vector ends in null, and the words read back from it are those of the command |
| `Parser.Words` | bin/csh/parse.c:541-622 | reading the vector up to its null gives exactly the stored words |
| `Parser.IsKeyworded` | bin/csh/parse.c:471-492 | any number of else, then a keyword |
| `Parser.ScanAmp` | bin/csh/parse.c:236-283 | the loop of syn0 finds the first single ampersand outside parentheses and tells a parenthesis that closes nothing |
| `Parser.Scan` | bin/csh/parse.c:296-448 | the loops of the other levels find the first separator of their level |
| `Parser.ParseSyntax` | bin/csh/parse.c:213-222 | the recursive parser ends and computes the grammar's function, errors included |
| `Parser.Parse0` | bin/csh/parse.c:230-288 | the same for syn0 |
| `Parser.Parse1` | bin/csh/parse.c:296-327 | the same for syn1 |
| `Parser.Parse1a` | bin/csh/parse.c:335-366 | the same for syn1a |
| `Parser.Parse1b` | bin/csh/parse.c:374-403 | the same for syn1b |
| `Parser.Parse2` | bin/csh/parse.c:412-448 | the same for syn2 |
| `Parser.Parse3` | bin/csh/parse.c:461-635 | the same for syn3 |
| `RoundTrip.ReadsLine` | bin/csh/parse.c:213-288 | for every line of the grammar, however nested, parsing its words gives its tree with the list, background and parenthesis normalisations, or the error it holds |
| `RoundTrip.ReadsSequence` | bin/csh/parse.c:296-327 | the same for commands separated by semicolons |
| `RoundTrip.ReadsDisjunction` | bin/csh/parse.c:335-366 | the same for or-lists |
| `RoundTrip.ReadsConjunction` | bin/csh/parse.c:374-403 | the same for and-lists |
| `RoundTrip.ReadsPipeline` | bin/csh/parse.c:412-448 | the same for pipelines, with and without standard error |
| `RoundTrip.ReadsStage` | bin/csh/parse.c:461-635 | the same for simple commands with redirections anywhere, keyword commands that keep parentheses, and groups |
| `Parsed.RunsBehind` | bin/csh/parse.c:261-279 | for any sequence before a single ampersand: a pipeline gets the two background flags and is otherwise the same, anything else is put in parentheses with just these flags, and the list ends there |
| `Parsed.NoForkLast` | bin/csh/parse.c:539-540 | of the commands of any sequence exactly the last has the flag for no fork if a closing parenthesis follows, and otherwise none has |
| `Parsed.KeywordsKeep` | bin/csh/parse.c:471-491 | after each of the seven keywords a command keeps its parentheses and what is in them as words |
| `Parsed.OthersRefuse` | bin/csh/parse.c:624-627 | after any other ordinary word parentheses are an error |
| `Parsed.ElseKeeps` | bin/csh/parse.c:478-482 | else in front of a command does not change which it is |
| `Parsed.NameMissing` | bin/csh/parse.c:573-605 | a redirection with no name after it, or with a word that can be none, is an error wherever the command stands |
| `Parsed.TwoGroups` | bin/csh/parse.c:549-553 | a second group in one command is an error |
| `Braces.SplitSmall` | bin/csh/glob.c:118-204 | every alternative of a word has fewer braces than it, so expansion ends, and is shorter by two at least |
| `BraceRun.FindClose` | bin/csh/glob.c:135-156 | the loop finds the brace that closes the group, or says what is missing |
| `BraceRun.Cut` | bin/csh/glob.c:158-200 | the loop cuts the group at its commas; every write to the buffer and the vector is in bounds, and each word is kept as far as the buffer reaches |
| `BraceRun.Alternative` | bin/csh/glob.c:183-188 | text before, alternative and text after are put together in the fixed buffer, which keeps the first PATH_MAX - 1 characters of them |
| `BraceRun.Strlcpy` | bin/csh/glob.c:185 | as much of the source as there is room for follows what stands before, and is ended by a null |
| `BraceRun.Strlcat` | bin/csh/glob.c:186 | as much of the source as there is room for is added to the string in the buffer |
| `BraceRun.Push` | bin/csh/glob.c:188-196 | the vector of alternatives grows before it is full |
| `BraceRun.Globbrace` | bin/csh/glob.c:118-204 | the alternatives of the first group in order, each as far as it fits, or the missing bracket or brace |
| `Room.GlobbedExact` | bin/csh/glob.c:118-204 | these are the alternatives of the word if and only if all of them fit the buffer |
| `Room.FitsExpands` | bin/csh/glob.c:208-268 | a word whose first group leaves nothing too long expands as if there were no buffer |
| `Room.ShortFits` | bin/csh/glob.c:118-204 | for a word no longer than the buffer, as the readers of words make them, everything fits |
| `Limits.ExactlyWhenGood` | bin/csh/glob.c:118-268 | for every pattern of nested alternations, empty groups included, the expansion in a fixed buffer is the product in order if and only if the word is not {} and each word that the first group leaves, cut to the buffer, loses nothing but empty groups and does not come down to {} |
| `Limits.ListsExactly` | bin/csh/glob.c:208-268 | every list of words expands to their products, one after the other, if and only if this is so of each word |
| `Limits.ExactlyWhenItFits` | bin/csh/glob.c:118-268 | for patterns without empty groups the condition is that each word that the first group leaves is shorter than PATH_MAX |
| `Limits.EmptyGroupsCut` | bin/csh/glob.c:118-268 | a family where words do not fit and the expansion is right all the same: only empty groups are cut off |
| `Limits.ListsThatFit` | bin/csh/glob.c:208-268 | lists of words whose first groups fit expand word by word |
| `Limits.InsideCut` | bin/csh/glob.c:185-186 | a word cut off inside a group never expands as it should: something is missing, or every word keeps an opening brace |
| `Limits.CutLighter` | bin/csh/glob.c:185-186 | a word cut off outside its groups stands for the same words if only empty groups are lost, else for no more words, and for fewer characters and words together |
| `Limits.ShortResultsLost` | bin/csh/glob.c:118-268 | short results are no guarantee: a long word that stands for two-letter words only, whose expansion is wrong |
| `BraceRun.Insert` | bin/csh/glob.c:240-262 | the word at one place is replaced by its alternatives, those after it moved up, in a vector that grows when needed |
| `BraceRun.Grow` | bin/csh/glob.c:241-251 | the vector grows enough for what is inserted |
| `BraceRun.ShiftUp` | bin/csh/glob.c:255-257 | the words and the null after a place move up without overwriting one another |
| `BraceRun.Expbrace` | bin/csh/glob.c:208-268 | the worklist ends, stays in bounds, and leaves the recursive expansion of the words in order, each round cut to the buffer, or the first thing missing |
| `Patterns.SplitGroup` | bin/csh/glob.c:118-204 | the first group of the text of a pattern is split into the alternatives of the pattern |
| `Patterns.SplitGroupBefore` | bin/csh/glob.c:118-204 | the same whatever text comes after the group |
| `Patterns.Expands` | bin/csh/glob.c:208-268 | the expansion of a partly expanded word is the product of what is left, unless a word comes down to an empty group |
| `Patterns.ExpansionIsProduct` | bin/csh/glob.c:208-268 | for every pattern with nested alternations, the expansion is the product in order, leftmost group slowest, if and only if the pattern does not come down to an empty group |
| `Patterns.StuckEnds` | bin/csh/glob.c:223-225 | a word comes down to an empty group exactly if it ends in one and what stands before can vanish |
| `Patterns.ListExpansion` | bin/csh/glob.c:208-268 | lists of words without empty groups expand word by word |
| `Patterns.NoEmptyGroup` | bin/csh/glob.c:223-225 | a pattern without an empty group never comes down to one |
| `Patterns.EmptyGroup` | bin/csh/glob.c:223-225 | the word {} is left as it is, though its pattern stands for the empty word |
| `Patterns.EmptyGroupBefore` | bin/csh/glob.c:223-225 | and so is every word that comes down to it |
| `BraceRun.CopyUpToBrace` | bin/csh/glob.c:131-132 | the text before the first brace goes into the buffer |
| `Patterns.AlternativesBack` | bin/csh/glob.c:158-200 | the alternatives of a group are the ones it was written from, whatever groups and classes are inside |
| `Patterns.MatchOver` | bin/csh/glob.c:135-151 | the text of a pattern inside a group is passed over, nested groups and all |
| `Patterns.ProductConcat` | bin/csh/glob.c:208-268 | the product of one pattern after another is the product of the two |
| `Canon.Dcanon` | bin/csh/dir.c:637-834 | the loop on the buffer ends, stays in bounds, and leaves the walk along the components, from any place after a canonical path; the buffer holds the canonical path of where the walk leads if and only if it is not the case that the last component is . and the walk ends at the root |
| `Canon.Component` | bin/csh/dir.c:637-834 | one round of the loop reads one component and keeps what the path will become |
| `Canon.Squeeze` | bin/csh/dir.c:638-644 | extra slashes are closed up |
| `Canon.Rounds` | bin/csh/dir.c:637-834 | the loop by itself, against the function that says what becomes of the path |
| `Canon.StartAnywhere` | bin/csh/dir.c:366-398 | starting after a canonical prefix, as dgoto does, is the same as starting at the beginning |
| `Canon.Idempotent` | bin/csh/dir.c:637-834 | making a path canonical again changes nothing, for every absolute path |
| `Canon.CanonicalFixed` | bin/csh/dir.c:637-834 | canonical paths are left as they are |
| `Canon.RootDot` | bin/csh/dir.c:664-665 | the path /. is left as it is |
| `Canon.Delimit` | bin/csh/dir.c:644-651 | the component is ended where its slash was, with the rest of the path beyond |
| `Canon.Back` | bin/csh/dir.c:743-745 | back to the slash before the last name of the canonical part |
| `Canon.ReadNothing` | bin/csh/dir.c:653-657 | a trailing slash is dropped unless it is the root |
| `Canon.ReadDot` | bin/csh/dir.c:658-666 | a . is dropped; a last one goes with the slash before it unless that is the root |
| `Canon.ReadUp` | bin/csh/dir.c:667-755 | a .. takes the last name away and stops at the root |
| `Canon.ReadName` | bin/csh/dir.c:831-833 | any other name joins the canonical part |
| `Canon.ComponentsOf` | bin/csh/dir.c:637-834 | the components of a canonical path are its names, in order |
| `Input.Seekable.Bgetc` | bin/csh/lex.c:1404-1425 | the byte of the file at the current position, whatever was read or sought before, and -1 past the end |
| `Input.Seekable.Fill` | bin/csh/lex.c:1409-1421 | the buffer holds the bytes read and the kernel stands at its end |
| `Input.Play` | bin/csh/lex.c:1404-1425 | any mixture of reads and seeks gives the bytes at the positions asked for |
| `Input.Blocks.Bgetc` | bin/csh/lex.c:1427-1499 | the next byte of the stream, from a block or from the descriptor |
| `Input.Blocks.Fill` | bin/csh/lex.c:1443-1488 | what is read goes into the block where the last bytes ended |
| `Input.Blocks.Bfree` | bin/csh/lex.c:1502-1519 | exactly the blocks before that of the last byte read are let go, without moving the place in the stream; inside a loop none is let go |
| `Input.Blocks.Bseek` | bin/csh/lex.c:1522-1540 | the place in the stream becomes the one that was told |
| `Input.Replay` | bin/csh/lex.c:1427-1562 | going back to a told place replays the same bytes until a block is let go, and letting go loses nothing unread |
| `Input.Blocks.Extend` | bin/csh/lex.c:1429-1441 | a block is added when the place to read is past the last one |
| `Hash.Bis` | bin/csh/exec.c:83-85 | sets one bit of the table and no other, in range |
| `Hash.Mix` | bin/csh/exec.c:83 | every table index is in range |
| `Hash.Hashname` | bin/csh/exec.c:484-491 | the hash of a name, character by character |
| `Hash.HashIsResidue` | bin/csh/exec.c:83 | the hash of a name, and its bit at a place in the path, are residues of the name read as a number to the base 243 |
| `Hash.FindFirst` | bin/csh/exec.c:494-535 | the search without the table gives the first component with the file component/name, or the name itself for an empty component, a dot and names with a slash |
| `Hash.FindOne` | bin/csh/exec.c:507-527 | in a path of one absolute directory the command is found if and only if directory/name can be executed |
| `Hash.Dohash` | bin/csh/exec.c:428-462 | a bit is set exactly if it stands for a listed name at its place in the path |
| `Hash.Iscommand` | bin/csh/exec.c:494-535 | without the table the place of the first component whose file can be executed; with it the first of those that the table lets through |
| `Hash.SameAnswer` | bin/csh/exec.c:511-516 | the table makes no difference if and only if it lets the right component be tried |
| `Hash.TableExact` | bin/csh/exec.c:428-535 | a search some time after the table was made finds the same component as one without it if and only if there is none, the table is not asked, or some name listed then shares the bit |
| `Hash.TableIsSafe` | bin/csh/exec.c:428-535 | if every directory could be read then, no name has come to them since, and only entries that are no directories can be executed, the component found now was listed then |
| `Hash.NewCommandMissed` | bin/csh/exec.c:428-535 | a command of any plain name that has come to any absolute directory since the table was made is there and is not found |
| `Hash.Lookup` | bin/csh/exec.c:428-535 | building the table and searching later: the exact condition for the same place as searching without it, and that the first component whose file can be executed is found while no name is new |
| `Hash.Directory` | bin/csh/exec.c:449-459 | every entry of a directory that counts sets its bit, and nothing else is set |
| `Dd.Conversions` | bin/dd/args.c:290-308 | the conversions of a list one after the other, the first conflict ending it |
| `Dd.AnySettingOrder` | bin/dd/args.c:91-117 | any permutation of settings with no rivals among them has the same outcome |
| `Dd.StaysExclusive` | bin/dd/args.c:267-288 | no two conversions that exclude one another are ever both set |
| `Dd.Jcl` | bin/dd/args.c:91-172 | the loops over operands and conversions, then the final checks, stopping at the first error |
| `Dd.Barred` | bin/dd/args.c:66-83 | the two tables are symmetric: one setting bars another exactly if the other bars it |
| `Dd.Swap` | bin/dd/args.c:91-117 | two settings may change places, unless they are rivals for the conversion table |
| `Dd.AnyOrder` | bin/dd/args.c:91-172 | any permutation of any operand list is accepted or rejected alike, with the same flags, sizes and offsets |
| `Dd.AnyOrderTable` | bin/dd/args.c:267-308 | and with the same conversion table unless both ebcdic and ibm are named |
| `Dd.LastWins` | bin/dd/args.c:290-308 | of accepted settings the last one that gives a table decides |
| `Dd.SameOutcome` | bin/dd/args.c:91-308 | two orders of the same operands have the same outcome if and only if they are rejected or the last table is the same |
| `Dd.AcceptedExact` | bin/dd/args.c:107-115 | settings are accepted if and only if no flag set before bars one and no two exclude one another; the state is then what all of them ask for |
| `Dd.WholeExact` | bin/dd/args.c:91-172 | operands are rejected if and only if one is wrong, two exclude one another, or a final check fails: record size exactly with record operations, block sizes and offsets in range |
| `Dd.CheckedExact` | bin/dd/args.c:119-171 | what the final checks let through |
| `Dd.OrderExact` | bin/dd/args.c:91-308 | every permutation of the operands has the same outcome if and only if one is wrong, two exclude one another, a final check fails, or no two operands give different tables |
| `Dd.TableDepends` | bin/dd/args.c:267-308 | ebcdic and ibm in two operands, in the two orders: accepted with different tables |
| `Dd.AcceptedIsSound` | bin/dd/args.c:119-171 | an accepted list holds no two conversions that exclude one another, record operations go with a record size, and 0 <= offset and offset times block size is in range on both sides |
| `DdFields.OperandsKept` | bin/dd/args.c:181-262 | every offset, size, count and name of an accepted list is the one its operand gives; bs gives both block sizes, and a count of 0 is the largest number |
| `DdFields.OffsetsStart` | bin/dd/dd.c:61-75 | offsets and names that no operand gives are 0 and empty |
| `DdFields.SizesStart` | bin/dd/args.c:96 | block sizes that no operand gives are 512, the record size and count 0, and one file |
| `DdFields.FlagsKept` | bin/dd/args.c:107-151 | a flag is set in the end if and only if the operands name it, but that conversions take bs off and a record size with ascii or ebcdic adds unblock or block |
| `DdSizes.GetBszExact` | bin/dd/args.c:321-389 | a size is let through if and only if, modulo the word, no factor is above the product from it to the end and no letter takes a number below what it was; it is then the product modulo the word |
| `DdSizes.TrueProduct` | bin/dd/args.c:321-389 | it is the product itself if and only if no number stands before a zero and, with no zero, the product fits; after leading zeros it is enough that the rest is let through |
| `Dd.SizeAsked` | bin/dd/args.c:181-231 | an operand with a size is wrong if and only if a test fails, and asks for the product if and only if the size is exact |
| `DdSizes.ScaledExact` | bin/dd/args.c:337-371 | the letters b, k, m, g and w, with g and m falling through |
| `DdSizes.OverflowPasses` | bin/dd/args.c:337-343 | a number whose product overflows and is let through |
| `DdSizes.ZeroRefused` | bin/dd/args.c:378-384 | a product of zero that is refused, for every number before the zero |

## Left out

- Signals, process groups, terminal modes and `longjmp`: only the table updates are modelled, each as one step.
- `psavejob`, `prestjob`, `pholdjob`: the saved job belongs to interrupt handling.
- `pnote` and `pflushall`: loops that print and call `pflush`, which is modelled; printing of jobs is left out.
- `pjwait`: waiting itself changes nothing in the table; the `pflush` it ends in is a `Flush` event of `Shell.Run`.
- `dokill`, `pfind`: killing and naming jobs do not change the shape of the table.
- What parsing goes on to do after an error has been recorded: its result is thrown away, and the model stops at the first error.
- `alias` and `asyntax`: substitution of aliases before parsing.
- `trim`, which takes quote bits off stored words; words are stored as they are given.
- `setq` on read-only or special variables (`doset`, `dolet`): effects of particular names.
- `Gmatch`: a parameter of `Unset1` and of the pattern comparisons in expressions.
- `globone`, file inquiries and commands in expressions: parameters of the world of an expression.
- Order of reading the two operands of a C operator where C leaves it open: the left is read first. For `/` and `%`
  the source reads the divisor first, and so does the model.
- The cursor of the expression evaluator is passed as the suffix still to be read, not updated in place.
- Symbolic links and the home directory in `dcanon`; relative paths, before which it puts the current directory.
- `globtilde` and `globexpand`: home directories and backquotes.
- Input from a terminal with file name completion, and read errors other than the end of input.
- The path buffer of `executable`, and the hit and miss counts of the hash table.
- `get_off` of `dd`, and the text of operands: `strtoul` is not modelled, so a size is given as its list of factors.
- BraceRun.Globbrace: the text before the first brace fits the buffer. The source copies it with no bound (`glob.c:131`)
  and takes this for granted; `lex.c:230` keeps words of input shorter than that.
- BraceRun.CopyUpToBrace: the same.
- BraceRun.Expbrace: the same for every word that has a group; what the expansion itself makes always fits.
- Limits.ExactlyWhenItFits: for patterns without empty groups; `Limits.ExactlyWhenGood` has no such limit.
- Limits.ExactlyWhenGood: the text before the first group fits the buffer, as for BraceRun.Globbrace.
- Limits.ListsExactly: the same.
- Jobs.Jobs.Pchild: one report is one step; the loop that collects all waiting reports is the run of such steps.
- Shell.Run: an event that cannot happen when its turn comes is passed over.
- Expr.ExprMeaning: integer expressions have no pattern comparisons, whose result is a parameter.
