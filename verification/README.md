# DroppedNeedle: verified core logic

A Dafny model of the parts of the DroppedNeedle server whose correctness is hard to see
from the code, with proofs. `dafny verify dfyconfig.toml` checks everything.

## What is modelled

**The management script language** (`Script*.dfy`, `Tagging*.dfy`, `NamingTemplate.dfy`,
`PlaceDrift.dfy`, `Texts.dfy`). Expressions are read by a character-level tokenizer and a
recursive parser, checked against a table of safe functions, and evaluated against a budget of
steps and output characters. Tagging programs are lines of statements with `if`, `else:` and
`end`; naming templates are text with expressions in braces. Each reader is there twice: as a
specification on texts, tokens or lines, and as the loop over positions that the program runs,
proved equal to it. What is proved about the specification:

- the parser accepts exactly what an independent grammar derives within the limits;
- every function of the language, called by its name, yields what its law says in terms of
  the arguments alone, and an `if` the branch that its condition chooses;
- trees, with any legal white space, and whole programs survive printing and reading, and
  whatever is accepted can be formatted without changing it;
- evaluation succeeds exactly when a meaning that knows no budget is acceptable at every
  node, and the step limit of 10000 cannot be reached by a compiled expression;
- accepted programs have 1 to 500 statements and at most 19 nested conditionals, and
  comments, blank lines and indentation change nothing in them but places;
- a template compiles to some segments exactly when they cover it, and every segment
  stands where the text before it ends;
- the place that the compiler is told moves the places of the tree and of the failures, and
  nothing else.

**The automatic library upgrade** (`UpgradeProtocol.dfy`, `Publishing.dfy`). The upgrade is a
transition system over the live database and settings, the safety backups, the upgrade record,
the admission files and the target process. Crashes may fall between any two steps of any number
of boots, a file that is being replaced may hold anything until that is done, record writes may
be refused or take effect and yet be reported as failed, and reads for a signature may fail. Two
main results are exact: all runs are safe if and only if none of four named faults can occur,
and new settings stand beside an old database under the stage `promoting` alone if and only if
no target admission is asked for. Beside safety stands progress: an undisturbed upgrade
succeeds, a validated target is admitted, and whatever fails before that is rolled back to the
backup. Below them, the routines that install a file or a database over a live one are modelled
as the retry loops they are, over a volume on which every operation may fail and every look may
be unreadable or stale; they succeed exactly when a look matched, and give up only for reasons
that can be told.

**Fast forms against simple ones** (`StaticRewrite.dfy`, `StaticPasses.dfy`,
`StaticPassLimits.dfy`, `StaticAssets.dfy`, `MountPaths.dfy`, `Sequences.dfy`). The marker
passes that stamp a base path onto assets against one left-to-right scan, which they equal under
a condition on source and base that is exact; the chunked scan for surviving placeholders
against plain occurrence; the four replacements that undo mount-path escapes against one
decoding scan.

**Stores and loops with state** (`EventBus.dfy`, `CoverMemoryLru.dfy`, `DiskEviction.dfy`,
`SweepCursor.dfy`, `BlobStore.dfy`, `QualityRecipe.dfy`). The event bus with its bounded queues,
the cover cache in memory and on disk, the resumable enrichment sweep, the content-addressed
blob store, exact for every number of steps after which a crash may end them, and the validator
of quality recipes.

## What the proofs found

Each finding is stated by the member named with it: a concrete input or run, and where an
exact condition is known, that condition.

- New settings can stand beside an old database under the stage `promoted_pending_startup`
  too (`MixedWhilePending`), exactly if admission is asked for (`MixedOnlyWhilePromoting`).
- Four faults break the upgrade, each alone: a final record that lands but is reported as
  failed, a `migrating` record that does, a recorded signature with an unreadable entry,
  and a record that reads as missing (`GoodExactlyWithoutFaults`). After the second one no
  boot gets past recovery while the record can be read (`StrandedForever`).
- The expression of a naming template is compiled with the line of its brace: its tree is
  placed right exactly when no newline stands before its first visible character
  (`TemplateRoot`, `BrokenTemplateIsOff`). The expression of an assignment is compiled with
  the column behind the equals sign: its tree is placed right exactly when no white space
  follows (`AssignmentRoot`, `SetOneIsOff`), so that every line in the canonical layout is
  off by one (`PrintedAssignmentIsOff`).
- `path_safe` with a replacement that is itself unsafe, such as a colon, yields unsafe text
  (`PathSafeIsSafe`).
- A slow reader of the event bus does not always converge: an event dropped by an overflow
  and not published again stays unseen (`OverflowLosesCompletion`, `RightIffInformed`).
  The branch of `publish` that evicts dead queues is never taken (`OfferNewest`).
- The rewriting passes replace a placeholder whose slash belongs to a font reference; one
  scan would not (`SharedSlashDiffers`). On tidy sources and bases that is the only
  difference (`StaticPasses.PassesAreOneScan`). What tidy asks for is needed: a source or a
  base that spells a marker, an empty base where a placeholder parts one, and half a
  placeholder before a reference mislead the passes in other ways (`StaticPassLimits`), and
  the check for surviving markers does not always notice (`SpelledMarkerDiffers`).
- A placeholder whose slash belongs to a relative font reference is left in the text, and
  the scan that follows refuses the tree (`PlaceholderLeft`, `DeployedTreePassesScan`).
- The break at the item limit in the sweep's inspection is never taken (`Inspect`).

## How it is modelled

Characters of scripts are code points, because Python texts may hold lone surrogates and the
evaluator looks for them. Bytes of assets and paths are characters: all patterns are ASCII.
A database is its content and a marker, comparing hashes is comparing contents, and time is
a number of attempts. Unicode functions of Python (`lower`, `upper`, `title`, `casefold`,
NFKD) are parameters. In the upgrade model a history variable says which pair of database
and settings the user is entitled to.

## Model

| member | source | states |
|---|---|---|
| ScriptLexer.DecodeString | backend/core/management_script_language.py:206-270 | The index loop over a literal equals the recursive decoder on every text: value, position behind the closing quote, place, and which failure at which place |
| ScriptLexer.Tokenize | backend/core/management_script_language.py:273-338 | The tokenizer loop equals the recursive lexer; its tuple ends with the only end mark; every failure has its place |
| ScriptLexer.Lex | backend/core/management_script_language.py:330-338 | At most 2048 tokens are read, whatever the source, and integer tokens hold digits only |
| ScriptLexer.UnreadAttached | backend/core/management_script_language.py:345-349 | A tuple of tokens seen from position 0 is its first part followed by what a reader behind that part sees |
| ScriptLayout.HexRoundTrip | backend/core/management_script_language.py:242-258 | Four hex digits written for a code unit are read back as that code unit |
| ScriptLayout.DecodeEscaped | backend/core/management_script_language.py:206-270 | Escaping any text for either quote and decoding it returns the text and stops right behind the closing quote |
| ScriptLayout.LexOfRender | backend/core/management_script_language.py:273-338 | Lexemes with any legal white space between them, also line breaks, tokenize to exactly those tokens at exactly those places |
| ScriptParser.ExpressionParser.constructor | backend/core/management_script_language.py:342-345 | The reader starts before the first of a well-terminated tuple |
| ScriptParser.ExpressionParser.ParseAll | backend/core/management_script_language.py:351-360 | The reader with a position field parses like the specification and never leaves the tuple |
| ScriptParser.ExpressionParser.PrimaryAt | backend/core/management_script_language.py:362-414 | One value: the position advances exactly over what the specification consumes, and never past the end mark |
| ScriptParser.ExpressionParser.ArgumentsAt | backend/core/management_script_language.py:416-440 | A bracketed list: the same for the loop over arguments, its limit of 100 and its separators |
| ScriptParser.ParseIffDerived | backend/core/management_script_language.py:341-440 | The parser accepts tokens as a tree if and only if a grammar written independently derives that tree from all of them and it nests at most 20 deep with at most 100 children a node |
| ScriptPrinter.DecimalOfDigits | backend/core/management_script_language.py:376-379 | The decimal digits of a number are read as that number |
| ScriptPrinter.Rebuild | backend/core/management_script_language.py:341-440 | The tokens of a printed tree derive a tree of the same shape whose places are where its tokens are |
| ScriptPrinter.ReadOfPrinted | backend/core/management_script_language.py:206-440 | ROUND TRIP: every tree within the limits, printed with either quote and any legal white space, is tokenized and parsed back to the same tree |
| ScriptPrinter.ReadOfPrint | backend/core/management_script_language.py:206-440 | The same for the print without any white space |
| ScriptCompiler.CompileExpression | backend/core/management_script_language.py:444-487 | The compiler with its early exits equals its specification |
| ScriptCompiler.CallableIffNoFailure | backend/core/management_script_language.py:464-487 | The walk over all nodes finds nothing exactly when every call of the tree is safe and has a legal number of arguments |
| ScriptCompiler.NodesBounded | backend/core/management_script_language.py:330-440 | A tree has no more nodes than the tokens it was read from |
| ScriptCompiler.CompiledTree | backend/core/management_script_language.py:444-487 | A compiled tree keeps the nesting and fan-out limits, calls only safe functions with legal arities, and has at most 2048 nodes |
| ScriptCompiler.CompileOfPrinted | backend/core/management_script_language.py:444-487 | Every tree within all limits, printed in at most 32768 characters, compiles to itself |
| ScriptCompiler.BlankHasNoTree | backend/core/management_script_language.py:453-454 | White space alone is no expression, so the check for emptiness refuses nothing that would parse |
| ScriptFormatter.LexIsSpelled | backend/core/management_script_language.py:309-326 | Identifier tokens are words and integer tokens have digits |
| ScriptFormatter.DigitsAreShort | backend/core/management_script_language.py:376-379 | Printing a number that was read takes no more digits than it was read from |
| ScriptFormatter.DerivedIsPrintable | backend/core/management_script_language.py:362-440 | Every derived tree has a spelling, with exactly as many lexemes as tokens were read for it |
| ScriptFormatter.CompiledIsPrintable | backend/core/management_script_language.py:444-487 | Every compiled tree has a spelling within the token limit |
| ScriptFormatter.CompiledTreesFormat | backend/core/management_script_language.py:444-487 | NORMAL FORM: the print of any compiled tree, if not longer than a source may be, compiles to the same tree, and printing again gives the same text |
| ScriptEvaluator.AccountIffAcceptable | backend/core/management_script_language.py:146-189 | A value is accounted for exactly when it meets the list, text and length limits and the output so far leaves room for it |
| ScriptEvaluator.EvaluateIffMeaning | backend/core/management_script_language.py:136-189 | Evaluation succeeds if and only if every node has an acceptable value in a definition that knows no budget and the budget covers one step a node and all characters; it then yields that value and has spent exactly that |
| ScriptEvaluator.CallFailures | backend/core/management_script_language.py:815-922 | A call that passed the compiler never fails as unknown, with a wrong arity or as not implemented |
| ScriptEvaluator.EvaluateFailures | backend/core/management_script_language.py:925-952 | Evaluating a tree with safe calls fails only for the reasons that depend on values |
| ScriptEvaluator.CompiledExpressionsEvaluate | backend/core/management_script_language.py:925-952 | END TO END: a compiled expression, from a fresh budget, succeeds exactly when all values are acceptable and their sum is within 65536 characters; it takes one step a node and at most 2048, so the step limit is out of reach |
| ScriptEvaluator.EvaluationBudget.ConsumeStep | backend/core/management_script_language.py:136-144 | Charging a step adds it before the limit is looked at |
| ScriptEvaluator.EvaluationBudget.AccountFor | backend/core/management_script_language.py:146-189 | Accounting for a value updates the output counter and fails as specified |
| ScriptEvaluator.EvaluateExpression | backend/core/management_script_language.py:925-952 | The recursive evaluator with its mutable budget equals the specification, in result and in what it spent |
| ScriptEvaluator.EvaluateChildren | backend/core/management_script_language.py:941-945 | All arguments of a call are evaluated, in order |
| ScriptEvaluator.EvaluateChildTexts | backend/core/management_script_language.py:935-940 | The items of a list are evaluated and turned to text, in order |
| ScriptFunctions.PathSafeIsSafe | backend/core/management_script_language.py:891-901 | path_safe accepts a replacement exactly when it is one character other than slash, backslash and NUL; its result is free of unsafe characters if and only if the text was or the replacement is safe; safe characters stay in place |
| ScriptFunctions.PathSafeKeepsColons | backend/core/management_script_language.py:891-901 | A concrete input: asked to put colons in, path_safe does |
| ScriptFunctions.PadFillsToWidth | backend/core/management_script_language.py:852-863 | pad reaches the width with the fill in front and keeps the text |
| ScriptFunctions.SlicesPartition | backend/core/management_script_language.py:846-851 | Slices up to and from the same index, also a negative one, put the text together again |
| ScriptFunctions.EqualityIsEquivalence | backend/core/management_script_language.py:834-836 | Equality of values is an equivalence in which true is 1 and false is 0 |
| ScriptFunctions.NotAnyIsAllNot | backend/core/management_script_language.py:905-913 | not(any(...)) is all of the negated values |
| ScriptFunctions.DefaultIsFirstNonEmpty | backend/core/management_script_language.py:828-830 | default yields its first argument that is not empty, or nothing |
| ScriptFunctions.BothBranchesAreEvaluated | backend/core/management_script_language.py:941-946 | If either branch of an if fails, the whole call fails, whichever branch is taken |
| ScriptLaws.SafeNames | backend/core/management_script_language.py:26-58 | The table of safe functions: each has exactly these names, in any case of their letters |
| ScriptLaws.ArgumentCounts | backend/core/management_script_language.py:59-89 | How many arguments each of these names takes |
| ScriptLaws.BadCallFails | backend/core/management_script_language.py:815-829 | An unknown name and a wrong number of arguments fail at the call, each with its problem |
| ScriptLaws.TextsOfValues | backend/core/management_script_language.py:764-771 | The text of each kind of value, by its letters |
| ScriptLaws.IfChooses | backend/core/management_script_language.py:831-833 | if yields its second argument, or its third exactly when the first is nothing, false, zero, the empty text or the empty list |
| ScriptLaws.TestsDecide | backend/core/management_script_language.py:905-915 | not, is_empty, all and any, in terms of those values |
| ScriptLaws.EqualsIs | backend/core/management_script_language.py:834-836 | equals holds for equal values and for a boolean with the number it stands for, and for no others |
| ScriptLaws.ContainsItem | backend/core/management_script_language.py:837-842 | contains finds a needle in a list if and only if some item is its text |
| ScriptLaws.ContainsPart | backend/core/management_script_language.py:837-842 | contains finds a needle in a text if and only if the text splits around it |
| ScriptLaws.FirstIs | backend/core/management_script_language.py:867-870 | first yields the first item of a list that has one, and anything else as it is |
| ScriptLaws.JoinPutsBetween | backend/core/management_script_language.py:871-875 | join puts the separator between neighbours and nowhere else |
| ScriptLaws.JoinByDefault | backend/core/management_script_language.py:871-875 | Its separator is a semicolon and a space unless one is given; what is no list is only made a text |
| ScriptLaws.ConcatAppends | backend/core/management_script_language.py:902-904 | concat of one argument is its text, and of two rows of arguments the one text behind the other |
| ScriptLaws.ReplaceFirst | backend/core/management_script_language.py:843-845 | replace changes the first occurrence and goes on behind it, and nothing where there is none |
| ScriptLaws.ReplaceNothing | backend/core/management_script_language.py:843-845 | The empty pattern is found before every character and at the end |
| ScriptLaws.SliceOfText | backend/core/management_script_language.py:846-851 | slice keeps exactly what stands between two indices, negative ones counted from the end |
| ScriptLaws.SliceOfList | backend/core/management_script_language.py:846-851 | The same for the items of a list |
| ScriptLaws.PadPutsBefore | backend/core/management_script_language.py:852-863 | pad accepts exactly widths from 0 to 1024 with one character of fill, a zero by default, and puts fill in front up to the width |
| ScriptLaws.IntegersOf | backend/core/management_script_language.py:774-794 | A text counts as the integer that its digits say, with or without a sign and white space; booleans, lists and nothing do not |
| ScriptLaws.TextFunctionsPassOn | backend/core/management_script_language.py:864-866 | lower, upper, title and asciifold pass the text of their argument on, each to its own function |
| ScriptLaws.SortNameMoves | backend/core/management_script_language.py:876-882 | sortname moves a leading the, an or a, tried in this order, behind a comma |
| ScriptLaws.SortNameStrips | backend/core/management_script_language.py:876-882 | Without an article it only strips |
| ScriptLaws.UnsafeCharacters | backend/core/management_script_language.py:889-901 | The characters that path_safe replaces |
| ScriptLaws.PathSafeReplaces | backend/core/management_script_language.py:889-901 | path_safe replaces exactly those; it accepts one character other than the slashes and NUL as replacement |
| ScriptLaws.DefaultIsFirst | backend/core/management_script_language.py:828-830 | default yields its first argument that is not empty, and nothing if all are |
| ScriptLaws.LimitsOfValues | backend/core/management_script_language.py:146-189 | Which values are acceptable, in characters and items |
| ScriptLaws.LeavesEvaluate | backend/core/management_script_language.py:928-934 | A literal evaluates to its value, a variable to what it is bound to or nothing, each for one step |
| ScriptLaws.CallEvaluates | backend/core/management_script_language.py:925-952 | A call that evaluates is its function on the values of its arguments, each of which evaluates on its own |
| ScriptLaws.ListEvaluates | backend/core/management_script_language.py:935-940 | A list that evaluates holds the texts of its items |
| ScriptLaws.IfEvaluates | backend/core/management_script_language.py:831-833 | A call of if that evaluates has the value of one branch, chosen by its condition |
| ScriptLaws.WordCompiles | backend/core/management_script_language.py:386-411 | A word compiles to true, false or nothing exactly if it says so in any case of its letters, and to a variable otherwise |
| ScriptAlphabet.EscapesSay | backend/core/management_script_language.py:206-270 | Behind a backslash the letters n, r and t, a backslash and the quote of the literal say one character each, and the literal goes on behind them; any other letter but u is refused where it stands |
| ScriptAlphabet.UnitsSay | backend/core/management_script_language.py:242-258 | A backslash, the letter u and four hexadecimal digits say the code unit with that number |
| TaggingProgram.ParseTaggingBlock | backend/core/management_script_language.py:597-712 | The loop over a tuple of lines, with its list of statements and its recursion, equals the recursive reader of linked lines; it terminates on every tuple and its position stays inside |
| TaggingProgram.ParseConditional | backend/core/management_script_language.py:634-654 | The two branches of a conditional up to its end, read by index |
| TaggingProgram.ParseBlock | backend/core/management_script_language.py:597-712 | No block reads lines twice, and one that ends at a terminator has read it |
| TaggingProgram.CompileTaggingProgram | backend/core/management_script_language.py:716-744 | The program compiler equals its specification on every source |
| TaggingProgram.BlockIsSound | backend/core/management_script_language.py:597-712 | At any nesting depth, depth plus height of a block stays within 20 and all targets and expressions keep their limits |
| TaggingProgram.AcceptedPrograms | backend/core/management_script_language.py:716-744 | Every accepted program has 1 to 500 statements over all levels, at most 19 nested conditionals, well-formed targets, and compiled expressions only |
| TaggingProgram.StripDropsRight | backend/core/management_script_language.py:610-612 | White space at the end of a text does not change what stripping leaves |
| TaggingProgram.SignOfLine | backend/core/management_script_language.py:691-694 | The first equals sign of an assignment line is the one that ends its target |
| TaggingProgram.AssignmentColumn | backend/core/management_script_language.py:691-700 | The column handed to the compiler for an assignment is the one behind the equals sign; the place where the expression begins is as many columns further as there is white space, and equals that column if and only if there is none |
| TaggingPrinter.CompileOfPrint | backend/core/management_script_language.py:444-487 | The one-line print of an expression is solid text that compiles to the expression |
| TaggingPrinter.ReadAssignmentLine | backend/core/management_script_language.py:676-702 | An indented set or append line is read as its operation, target and expression |
| TaggingPrinter.ReadIfLine | backend/core/management_script_language.py:618-633 | An indented if line is read as its condition |
| TaggingPrinter.BlockOfPrinted | backend/core/management_script_language.py:597-712 | Reading the printed lines of a block yields the block and goes on with the lines behind it |
| TaggingPrinter.BranchesOfPrinted | backend/core/management_script_language.py:634-654 | The printed branches of a conditional are read back; else is printed only for a branch that is not empty |
| TaggingPrinter.SplitOfJoined | backend/core/management_script_language.py:723 | Splitting a text at line breaks undoes joining lines with newlines |
| TaggingPrinter.CompileOfPrintedProgram | backend/core/management_script_language.py:716-744 | PROGRAM ROUND TRIP: every non-empty program within the limits, printed as a text of at most 32768 characters, compiles to itself |
| TaggingPrinter.AcceptedProgramsFormat | backend/core/management_script_language.py:716-744 | The print of any accepted program, if not longer than a source may be, is accepted and says the same program |
| TaggingLayout.SkipsLine | backend/core/management_script_language.py:610-615 | A line of white space alone, or whose first visible character is a number sign, is skipped: the block is read as if it began a line later |
| TaggingLayout.StatementsIgnoreLayout | backend/core/management_script_language.py:597-712 | Two blocks with the same lines apart from such lines and from the white space around lines are read alike, up to places, also in their failures |
| TaggingLayout.ProgramIgnoresLayout | backend/core/management_script_language.py:716-744 | So are two programs |
| TaggingLayout.CompileOfAnyLayout | backend/core/management_script_language.py:716-744 | ROUND TRIP IN ANY LAYOUT: a source whose lines say what a printed program says compiles to that program, whatever comments and blank lines stand between them and however they are indented |
| TaggingLayout.LineInFrontIsSkipped | backend/core/management_script_language.py:610-615 | A comment or a blank line in front of a program changes nothing but places |
| TaggingLaws.MarksSay | backend/core/management_script_language.py:617-618 | Exactly the lines else: and end, in any indentation, end a block |
| TaggingLaws.ConditionSays | backend/core/management_script_language.py:619-633 | The word if and a colon at the end of the line make a condition of the text between them; without the colon the line is refused |
| TaggingLaws.DeletionSays | backend/core/management_script_language.py:667-675 | The word delete removes what follows if it is a letter or underscore with letters, digits and the characters _. :/- behind it, and is refused otherwise |
| TaggingLaws.AssignmentSays | backend/core/management_script_language.py:676-707 | The words set and append put the expression behind the first equals sign into the target before it, if that is well-formed, and are refused otherwise |
| TaggingLaws.OthersSay | backend/core/management_script_language.py:684-690 | No other line is a statement |
| TaggingLaws.SplitAtBreak | backend/core/management_script_language.py:723 | A text is split at each of the ten line breaks of Python, and a carriage return with a newline behind it is one break |
| TaggingLaws.StatementsAreCounted | backend/core/management_script_language.py:747-751 | Each statement is counted once, whatever stands around it and in its branches |
| TaggingLaws.ProgramsInNumbers | backend/core/management_script_language.py:716-751 | Accepted programs in numbers: at most 32768 characters, 1 to 500 statements, and a block is refused exactly from the 21st level on |
| NamingTemplate.CompileNamingTemplate | backend/core/management_script_language.py:491-594 | The scanning loop with its tracked line and column and its counted literal positions equals the recursive specification, failures and their places included |
| NamingTemplate.Advance | backend/core/management_script_language.py:572-577 | Line and column behind a consumed brace, by counting, are where a character-by-character reader would stand |
| NamingTemplate.LocateByCounting | backend/core/management_script_language.py:519-521 | Counting newlines and finding the last one gives the place that tracking gives |
| NamingTemplate.TemplateIffCovered | backend/core/management_script_language.py:491-594 | A source compiles to some segments if and only if it is neither empty nor too long and the segments cover it: no gap, no overlap, literals non-empty, brace-free and never adjacent, each other segment what its braced body says |
| NamingTemplate.LegacyIffField | backend/core/management_script_language.py:544-556 | A body is a plain field if and only if it is a name of letters, digits and underscores, not beginning with a digit, alone or with a colon and a format without braces |
| NamingTemplate.SegmentStands | backend/core/management_script_language.py:515-583 | Every segment stands at a place of the source: literals at their first character, others at their brace |
| NamingTemplate.BodyPlaceIsRight | backend/core/management_script_language.py:535-566 | The place handed to the compiler for a braced body is the place of its first visible character if and only if no newline stands before it in the brace |
| ScriptPlaces.CompileMoves | backend/core/management_script_language.py:444-487 | Told another starting place, the compiler yields the same tree or the same failure for every source, with every place in it moved along: columns change on the first line only |
| PlaceDrift.AssignmentRoot | backend/core/management_script_language.py:691-700 | For an accepted assignment line the root of the compiled tree stands where the text of the expression begins if and only if no white space follows the equals sign |
| PlaceDrift.AssignmentDrift | backend/core/management_script_language.py:691-700 | Told the right place, the compiler yields the same tree or failure for an assignment, with the places moved by the width of that white space |
| PlaceDrift.PrintedAssignmentIsOff | backend/core/management_script_language.py:691-700 | Every assignment line in the canonical layout is accepted, and the root of its tree is placed one column before its text |
| PlaceDrift.SetOneIsOff | backend/core/management_script_language.py:691-744 | A concrete program, set a = 1: it compiles, with the expression at column 8, and its text stands at column 9 |
| PlaceDrift.TemplateRoot | backend/core/management_script_language.py:535-566 | The root of a compiled body stands where the text of the body begins if and only if no newline stands before it in the brace |
| PlaceDrift.TemplateDrift | backend/core/management_script_language.py:535-566 | Told the right place, the compiler yields the same tree or failure for a body, with the places moved from the line of the brace to its own |
| PlaceDrift.BrokenTemplateIsOff | backend/core/management_script_language.py:491-594 | A concrete template with a newline behind its brace: it compiles, with the expression on line 1, and its text stands on line 2 |
| UpgradeProtocol.RunKeepsInvariant | backend/maintenance/automatic_upgrade.py:1456-2165 | Every state of every run, over any number of boots and with a crash between any two steps, satisfies the invariant of its phase |
| UpgradeProtocol.EveryRunIsGood | backend/maintenance/automatic_upgrade.py:1456-2691 | SAFETY, also with a target that changes the live pair while it starts up: under a recoverable record the backup holds the pair the user is entitled to, otherwise that pair is live; it is live whenever recovery is over; an admitted target runs only on a completed upgrade; no target runs and no admission was attempted while a backup is restored |
| UpgradeProtocol.RecoveryKeepsCore | backend/maintenance/automatic_upgrade.py:1344-1508 | Recovery steps, also when interrupted, keep the invariant |
| UpgradeProtocol.PreparationKeepsCore | backend/maintenance/automatic_upgrade.py:1986-2034 | Backup, migrating record and working copy keep the invariant |
| UpgradeProtocol.PromotionKeepsCore | backend/maintenance/automatic_upgrade.py:2024-2111 | Promotion, settings first and database second, keeps the invariant |
| UpgradeProtocol.HandshakeKeepsCore | backend/maintenance/automatic_upgrade.py:2276-2297 | Spawning, validating and passing admission keep the invariant |
| UpgradeProtocol.CommitKeepsCore | backend/maintenance/automatic_upgrade.py:2559-2582 | Completing the record and writing the admitted file keep the invariant |
| UpgradeProtocol.WithdrawalKeepsCore | backend/maintenance/automatic_upgrade.py:2365-2395 | Terminating a target and restoring after its failed start keep the invariant |
| UpgradeProtocol.UndisturbedUpgradeSucceeds | backend/maintenance/automatic_upgrade.py:1880-2165 | PROGRESS: from any live pair and any working copy with a marker the undisturbed run of named steps is possible and ends with the working copy live and official under a completed record, over a backup of the old pair; with admission, under an admitted target |
| UpgradeProtocol.AdmissionCompletes | backend/maintenance/automatic_upgrade.py:2559-2582 | From every state with a validated target under a pending record, completing the record, writing the admitted file and passing are possible and end with that target admitted, the record completed and the live pair official |
| UpgradeProtocol.RestorationCompletes | backend/maintenance/automatic_upgrade.py:1344-1378 | From every started restore, database, settings and record can be written, and the live pair is then the backup under the record that its cause calls for |
| UpgradeProtocol.StartupFailureIsRolledBack | backend/maintenance/automatic_upgrade.py:2365-2395 | A stopped target under a pending record with its backup is rolled back to that backup, with a failed record |
| UpgradeProtocol.WaitingIsRolledBack | backend/maintenance/automatic_upgrade.py:2298-2395 | The same for a target that is given up before it validates |
| UpgradeProtocol.FailedCommitIsRolledBack | backend/maintenance/automatic_upgrade.py:2559-2691 | The same for a target whose admission could not be recorded |
| UpgradeProtocol.CommittedIsKept | backend/maintenance/automatic_upgrade.py:2559-2691 | Once the record says completed the new pair stays live and official, also when the target has to be stopped |
| UpgradeProtocol.UnstartedIsRolledBack | backend/maintenance/automatic_upgrade.py:2168-2395 | So is a target that cannot be started |
| UpgradeProtocol.FailedRestoreIsTriedAgain | backend/maintenance/automatic_upgrade.py:1344-1508 | NO RESTORE IS LOST: one that fails, whichever of the two files it has replaced and whether or not the failure can be recorded, is made up for by the next boot, which ends with the backup live |
| UpgradeProtocol.PromotionFailureIsRolledBack | backend/maintenance/automatic_upgrade.py:2024-2111 | A promotion that fails after any of its writes, or whose last record is refused, is rolled back |
| UpgradeProtocol.RunnerFailureChangesNothing | backend/maintenance/automatic_upgrade.py:1986-2034 | A failed migration leaves the live pair alone under a failed record |
| UpgradeProtocol.InterruptionIsRestored | backend/maintenance/automatic_upgrade.py:1456-1508 | The boot after an interruption restores the backup and goes on |
| UpgradeProtocol.UntouchedIsKept | backend/maintenance/automatic_upgrade.py:1456-1508 | It keeps a live pair that the migration had not touched |
| UpgradeProtocol.MarkedBootIsReady | backend/maintenance/automatic_upgrade.py:1880-1985 | A boot with nothing to recover and the marker is ready; a completed upgrade without marker and rollback is not started again |
| UpgradeProtocol.MixedOnlyWhilePromoting | backend/maintenance/automatic_upgrade.py:1880-2165 | New settings stand beside an old database only under the stage promoting, over all runs without faults in which a file being replaced keeps its old content until it is replaced, if and only if no target admission is asked for |
| UpgradeProtocol.MixedIsConfined | backend/maintenance/automatic_upgrade.py:1880-2165 | In all those runs, also with admission, such a pair appears under no stage but promoting and promoted_pending_startup, and under the second one only if admission was asked for |
| UpgradeProtocol.MixedWhilePending | backend/maintenance/automatic_upgrade.py:1344-1378 | The run that decides it for admission: no fault, and the new settings beside the old database under the stage promoted_pending_startup |
| UpgradeProtocol.LostCompletionMixes | backend/maintenance/automatic_upgrade.py:405-454 | If the final record can be written and yet reported as failed, a run ends switched off with a mixed pair under a completed record |
| UpgradeProtocol.LostMigratingStrands | backend/maintenance/automatic_upgrade.py:405-454 | If the migrating record can be, a run ends with a recoverable record whose backup is gone |
| UpgradeProtocol.StrandedForever | backend/maintenance/automatic_upgrade.py:1456-1508 | From such a state no later boot gets past recovery, whatever happens, as long as the record can be read |
| UpgradeProtocol.BlindSignatureKeepsTornDatabase | backend/maintenance/automatic_upgrade.py:467-473 | If the recorded signature can hold an unreadable entry, a run declares a torn database unchanged |
| UpgradeProtocol.UnreadableRecordSkipsRecovery | backend/maintenance/automatic_upgrade.py:457-464 | If the record can read as missing, a run passes recovery with a mixed pair |
| UpgradeProtocol.GoodExactlyWithoutFaults | backend/maintenance/automatic_upgrade.py:1456-2691 | All runs are safe if and only if none of these four faults can occur |
| Publishing.BlendKeepsBytes | backend/maintenance/automatic_upgrade.py:790-814 | Every intermediate state of the copy in place has the new bytes up to a point and the old ones behind it, and is never shorter than the old file |
| Publishing.BlendTwice | backend/maintenance/automatic_upgrade.py:790-814 | Writing on continues such a state |
| Publishing.Publisher.SettleProbe | backend/maintenance/automatic_upgrade.py:206-225 | One look amounts to exactly what was seen: a size that is known and differs decides without the content; unreadable if and only if something could not be read; on an honest volume a match means the expected bytes, and the expected bytes never count as a mismatch |
| Publishing.Publisher.HandleFirstCheck | backend/maintenance/automatic_upgrade.py:228-260 | The first look goes through an open handle, which decides alone if it shows anything else, and counts as a match only with the path agreeing; the expected bytes on an honest volume never count as a mismatch |
| Publishing.Publisher.Settle | backend/maintenance/automatic_upgrade.py:263-299 | Success only on a match; failure after one window if any look was unreadable and after two if all were mere mismatches; where nothing is refused the first look at the expected bytes is enough |
| Publishing.Publisher.WaitForContent | backend/maintenance/automatic_upgrade.py:171-196 | True after a look that matched, and false only after every look of the window has missed |
| Publishing.Publisher.Settled | backend/maintenance/automatic_upgrade.py:888-935 | After a successful rename: success with a matched look, failure only with nothing to compare with or all looks that are owed missed |
| Publishing.Publisher.OverwriteInPlace | backend/maintenance/automatic_upgrade.py:790-814 | Wherever it stops the file is such a blend, and that it stopped is noted; it ends well exactly if the source is not empty and nothing is refused, and then with the new bytes |
| Publishing.Publisher.ReplaceFile | backend/maintenance/automatic_upgrade.py:838-971 | For every pattern of failures: success if and only if a look matched; failure only when the folder, every staging attempt or two readings of the bytes to compare with were refused, or all looks that are owed have missed; on an honest volume that refuses nothing it succeeds at the first look and leaves no temporary file; after a successful rename nothing is copied in place; it is copied in place only after a full window of looks, and without that the destination is the old or the new file |
| Publishing.Publisher.CopyFileInPlace | backend/maintenance/automatic_upgrade.py:953-971 | After the copy the looks alone decide: success if and only if one matches |
| Publishing.Publisher.ConfirmNoSidecars | backend/maintenance/automatic_upgrade.py:1302-1320 | A look for live sidecars that cannot read counts as finding one |
| Publishing.Publisher.Conclude | backend/maintenance/automatic_upgrade.py:1100-1109 | After a matched look only a sidecar that is live, or cannot be looked for, fails the installation; otherwise the journal mode is set back where the staged file carried WAL |
| Publishing.Publisher.ReplaceDatabase | backend/maintenance/automatic_upgrade.py:1029-1251 | The same for a database: success if and only if a look matched and no sidecar is live; it gives up for the same reasons only; on an honest volume that refuses nothing it succeeds, in the journal mode of the source and without sidecars or temporary files; sidecars go back exactly after a failed rename without a match; the journal mode is set back exactly on success by renaming a staged WAL database; and whatever fails the destination holds the old content, the new content, or a second backup copied in place over one of them, wherever that copy stopped |
| Publishing.Publisher.StageDatabase | backend/maintenance/automatic_upgrade.py:1040-1075 | A staged backup in WAL mode is made quiet, any other is published byte for byte; it is given up only after ten refusals |
| Publishing.Publisher.Quarantine | backend/maintenance/automatic_upgrade.py:1254-1281 | Live sidecars are renamed aside, or stay where they are if that is refused |
| Publishing.Publisher.AfterRename | backend/maintenance/automatic_upgrade.py:1091-1141 | A successful rename is waited for and never undone |
| Publishing.Publisher.AfterFailedRename | backend/maintenance/automatic_upgrade.py:1142-1245 | A failed rename may have taken effect: it is looked for before anything is copied; the destination is left as found or overwritten by a second backup |
| Publishing.Publisher.CopyDatabaseInPlace | backend/maintenance/automatic_upgrade.py:1184-1245 | The fallback copy succeeds only when the copied bytes are seen and no sidecar is live; wherever it stops, the destination is the old file, the backup, or a blend of both |
| Sequences.CountIffOccurs | backend/maintenance/configure_frontend_base.py:152-161 | Counting a pattern finds something exactly when it occurs |
| Sequences.Miss | backend/maintenance/configure_frontend_base.py:156-184 | A replacement leaves a stretch alone in which no match begins |
| StaticRewrite.FlatOfCut | backend/maintenance/configure_frontend_base.py:131-203 | Cutting an asset into references and bytes loses nothing |
| StaticRewrite.ScanRewrites | backend/maintenance/configure_frontend_base.py:131-203 | The one scan by letters: a font reference gets the base in front of it unless it is relative, a placeholder is the base, one before a font reference is the base once, one inside a relative reference is dropped, and every other byte stays |
| StaticRewrite.FirstPasses | backend/maintenance/configure_frontend_base.py:155-158 | The two relative passes hide exactly the relative font references the scan finds, and count them |
| StaticRewrite.CountFonts | backend/maintenance/configure_frontend_base.py:159-162 | The count of font references behind the first passes is the number of plain ones and of those behind a placeholder |
| StaticPasses.Step3 | backend/maintenance/configure_frontend_base.py:172-173 | The pass over placeholder and font reference changes exactly the pairs, on tidy sources |
| StaticPasses.Step6 | backend/maintenance/configure_frontend_base.py:177-178 | The placeholder pass replaces exactly the placeholders that stand alone or share a slash with a font reference |
| StaticPasses.PassesMean | backend/maintenance/configure_frontend_base.py:152-184 | What the passes compute: for every tidy source and base each of the eight passes, with its count, moves the parts of one cut of the source one stage on |
| StaticPasses.PassesAreOneScan | backend/maintenance/configure_frontend_base.py:131-203 | THE PASSES ARE ONE SCAN, each font reference prefixed once, if and only if no absolute font reference is directly followed by a placeholder without its slash; for every source without a marker core and without half a placeholder at a reference, and every base that spells neither placeholder nor marker |
| StaticPasses.NoMarkerLeft | backend/maintenance/configure_frontend_base.py:185-190 | On such a source and base no marker survives, so the check behind the passes does not fail |
| StaticPasses.PlaceholderLeft | backend/maintenance/configure_frontend_base.py:152-184 | A placeholder is left over if and only if a relative font reference, or one behind a placeholder, keeps its slash before the rest of one |
| StaticPasses.OrdinaryBase | backend/core/base_path.py:23-64 | Every normalized base path without underscores meets all that is asked of a base |
| StaticRewrite.TracelessPassesAreOneScan | backend/maintenance/configure_frontend_base.py:131-203 | Whatever source and base spell, the passes compute the one scan if the deployed text shows neither the stem of the placeholder nor the core of a marker |
| StaticPasses.TracelessSharesNothing | backend/maintenance/configure_frontend_base.py:131-203 | A deployed text without a trace comes from a source without shared slashes |
| StaticRewrite.SharedSlashDiffers | backend/maintenance/configure_frontend_base.py:174-178 | A concrete input for which they differ: a font reference whose last slash begins a placeholder |
| StaticPassLimits.SpelledMarkerDiffers | backend/maintenance/configure_frontend_base.py:174-190 | A source that spells a marker before a font reference: no shared slash, the passes put the base in the wrong place, and the check for surviving markers passes |
| StaticPassLimits.MarkedBaseDiffers | backend/maintenance/configure_frontend_base.py:177-182 | A base that spells a marker: the passes and the scan differ on a tidy source without shared slashes |
| StaticPassLimits.PartedMarkerDiffers | backend/maintenance/configure_frontend_base.py:177-184 | With an empty base a placeholder between two halves of a marker: taking it out makes the marker |
| StaticPassLimits.HalfTokenDiffers | backend/maintenance/configure_frontend_base.py:156-178 | Half a placeholder before a relative reference: the marker that hides the reference completes it |
| StaticAssets.StageAsset | backend/maintenance/configure_frontend_base.py:152-184 | The passes with their reassigned text and their counts compute the specification |
| StaticAssets.RewriteTextAssets | backend/maintenance/configure_frontend_base.py:131-203 | The walk over a tree: which assets are written, where an unreadable or unwritable file or a surviving marker stops it, what a leak into other files reports, and the three totals |
| StaticAssets.TreeIsDeployed | backend/maintenance/configure_frontend_base.py:131-203 | On foreseen texts the walk succeeds if and only if every file is readable, every changed one is text and writable; a text asset is then its simple rewriting if and only if it shares no slash, nothing else changes, and a file holds a placeholder if and only if it is text and a slash stays before one |
| StaticAssets.TailDecides | backend/maintenance/configure_frontend_base.py:216-224 | Once what was read holds no token, its last bytes, one fewer than the token has, decide about everything after it |
| StaticAssets.ScanFile | backend/maintenance/configure_frontend_base.py:212-224 | THE CHUNKED SCAN IS EXACT: a file is reported if and only if its whole content holds the token, however short the reads |
| StaticAssets.AssertNoTokens | backend/maintenance/configure_frontend_base.py:206-234 | The scan of a tree fails with the first ten files that hold the token, in order, and passes when none does |
| StaticAssets.DeployedTreePassesScan | backend/maintenance/configure_frontend_base.py:131-234 | A stamped tree passes the scan, however it is read, if and only if no slash stays before the rest of a placeholder in any text |
| MountPaths.NextStage | backend/infrastructure/filesystem_mounts.py:23-26 | Replacing the next entry of the table undoes exactly the escapes of that entry |
| MountPaths.UnescapeMountPath | backend/infrastructure/filesystem_mounts.py:23-26 | FOUR REPLACEMENTS ARE ONE SCAN: for every text the loop computes the left-to-right decoding |
| MountPaths.DecodedOfEncoded | backend/infrastructure/filesystem_mounts.py:9-26 | Every path survives being written with octal escapes and read back, also one that holds text like an escape |
| MountPaths.BestIsGreatest | backend/infrastructure/filesystem_mounts.py:45-50 | The maximum over the matching mounts is one of them and none is greater |
| MountPaths.ContainingMountCarries | backend/infrastructure/filesystem_mounts.py:43-50 | An identifier is returned if and only if some mount contains the path, and it is that of the deepest, and of those stacked on one point the highest |
| MountPaths.ContainsWhatIsBelow | backend/infrastructure/filesystem_mounts.py:43-45 | A mount contains its own point and everything below it, and nothing else |
| MountPaths.PointIsCarried | backend/infrastructure/filesystem_mounts.py:43-50 | A path that is itself a mount point is carried by what was mounted there last |
| EventBus.Publisher.constructor | backend/infrastructure/sse_publisher.py:38-41 | A new bus has no channel |
| EventBus.Queue.PutNowait | backend/infrastructure/sse_publisher.py:68-74 | A message is queued unless 200 are waiting |
| EventBus.Queue.Get | backend/infrastructure/sse_publisher.py:90-91 | The oldest message leaves the queue |
| EventBus.Publisher.OfferNewest | backend/infrastructure/sse_publisher.py:61-77 | The drain loop: the message is always accepted, behind what waits or alone; no queue is ever reported dead |
| EventBus.Publisher.Publish | backend/infrastructure/sse_publisher.py:43-58 | The newest payload is kept and every listening queue, and no other, is offered the message |
| EventBus.Publisher.Subscribe | backend/infrastructure/sse_publisher.py:82-88 | A new empty queue is listed and the snapshot is what the bus holds at that moment |
| EventBus.Publisher.Unsubscribe | backend/infrastructure/sse_publisher.py:94-100 | The queue leaves its channel, once or twice, and an empty channel goes |
| EventBus.Session.Publish | backend/infrastructure/sse_publisher.py:43-58 | Publishing, with all subscriptions that are being read, is one step of the bus on values |
| EventBus.Session.Subscribe | backend/infrastructure/sse_publisher.py:82-85 | Subscribing is one step: the new queue and the snapshot taken with it |
| EventBus.Session.Next | backend/infrastructure/sse_publisher.py:86-93 | What a subscriber is given next is one step: the snapshot first, then its queue in order, and nothing when both are used up |
| EventBus.Session.Close | backend/infrastructure/sse_publisher.py:94-100 | Leaving is one step and touches no other subscription |
| EventBus.StepKeepsGood | backend/infrastructure/sse_publisher.py:43-100 | Every step keeps every reader orderly and every channel up to date |
| EventBus.EntriesAreADictionary | backend/infrastructure/sse_publisher.py:43-60 | What the bus holds for a channel is a dictionary: a new event goes to the end, one that is there keeps its place, and each payload is found under its event |
| EventBus.EveryRunIsOrderly | backend/infrastructure/sse_publisher.py:43-100 | In every interleaving each queue is a contiguous end of what was published since its reader came; what was taken is in order, without duplicates, and complete since the last overflow |
| EventBus.ReaderCatchesUp | backend/infrastructure/sse_publisher.py:79-93 | Without overflow, snapshot, taken and waiting messages rebuild exactly what the bus holds for the channel |
| EventBus.ReaderAfterOverflow | backend/infrastructure/sse_publisher.py:61-77 | After an overflow a reader ends with the value on the bus for every event published since, and otherwise with what it had taken before |
| EventBus.RightIffInformed | backend/infrastructure/sse_publisher.py:61-77 | Once it has drained its queue a reader holds what the bus holds for an event if the last publication of the event reached it or there was none; where that publication said something new, if and only if |
| EventBus.OverflowLosesCompletion | backend/infrastructure/sse_publisher.py:61-77 | A concrete run in which one overflow drops a completion that its reader then never sees |
| CoverMemoryLru.TrimIsLongest | backend/repositories/coverart_repository.py:213-218 | Exactly the suffixes not longer than what trimming keeps are within both bounds |
| CoverMemoryLru.NewestIsKeptIffItFits | backend/repositories/coverart_repository.py:213-218 | A new entry is kept if and only if it fits the byte bound alone; otherwise the cache is left empty |
| CoverMemoryLru.Cache.constructor | backend/repositories/coverart_repository.py:169-174 | Both bounds are at least one |
| CoverMemoryLru.Cache.Get | backend/repositories/coverart_repository.py:176-182 | A hit becomes the most recent entry, a miss changes nothing |
| CoverMemoryLru.Cache.Set | backend/repositories/coverart_repository.py:190-218 | Afterwards the cache is the longest suffix within both bounds of the old entries with the new one at the end, and the byte counter is the sum of the sizes |
| CoverMemoryLru.UseMovesToEnd | backend/repositories/coverart_repository.py:176-218 | An entry that is used moves behind all others, which keep their order; so does one that is stored again, with its new content |
| CoverMemoryLru.Cache.Evict | backend/repositories/coverart_repository.py:220-224 | The entry goes and its bytes are no longer counted |
| CoverMemoryLru.Cache.ReadThrough | backend/repositories/coverart_repository.py:369-404 | A cover served through the cache: a hit is moved to the end, a miss is stored unless it is empty |
| CoverMemoryLru.LargerHoldsMore | backend/repositories/coverart_repository.py:168-224 | After the same fetches a cache is a suffix of a cache with larger bounds |
| DiskEviction.SortIsSorted | backend/repositories/coverart_disk_cache.py:300 | Sorting orders by last use and keeps every candidate |
| DiskEviction.SortIsStable | backend/repositories/coverart_disk_cache.py:300 | Files last used at the same time keep the order of the listing |
| DiskEviction.CutIsShortest | backend/repositories/coverart_disk_cache.py:302-309 | What is deleted is the shortest prefix that frees the excess, or everything |
| DiskEviction.DiskCache.Examine | backend/repositories/coverart_disk_cache.py:268-292 | The scan totals all files found and lists those that are not monitored |
| DiskEviction.DiskCache.DeleteInOrder | backend/repositories/coverart_disk_cache.py:302-309 | The loop deletes exactly that prefix and returns its bytes |
| DiskEviction.DiskCache.EnforceSizeLimit | backend/repositories/coverart_disk_cache.py:253-311 | When it is due and the limit is exceeded exactly those files go; otherwise nothing does |
| DiskEviction.OldestGoFirst | backend/repositories/coverart_disk_cache.py:289-309 | Monitored covers stay, and nothing goes that was used after something that stays |
| DiskEviction.LimitIsKept | backend/repositories/coverart_disk_cache.py:253-311 | Afterwards the cache is within the limit or only monitored covers are left; the bytes freed are the sum of the sizes, and with one deletion fewer the limit was still exceeded |
| DiskEviction.StampsDecideWhatGoes | backend/repositories/coverart_disk_cache.py:268-309 | The same said on stamps and flags: last access, else creation, else the epoch; flagged covers stay, and what goes was not used after what stays |
| SweepCursor.Inspect | backend/core/tasks.py:551-567 | The inspection collects the uncached candidates of what it saw; its break at the item limit is never taken |
| SweepCursor.Process | backend/core/tasks.py:580-655 | Candidates are attempted in order, and every cursor saved on the way leaves nothing behind it undone |
| SweepCursor.RunSweepCycle | backend/core/tasks.py:527-662 | However it is interrupted, a cycle never saves a cursor past a candidate neither found cached nor attempted before, and returns to the start only with the last page done; what it attempts, every cursor it saves and whether the sweep is complete are exact for every pattern of interruptions; undisturbed it attempts exactly the uncached candidates of the page |
| SweepCursor.EverySaveIsCovered | backend/core/tasks.py:527-662 | If every candidate up to the cursor is done, that holds for every cursor a cycle saves, wherever the process ends |
| SweepCursor.CompletionCoversAll | backend/core/tasks.py:546-549 | A sweep counts as complete only when every candidate of the list is done |
| SweepCursor.SweepVisitsAll | backend/core/tasks.py:540-578 | Undisturbed cycles over an unchanged list attempt every uncached candidate once, in order, in one cycle more than there are full pages |
| SweepCursor.RunSweep | backend/core/tasks.py:527-662 | The cycles themselves, each from the cursor saved last, make exactly that sweep |
| BlobStore.CopyAndHash | backend/infrastructure/library_management_blob_store.py:238-249 | The bytes written and digested, the length and the header depend on the content alone, not on the reads |
| BlobStore.HeaderDecides | backend/infrastructure/library_management_blob_store.py:26-41 | The first 12 bytes decide the image type, so adding from a file and from memory agree |
| BlobStore.ImagesBegin | backend/infrastructure/library_management_blob_store.py:26-41 | How a JPEG, PNG, GIF and WEBP image begin, by their bytes |
| BlobStore.ImageBeginsSo | backend/infrastructure/library_management_blob_store.py:26-41 | Nothing else is typed as one of them |
| BlobStore.Store.constructor | backend/infrastructure/library_management_blob_store.py:55-62 | A new store is sound |
| BlobStore.Store.AddBytes | backend/infrastructure/library_management_blob_store.py:68-87 | With all its steps it succeeds if and only if the stored bytes have the hash and length of the content and so has an object already there, and then exactly that object and its row are new; with fewer steps no row and no object is lost and every row keeps an object that hashes to its key |
| BlobStore.Store.AddSource | backend/infrastructure/library_management_blob_store.py:89-109 | The same for a file read in chunks, with its header |
| BlobStore.Store.AddFile | backend/infrastructure/library_management_blob_store.py:207-235 | Temporary file, verified publication, removal, registration: what is there after each number of steps, and when it succeeds |
| BlobStore.Store.PublishTemporary | backend/infrastructure/library_management_blob_store.py:251-269 | It succeeds if and only if the temporary bytes, and those of an object already there, have the hash and the length; a new key then gets exactly that file, and an existing object is never replaced |
| BlobStore.Store.ReadBytes | backend/infrastructure/library_management_blob_store.py:138-143 | In a sound store reading succeeds exactly for the registered keys |
| BlobStore.Store.Cleanup | backend/infrastructure/library_management_blob_store.py:152-185 | With three steps for each removal allowed it comes to its end, and then exactly the old temporary files among the entries examined, the unreferenced rows taken with their objects, and the objects without a row taken are gone, as counted; at most the limit is removed, and no object with a row, no referenced row and no young temporary file goes, wherever it stops |
| BlobStore.Store.RemoveUnreferenced | backend/infrastructure/library_management_blob_store.py:298-315 | Exactly the unreferenced rows and their objects go; the row goes first, so that an end in between leaves no row without an object |
| BlobStore.Store.RemoveOldTemporaries | backend/infrastructure/library_management_blob_store.py:317-340 | Exactly the old files among the entries examined go, until the limit or four times as many entries |
| BlobStore.Store.RemoveUnledgered | backend/infrastructure/library_management_blob_store.py:172-180 | Exactly the candidates without a row go |
| QualityRecipe.CanonicalIsFixed | backend/models/acquisition_quality.py:80-145 | Canonical entries are fixed points; an MP3 entry is a range that holds its target |
| QualityRecipe.EntriesAccepted | backend/models/acquisition_quality.py:80-145 | Which entries are accepted, with their limits; custom and FLAC entries stay as they are |
| QualityRecipe.StandardEntryAccepted | backend/models/acquisition_quality.py:58-120 | A standard MP3 entry is accepted with all its bounds or with none, and then has all of them |
| QualityRecipe.StandardsPartitionBitrates | backend/models/acquisition_quality.py:73-78 | Every bitrate from 16 up is inside exactly one standard MP3 quality, and no smaller one is inside any |
| QualityRecipe.OverlapIffShared | backend/models/acquisition_quality.py:183-188 | Two MP3 ranges overlap if and only if some bitrate is in both |
| QualityRecipe.NotesDecide | backend/models/acquisition_quality.py:214-248 | The sets and the list of ranges noted so far decide compatibility with everything before |
| QualityRecipe.ClashOf | backend/models/acquisition_quality.py:218-248 | The checks of one entry, in order |
| QualityRecipe.CheckPairs | backend/models/acquisition_quality.py:214-248 | The second loop refuses a recipe if and only if two of its entries are incompatible, for the reason the first bad entry gives |
| QualityRecipe.ValidateQualityRecipe | backend/models/acquisition_quality.py:191-248 | A recipe is accepted if and only if its entries are valid and pairwise compatible, and then in canonical form and order; otherwise the first problem is reported |
| QualityRecipe.ValidationIsIdempotent | backend/models/acquisition_quality.py:191-248 | An accepted recipe in canonical form is accepted again and stays as it is |
| QualityRecipe.OneEntryPerBitrate | backend/models/acquisition_quality.py:191-248 | Every bitrate is inside at most one entry of an accepted recipe |
| QualityRecipe.AcceptanceIgnoresOrder | backend/models/acquisition_quality.py:191-248 | Acceptance does not depend on the order of the entries |

## Left out

- StaticPasses.PassesAreOneScan: sources and bases that are not tidy are settled by examples and, where the deployed text shows no trace, by StaticRewrite.TracelessPassesAreOneScan.
- ScriptLexer.Tokenize: digits are ASCII; the program also accepts other decimal digits of Unicode, and refuses superscripts only when it converts them.
- ScriptCompiler.CompileExpression: function names and keywords are lowered as ASCII; the few non-ASCII characters that casefold to ASCII letters are not modelled, nor is the cache around the compiler.
- ScriptEvaluator.EvaluateExpression: nodes of an invalid kind do not exist in the model; Unicode functions are parameters.
- TaggingProgram.ParseTaggingBlock: nothing is claimed about the column of the expression of an `if`, which is that of its first textual occurrence in the line.
- TaggingPrinter.CompileOfPrintedProgram: one canonical layout with two spaces a level; other layouts are the subject of TaggingLayout.CompileOfAnyLayout.
- UpgradeProtocol.EveryRunIsGood: the original database is present; the in-place bootstrap of a fresh volume, the retry budget of failed fresh installs, the preserved copy of a promoted database and the older stage name `running` are not modelled.
- UpgradeProtocol.MixedOnlyWhilePromoting: a file being replaced keeps its old content until it is replaced; with half-written files a torn database can look like any other.
- UpgradeProtocol.GoodExactlyWithoutFaults: a torn state record is a record that reads as missing; further contents of records (evidence, counters, versions) are left out.
- Publishing.Publisher.ReplaceFile: file metadata and directory flushes are not modelled, nor is the time between looks.
- Publishing.Publisher.ReplaceDatabase: the pages of a database, journal modes other than WAL or not, and which of the two sidecars exists are not modelled.
- StaticAssets.RewriteTextAssets: copying the template, removing compressed variants and swapping directories are left out, and leaks are reported in the order of the walk.
- MountPaths.ContainingMountCarries: resolving symbolic links and splitting a path into parts happen before.
- EventBus.Publisher.Publish: payloads are compared only; keep-alives and cancellation are left out.
- DiskEviction.DiskCache.EnforceSizeLimit: sidecar files go with their cover and are not listed on their own; the second look at the time under the lock sees the same time.
- SweepCursor.RunSweepCycle: candidates are numbers in the order of the pages; what a fetch stores and how long a cycle waits are left out, and a failed fetch counts as an attempt.
- BlobStore.Store.AddFile: symbolic links, path checks and directory flushes are left out; the ledger inserts a missing row, keeps an existing one and refuses to delete a referenced one.
- BlobStore.Store.Cleanup: the bound on how many directories and entries are examined for objects without a row is left out; the lists are given.
- QualityRecipe.ValidateQualityRecipe: fields have their types; that a decoder may hand over others is not modelled.
- Web routing, settings, background task starters, the network repositories, the migrator and the startup validator: plumbing, or not part of the modelled files.
- Data-only structures and small helpers of the models: they would add easy members only.
