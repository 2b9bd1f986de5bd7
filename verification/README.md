# phxargs, verified

A Dafny model of phxargs, an `xargs` written in C: bytes are split into tokens, tokens are packed
into command lines, command lines become child processes. The stateful parts are classes with the
program's own fields, arrays and loops; each is proved against a small recursive specification, and
what phxargs promises is proved about those specifications and about every history of a run.

- `Bytes`, `Buffer`, `Tokenizers`, `SpaceTokenizer`, `DelimTokenizer`: the byte buffer, the six-state
  machine of the default tokenizer and the `-d`/`-0` loop, against `SpaceGrammar` and `DelimSplit`.
- `TokenStream`, `Quoting`, `LogicalEof`, `DelimRoundTrip`: what a whole input yields. Tokenizing
  inverts every quoting, each outcome is exactly one kind of ending, the `-E` marker cuts exactly
  where it should, and splitting and joining are inverse exactly under a stated condition.
- `Command`, `XargsMode`, `AppenderMode`, `ReplacerMode`: the assembly and launch loops, against
  `BatchPlan` and `ReplacerPlan`, for every behaviour of the children and of the signals.
- `BatchTheorems`, `BatchShape`: conservation, size safety, forced boundaries, optimality of the
  greedy packing, line grouping, and exactly when a run gives up.
- `ProcessPool`, `Trace`, `ExitStatus`: the pool over a system that may reap any live child with any
  status and may deliver any signals; what every history keeps; the one exit status.
- `Replacement`, `ReplacedArgs`: placeholder substitution, measured and then filled.
- `Options`, `Xargs`: last-option-wins, the size limit, construction and the whole program.
- `ByteMeaning`, `Signals`, `CommandLine`, `OptionEffects`: bytes, signals, numbers and options taken
  literally: what each byte means, what each signal does to the limit, what each option does to what is
  read and launched, stated without the vocabulary the rest is written in.
- `EndToEnd`: the promises of all stages together, stated of any history a run of the program leaves.
- `Halting`: which starts keep the documented promise that a 255 is the last launch, and histories that
  break it for all others.
- `Counterexamples`: inputs, starts and histories for the differences listed below.

How the outside world appears: `getc` reads a byte sequence that may end in an I/O error; `fork` and
`execvp` append to a history and return any unused pid (pids may be reused after a reap); `waitpid`
returns any live child with any status; pending signals are any two numbers each time they are
looked at; ARG_MAX, CHILD_MAX and the environment's length are parameters; `exit` is a result.

## Where the code and its documentation differ

The model follows the code.

- Severity: the code ranks 127 above 126 above 125 above 124 above 123 (src/process_pool.c:42-57);
  man/phxargs.1.md:119-120 puts 126 and 127 last. The status is the documented one exactly if children
  did not fail in both ways (`ExitStatus.DocumentedWorstIff`, `EndToEnd.StatusAsDocumentedIff`);
  `Counterexamples.NotFoundWins` returns 127 where the manual has 125.
- Halting: "if any child exits with status 255, no further invocations are started"
  (man/phxargs.1.md:70-71). The program learns of an exit only when it reaps, and it reaps only when the
  limit of `-P` is reached. Short of signals the promise is kept in every run exactly with one process,
  with at most one command, or where the program exits without waiting before it could learn of a 255
  (`Halting.HaltIsLastIff`, both modes); with `-P 0`, `-P 2` or more it can fail
  (`Counterexamples.ParallelGoesOn`). What does hold: nothing is launched after a 255 was reaped
  (`Trace.NoLaunchAfterHalt`), launches are missing exactly if one was refused for a 255 reaped before it
  (`Trace.Refused`), and with `-P 0` all are made (`EndToEnd.UnlimitedLaunchesAll`).
- `-s` without `-x` does not bound a launch of one argument (`Counterexamples.OversizedLaunched`); the
  limit is kept exactly if no token is too long for any command line (`BatchShape.AllFitIff`).
- `-s` is said to count the command and its arguments; the code also counts the environment
  (`Counterexamples.EnvironmentCounts`).
- `-E`: README.md of phxargs has it compared with lines, the manual with items; the code compares tokens
  (`LogicalEof.MarkerCuts`, `Counterexamples.MarkerWithinLine`).
- `-n` with `-L`: the manual lets `-L` win, the code lets the last one given win
  (`Options.LinesInForceIff`, `Counterexamples.ArgumentsAfterLines`).
- `-x` is said to keep a command line within the limit; the launch made for empty input is not
  checked (`Xargs.EmptyLaunchFits`, `Counterexamples.EmptyLaunchTooLong`), and with `-I` the check looks at
  the unsubstituted arguments (`EndToEnd.SubstitutedLaunchFits`, `Counterexamples.TwoPlaceholdersExceed`).
- `-x` with `-n` gives up on tokens that fit singly, exactly if a group of max_args of them is too long
  (`BatchShape.CountedGrouping`, `Counterexamples.CountedGivesUpNeedlessly`).
- A newline after a last delimiter other than newline is stripped from an item that is then empty, and
  that item is an argument (`DelimRoundTrip.ExtraNewlineAddsEmptyToken`,
  `Counterexamples.NewlineAfterDelimiter`).

## Model

| member | source | states |
|---|---|---|
| `Bytes.CStr` | src/tokenizer.c:58-60 | what the rest of the program sees of a token is the longest NUL-free prefix of its bytes |
| `Bytes.CStrStopsAt` | src/space_tokenizer.c:73-75 | a token ends at its terminator whatever earlier tokens left behind it in the buffer |
| `Buffer.Buffer.Put` | src/buffer.c:32-39 | contents grow by exactly the byte across reallocation; capacity doubles only when full; Valid keeps total bytes moved at most twice the bytes put |
| `Buffer.Buffer.DropLast` | src/buffer.c:41-45 | removes the last byte, or nothing from an empty buffer |
| `Buffer.Buffer.Reset` | src/buffer.c:47-49 | empties the buffer and keeps its capacity |
| `Tokenizers.ByteSource.Getc` | src/space_tokenizer.c:199-200 | each byte is read once and in order, then EOF for ever |
| `Tokenizers.Tokenizer.Add` | src/tokenizer.c:50-52 | appends to the shared buffer, error untouched |
| `Tokenizers.Tokenizer.TokenIsText` | src/tokenizer.c:58-60 | the string read from memory is the token's own bytes, cut at their first NUL |
| `SpaceGrammar.SkipSeparators` | src/space_tokenizer.c:92-98 | what is left starts with no blank, tab or newline |
| `SpaceGrammar.SpaceStep` | src/space_tokenizer.c:194-227 | a call never un-reads input and makes progress whenever it delivers a token |
| `SpaceTokenizer.SpaceTokenizer.EndToken` | src/space_tokenizer.c:73-85 | delivers the token's C string unless it equals the marker; machine back in its initial state with an empty buffer |
| `SpaceTokenizer.SpaceTokenizer.HandleNoTokenChar` | src/space_tokenizer.c:87-109 | separators change nothing; any other byte starts a word, and the state and text reached mean what the grammar reads from there |
| `SpaceTokenizer.SpaceTokenizer.HandleInTokenChar` | src/space_tokenizer.c:111-140 | exactly the separators end the token, exactly a newline reports a boundary, anything else preserves the word being read |
| `SpaceTokenizer.SpaceTokenizer.HandleQuotedChar` | src/space_tokenizer.c:142-161 | only a newline that is not the quote fails; otherwise the word being read is preserved |
| `SpaceTokenizer.SpaceTokenizer.HandleEof` | src/space_tokenizer.c:163-192 | I/O error first, then backslash, then quote; otherwise the last token with its boundary, or nothing |
| `SpaceTokenizer.SpaceTokenizer.HandleChar` | src/space_tokenizer.c:201-223 | one byte through any of the six states keeps or finishes the word the grammar reads |
| `SpaceTokenizer.SpaceTokenizer.NextToken` | src/space_tokenizer.c:194-227 | streaming refinement: the call's token, error, boundary count and unread input are those of one grammar step on all the input left |
| `Quoting.ScanSource` | src/space_tokenizer.c:111-161 | scanning the source of any mix of plain, escaped and quoted pieces yields their meaning and goes on after them |
| `Quoting.Reads` | src/space_tokenizer.c:87-192 | quoting round trip: any correct quoting of any words, with any separators, gives back exactly the words and line ends, then the outcome its ending stands for |
| `Quoting.ReadsText` | src/space_tokenizer.c:194-227 | correctly written words are read the same whatever follows them and whether or not reading later fails |
| `Quoting.RoundTripExact` | src/space_tokenizer.c:73-85 | tokens equal the words byte for byte if and only if no word contains NUL |
| `Quoting.TextMeaningAt` | src/space_tokenizer.c:117-128 | the i-th item is the i-th word, ending a line exactly when a newline follows it directly: a blank continues the line |
| `Quoting.Decompose` | src/space_tokenizer.c:194-227 | every input is separators, correctly quoted words, a last word and one of three tails |
| `Quoting.OutcomeIff` | src/space_tokenizer.c:152-189 | clean end, backslash error and quote error each if and only if the input ends cleanly, in a backslash, or in an open quote |
| `ByteMeaning.ByteBetween` | src/space_tokenizer.c:87-140 | for every byte, what it does between two plain ones: 9, 10 and 32 separate, 34 and 39 quote, 92 escapes, 0 ends the C string, all others are plain |
| `ByteMeaning.QuotedBody` | src/space_tokenizer.c:142-161 | 34 or 39 around any body free of itself and of 10 is one token, the body |
| `ByteMeaning.QuoteLeftOpen` | src/space_tokenizer.c:152-189 | without the closing one before 10 or the end it is an error |
| `ByteMeaning.EscapedByte` | src/space_tokenizer.c:130-140 | after 92 every byte is literal |
| `ByteMeaning.BackslashAtTheEnd` | src/space_tokenizer.c:163-192 | 92 at the end is an error |
| `ByteMeaning.FailingReads` | src/space_tokenizer.c:163-192 | a failing read comes before the other errors at the end of input |
| `LogicalEof.MarkerCuts` | src/space_tokenizer.c:78-84 | with a marker the tokens are exactly those before the first one equal to it; without such a token nothing changes |
| `LogicalEof.NothingAfterMarkerMatters` | src/space_tokenizer.c:78-84 | replacing everything unread after the marker, or making it fail, changes no token and no outcome if and only if the word read is still the marker: always if a separator ended it, else if nothing or a separator comes to follow (or what is added leaves the C string the same) |
| `LogicalEof.StandsBeforeSeparator` | src/space_tokenizer.c:163-192 | a marker ended by the end of input still is one when nothing or a separator comes to follow it |
| `LogicalEof.StepIgnoresRest` | src/space_tokenizer.c:194-227 | a call that read up to a separator does the same on any other input after it |
| `DelimSplit.Find` | src/delim_tokenizer.c:40-46 | the first occurrence of the delimiter and no earlier one |
| `DelimSplit.StepTakes` | src/delim_tokenizer.c:40-46 | a call takes exactly what stands before the delimiter and leaves what stands after it |
| `TokenStream.FailureIsSeen` | src/delim_tokenizer.c:49-52 | a failing read is never taken for the end of input; under -d, -0 and -I it always shows |
| `DelimTokenizer.DelimTokenizer.NextToken` | src/delim_tokenizer.c:33-66 | token, error, boundary count and unread input are those of one split step on all the input left |
| `DelimTokenizer.DelimTokenizer.HandleEof` | src/delim_tokenizer.c:49-65 | error, nothing, or the last token without one trailing newline |
| `DelimRoundTrip.TerminatedRoundTrip` | src/delim_tokenizer.c:33-47 | delimiter-terminated tokens come back exactly, empty ones included, each ending a line |
| `DelimRoundTrip.ReadsTerminated` | src/delim_tokenizer.c:33-47 | ... whatever follows them |
| `DelimRoundTrip.JoinedRoundTripIff` | src/delim_tokenizer.c:53-65 | joined tokens come back if and only if the last is not empty and loses no newline |
| `DelimRoundTrip.RejoiningRestores` | src/delim_tokenizer.c:33-66 | rejoining the tokens of any input restores it up to a final delimiter and at most one newline |
| `DelimRoundTrip.ExtraNewlineAddsEmptyToken` | src/delim_tokenizer.c:56-64 | a newline after the last delimiter adds exactly one empty token |
| `DelimRoundTrip.NegativeDelimiterNeverMatches` | src/delim_tokenizer.c:41-43 | a delimiter negative as a char leaves the whole input one token |
| `BatchTheorems.Conservation` | src/appender_mode.c:43-78 | the batches concatenate to the tokens, to a prefix of them when the run ends early, and none is empty if there was a token |
| `BatchTheorems.SizeSafety` | src/command.c:240-269 | with -x every batch fits, without it every batch of two or more (`BatchShape.AllFitIff` has the rest); never more than max_args |
| `BatchTheorems.ForcedBoundaries` | src/appender_mode.c:49-54 | outside -L the first token of each batch did not fit with the batch before |
| `BatchTheorems.GreedyIsOptimal` | src/appender_mode.c:43-63 | outside -L no order-preserving packing within the limits uses fewer commands, and a completed run is itself such a packing whenever one exists |
| `BatchTheorems.FewerBatches` | src/appender_mode.c:51-61 | cutting the launches short leaves a prefix of the arguments |
| `BatchShape.LineGrouping` | src/command.c:264-266 | in -L mode, for every outcome of reading, the launches are the groups of max_lines consecutive logical lines: all of them on completion, exactly those before the first group that is too long when the run gives up (which it does exactly if there is one), the whole ones on an input error |
| `BatchShape.LineBatches` | src/appender_mode.c:56-62 | ... from any point with fewer than max_lines lines collected, so the equality test on the line count is never stepped over |
| `BatchShape.CountedGrouping` | src/command.c:246-250 | the same with -n and -x, for the groups of max_args tokens, those followed by a further token on an input error |
| `BatchShape.ChunksPartition` | src/command.c:246-266 | the groups put together are the whole, all full but the last, which is not empty |
| `BatchShape.GivesUpIff` | src/command.c:287-300 | with -x alone a run gives up if and only if some token fits no command line; without -x if and only if the first one does not |
| `BatchShape.AllFitIff` | src/command.c:287-300 | every launch fits with -x, and without it exactly if no launched token is too long for any command line; on completion, exactly if no token of the input is |
| `ExitStatus.AccumulateIsWorst` | src/process_pool.c:59-63 | the status is the mapped status of greatest severity over all children, 0 if none |
| `ExitStatus.WorstIsUnique` | src/process_pool.c:42-57 | that status is unique |
| `ExitStatus.OrderDoesNotMatter` | src/process_pool.c:59-88 | any order of completions gives the same status |
| `ExitStatus.SuccessIff` | src/process_pool.c:65-88 | 0 if and only if every child exited with 0 |
| `ExitStatus.GreatestCode` | src/process_pool.c:42-88 | the status is the numerically greatest of 0 and what the children contribute: 0, 126 and 127 themselves, 255 as 124, any other exit as 123, a signal as 125 |
| `ExitStatus.HaltShows` | src/process_pool.c:69-73 | after a 255 the status is at least as severe as 124 |
| `ExitStatus.DocumentedWorstIff` | src/process_pool.c:42-63 | the status is the worst one in the order of the manual if and only if commands that did not run and commands that failed did not both occur |
| `Trace.LimitRange` | src/process_pool.c:131-144 | under any signals a limit stays in 1..CHILD_MAX, and no limit stays no limit |
| `Signals.EachItsWay` | src/process_pool.c:117-145 | SIGUSR1 alone never lowers the limit, SIGUSR2 alone never raises it |
| `Signals.SaturatesAtBounds` | src/process_pool.c:131-144 | each signal counts for one, down to 1 and up to CHILD_MAX |
| `Signals.LimitIsSum` | src/process_pool.c:117-145 | within the bounds the limit is the -P argument plus the SIGUSR1 and minus the SIGUSR2 received |
| `Signals.LaunchWithinSum` | src/process_pool.c:178-184 | after every launch of a run no more children live than that sum |
| `Signals.TwoAtOnce` | src/process_pool.c:117-145 | a run of -P 1 in which, after one SIGUSR1, two children live at once |
| `Trace.LaunchWithinLimit` | src/process_pool.c:178-184 | after every launch no more children live than the limit in force allows |
| `Trace.NoLaunchAfterHalt` | src/xargs_mode.c:98-106 | nothing is launched after a child that exited with 255 was reaped |
| `Trace.ChildrenConserved` | src/process_pool.c:90-115 | every child started has been reaped exactly once or is live |
| `Trace.SerialNeverOverlaps` | src/process_pool.c:178-184 | with one process and no signals a launch happens only when no child lives |
| `Trace.SerialStopsAtHalt` | src/xargs_mode.c:98-106 | with one process and no signals the first child that exits with 255 is the last launched |
| `Trace.RefusedAfterHalt` | src/xargs_mode.c:98-106 | a launch is refused only after room was asked for and a 255 reaped |
| `Trace.SteadyEnds` | src/xargs_mode.c:98-106 | when draining begins between launches, a launch has been refused exactly if a child asked to halt |
| `Trace.DrainingEnds` | src/process_pool.c:195-201 | draining refuses nothing, whatever it reaps |
| `Trace.UnlimitedNeverHalts` | src/process_pool.c:181-183 | without a limit nothing is reaped while input is read |
| `Trace.UnlimitedNeverRefuses` | src/process_pool.c:178-184 | without a limit no history refuses a launch, whatever the children exit with |
| `Trace.DrainingForksInOrder` | src/process_pool.c:195-201 | draining keeps the fork discipline |
| `ProcessPool.SwapRemovedMembers` | src/process_pool.c:103-112 | swap-removal deletes exactly the pid it is aimed at and keeps pids distinct |
| `ProcessPool.ProcessPool.constructor` | src/process_pool.c:147-159 | an empty pool that agrees with an empty history |
| `ProcessPool.ProcessPool.ChildExitStatus` | src/process_pool.c:65-88 | the mapped status; halt is set exactly by 255 and never cleared |
| `ProcessPool.ProcessPool.AccumulateStatus` | src/process_pool.c:59-63 | the status changes only to a more severe one |
| `ProcessPool.ProcessPool.Forget` | src/process_pool.c:103-112 | the pid is found, and exactly it is removed |
| `ProcessPool.ProcessPool.ReapOne` | src/process_pool.c:90-115 | pids equal the live children, status and halt agree with all reaped statuses, before and after any reap |
| `ProcessPool.ProcessPool.ApplySignalAdjustments` | src/process_pool.c:117-145 | the limit becomes what the signals so far make it, capacity stays at least the limit, children unchanged |
| `ProcessPool.ProcessPool.WaitIfFull` | src/process_pool.c:178-184 | afterwards there is room; it reaps only while full, and never without a limit |
| `ProcessPool.ProcessPool.Submit` | src/process_pool.c:186-193 | the new child is tracked; with a limit that leaves room the array is never grown |
| `ProcessPool.ProcessPool.Drain` | src/process_pool.c:195-201 | no child is left, the result is the accumulated status of all of them, and a launch counts as refused exactly if halt was set before |
| `Replacement.StrStr` | src/str.c:46 | the first occurrence, or none anywhere |
| `Replacement.SplitUnique` | src/str.c:45-69 | a text has only one leftmost split at the placeholder |
| `Replacement.SplitExists` | src/str.c:45-69 | ... and it has one |
| `Replacement.ReplaceRejoins` | src/str.c:60-71 | the text is those pieces joined by the placeholder, the result the same pieces joined by the replacement |
| `Replacement.ReplaceLength` | src/str.c:51-55 | what is removed never exceeds the text, and the result has the measured length |
| `Replacement.ReplaceIdentities` | src/str.c:33-35 | replacing the placeholder by itself, or where it does not occur, changes nothing |
| `Replacement.SubstituteIs` | src/str.c:26-74 | the result for every text, from its leftmost split, with the size of size_t in numbers; NULL and empty arguments |
| `Replacement.CountOccurrences` | src/str.c:45-49 | the counting pass finds exactly the matches of the leftmost split |
| `Replacement.Fill` | src/str.c:56-71 | the filling pass finds the same matches and fills exactly the measured buffer, terminator included |
| `Replacement.CheckedMul` | src/str.c:10-16 | exits exactly when the product exceeds SIZE_MAX |
| `Replacement.CheckedAdd` | src/str.c:18-24 | exits exactly when the sum exceeds SIZE_MAX |
| `Replacement.StrReplace` | src/str.c:26-74 | NULL and empty arguments as documented by its tests; otherwise the leftmost replacement, an exit on overflow, or undefined behaviour exactly at length SIZE_MAX |
| `ReplacerPlan.EachTokenLaunches` | src/replacer_mode.c:17-27 | the i-th launch is the command word and the other fixed arguments with the i-th token in them, with nothing left over from earlier ones |
| `ReplacerPlan.LaunchesPerToken` | src/replacer_mode.c:17-27 | one launch for each token when the run completes, never more |
| `ReplacerPlan.LaunchLength` | src/command.c:271-285 | a launch is longer by occurrences times the difference of token and placeholder |
| `ReplacerPlan.LaunchFitsIff` | src/command.c:287-300 | a checked launch fits whenever the placeholder occurs at most once, in general exactly under the stated inequality |
| `ReplacerPlan.GivesUpIff` | src/replacer_mode.c:21-22 | the run gives up if and only if some token is too long for the unsubstituted command or overflows in the substitution; with limits that fit 32 bits, if and only if some token is too long |
| `ReplacerPlan.EndsAt` | src/replacer_mode.c:17-27 | with any limits, each token up to the first that is too long or overflows is launched, substituted, and that one decides how the run ends |
| `Command.CommandArgs.ReallocateIfNeeded` | src/command_args.c:15-23 | contents survive, room for one more, capacity doubled only when full |
| `Command.CommandArgs.Add` | src/command_args.c:40-44 | appends, and the stored length stays the sum of strlen + 1 |
| `Command.ArgvReadsBack` | src/command.c:172 | what execvp reads up to the NULL is the argument list |
| `Command.Command.CommandLength` | src/command.c:387-391 | environment, fixed and collected arguments |
| `Command.Command.LengthNotExceeded` | src/command.c:287-300 | where the program exits: on an empty batch or a -I token that does not fit |
| `Command.Command.ArgWouldExceedLimits` | src/command.c:240-255 | whether the batch is launched before the token, for every combination of -n, -x and -L |
| `Command.Command.ShouldExecuteAfterArgAdded` | src/command.c:257-269 | -1 exactly when too long under -x, else 1 exactly at max_lines in -L mode |
| `Command.Command.ReplaceArgs` | src/command.c:271-285 | the command word unchanged, every other argument substituted, or the first failure |
| `Command.Command.BuildExecArgs` | src/command.c:153-175 | the arguments in play, then the collected ones, then NULL |
| `Command.Command.Recycle` | src/command.c:134-151 | no lines, no collected arguments, nothing substituted; fixed arguments kept |
| `Command.Command.ExecuteAsync` | src/command.c:364-373 | a new child runs exactly the command line as it stood, and the next one starts empty |
| `XargsMode.XargsMode.NextToken` | src/xargs_mode.c:72-74 | the next token of the stream; its boundary, and nothing else, changes the command |
| `XargsMode.LaunchChild` | src/xargs_mode.c:105 | fork and submit leave pool and history in step |
| `XargsMode.Toker.NextToken` | src/tokenizer.c:34-36 | the call goes to the tokenizer chosen and does what one step of its kind does |
| `XargsMode.XargsMode.ExecuteCommand` | src/xargs_mode.c:98-106 | launches exactly the command line as it stood unless a child asked to halt, in which case nothing changes |
| `XargsMode.XargsMode.ShouldExecuteCommandAfterArgAdded` | src/xargs_mode.c:87-96 | drains before it gives up |
| `XargsMode.XargsMode.Drain` | src/xargs_mode.c:112-114 | no child left; the accumulated status of all of them |
| `AppenderMode.AppenderMode.FlushBeforeToken` | src/appender_mode.c:49-54 | the first flush point, halt included |
| `AppenderMode.AppenderMode.FlushAfterToken` | src/appender_mode.c:57-62 | the second flush point, halt and exit included |
| `AppenderMode.AppenderMode.TakeTurn` | src/appender_mode.c:47-62 | one token's turn does what the plan says and leaves the rest of the plan |
| `AppenderMode.AppenderMode.Conclude` | src/appender_mode.c:65-81 | fails after draining on a tokenizer error, otherwise launches what is left at most once and drains |
| `AppenderMode.AppenderMode.Run` | src/appender_mode.c:36-82 | for every behaviour of children and signals: the planned launches in order, all of them exactly if none was refused, failing exactly where planned and with or without waiting as planned, all children reaped on return |
| `ReplacerMode.ReplacerMode.TakeTurn` | src/replacer_mode.c:21-26 | checks, substitutes and launches one token, or gives up, or finds a halt |
| `ReplacerMode.ReplacerMode.Run` | src/replacer_mode.c:13-36 | for every behaviour of children and signals: one planned launch per token, all of them exactly if none was refused, all children reaped on return |
| `Options.LastOf` | src/options.c:226-287 | the option found is of the kind asked for and was given; none found means none given |
| `Options.LastWins` | src/options.c:84-182 | a later option of another kind does not disturb the last of a kind |
| `Options.GivenStep` | src/options.c:84-203 | setting options one after the other equals taking the last of each kind |
| `Options.AppliedAllIsGiven` | src/options.c:226-287 | the whole option loop amounts to taking the last of each kind |
| `Options.LinesInForceIff` | src/options.c:226-287 | -L is in force if and only if neither -n nor -I comes after it |
| `Options.OneMode` | src/options.c:289-313 | -I, -L and -n exclude one another; -L gives at least one line, no -n and -x; -I gives a delimiter, no marker and -x |
| `Options.ProcsWithinLimit` | src/options.c:159-175 | an accepted -P is within CHILD_MAX |
| `CommandLine.ModeInForce` | src/options.c:226-313 | the last of -I, -L and -n is in force, with its argument and what it implies |
| `CommandLine.NoModeInForce` | src/options.c:289-313 | without any of them none is, and -x only if given |
| `CommandLine.OthersInForce` | src/options.c:226-287 | the last -P and -s, 1 and none without; -r and -p if given |
| `CommandLine.DelimiterSplits` | src/xargs_mode.c:44-56 | with -d the input is split at that byte, with -0 at byte 0, whichever was given last: exactly those tokens |
| `CommandLine.PlaceholderReadsLines` | src/options.c:302-313 | with -I and neither of them the tokens are the lines of the input, blanks and quotes kept |
| `CommandLine.QuotingRulesRead` | src/xargs_mode.c:44-56 | with none of the three the quoting rules read the input, with the last -E |
| `CommandLine.SizeInForce` | src/command.c:89-132 | the limit on length in numbers: the last -s, or 131072 or what ARG_MAX leaves |
| `CommandLine.StartsIff` | src/options.c:159-175 | which starts are refused: -P above CHILD_MAX, -p with -P above 1, -s too small or too large; nothing else |
| `Options.OptionTable.Set` | src/options.c:228-274 | one option overwrites exactly its group; exits exactly on too large a -P |
| `Options.OptionTable.Configure` | src/options.c:289-321 | the settings are the last of each kind with the implications applied; exits exactly on a forbidden -P or -p with -P |
| `Xargs.MaxLengthIsSize` | src/command.c:89-132 | the settings and limits an accepted start determines are what the batcher and the substitution rely on |
| `Xargs.EmptyLaunchFits` | src/command.c:106-131 | with -s the empty launch fits; without it exactly when environment and command leave room |
| `Xargs.CreateMode` | src/xargs_mode.c:29-62 | a mode with the tokenizer, limits, pool and input the start determines, nothing read or launched |
| `Xargs.RunXargs` | src/xargs.c:16-37 | the whole program, for every start and every behaviour of the world: fork discipline, planned launches, all of them exactly if none was refused, worst status |
| `EndToEnd.EveryArgumentOnce` | src/appender_mode.c:36-82 | in any history of a run the launched arguments are a prefix of the input's tokens, all of them on a return unless a launch was refused |
| `EndToEnd.Success` | src/appender_mode.c:80-81 | main returns 0 if and only if every child exited with 0, and then every token was launched and reading did not fail |
| `EndToEnd.ReturnedStatus` | src/process_pool.c:195-201 | the status returned, in numbers, for every run |
| `EndToEnd.FailsIff` | src/appender_mode.c:65-68 | an appending run not cut short fails if and only if reading ended in an error or some command line could not be made; after a reading error it has waited for its children |
| `EndToEnd.WaitsUnlessAtOnce` | src/command.c:287-300 | a failing run waits for its children unless the token that stopped it came when nothing was collected and fits no command line |
| `EndToEnd.ReplacingFailsIff` | src/replacer_mode.c:21-36 | the same for -I |
| `EndToEnd.ReadFailureFails` | src/appender_mode.c:65-68 | if reading fails, main returns only if the marker or a child stopped it first |
| `EndToEnd.StatusAsDocumentedIff` | src/process_pool.c:195-201 | for which runs the status returned is the one the manual orders highest |
| `EndToEnd.CutShortOnlyByHalt` | src/xargs_mode.c:98-106 | a launch is refused only if a 255 was reaped, and never with -P 0 |
| `EndToEnd.UnlimitedLaunchesAll` | src/process_pool.c:178-184 | with -P 0 every token of the input is launched whatever the children exit with |
| `EndToEnd.QuotedWordsReachCommands` | src/space_tokenizer.c:87-192 | the words of any correctly quoted input are exactly the arguments the commands receive, unless a launch was refused |
| `EndToEnd.ArgumentsBeforeMarker` | src/space_tokenizer.c:78-84 | with -E the arguments launched are the tokens before the first one equal to the marker |
| `EndToEnd.MarkerDecides` | src/space_tokenizer.c:78-84 | exactly the same runs are possible whatever stands after the marker, as long as it still is the marker |
| `EndToEnd.FewestLaunches` | src/appender_mode.c:43-63 | no run launches more commands than any other packing of its tokens |
| `EndToEnd.LinesReachCommands` | src/appender_mode.c:56-62 | with -L every launch is the next max_lines lines of the input; which of them are launched for each way a run can end |
| `EndToEnd.QuotedLinesReachCommands` | src/space_tokenizer.c:111-128 | with -L the commands receive the lines of a correctly quoted text, max_lines at a time; a blank after a word continues its line |
| `EndToEnd.LaunchesFit` | src/command.c:287-300 | environment and arguments of every launch are within the limit with -x; without it exactly if no token alone is too long |
| `EndToEnd.EmptyInput` | src/appender_mode.c:70-73 | an input without tokens launches the bare command once, not at all with -r, and nothing refuses it |
| `EndToEnd.SubstitutedLaunches` | src/replacer_mode.c:17-27 | with -I the i-th launch of any history is the command with the i-th token in it, one for each token on completion |
| `EndToEnd.SubstitutedLaunchFits` | src/command.c:271-300 | a launch of -I is within the limit exactly under the stated inequality, always if the placeholder occurs at most once |
| `EndToEnd.SerialHaltIsLast` | src/process_pool.c:178-184 | with one process and no signals the launches end with the first child that exits with 255, and the status shows it |
| `OptionEffects.TokensLaunched` | src/appender_mode.c:36-82 | each launch is the command given, /bin/echo without one, followed by tokens; together they are the tokens read |
| `OptionEffects.DelimitedLaunched` | src/delim_tokenizer.c:33-66 | -d and -0: the arguments launched are what stands before each delimiter |
| `OptionEffects.WordsLaunched` | src/space_tokenizer.c:87-192 | without them, the words of the text |
| `OptionEffects.MarkerStopsLaunches` | src/space_tokenizer.c:78-84 | -E: only those before the first equal to the marker |
| `OptionEffects.LinesSubstituted` | src/replacer_mode.c:17-27 | -I: the k-th launch is the command given with the k-th line in place of the placeholder |
| `OptionEffects.AtMostArgs` | src/command.c:240-255 | -n bounds the arguments of every launch |
| `OptionEffects.LinesGrouped` | src/command.c:264-266 | -L: every launch is that many lines, the last what is left |
| `OptionEffects.LengthBounded` | src/command.c:257-300 | -s with -x or -L bounds the length of every launch, environment and NULs counted; so does the default |
| `OptionEffects.ProcessesBounded` | src/process_pool.c:178-184 | -P, or 1 without it, bounds the children alive after every launch, with the signals received |
| `OptionEffects.EmptyInputLaunch` | src/appender_mode.c:70-73 | -r: nothing for an input without tokens; without it, the command given once |
| `OptionEffects.RefusedStart` | src/options.c:314-320 | a refused start launches nothing and fails |
| `Halting.RefusedWasFull` | src/process_pool.c:178-184 | without signals a launch is refused only once the limit has been reached |
| `Halting.SomeRun` | src/xargs.c:16-37 | every history that keeps the discipline and fits the plan is one the contract of the program admits |
| `Halting.HaltIsLastIff` | src/process_pool.c:178-201 | a 255 is the last launch in every run without signals if and only if there is one process, or at most one command, or an exit without waiting before the limit could matter; for appending and -I |
| `Counterexamples.ParallelGoesOn` | src/process_pool.c:181-183 | for every -P but 1, a run whose first child exits with 255 and whose second is launched all the same |
| `Counterexamples.ParallelBreaksPromise` | src/process_pool.c:181-183 | ... so none of these starts keeps the documented promise |
| `Counterexamples.NotFoundWins` | src/process_pool.c:42-57 | a run that returns 127 after a child was killed, where the manual has 125 |
| `Counterexamples.OversizedLaunched` | src/command.c:291-298 | a start with -s and no -x that launches a command longer than -s and completes |
| `Counterexamples.CountedGivesUpNeedlessly` | src/command.c:246-250 | a start with -n and -x that gives up on tokens that could all be launched within the limits |
| `Counterexamples.EmptyLaunchTooLong` | src/command.c:106-131 | a start with -x whose launch for empty input is longer than max_length |
| `Counterexamples.TwoPlaceholdersExceed` | src/command.c:287-300 | a run with -I and -s whose launch is longer than -s |
| `Counterexamples.MarkerWithinLine` | src/space_tokenizer.c:78-84 | -E stops at a token in the middle of a text none of whose lines equals it |
| `Counterexamples.ArgumentsAfterLines` | src/options.c:226-287 | -n given after -L is in force |
| `Counterexamples.EnvironmentCounts` | src/command.c:106-119 | a start refused although command and arguments are within -s |
| `Counterexamples.NewlineAfterDelimiter` | src/delim_tokenizer.c:56-64 | an argument list that gains an empty argument |

## Left out

- Failing system calls (`fork`, `malloc`, `waitpid` with no child) and the exits they cause; capacity overflow in `phxargs_double_capacity`, which needs more than half the address space first.
- Wrap-around of size_t sums other than those in `str_replace`: they count bytes that are in memory.
- `sig_atomic_t` wrap-around and signals arriving between the two reads in `apply_signal_adjustments`: the adjustment is one step.
- Children that were not started by the program itself (inherited across exec): `waitpid` returns only the program's own.
- What happens inside a child: `-o`, `-p`, `-t`, `execvp` failures (their exit statuses are among the arbitrary ones), `write_trace`, `confirm_execution`.
- Messages on standard error, the `-a` file, number parsing and the rejection of malformed options.
- `Xargs.Keeps`: admits any number of further requests for room after a refused one; the program makes at most one more.
- Freeing memory; function-pointer tables (the two tokenizers and two modes are cases instead); the lifetime of a token as a pointer into the buffer: tokens are values from the moment they are returned.
- Calling a tokenizer again after it returned NULL: the modes never do.
- `Replacement.Fill`: does not model the overrun at length SIZE_MAX, which `StrReplace` reports as undefined.
