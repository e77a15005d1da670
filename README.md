# FlatCAM console command dispatch, modelled in Dafny

This project models the part of FlatCAM's scripting console that turns a
typed command line into a validated call. It also models the bookkeeping
that runs around that call on the background worker. The pieces are:

- **The tokenizer and validator** of `TclCommand`:
  - `parse_arguments` splits the words into positionals and `-name value`
    options.
  - `check_args` binds the positionals to the command's declared names,
    coerces each value to its declared type, accepts the reserved
    `-timeout` option on every command, and reports unknown options, failed
    casts and missing required keys.
  - `get_current_command` rebuilds the command line.
  - The synchronous part of `TclCommandSignaled.execute_wrapper` takes out
    the timeout.
  - `execute_call` records the result or the exception and emits
    "finished".
- **The process tracker** of `appProcess.py`:
  - `FCProcess` is an operation handle with "done" observers.
  - `FCVisibleProcessContainer` (with `FCProcessContainer`, which it
    extends) keeps non-owning references to the running processes and tells
    the activity view what to show.
- **The background worker** of `appWorker.py`. `do_worker_task` runs only
  the tasks addressed to it. It reports an exception the task raised, then
  signals completion.
- **The `open_dxf` command**:
  - its argument descriptor;
  - how `execute` derives the object name and the object kind from the
    validated arguments.

Files:

| file | module | contents |
|---|---|---|
| `wrappers.dfy` | `Wrappers` | `Option` and `Result` |
| `outcomes.dfy` | `Outcomes` | an exception, and the outcome of a call (returned or raised) |
| `seqs.dfy` | `Seqs` | Python's `list.remove`, and duplicate-free lists |
| `text.dfy` | `Text` | Python's `str.split`/`join`, ASCII `lower`, `int()` of a decimal string and `"%d"` |
| `tcl_command.dfy` | `TclCommand` | tokenizer, validator, timeout extraction, the signalled command's state |
| `app_process.dfy` | `AppProcess` | `Process` and `ProcessContainer` classes, the view log |
| `app_worker.dfy` | `AppWorker` | the `Worker` class and its event log |
| `open_dxf.dfy` | `OpenDxf` | the `open_dxf` descriptor and argument normalisation |

Each loop of the source that updates state is a method with a `while` or
`for` loop. The one exception is the loop of `get_current_command`
(tclCommands/TclCommand.py:84-88), which only collects words to join; it
is the function `CurrentCommand`, built on `Join`. Each method is proved
equal to a specification function:

- `ParseArguments` equals `Parsed`, a left fold of one tokenizer step.
- `CheckArgs` equals `Checked`.
- `Process.Done` returns the callback calls in order.
- `ProcessContainer.Remove` equals the filter `Kept`.

The lemmas then state what those functions guarantee. For the tokenizer,
`ParsedMatchesReference` checks the carried-state scan against a
token-by-token reference definition (`PositionalsUpTo`, `OptionsUpTo`).

Objects whose fields the source updates in place are classes:
`SignaledCommand`, `Process`, `ProcessContainer` and `Worker`. A weak
reference is a `WeakRef(target, live)` value. Its `live` flag goes false
when the referent is collected (`ReferentCollected`). Calls on the activity
view are appended to `viewLog`. The worker's signals are appended to
`events`.

## Model

| member | source | states |
|---|---|---|
| Seqs.RemoveFirst | appProcess.py:67-71 | `list.remove`: exactly one occurrence of the element leaves the multiset; an absent element leaves the list unchanged; nothing new appears |
| Seqs.RemoveFirstSplice | appProcess.py:67-71 | when the element occurs, its first occurrence is cut out and the rest keep their order |
| Seqs.RemoveFirstNoDuplicates | appProcess.py:67-71 | removing from a duplicate-free list keeps it duplicate-free, and the element is then absent |
| Seqs.NoDuplicatesOccursOnce | appProcess.py:63-65 | in a duplicate-free list a present element occurs exactly once |
| Text.Split | tclCommands/TclCommandOpenDXF.py:69 | `str.split(sep)`: at least one piece, none holding the separator; `JoinSplit` and `SplitJoin` tie it to `Join` |
| Text.Join | tclCommands/TclCommand.py:88 | definition: `sep.join(parts)`; `JoinSplit`, `SplitJoin` and `CurrentCommandSplits` state its properties |
| Text.ParseInt | tclCommands/TclCommand.py:244 | definition: `int()` of an optionally signed ASCII decimal string, none for anything else; `ParseNatToDecimal` reads every `"%d"` text back, and `TimeoutSoonIsNoInt` shows a rejected one |
| Text.JoinSplit | tclCommands/TclCommand.py:88 | joining the pieces of a split with the separator gives back the string |
| Text.SplitJoin | tclCommands/TclCommand.py:88 | splitting a join of separator-free words gives back the words |
| Text.AfterLast | tclCommands/TclCommandOpenDXF.py:69 | `s.split(sep)[-1]` is a suffix of `s` holding no `sep`, and is all of `s` or preceded by `sep` |
| Text.AfterLastIs | tclCommands/TclCommandOpenDXF.py:69 | that suffix is unique: any separator-free suffix that is all of `s` or follows a separator is the result |
| Text.Lower | tclCommands/TclCommandOpenDXF.py:72 | lower-casing works character by character, keeps the length, maps each upper-case ASCII letter to its lower-case letter and leaves every other character, so no upper-case ASCII letter remains |
| Text.NatToDecimal | appProcess.py:172 | `"%d"` of a natural number is a non-empty digit string without a leading zero |
| Text.ParseNatToDecimal | tclCommands/TclCommand.py:244 | `int()` reads the decimal text of `n` back as `n` |
| TclCommand.IsFlag | tclCommands/TclCommand.py:183 | definition (no contract of its own): a token opens an option when it is a dash followed by an ASCII letter; `DashDigitIsValue` shows `-5` is no flag |
| TclCommand.Scan | tclCommands/TclCommand.py:176-196 | definition: the loop state after a prefix of the tokens, a left fold of one step; `ScanValid`, `ScanMatchesReference` and `ScanKeysInOrder` state what it computes |
| TclCommand.Parsed | tclCommands/TclCommand.py:164-201 | definition: `parse_arguments`, the fold closing a dangling option with none; `ParsedMatchesReference`, `ParsedKeysInOrder` and `ParsedValid` state what it returns |
| TclCommand.BindPositionals | tclCommands/TclCommand.py:215-229 | definition: the positional loop; specified by `BindPositionalsSucceeds`, `BindPositionalsNamed`, `BindPositionalsUnnamed` and `BindPositionalsFailure` |
| TclCommand.BindOptions | tclCommands/TclCommand.py:231-247 | definition: the option loop in key order; specified by `BindOptionsSpec` and `BindOptionsFirstFailure` |
| TclCommand.Checked | tclCommands/TclCommand.py:203-254 | definition: the corrected `check_args`; specified by `CheckedRequired`, `CheckedPositionals`, `CheckedOptions` and the error lemmas |
| TclCommand.CurrentCommand | tclCommands/TclCommand.py:76-88 | definition: the first alias and the original arguments joined by spaces; `CurrentCommandSplits` states it starts with the alias and splits back into the words |
| TclCommand.Coerce | tclCommands/TclCommand.py:223 | `str` casts any text; `int` succeeds exactly when the text parses, and then yields that integer |
| TclCommand.FlagName | tclCommands/TclCommand.py:183-189 | group 1 of `^-([a-zA-Z].*)`: starts with the letter after the dash and stops before any newline |
| TclCommand.FlagNameWithoutNewline | tclCommands/TclCommand.py:183-189 | for a flag without a newline the option name is everything after the dash |
| TclCommand.Put | tclCommands/TclCommand.py:186-199 | dict assignment: the entry is set, an existing key keeps its place, a new key goes last |
| TclCommand.PutValid | tclCommands/TclCommand.py:186-199 | dict assignment keeps the keys distinct and in step with the entries |
| TclCommand.ScanValid | tclCommands/TclCommand.py:176-196 | the tokenizer's options always form a well-formed dict |
| TclCommand.ParsedValid | tclCommands/TclCommand.py:176-201 | the returned options have no key twice |
| TclCommand.ParseArguments | tclCommands/TclCommand.py:164-201 | the one-pass loop returns exactly the fold `Parsed` of its tokens, and a well-formed dict |
| TclCommand.Step | tclCommands/TclCommand.py:183-196 | definition: one iteration of the tokenizer loop; `ScanPositional`, `ScanOpensOption` and `ScanOptionValue` state its three cases |
| TclCommand.ScanSnoc | tclCommands/TclCommand.py:182-196 | one more token is one more loop step |
| TclCommand.ScanPositional | tclCommands/TclCommand.py:192-193 | a non-flag with no option open is appended to the positionals |
| TclCommand.ScanOpensOption | tclCommands/TclCommand.py:184-190 | a flag with no option open opens the option it names |
| TclCommand.ScanOptionValue | tclCommands/TclCommand.py:194-196 | a non-flag after an open option becomes its value and closes it |
| TclCommand.ScanMatchesReference | tclCommands/TclCommand.py:182-196 | after each prefix, the carried state agrees with the token-by-token reference |
| TclCommand.ParsedMatchesReference | tclCommands/TclCommand.py:164-201 | positionals are exactly the tokens that are neither flags nor a flag's value; each option maps to the token after its last flag, or to none |
| TclCommand.PositionalsAreNotFlags | tclCommands/TclCommand.py:182-193 | no positional of a prefix is a flag |
| TclCommand.ParsedArgumentsAreNotFlags | tclCommands/TclCommand.py:182-193 | no returned positional matches the flag pattern |
| TclCommand.OptionsUpToKeys | tclCommands/TclCommand.py:182-199 | a key is among the options of a prefix iff some flag in it names that key |
| TclCommand.ScanKeysInOrder | tclCommands/TclCommand.py:182-196 | after each prefix the dict's keys are the flag names in order of first appearance, the still-open option not yet among them |
| TclCommand.ParsedKeysInOrder | tclCommands/TclCommand.py:164-201 | the option keys come out in the order their flags first appear (the order `check_args` tries them in) |
| TclCommand.OptionsUpToLast | tclCommands/TclCommand.py:186-199 | the last flag naming a key decides that key's value |
| TclCommand.ParsedOptionValue | tclCommands/TclCommand.py:186-199 | the value of an option is the token after its last flag when that token is no flag, otherwise none |
| TclCommand.ParsedOptionKeys | tclCommands/TclCommand.py:182-199 | the option keys are exactly the names of the flags in the input |
| TclCommand.DashDigitIsValue | tclCommands/TclCommand.py:183 | `-5` is not a flag: after `-x` it is the value, on its own a positional |
| TclCommand.ParsedFlagValue | tclCommands/TclCommand.py:182-199 | a flag followed by a value gives no positionals and one option holding the value |
| TclCommand.ScanArgAndOption | tclCommands/TclCommand.py:182-196 | a positional, a flag and a value scan to one positional and one option holding the value, with no option left open |
| TclCommand.ParsedArgAndTwoOptions | tclCommands/TclCommand.py:164-201 | a positional followed by two differently named flags, each with a value, parses to one positional and both options, in flag order |
| TclCommand.KnownOption | tclCommands/TclCommand.py:233 | definition: a key the option loop accepts, a declared option or `timeout`; `BindOptionsSpec`, `UnknownOptionRejected` and `UnknownOptionReported` use it |
| TclCommand.CoerceOption | tclCommands/TclCommand.py:233-244 | `timeout` always goes through `int`, so a missing value fails; other missing values pass as none; others use the declared type |
| TclCommand.FirstMissing | tclCommands/TclCommand.py:250-252 | no missing key iff every required key is bound; a reported key is required, unbound, and every required key before it is bound, so it is the first unbound one |
| TclCommand.CheckArgs | tclCommands/TclCommand.py:203-254 | the three loops compute `Checked`, and on success every required key is bound |
| TclCommand.BindPositionalsSucceeds | tclCommands/TclCommand.py:218-229 | positional binding fails iff some cast of a declared positional fails |
| TclCommand.BindPositionalsUnnamed | tclCommands/TclCommand.py:227-228 | the positionals past the declared names become `unnamed`, in order |
| TclCommand.BindPositionalsNamed | tclCommands/TclCommand.py:218-226 | the i-th positional is bound, cast, under the i-th name; no other key is added or changed |
| TclCommand.BindPositionalsFailure | tclCommands/TclCommand.py:222-226 | a failing positional loop reports a positional cast error |
| TclCommand.BindOptionsSpec | tclCommands/TclCommand.py:231-247 | the option loop fails iff a key is unknown or does not cast, with one of those errors; on success each key holds its cast value and other keys are untouched |
| TclCommand.CheckedRequired | tclCommands/TclCommand.py:249-254 | success binds every required key; a missing-key error names a required key |
| TclCommand.UnknownOptionRejected | tclCommands/TclCommand.py:232-234 | an undeclared option other than `timeout` makes validation fail before the required check |
| TclCommand.BindOptionsFirstFailure | tclCommands/TclCommand.py:231-247 | the option loop reports the first failing key in key order: "unknown parameter" when it is not accepted, the cast error when its value does not cast |
| TclCommand.UnknownOptionReported | tclCommands/TclCommand.py:232-234 | when the positionals bind and every earlier option is accepted and casts, an undeclared option other than `timeout` is reported as exactly `UnknownParameter` naming it |
| TclCommand.TimeoutWithoutValueFails | tclCommands/TclCommand.py:243-247 | a valueless `-timeout` always fails |
| TclCommand.CheckedPositionals | tclCommands/TclCommand.py:215-229 | on success `unnamed` is the overflow past the declared names, with its exact length, and each declared name not overridden by an option holds its cast positional |
| TclCommand.CheckedOptions | tclCommands/TclCommand.py:231-244 | on success every given option is a known key bound to its cast value |
| TclCommand.OptionCastFailureFails | tclCommands/TclCommand.py:235-247 | an option whose value does not cast makes validation fail with an option error |
| TclCommand.OptionCastReported | tclCommands/TclCommand.py:235-247 | when the positionals bind and every earlier option is accepted and casts, an accepted option whose value does not cast is reported as exactly the cast error naming it |
| TclCommand.CastErrorAsWritten | tclCommands/TclCommand.py:245-247 | definition: the handler as written turns a cast error on an undeclared key (only `timeout` can be one) into the lookup failure; `CheckedAsWritten` and `TimeoutCastFailureAsWritten` state its effect |
| TclCommand.CheckedAsWritten | tclCommands/TclCommand.py:245-247 | the handler as written changes only which error is raised, never whether validation succeeds |
| TclCommand.TimeoutCastFailureAsWritten | tclCommands/TclCommand.py:245-247 | `-timeout <non-integer>` on a command without a declared `timeout`: as written a key-lookup error, corrected the cast error |
| TclCommand.TimeoutSoonIsNoInt | tclCommands/TclCommand.py:244 | `soon` is a non-flag that `int()` rejects |
| TclCommand.CurrentCommandSplits | tclCommands/TclCommand.py:76-88 | the command line starts with the first alias, and splits back into alias and arguments when no word holds a space |
| TclCommand.CheckedTimeoutIsInt | tclCommands/TclCommand.py:243-244 | after successful validation a given `-timeout` is bound to an integer |
| TclCommand.ExtractTimeout | tclCommands/TclCommand.py:410-414 | the timeout is the given one or the default; `timeout` is removed and every other entry is kept |
| TclCommand.PreparedTimeoutIsInt | tclCommands/TclCommand.py:409-414 | with no positional named `timeout`, the wait a validated command uses is an integer |
| TclCommand.SignaledCommand.Prepare | tclCommands/TclCommand.py:406-417 | records the arguments; validation failure is passed on; otherwise the named arguments without `timeout`, the unnamed ones, the timeout and the command line |
| TclCommand.SignaledCommand.ExecuteCall | tclCommands/TclCommand.py:337-348 | output or error is set by the outcome, the other cleared; "finished" is emitted exactly once |
| AppProcess.Process.constructor | appProcess.py:37-42 | a new process is active, with its description and no observers |
| AppProcess.Process.Done | appProcess.py:59-61 | every observer is called once, in registration order, with this process |
| AppProcess.Process.Connect | appProcess.py:63-65 | an observer is added only if absent, and afterwards occurs exactly once |
| AppProcess.Process.Disconnect | appProcess.py:67-71 | the observer is removed; an unregistered one changes nothing and is no error |
| AppProcess.Process.SetStatus | appProcess.py:73-74 | only the status changes |
| AppProcess.Doomed | appProcess.py:122 | definition: the test `remove` applies to an entry: its referent is gone or is the process being removed; `KeptSingle` and `KeptMembers` use it |
| AppProcess.Kept | appProcess.py:117-126 | definition: the entries `remove` keeps, a filter in list order; `Remove`, `OnDone` and `ProcessDone` are proved to leave exactly it, and `KeptMembers`, `KeptAppend`, `KeptSingle` and `KeptIdempotent` state its properties |
| AppProcess.DoomedEntries | appProcess.py:119-123 | the first pass of `remove`: every entry it collects is in the registry and doomed; `DoomedEntriesAppend` states it collects in list order, and `RemoveFirstDoomed` and `NothingDoomed` how the second pass consumes it |
| AppProcess.KeptMembers | appProcess.py:117-126 | the entries `remove` keeps are exactly the live entries for other processes |
| AppProcess.KeptAppend | appProcess.py:117-126 | pruning a concatenation prunes each part, so the kept entries stay in their relative order |
| AppProcess.KeptSingle | appProcess.py:119-123 | a single entry is kept exactly when its referent is alive and is not the process being removed |
| AppProcess.RemoveDoomedKeeps | appProcess.py:125-126 | deleting a collected entry (dead or for `p`) leaves the kept entries unchanged |
| AppProcess.RemoveFirstDoomed | appProcess.py:119-126 | deleting the first collected entry takes it off the front of the collected list |
| AppProcess.KeptIdempotent | appProcess.py:117-126 | removing the same process twice deletes nothing the second time |
| AppProcess.Collected | appProcess.py:96-98 | a collected referent makes every reference to it dead and changes nothing else |
| AppProcess.CountMessage | appProcess.py:172 | definition: the count in decimal followed by " processes running."; `CountMessageNamesCount` reads the count back |
| AppProcess.CountMessageNamesCount | appProcess.py:172 | the first word of the "N processes running." message reads back as N |
| AppProcess.ViewFor | appProcess.py:163-172 | idle iff no entry; with one entry, the stored display text (set by the last `on_change` from the then first entry, possibly a process that has since finished) followed by `new_text`; more show a message whose first word is the count |
| AppProcess.ProcessContainer.constructor | appProcess.py:134-146 | empty registry, empty display text, `new_text` a single space, no view calls |
| AppProcess.ProcessContainer.Add | appProcess.py:96-98 | appends one live reference |
| AppProcess.ProcessContainer.New | appProcess.py:100-109 | a fresh active process wired only to this container, registered last, then announced; a dead first entry is reported as the source's error |
| AppProcess.ProcessContainer.OnChange | appProcess.py:154-161 | shows the first process's description and makes one view call; a dead first entry raises and changes nothing |
| AppProcess.ProcessContainer.OnDone | appProcess.py:148-152 | removes the process and dead entries, then makes one view call for the new count; the display text is not refreshed, and `new_text` is cleared only when no entry is left |
| AppProcess.ProcessContainer.Remove | appProcess.py:117-126 | the two-pass removal leaves exactly `Kept`: no dead entry and none for `p` |
| AppProcess.ProcessContainer.ReferentCollected | appProcess.py:96-98 | the referent's collection turns its references dead |
| AppProcess.ProcessContainer.UpdateView | appProcess.py:163-172 | one view call chosen by the number of entries; idle also clears `new_text` |
| AppProcess.ProcessContainer.UpdateViewText | appProcess.py:174-178 | stores the sub-status; it reaches the view, without animation, only with exactly one entry |
| AppProcess.ProcessContainer.ProcessDone | appProcess.py:59-61 | all observers are called in order; if this container's `on_done` is among them, the registry is pruned as by `Kept`, no entry then refers to the process, one view call is made and `new_text` is cleared only when no entry is left; otherwise nothing changes |
| AppWorker.Accepts | appWorker.py:57-58 | definition: a task with a worker name goes to the worker of that name, one without to the unnamed worker only |
| AppWorker.TaskEvents | appWorker.py:57-67 | definition: the signals of one delivery; `IgnoredTaskIsSilent`, `AcceptedTaskCompletesOnce` and `ExceptionReportedIffRaised` state their order and counts |
| AppWorker.IgnoredTaskIsSilent | appWorker.py:57-58 | a task for another worker produces no event |
| AppWorker.AcceptedTaskCompletesOnce | appWorker.py:57-67 | an accepted task is called exactly once and signals completion exactly once, last, with the worker's name |
| AppWorker.ExceptionReportedIffRaised | appWorker.py:60-65 | the thread-exception signal appears iff the call raised, right after the call |
| AppWorker.Worker.constructor | appWorker.py:23-26 | a worker with its name and no events |
| AppWorker.Worker.DoWorkerTask | appWorker.py:51-67 | the log grows by exactly the events of this delivery |
| OpenDxf.OpenDxfCommand | tclCommands/TclCommandOpenDXF.py:12-28 | the descriptor: alias `open_dxf`, the string positional `filename`, string options `type` and `outname`, and `filename` required; `CheckedFilename` and `TypeAndOutnameAccepted` state what validation then yields |
| OpenDxf.IsObjectKind | tclCommands/TclCommandOpenDXF.py:76 | definition: the kinds accepted, geometry and gerber |
| OpenDxf.PyStr | tclCommands/TclCommandOpenDXF.py:72 | definition: `str()` of a validated value, "None" for none; `ValuelessTypeRejected` uses it |
| OpenDxf.TypeError | tclCommands/TclCommandOpenDXF.py:77 | definition: the error for a rejected kind, naming it; `OpenRequest` and `ValuelessTypeRejected` state when it is raised |
| OpenDxf.DefaultOutname | tclCommands/TclCommandOpenDXF.py:69 | the derived name holds neither separator, is a suffix of the file name, and is all of it or follows a separator |
| OpenDxf.DefaultOutnamePosix | tclCommands/TclCommandOpenDXF.py:69 | `dir/base` gives `base` |
| OpenDxf.DefaultOutnameWindows | tclCommands/TclCommandOpenDXF.py:69 | `dir\base` gives `base` when `dir` holds no `/` |
| OpenDxf.OpenRequest | tclCommands/TclCommandOpenDXF.py:64-77 | `outname` verbatim or derived; the kind defaults to geometry, is lower-cased, and anything but geometry or gerber fails naming the kind |
| OpenDxf.CheckedFilename | tclCommands/TclCommandOpenDXF.py:17-28 | validated `open_dxf` arguments bind `filename` to the first positional as a string |
| OpenDxf.ValuelessTypeRejected | tclCommands/TclCommandOpenDXF.py:71-77 | a valueless `-type` reads as "none" and is rejected |
| OpenDxf.UpperCaseKindAccepted | tclCommands/TclCommandOpenDXF.py:72 | `GERBER` is accepted as gerber |
| OpenDxf.ParsedTypeAndOutname | tclCommands/TclCommandOpenDXF.py:17-28 | `<file> -type <kind> -outname <name>` parses to one positional and two options, in order |
| OpenDxf.TypeAndOutnameAccepted | tclCommands/TclCommandOpenDXF.py:17-28 | such a line validates to the three keys with nothing unnamed, and opens the file as the lower-cased kind under the given name |
| OpenDxf.OpenDxfExample | tclCommands/TclCommandOpenDXF.py:17-28 | `open_dxf myfile.dxf -type geometry -outname geo1` gives `{filename: myfile.dxf, type: geometry, outname: geo1}` and no unnamed arguments |
| OpenDxf.OpenDxfCommandLine | tclCommands/TclCommandOpenDXF.py:12 | the command line recorded for `open_dxf` starts with `open_dxf` |

## Left out

- The blocking wait of `execute_wrapper` (tclCommands/TclCommand.py:360-404, 419-432) is left out. It covers the Qt event loop, the one-shot "finished" handler, the temporary `sys.excepthook`, and the timeout and exception outcomes of the wait. These are Qt threading and timers. The model stops at `Prepare` (validation, timeout, command line) and `ExecuteCall` (the worker-side half).
- The error reporting in `execute_wrapper` is left out: the logging, `display_tcl_error` and re-raising (tclCommands/TclCommand.py:295-299, 434-442). It is console I/O. Errors are the `TclError` datatype carrying the offending key, not the message texts.
- `error_info` (`sys.exc_info()`) is not modelled; it is interpreter state.
- The help text and `get_decorated_help` are not modelled.
- Coercion types other than `str` and `int`, such as `float` or `bool`, are not modelled. The core and `open_dxf` declare only these two.
- Coerce and ParseInt: `int()` is modelled as an optional sign followed by ASCII digits. Surrounding whitespace, `_` separators and non-ASCII digits, which Python also accepts, are left out.
- Lower: only ASCII letters are lower-cased. The accept decision for geometry or gerber does not depend on this, because no non-ASCII character lower-cases to a letter of those two words.
- The rest of `TclCommandOpenDXF.execute` (tclCommands/TclCommandOpenDXF.py:79-98) is not modelled: `new_object`, the DXF import, the retry with the default path, and the signals. These are calls into geometry and file code.
- `Process.__del__` and `__exit__` (appProcess.py:44-57) are not modelled. Both call `done()` when the interpreter collects the handle or a `with` block ends. Collection is the `ReferentCollected` step, and `done` is `Done`/`ProcessDone`.
- The Qt signals `something_changed` and `idle_flag` (appProcess.py:130-132, 146, 167) are left out. `something_changed` is connected to `update_view`, so the model calls `UpdateView` directly in its place.
- gettext translation of "processes running." is left out.
- `Worker.allow_debug` and `Worker.run` (appWorker.py:28-49) are left out. They attach a debugger and connect a Qt signal.
- The worker's queue order is Qt's and is left out. `DoWorkerTask` models one delivery. A task's exception that is not an `Exception` (such as `KeyboardInterrupt`) is also left out.
- AppProcess.ProcessContainer.ProcessDone: only this container's own `on_done` is run. Other observers are returned in `calls` for the caller; an observer that changes the observer list while `done` iterates over it is not modelled.
- AppProcess.ProcessContainer.New: the announcement in `on_change` reads the first entry. The model reports the source's error in the result `raised` when that entry's referent is gone, rather than unwinding.
- `done` neither clears the observer list nor guards against a second call (appProcess.py:59-61); a second `Done` calls every observer again.
- Dead entries are pruned only inside `remove` (appProcess.py:117-126). `add`, `new`, `on_change` and `update_view` leave them in place, and `update_view` counts them.
- The assertion that the view is a `FlatCAMActivityView` (appProcess.py:135-136) is left out. The model reduces the view to a log of calls.
- The `event` parameter of `connect` and `disconnect` (appProcess.py:63-71) is left out. Every caller uses its default, "done", the only event the process has, so `Connect` and `Disconnect` act on the "done" list.
- The worker's `print` of the traceback (appWorker.py:64) is left out. It is console output; the exception itself is reported through the `ThreadException` event.

## Findings

| source | as written | input that shows it | evidently intended | confidence | as-written member | corrected member |
|---|---|---|---|---|---|---|
| tclCommands/TclCommand.py:245-247 | when `-timeout` does not cast, the handler formats its message with `self.option_types[key]`; `timeout` is never declared there, so that lookup raises `KeyError: 'timeout'` from inside the handler | `-timeout soon` on any command without a declared `timeout` option | report "Cannot cast argument '-timeout' …", the cast error every other option gets | not executed | TclCommand.CheckedAsWritten | TclCommand.CheckArgs |
