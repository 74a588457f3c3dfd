# lttng `metadata` command — a Dafny model

This project models the `lttng metadata` sub-command of the LTTng tracer's
command-line client (`src/bin/lttng/commands/metadata.c`). The command reads
its options, settles on a tracing session name (from `-s NAME` or from the
ambient "current session"), looks the action name up in its action table and
runs the handler, whose only job is to ask the session daemon to regenerate
the session's metadata. It then folds the statuses of the stages into one
exit status and frees the session name if the command owns it.

Modules:

- `Wrappers` (`wrappers.dfy`): `Option`, the stand-in for a pointer that may be NULL.
- `Status` (`status.dfy`): the `CMD_*` codes and the `command_ret ? command_ret : ret` rule.
- `Argv` (`argv.dfy`): NULL-terminated argument vectors and `count_arguments`.
- `Actions` (`actions.dfy`): the `actions` table, plain lookup by name, and the table scan of
  `handle_command` with its index bookkeeping as written.
- `Metadata` (`metadata.dfy`): the option loop, the dispatcher and a whole invocation as
  functions, and the class `Command`. Its fields are the file-level statics
  `opt_session_name` and `session_name`, plus what the command does to the world:
  strings freed, daemon calls, confirmation lines and diagnostic lines. Its methods are
  `metadata_regenerate`, the call through a table entry, `handle_command` and
  `cmd_metadata`. Each of them is proved to leave the state that the corresponding
  function describes.
- `MetadataProperties` (`properties.dfy`): what an invocation guarantees, as lemmas.

The scan in `handle_command` starts at `actions[0]` and then steps with
`cmd = &actions[i++]`, so entry 0 is compared twice. The model keeps this
bookkeeping. It proves the scan still terminates and still finds the first
entry with the name, exactly as a plain lookup would. On a miss it has compared
every entry before the sentinel. For a table with at least one entry, the
revisit costs exactly one extra comparison. So the revisit is harmless.

Stand-ins:

- The option parser is given as the outcome of its parse. That outcome is the
  list of events it reports, then the leftover arguments (`poptGetArgs`, NULL
  when none are left). A `-s NAME` is an event that stores its name, as the
  parser does itself for that option.
- `get_session_name()` is a value `ambient`.
- `lttng_metadata_regenerate` is a function `service` from session name to status.
- `free` is a counter of released strings. `free(NULL)` releases nothing.
- The success line is recorded as the session it names. The error line is
  recorded as the status it describes.
- `CMD_SUCCESS` is 0, and the code relies on that. `CMD_ERROR` and `CMD_UNDEFINED`
  are 1 and 2. The header that declares them is not part of this model, and only
  their being distinct and non-zero matters.

Three facts about `metadata.c` that the model keeps as they are:

- The table scan keeps its revisiting index. It is proved to agree with plain lookup by name.
- `handle_command` rejects only a NULL vector, not an empty non-NULL one. `poptGetArgs`
  returns NULL when no arguments are left, so an empty vector never reaches it.
- On the paths that end before the ambient lookup, `free` is applied only to a NULL
  `session_name`, so nothing is released there.

## Model

| member | source | states |
|---|---|---|
| `Status.Overwrite` | src/bin/lttng/commands/metadata.c:126-129 | a non-zero later status wins; the result is one of the two; it is a success exactly when both are |
| `Argv.CountArguments` | src/bin/lttng/commands/metadata.c:76-87 | the count is the index of the first NULL entry: every entry before it is a string |
| `Actions.FirstMatch` | src/bin/lttng/commands/metadata.c:113-122 | plain lookup by name: it returns the first entry carrying the name, and returns nothing exactly when no entry carries it |
| `Actions.FindCommand` | src/bin/lttng/commands/metadata.c:113-122 | the scan as written, with the `actions[i++]` revisit, terminates. It finds the same entry as plain lookup, and finds one exactly when the name is in the table. It compares entries in the order 0, 0, 1, 2, …. On a miss it has compared every entry before the sentinel. For a table with at least one entry, that is one comparison more than there are entries; an empty table gets no comparison |
| `Metadata.ParseOptions` | src/bin/lttng/commands/metadata.c:149-165 | the option loop stops early exactly when some event is not `-s`. It stops with success or undefined. Otherwise the session option is the last `-s` given, or is left as it was |
| `Metadata.Dispatch` | src/bin/lttng/commands/metadata.c:100-130 | a NULL vector gives an error, and a name in no entry gives undefined; no handler runs in either case. A name in the table runs the handler of the first entry with that name and returns its effect unchanged |
| `Metadata.Invocation` | src/bin/lttng/commands/metadata.c:135-196 | `argc < 1` is an error with nothing done. At most one string is released and the daemon is called at most once, always for the session the command settled on. A reported status is the command's non-zero status |
| `Metadata.Command.constructor` | src/bin/lttng/commands/metadata.c:31-32 | a fresh process: both session names NULL, nothing done yet |
| `Metadata.Command.Free` | src/bin/lttng/commands/metadata.c:187-189 | `free` releases one string, and nothing for NULL |
| `Metadata.Command.MetadataRegenerate` | src/bin/lttng/commands/metadata.c:89-98 | one daemon call for `session_name`, whose status is returned unchanged. The confirmation is added only for status 0 |
| `Metadata.Command.CallHandler` | src/bin/lttng/commands/metadata.c:117 | the call through a table entry has exactly the handler's effect |
| `Metadata.Command.HandleCommand` | src/bin/lttng/commands/metadata.c:100-130 | it counts the arguments, scans the table as written and calls the handler found. Its status and effects are those of `Dispatch` |
| `Metadata.Command.Run` | src/bin/lttng/commands/metadata.c:135-196 | `cmd_metadata` on a fresh process. Its status and every field afterwards are those of `Invocation` |
| `MetadataProperties.OnlyRegenerate` | src/bin/lttng/commands/metadata.c:51-54 | "regenerate" is the one name in the table, and it is entry 0 |
| `MetadataProperties.ParseOptionsAfterSessions` | src/bin/lttng/commands/metadata.c:149-165 | leading `-s` options only set the session option, and the loop goes on as if from the remaining events |
| `MetadataProperties.ListingShortCircuits` | src/bin/lttng/commands/metadata.c:151-159 | help, `--list-options` or `--list-commands`, after any number of `-s`, gives success whatever follows. No session is resolved, nothing is released, no action runs, and nothing is reported |
| `MetadataProperties.UnrecognizedOptionIsUndefined` | src/bin/lttng/commands/metadata.c:160-163 | a rejected option, after any number of `-s`, gives undefined whatever follows, with no session resolved and no action run |
| `MetadataProperties.NoSessionAborts` | src/bin/lttng/commands/metadata.c:167-172 | with no `-s` and no ambient session, no action runs and nothing is released. If no option stopped the command first, the status is an error |
| `MetadataProperties.OwnershipRule` | src/bin/lttng/commands/metadata.c:167-189 | exactly one string is released when the ambient lookup supplied the name (no options, `argc >= 1`, a name found), and none otherwise. A name given by `-s` is never released |
| `MetadataProperties.DispatchStatusWins` | src/bin/lttng/commands/metadata.c:177-192 | once a session is resolved, the command's status is the dispatcher's status, with the last `-s` or the ambient name as the session. A non-zero one is also reported |
| `MetadataProperties.RegenerateWithSession` | src/bin/lttng/commands/metadata.c:174-192 | `-s NAME regenerate` makes one daemon call for NAME, and the command returns its status verbatim. Status 0 is confirmed for NAME; any other status is reported. NAME is not released |
| `MetadataProperties.UnknownActionIsUndefined` | src/bin/lttng/commands/metadata.c:113-128 | an action name not in the table gives undefined, never a daemon status, and no action runs. An ambient name is still released |
| `MetadataProperties.MissingActionIsError` | src/bin/lttng/commands/metadata.c:105-109 | no leftover arguments after a resolved session gives an error with no action run |

## Left out

- The option parser's internals (`poptGetContext`, `poptReadDefaultConfig`, `poptGetNextOpt`, `poptGetArgs`) are a foreign library. Only the outcome of its parse is modelled, as events and leftover arguments.
- `poptFreeContext` is left out. On the `argc < 1` path it is applied to a static context that was never set up; the model does not capture this.
- All text output is left out: `usage`, `list_cmd_options`, `list_commands`, and the texts of `MSG`, `ERR` and `lttng_strerror`. Only whom a confirmation names and which status a diagnostic describes are kept.
- `lttng_metadata_regenerate` and `get_session_name` are left out. They are a call to the session daemon and an ambient lookup, and are given as the parameters `service` and `ambient`.
- Memory is not modelled. `free` is a counter, and `session_name` keeps its value after being freed.
- The lifetime of the statics across several invocations is left out. `Metadata.Command.Run` models one invocation in a fresh process, with both statics NULL.
- `Argv.CountArguments` returns an unbounded count. The leftover vector comes from the process's arguments, whose count is `main`'s `int argc`, so the C `int` count never exceeds `INT_MAX`.
- `Metadata.Command.HandleCommand` calls the handler after the scan returns the index of the entry, not from inside the scan loop. The order of comparisons and the single call are unchanged.
- `Metadata.Command.MetadataRegenerate` requires a resolved session name. It is only ever reached after resolution, so the daemon call with NULL is not modelled.
- `Metadata.Dispatch` requires a non-NULL leftover vector to have a first argument. The parser returns NULL rather than an empty vector, so `strcmp` on a NULL name is not modelled.
