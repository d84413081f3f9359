# Sculas/log: the Entry/Logger core in Dafny

This project models the core of the Go structured-logging library `github.com/sculas/log`:

- how a log **Entry** is built by chaining `WithFields`, `WithField`, `WithDuration`, `WithError` and `Named`;
- how its stack of field layers is flattened with last-write-wins when it is finalized;
- how the **Logger** gates records by a mutable threshold level and hands each record that passes to its **Handler** exactly once;
- how `Trace`/`Stop` bracket an operation with two records.

Two helpers that come with the core are also modelled:

- the `sortedmap` package, a slice of key/value pairs sorted in place by key;
- the `multi` handler, which calls a list of handlers in order and stops at the first failure.

Modules, one per concern:

| file | module | models |
|---|---|---|
| wrappers.dfy | `Wrappers` | `Option`, for nil-able Go values |
| strings.dfy | `Strings` | Go's `<` on strings, a lexicographic strict total order |
| gosort.dfy | `GoSort` | `sort.Sort` / `sort.Strings` as used here: an in-place sort of an array by a string key |
| sortedmap.dfy | `SortedMap` | sortedmap/sortedmap.go |
| fields.dfy | `Fields` | `Fields`, `Fielder`, error values, `Fields.Get/Names/Sorted`, and the flattening `Merge` |
| log.dfy | `Log` | `Level`, `Handler`, `Logger`, `Entry` (logger.go, entry.go) |
| multi.dfy | `Multi` | handlers/multi/multi.go |
| scenarios.dfy | `Scenarios` | end-to-end uses: a threshold filter, a field, nested names, a structured error, a failing handler, Trace/Stop, and a fan-out that stops early |

How the model represents the Go program:

- `Entry`, `Logger` and `Handler` are classes, because the source updates them in place:
  - `Named` renames an unnamed entry in place;
  - `Trace` sets `Message` and `start` on the entry it returns;
  - the logger's threshold is mutable.
- Go's unexported `fields []Fields` is the `stack` field. Go's exported `Fields` (the finalized map) is `fields`.
- A handler is a recorder of the snapshots it received (`received`) plus a fixed answer function `respond`. This is Go's `HandlerFunc`.
- What the handler observes is `Entry.Snapshot()`: a `Record` with the name, fields, level, timestamp and message.
- `stdlog.Printf` becomes appends to `Logger.diagnostics`, and `os.Exit(1)` sets `Logger.exited`.
- Each clock read is an integer nanosecond parameter:
  - `now` is the replaceable `Now()` read in `finalize`;
  - `startNow` is the `time.Now()` read in `Trace`;
  - `sinceNow` is the clock read behind `time.Since` in `Stop`.

The effect of a leveled call is stated once, as the two-state predicate `Log.Emitted`:

- below the threshold, nothing changes;
- otherwise the handler's `received` grows by exactly the record `Record(name, Merge(stack), level, now, msg)`;
- and `diagnostics` grows by one line `"error logging: " + text` exactly when the handler reports an error.

`Fields.Merge` is the reference definition of `mergedFields`, and the lemmas about it give its meaning:

- its keys are the union of the layers' keys;
- each value comes from the last layer that has the key.

`Entry.MergedFields` (the nested loop of the source) is proved equal to it.

## Model

| member | source | states |
|---|---|---|
| Strings.Less | sortedmap/sortedmap.go:32 | Go's `<` on strings, the order also used by `sort.Strings` (logger.go:30): it relates only different strings, and a proper prefix is below the longer string |
| Strings.Irreflexive | sortedmap/sortedmap.go:32 | no string is below itself under Go's string order |
| Strings.Transitive | sortedmap/sortedmap.go:32 | the string order is transitive |
| Strings.Total | logger.go:30 | of two different strings one is below the other |
| Strings.Asymmetric | sortedmap/sortedmap.go:32 | `a < b` excludes `b < a` |
| Strings.NotAboveTransitive | logger.go:30 | "not below" (`>=`) is transitive, the step a sort needs |
| Strings.NotAboveAndDifferent | logger.go:30 | `b >= a` and `a != b` gives `a < b` |
| GoSort.Swap | sortedmap/sortedmap.go:31 | exchanges exactly two positions of the array, and the contents are a permutation |
| GoSort.Sort | sortedmap/sortedmap.go:35 | the array ends non-decreasing by key and is a permutation of its old contents |
| GoSort.DistinctCount | sortedmap/sortedmap.go:69-77 | in a sequence with distinct keys every element occurs at most once |
| GoSort.TwiceCount | sortedmap/sortedmap.go:69-77 | an element at two positions occurs at least twice |
| GoSort.PermutationKeepsDistinct | sortedmap/sortedmap.go:74 | a permutation of a sequence with distinct keys has distinct keys |
| GoSort.SortedDistinctIsStrict | sortedmap/sortedmap.go:69-77 | non-decreasing with distinct keys means strictly ascending |
| SortedMap.Len | sortedmap/sortedmap.go:30 | the length of the slice |
| SortedMap.Less | sortedmap/sortedmap.go:32 | holds iff the key at `i` is below the key at `j`; when it holds, the converse fails and the keys differ |
| SortedMap.Swap | sortedmap/sortedmap.go:31 | positions `i` and `j` are exchanged and every other position is unchanged |
| SortedMap.Sort | sortedmap/sortedmap.go:35 | afterwards no later pair is `Less` than an earlier one, and the slice is a permutation of the old one (stability not promised) |
| SortedMap.Add | sortedmap/sortedmap.go:43-45 | the old pairs in their order followed by the new pair, so the length grows by one and nothing is re-sorted |
| SortedMap.Keys | sortedmap/sortedmap.go:48-55 | same length as the slice; element `i` is the key of pair `i` |
| SortedMap.Values | sortedmap/sortedmap.go:58-65 | same length as the slice; element `i` is the value of pair `i` |
| SortedMap.Collect | sortedmap/sortedmap.go:70-73 | the range loop: one pair `(k, m[k])` per key in some order, keys distinct |
| SortedMap.AsSortedMap | sortedmap/sortedmap.go:69-77 | length `len(m)`; every pair is `(k, m[k])` for a key of `m`; every key appears; keys strictly ascend |
| Fields.FieldsOf | logger.go:15-17 | `Fields.Fields()` is the identity; an error's `Fields()` gives the error's own map |
| Fields.Get | logger.go:20-22 | the stored value when the name is present, nil otherwise |
| Fields.Names | logger.go:25-33 | every key exactly once (length equals the number of keys, membership both ways) in strictly ascending order |
| Fields.Sorted | logger.go:36-38 | one pair per field, each `(k, f[k])`, strictly ascending by key |
| Fields.Merge | entry.go:170-180 | the reference definition of `mergedFields`: the layers applied in stack order, a later layer overriding an earlier one; its meaning is stated by MergeKeys, MergeLastWins and MergeAbsent |
| Fields.MergePush | entry.go:173-177 | merging one more layer overrides the flattened map with that layer |
| Fields.MergeKeys | entry.go:170-180 | a key is in the flattened map iff some layer has it |
| Fields.MergeLastWins | entry.go:170-180 | a key's flattened value is the one in the last layer that has it |
| Fields.MergeAbsent | entry.go:170-180 | a key in no layer is absent from the flattened map |
| Fields.MergeEmptyLayer | entry.go:153 | an empty layer anywhere in the stack leaves the flattened map unchanged |
| Fields.ErrorLayers | entry.go:69-79 | a non-nil error adds the layer `{"error": err}`, then the error's own fields when it has any |
| Fields.ErrorLayersMerge | entry.go:73-75 | after `WithError`, "error" maps to the error unless the error's own fields override it; all of those fields are present |
| Log.Milliseconds | entry.go:62 | `Duration.Milliseconds()`: nanoseconds to milliseconds truncated toward zero, for negative durations too |
| Log.Below | logger.go:154 | `level < l.Level`: it relates only different levels, nothing is below Debug, and Fatal is below nothing |
| Log.Diagnostic | logger.go:158-160 | the `stdlog.Printf("error logging: %s", err)` output: exactly one line for a failure, made of the prefix `error logging: ` and the error's text, and no line for success |
| Log.Emitted | logger.go:153-161 | the whole effect of `log`: below the threshold no handler call and no output; otherwise exactly one record `Record(name, Merge(stack), level, now, msg)` delivered and the diagnostic for the handler's answer printed |
| Log.Entry.Snapshot | logger.go:158 | what a handler observes of the `*Entry` it receives: its name, finalized fields, level, timestamp and message |
| Log.FatalNeverBelow | logger.go:154 | a Fatal record is never below the threshold, so the gate always passes it |
| Log.BelowStrictTotal | logger.go:154 | `<` on levels is irreflexive, transitive and total, so the gate compares any two levels consistently |
| Log.TraceThenStop | entry.go:151-167 | the record `Stop(nil)` sends after `Trace` has the traced entry's fields plus "duration" |
| Log.TraceThenStopFailed | entry.go:161-167 | the record `Stop(&err)` sends after `Trace` has the traced fields, then "duration", then "error", then the error's fields, each overriding the earlier ones |
| Log.Handler.constructor | logger.go:43-48 | `HandlerFunc(f)`: a handler that answers with `f` and has received nothing |
| Log.Handler.HandleLog | logger.go:45-48 | records the entry's snapshot once and returns the handler's answer for it |
| Log.Logger.constructor | logger.go:60-63 | a logger with the given handler and threshold that has printed nothing |
| Log.Logger.Log | logger.go:153-161 | below the threshold, no handler call and no diagnostic; otherwise exactly one call with the finalized record, and one `error logging:` line iff the handler failed |
| Log.Logger.WithFields | logger.go:66-68 | a fresh unnamed entry whose stack is exactly `[f.Fields()]` |
| Log.Logger.WithField | logger.go:74-76 | a fresh unnamed entry whose stack is `[{key: value}]` |
| Log.Logger.WithDuration | logger.go:80-82 | a fresh unnamed entry whose stack is `[{"duration": ms}]` |
| Log.Logger.WithError | logger.go:85-87 | a fresh unnamed entry with no layers for nil, or the error layers |
| Log.Logger.Named | logger.go:90-92 | a fresh entry named exactly `n`, with no layers |
| Log.Logger.Debug | logger.go:95-97 | a fresh entry's record at Debug, subject to the gate |
| Log.Logger.Info | logger.go:100-102 | a fresh entry's record at Info, subject to the gate |
| Log.Logger.Warn | logger.go:105-107 | a fresh entry's record at Warn, subject to the gate |
| Log.Logger.Error | logger.go:110-112 | a fresh entry's record at Error, subject to the gate |
| Log.Logger.Fatal | logger.go:115-117 | a fresh entry's record at Fatal, then the exit flag is set |
| Log.Logger.Trace | logger.go:146-148 | logs `msg` at Info from a fresh entry, and returns an entry with one empty layer, `msg` and the start time |
| Log.NewEntry | entry.go:28-32 | a fresh entry of the logger with empty name and empty stack, everything else zero |
| Log.Entry.constructor | entry.go:47-51 | the struct literal: logger, name and stack as given, every other field zero |
| Log.Entry.WithFields | entry.go:35-52 | a new entry with the same logger and name, stack `old ++ [f.Fields()]`, other fields zero; the receiver is not modified |
| Log.Entry.WithField | entry.go:55-57 | exactly one more layer `{key: value}` |
| Log.Entry.WithDuration | entry.go:61-63 | exactly one more layer `{"duration": Milliseconds(d)}` |
| Log.Entry.WithError | entry.go:69-79 | nil returns the receiver itself; otherwise a new entry with the "error" layer and then the error's own fields |
| Log.Entry.Named | entry.go:82-96 | a named receiver yields a new entry `name/n` with the same stack and is unchanged; an unnamed receiver is renamed in place and returned |
| Log.Entry.Debug | entry.go:99-101 | one dispatch at Debug of this entry's name and stack |
| Log.Entry.Info | entry.go:104-106 | one dispatch at Info |
| Log.Entry.Warn | entry.go:109-111 | one dispatch at Warn |
| Log.Entry.Error | entry.go:114-116 | one dispatch at Error |
| Log.Entry.Fatal | entry.go:119-122 | one dispatch at Fatal, then the exit flag is set |
| Log.Entry.Trace | entry.go:151-157 | logs `msg` at Info first, then returns a new entry with the same name, the stack plus the receiver's finalized `Fields`, `msg` and the start time |
| Log.Entry.Stop | entry.go:161-167 | for a nil pointer or nil error, an Info record with a "duration" layer; otherwise an Error record with "duration" and then the error layers |
| Log.Entry.MergedFields | entry.go:170-180 | the nested loop computes exactly `Merge(stack)` |
| Log.Entry.Finalize | entry.go:183-192 | a new entry with the same logger and name, `Fields = Merge(stack)`, the level, the message and `Now()`; the receiver is unchanged |
| Multi.Handler.constructor | handlers/multi/multi.go:14-18 | `New(h...)` keeps the handlers in the given order |
| Multi.Outcomes | handlers/multi/multi.go:22-23 | one answer per handler, in list order |
| Multi.FirstFailure | handlers/multi/multi.go:22-25 | the position of the first failing answer (or the length); every earlier answer is a success |
| Multi.Reached | handlers/multi/multi.go:22-25 | how many handlers are called: up to and including the first failure |
| Multi.Verdict | handlers/multi/multi.go:21-28 | nil iff every answer is a success; otherwise the first failure's error |
| Multi.FirstFailureAt | handlers/multi/multi.go:23-25 | the first failure is at `i` when all before it succeed and `i` fails |
| Multi.StopsAt | handlers/multi/multi.go:23-25 | when handler `i` is the first to fail, its error is returned and exactly `i + 1` handlers are called |
| Multi.AllSucceed | handlers/multi/multi.go:22-28 | when none fails (also for an empty list), nil is returned and every handler is called |
| Multi.CountUnique | handlers/multi/multi.go:22 | a handler at one position only is counted once when that position is reached |
| Multi.CountAbsent | handlers/multi/multi.go:22 | a handler at none of the first `n` positions is counted zero times |
| Multi.DeliveredOnce | handlers/multi/multi.go:22-23 | a handler listed once and reached receives the entry exactly once |
| Multi.DeliveredNone | handlers/multi/multi.go:23-25 | a handler not among the reached positions receives nothing, so no handler after the first failure is called |
| Multi.Handler.HandleLog | handlers/multi/multi.go:21-28 | returns the first failure or nil, and each handler receives the same record once per position reached, up to and including the first failing one |
| Multi.Handler.Deliver | handlers/multi/multi.go:23 | one loop step: only the handler at `i` is called; it receives the record and its answer is returned |

## Left out

- The formatted variants `Debugf`…`Fatalf` of Entry and Logger (entry.go:124-147, logger.go:119-142). They only apply `fmt.Sprintf` before the plain call, so they are the plain methods with an already-formatted message.
- `KeyValuePair.String` (sortedmap/sortedmap.go:18-25) is `fmt` formatting.
- handlers/cli/cli.go, default.go and interface.go are not part of this model. They hold console and `fmt` output and type declarations only.
- Output and process effects become state:
  - the `stdlog.Printf` line becomes an appended string in `Logger.diagnostics`;
  - `os.Exit(1)` becomes the `exited` flag. Nothing after it is prevented, because no caller runs past it.
- Real time (`time.Now`, `time.Since`, the replaceable `Now`) becomes integer nanosecond parameters.
- Concurrency and handler thread-safety are out of scope. Every operation is sequential.
- The `Level` declaration is not part of the sources modelled:
  - the order Debug < Info < Warn < Error < Fatal follows the level-indexed tables of handlers/cli/cli.go;
  - a new entry's zero `Level` is taken to be Debug.
- Log.Milliseconds: the result is the exact truncated quotient of an unbounded integer. The 64-bit range of `time.Duration` is not modelled.
- Log.Entry.Stop: the zero `time.Time` of an entry that was never traced is taken as clock value 0, and `Stop` computes `Milliseconds(sinceNow - 0)`. Go's `time.Since(time.Time{})` saturates to the largest `Duration` (entry.go:163), because `Time.Sub` saturates on overflow. That saturation is not modelled.
- `interface{}` values are reduced to the kinds the core creates or inspects (`Int`, `Str`, `Err`, `Nil`) plus an opaque `Any`.
- Errors are reduced to their text and, for `Fielder` errors, their fields. `stdlog.Printf("%s", err)` prints that text.
- A nil `Fields` map and an empty one are the same value. The core only ranges over and indexes such maps.
- Maps and slices are values in the model, but Go shares them by reference. A caller that mutates a map or slice after handing it over is not represented:
- Log.Entry.WithFields: the pushed layer is the caller's own map (entry.go:45, through the identity `Fields()` at logger.go:15-17). If the caller later changes that map, Go's emitted record shows the change; the model's record keeps the value at the time of the call.
- Log.Entry.Trace: the pushed layer is the receiver's `e.Fields` map itself (entry.go:153). When that map is non-nil, later changes to it reach Go's Stop record but not the model's.
- Log.Entry.WithError: the pushed layer is the map `err.Fields()` returns (entry.go:75). Any later change to it is likewise not represented.
- SortedMap.Add: Go's `append` (sortedmap/sortedmap.go:44) may write into spare capacity that an earlier result shares. Two `Add`s on the same slice can then overwrite each other's new pair; the model's value `Add` keeps both results intact.
- Go panics that the model rules out by construction:
  - a zero `Logger{}` has a nil `Handler`, so a call that passes the gate panics at logger.go:158; here `Logger.handler` is never null;
  - `NewEntry(nil)` gives an entry whose leveled calls panic at logger.go:154; here `Entry.logger` is never null;
  - `Less` and `Swap` with an index out of range panic (sortedmap/sortedmap.go:31-32); here a `requires` keeps the indices in range;
  - `e.WithFields(nil)` and `l.WithFields(nil)` panic on `fields.Fields()` (entry.go:45, logger.go:67); the `Fielder` datatype has no nil case;
  - `multi.New(nil)` panics at `handler.HandleLog(e)` (handlers/multi/multi.go:23) when its loop reaches the nil handler; `seq<Log.Handler>` holds only non-null handlers.
- `Logger.Handler` is a public mutable field in Go (logger.go:61). Here `handler` is a `const`, so replacing a logger's handler at run time is not represented.
- SortedMap.Sort goes through `GoSort.Sort` with the key function `Key`. That sort's comparison is `Strings.Less` on keys and its exchange is `GoSort.Swap`, so it compares as `SortedMap.Less` promises and exchanges as `SortedMap.Swap` does. It is an insertion sort, not Go's pattern-defeating quicksort: it has `sort.Sort`'s contract (a permutation, ordered by key, stability not promised), but when keys repeat, the final order of equal-key pairs may differ from Go's. `GoSort.Sort` is shared with `Fields.Names`, which sorts plain strings, so the two sorts are one algorithm defined once.
- SortedMap keys are specialised to strings, the only key type the logging core uses. The generic `constraints.Ordered` parameter is not modelled.
- Handlers are `Log.Handler` objects: a recorder plus a fixed answer per record.
  - There are no interfaces in the model, so a `Multi.Handler` cannot itself be installed as a Logger's handler.
  - A handler whose answer depends on earlier calls is not represented.
- Multi.Handler.HandleLog states delivery for each handler by counting its positions, so aliased handlers listed several times are covered. Per-handler consequences are the lemmas DeliveredOnce and DeliveredNone.
- Entry.Trace: the new entry layers the receiver's finalized `Fields` (entry.go:153), which is the empty map on an entry that is still being built. It is not the flattened stack. The model keeps this exactly: the stack grows by `[fields]`. Log.TraceThenStop and Fields.MergeEmptyLayer show that the flattened fields are nevertheless those of the traced entry.
