# envknob in Dafny

A model of Tailscale's `envknob` package: a process-wide registry of debug
knobs read from environment variables. The model has three parts.

- **The knob store.** A map from knob name to the value most recently recorded for it; recording
  an empty value removes the knob. It is kept so that `LogCurrent` can report which knobs are in use.
  `boolOr` records the canonical `"true"`/`"false"` rather than the text it read.
- **Accessors.** `String`, `Bool`, `BoolDefaultTrue`, `LookupBool`, `OptBool`, `LookupInt`
  and `CanSSHD` read the environment on every call. `String` returns the raw text; the others parse
  it, an absent knob gives the default, and a malformed value is fatal.
- **Registered handles.** `RegisterString` and `RegisterBool` return a cell that is allocated once
  per knob name and returned again, by identity, on every later call.

The package-level globals become the fields of a `Registry` class:
- `env` is the process environment;
- `store` is the Go map `set` (`set` is a Dafny keyword);
- `regStr` and `regBool` map knob names to `StringCell` and `BoolCell` handles;
- `inMain` is the write-once main-phase flag.

Its invariant `Valid()` says that every value in the store is non-empty
and that no two knob names share a handle.

`log.Fatalf` becomes the outcome `Fatal(knob, raw)`. The panic of the init-time guard becomes
`InitPanic`. Both live in the `Outcome` datatype, so no `requires` excludes a malformed value.
Each guarded accessor takes an explicit `fromInit` flag, which stands for "some caller frame is a
package `init` function". The guard trips exactly when `fromInit` holds and `inMain` does not.

The two standard-library grammars the accessors depend on are written out in module `Strconv`:
- `strconv.ParseBool` accepts `1 t T TRUE true True` and `0 f F FALSE false False`;
- `strconv.Atoi` accepts an optional sign, then decimal digits, within the 64-bit `int` range.

Module `StringOrder` gives the byte-wise order that `sort.Strings` uses on knob names. On UTF-8 text
this is the code-point order. The module also proves that a strictly sorted list of names is
determined by its elements. So the log that `LogCurrent` writes does not depend on Go's random map
iteration order, which the model represents by an arbitrary choice.

Three details of the Go code shape the contracts:
- `strconv.ParseBool` accepts only the twelve spellings above; `yes` and `no` are malformed.
- `LookupBool` records nothing in the store.
- `setBoolLocked` records the raw value, not the canonical one.

## Model

| member | source | states |
|---|---|---|
| Envknob.Noted | envknob/envknob.go:45-51 | a non-empty value is stored under its key, an empty value removes the key, every other key keeps its presence and value, and values stay non-empty |
| Envknob.NotedLastWins | envknob/envknob.go:45-51 | the store keeps no history: noting `v1` then `v2` under a key equals noting `v2` alone |
| Envknob.Registry.NoteEnv | envknob/envknob.go:39-51 | `noteEnv`/`noteEnvLocked` change only the store, by the store update rule, and keep the registry invariant |
| Envknob.Registry.LogCurrent | envknob/envknob.go:59-71 | leaves the state alone and yields one (name, value) line per knob in the store, with that knob's value, names strictly ascending; every logged value is non-empty |
| Envknob.SnapshotUnique | envknob/envknob.go:63-70 | any two logs of the same store are equal, whatever order the map keys were visited in |
| StringOrder.SortStrings | envknob/envknob.go:67 | the result is an ascending permutation of the input, strictly ascending when the input has no repeats |
| StringOrder.StrictlySortedUnique | envknob/envknob.go:67 | two strictly ascending lists of names with the same elements are identical |
| Envknob.Registry.String | envknob/envknob.go:77-81 | returns the environment value verbatim (`""` when unset) and applies the store update rule to it |
| Envknob.Registry.RegisterString | envknob/envknob.go:86-99 | a repeat call returns the registered handle and changes nothing; a first call registers exactly this name with a fresh cell holding the environment value, and records it only if non-empty (never deletes) |
| Envknob.Registry.SetBoolLocked | envknob/envknob.go:117-128 | records the raw value by the store rule; the cell becomes false for `""`, the parsed boolean for a valid spelling, and false with `Fatal(knob, raw)` otherwise |
| Envknob.Registry.RegisterBool | envknob/envknob.go:104-115 | a repeat call returns the registered handle and changes nothing; a first call notes the raw value, succeeds exactly for `""` or a valid spelling, then registers a fresh cell holding true exactly for a true spelling; on a malformed value it is fatal and registers nothing |
| Strconv.ParseBool | envknob/envknob.go:149 | true exactly for the six true spellings, false exactly for the six false spellings, an error for every other string (the empty string included) |
| Strconv.FormatBool | envknob/envknob.go:151 | the canonical spelling of a boolean parses back to that boolean |
| Envknob.BoolOrValue | envknob/envknob.go:143-156 | an empty value gives the default, a true or false spelling gives that boolean, anything else is `Fatal` naming the knob and the raw value |
| Envknob.CanonicalFormRereads | envknob/envknob.go:151 | re-reading the canonical form recorded by `boolOr` gives the same boolean whatever the default |
| Envknob.Registry.BoolOr | envknob/envknob.go:143-156 | panics exactly when the init guard trips; otherwise returns `BoolOrValue` of the environment value, records the canonical `"true"`/`"false"` on success with a set value, and leaves the store alone when the knob is absent or malformed |
| Envknob.Registry.Bool | envknob/envknob.go:133-135 | `boolOr` with default false |
| Envknob.Registry.BoolDefaultTrue | envknob/envknob.go:139-141 | `boolOr` with default true |
| Envknob.Registry.LookupBool | envknob/envknob.go:161-173 | `(false, false)` when unset, `(b, true)` for a valid spelling, `Fatal(knob, raw)` otherwise, `InitPanic` exactly when the guard trips; being a function of the state it records nothing; its value agrees with `Bool`, and with `BoolDefaultTrue` (`v || !ok`) |
| Envknob.Registry.OptBool | envknob/envknob.go:177-186 | unset exactly when `LookupBool`'s ok is false, otherwise the value `LookupBool` found; fatal and panic exactly when `LookupBool` is |
| Strconv.Atoi | envknob/envknob.go:197 | a parsed integer comes from a non-empty string, lies within the 64-bit range and is negative only after a `-` sign |
| Strconv.AtoiItoa | envknob/envknob.go:197 | every 64-bit integer written in decimal parses back to itself |
| Envknob.LookupIntValue | envknob/envknob.go:191-204 | `(0, false)` for an empty value; `(n, true)` for every non-empty value `Atoi` accepts, with `n` the parsed number, and `(n, true)` only then; otherwise `Fatal` naming the knob and the raw value |
| Envknob.LookupIntRoundTrip | envknob/envknob.go:197-200 | a knob set to the decimal form of any 64-bit integer is read back as `(n, true)` |
| Envknob.Registry.LookupInt | envknob/envknob.go:191-204 | panics exactly when the guard trips; otherwise returns `LookupIntValue` of the environment value and records the raw string exactly when a value was parsed, leaving the store alone otherwise |
| Envknob.Registry.CanSSHD | envknob/envknob.go:215 | absent gives true with the store unchanged; a true spelling gives false and records `"true"`; a false spelling gives true and records `"false"`; any other value is `Fatal("TS_DISABLE_SSH_SERVER", raw)`; on a fatal or panic outcome the store is unchanged |
| Envknob.Registry.SetNoLogsNoSupport | envknob/envknob.go:230-232 | sets `TS_NO_LOGS_NO_SUPPORT` to `"true"` in the environment and changes nothing else, so `Bool` then reads that knob as true |
| Envknob.Registry.SetInMain | envknob/envknob.go:234-244 | sets `inMain`, after which the init-time guard passes for every call; no other method clears it |
| Envknob.Registry.Getenv | envknob/envknob.go:78 | `os.Getenv` over the `env` field: the variable's value when it is set, `""` when it is unset |
| Envknob.Registry.GuardPasses | envknob/envknob.go:242-260 | the flag part of `assertNotInInit`: it always passes once `inMain` is set; before that it fails exactly when `fromInit` holds, which stands for a caller frame whose function name ends in `.init` |
| Envknob.Registry.constructor | envknob/envknob.go:32-37 | a fresh registry over a given environment has an empty store, no handles and `inMain` false |

## Left out

- Locking (`sync.Mutex`, `atomic.Bool`) is not modelled: every call is treated as atomic.
- `os.Getenv`/`os.Setenv` become reads and writes of the `env` field.
- Process exit is not modelled. `log.Fatalf` and the init-time `panic` are outcomes, and the `panic("unreachable")` lines are dropped. After a `Fatal` outcome the model keeps the state the code had reached: `SetBoolLocked` and `RegisterBool` have already noted the raw value.
- The stack walk in `assertNotInInit` (`runtime.Caller`, `FuncForPC`, the `.init` suffix test) becomes the `fromInit` parameter.
- `LogCurrent` returns the (name, value) pairs instead of calling `logf`. The `envknob: %s=%q` formatting and quoting are not modelled.
- Go's sort algorithm is not modelled. `sort.Strings` is stood in for by an insertion sort with the same contract: sorted, and a permutation of its input.
- Strings are sequences of Unicode scalar values, while Go environment strings are arbitrary bytes. Names or values that are not valid UTF-8 cannot be represented, and `StringOrder.LessEq` agrees with Go's byte order only on valid UTF-8.
- Go's `int` is taken to be 64 bits wide. `Atoi` on other widths is not modelled.
- `opt.Bool` is not part of this model. The three-valued `Tristate` stands for it.
- `UseWIPCode`, `SSHPolicyFile`, `SSHIgnoreTailnetPolicy` and `NoLogsNoSupport` are not modelled. Each is a one-line call of `Bool` or `String` with a fixed knob name, the same shape as `CanSSHD`.
