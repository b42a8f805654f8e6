# dry: configuration binder and logger fields, modelled in Dafny

This project models the three pieces of `dry` that make decisions of their own.

- **The configuration schema walk** (`pkg/config/config.go`). A tagged configuration struct becomes a list of command-line flags. The model replaces Go reflection with an explicit schema. A field (`Config.FieldDecl`) carries its `name`, `short` and `description` tags and its kind. A struct kind carries its nested field list.
  - The walk is a method of the `Config.Manager` class. The method appends to the manager's `flags` sequence. The loop body for one field is its own method, `RegisterField`. Both methods are proved equal to the pure specifications `Config.WalkFields` and `Config.WalkField`, and the lemmas are stated about those functions.
  - A Go panic is modelled as an early return of the offending kind. Flags registered before the panic stay in the flag set, as they do in the source.
  - The model also covers the guards around the walk: the root-struct check in `InitFlags`, the empty-path branch of `ReadFromFile`, the ignored decode error in `Unmarshal`, and the `.`/`-` to `_` environment key replacer set up in `New`.
- **The key=value decode hook** (`pkg/config/hooks.go`). It turns a `[]string` into a `map[string]string`.
  - `Hooks.SplitN2` is `strings.SplitN(s, "=", 2)`.
  - `Hooks.ToStringMap` is the conversion loop written as a fold.
  - The method `Hooks.StringSliceToStringMapHook` is the hook with its loop, proved against that fold.
- **Logger field assembly** (`pkg/logger/logger.go`).
  - `Logger.Field` is the kind switch that builds a zap field.
  - `Logger.Fields` is the pairwise loop over variadic arguments, proved against `Logger.FieldsOf`.
  - `Logger.New`, `Logger.WithField` and `Logger.WithFields` build loggers as immutable values.
  - Values are a tagged datatype keyed by their dynamic Go type. A float is an opaque bit pattern.

Two behaviours of the code are modelled as written:
- The hook splits at the FIRST `=`, so `a=b=c` is accepted with value `b=c`. It does not require exactly one `=`.
- The `Int64` case of `field` asserts the value to be an `int`, so an `int64` value panics. In the same way, a value of a named type (`type Level string`, `type Port int`) panics at the assertion of its kind's case, and `Fields` skips a pair whose key has a named string type. `reflect.TypeOf(nil).Kind()` panics on an untyped nil.

Parameters stand in for the outcomes of code that is not visible here:
- `ReadFromFile` takes the value of the `config` flag and the outcome of merging the file.
- `Unmarshal` takes the outcome of building the decoder and the outcome of decoding.
- `Logger.New` takes the outcome of building the zap logger.

## Model

| member | source | states |
|---|---|---|
| `Config.Manager.ParseStructToFlags` | pkg/config/config.go:100-143 | the flag set grows by exactly the walk's flags, and the panic it reports is the walk's |
| `Config.Manager.RegisterField` | pkg/config/config.go:102-141 | one field adds exactly its own flags to the flag set: none when skipped, its children's flags for a struct, one flag for a leaf; an unknown kind is reported as a panic |
| `Config.WalkFieldsAppend` | pkg/config/config.go:101-142 | flags are registered depth-first in declaration order: the walk of `a + b` is the flags of `a` then those of `b`, and a panic in `a` ends the walk |
| `Config.PanicStopsWalk` | pkg/config/config.go:139-140 | once a leading part of the field list panics, later fields are never walked |
| `Config.SkippedFieldRegistersNothing` | pkg/config/config.go:103-107 | a non-struct field tagged `""` or `"-"` can be removed from anywhere in a field list without changing what is registered |
| `Config.LeafRegistersOneFlag` | pkg/config/config.go:109-137 | a supported leaf registers exactly one flag: named `p.name`, or the bare tag at top level; `short` tag as shorthand; `description` tag as usage; the kind's flag type (slice and map both give string-slice); and that type's zero default |
| `Config.StructIsAlwaysRecursed` | pkg/config/config.go:105-135 | a struct field is always recursed into, whatever its tag; with an empty tag, its children are unprefixed at top level and get the prefix `p.` (trailing dot) under `p` |
| `Config.WalkFieldPanicsIffUnsupported` | pkg/config/config.go:116-141 | one field's walk panics exactly when it reaches a field of an unknown kind, and it reports that kind |
| `Config.WalkFieldsPanicsIffUnsupported` | pkg/config/config.go:101-141 | a field list's walk panics exactly when some reached field has an unknown kind, and it reports that kind |
| `Config.WalkFieldDefaultsAreZero` | pkg/config/config.go:116-137 | every flag a field registers starts at the zero value of its type |
| `Config.WalkFieldsDefaultsAreZero` | pkg/config/config.go:101-137 | every flag a field list registers starts at the zero value of its type |
| `Config.WalkFieldNamesUnderPrefix` | pkg/config/config.go:112-135 | under a non-empty prefix `p`, every flag a field registers is named `p.` followed by the rest of its path |
| `Config.WalkFieldsNamesUnderPrefix` | pkg/config/config.go:101-135 | under a non-empty prefix `p`, every flag a field list registers is named `p.` followed by the rest of its path |
| `Config.Manager.InitFlags` | pkg/config/config.go:54-69 | a root that is not a struct panics and registers nothing; otherwise the root's fields are walked with an empty prefix, and an unknown kind panics |
| `Config.Manager.ReadFromFile` | pkg/config/config.go:44-51 | an empty or unreadable `config` value succeeds and leaves the config source untouched; otherwise the path is set and the merge's outcome is returned |
| `Config.Manager.Unmarshal` | pkg/config/config.go:77-91 | only a decoder-construction error is returned; the decode's own error is dropped |
| `Config.Manager.constructor` | pkg/config/config.go:22-35 | a new manager has its name, an empty flag set and no config file |
| `Config.EnvKey` | pkg/config/config.go:24 | the key keeps its length, every `.` and `-` becomes `_`, and every other character is unchanged |
| `Config.EnvKeyHasNoSeparators` | pkg/config/config.go:24 | a replaced key holds no `.` or `-`, so replacing twice changes nothing |
| `Config.EnvKeyOfDottedName` | pkg/config/config.go:24 | the key of `p.n` is the key of `p`, `_`, then the key of `n` |
| `Hooks.SplitN2` | pkg/config/hooks.go:32 | one part, the whole string, when there is no `=`; otherwise two parts, split at the first `=`, that rejoin to the input |
| `Hooks.SplitRoundTrip` | pkg/config/hooks.go:32-36 | splitting `k=v`, where `k` has no `=`, gives back `k` and `v` |
| `Hooks.StringSliceToStringMapHook` | pkg/config/hooks.go:24-40 | other source or target types pass the data through unchanged with no error; a non-`[]string` value panics at the type assertion; otherwise the result is the fold `ToStringMap` |
| `Hooks.ErrorMessage` | pkg/config/hooks.go:34 | the error text is the fixed text followed by the offending element, so it ends with that element |
| `Hooks.ErrorMessageNamesElement` | pkg/config/hooks.go:34 | two error texts are equal exactly when they name the same element |
| `Hooks.ToStringMapShape` | pkg/config/hooks.go:30-39 | the conversion yields either a map or an error |
| `Hooks.FailureIsFinal` | pkg/config/hooks.go:31-35 | once a leading part of the input fails, later elements are not examined |
| `Hooks.SucceedsIffAllHaveSeparator` | pkg/config/hooks.go:31-39 | the conversion succeeds exactly when every element contains `=` |
| `Hooks.FirstMalformedElementFails` | pkg/config/hooks.go:31-35 | the first element without `=` is the one the error message names, whatever follows it |
| `Hooks.FailureNamesFirstMalformed` | pkg/config/hooks.go:31-35 | an error message naming an element comes only from an element without `=`, all of whose predecessors are well-formed |
| `Hooks.ConvertedKeys` | pkg/config/hooks.go:30-39 | on success, the map's keys are exactly the first-`=` prefixes of the elements; an empty input gives an empty map |
| `Hooks.LastWriteWins` | pkg/config/hooks.go:31-37 | each key maps to the value after the first `=` of the last element carrying that key |
| `Hooks.RenderThenDecode` | pkg/config/hooks.go:30-39 | decoding `key=value` renderings of a map's entries (any order, repeats allowed) gives back the map restricted to those keys, when no key contains `=` |
| `Hooks.ConvertOneMore` | pkg/config/hooks.go:32-36 | one more element with `=` adds or overwrites the entry for its key with its value |
| `Hooks.MapRoundTrip` | pkg/config/hooks.go:30-39 | a map whose keys have no `=`, rendered as `key=value` elements, decodes back to itself |
| `Hooks.ExampleTwoKeys` | pkg/config/hooks.go:30-39 | `[]` gives an empty map; `["a=1","b=2"]` gives `{a:1, b:2}` |
| `Hooks.ExampleLastWins` | pkg/config/hooks.go:31-37 | `["a=1","a=2"]` gives `{a:2}` |
| `Hooks.ExampleFirstSeparator` | pkg/config/hooks.go:32-36 | `["a=b=c"]` gives `{a:"b=c"}`; `["a="]` gives `{a:""}` |
| `Hooks.ExampleMalformed` | pkg/config/hooks.go:33-35 | `["bad"]` fails with the message `Invalid format for input bad` |
| `Logger.Field` | pkg/logger/logger.go:146-162 | exactly nil values, int64 values and values of a named type whose kind is string, int, int64 or float64 panic; a string gives a StringType field with that string; an int gives an Int64Type field with that integer; a float gives an UnknownType field carrying the float, because the kind table has no float entry; any other kind, named or not, gives the zero field, whose key is empty too |
| `Logger.Fields` | pkg/logger/logger.go:55-62 | the result is `FieldsOf` of the arguments |
| `Logger.StringKeyedPairs` | pkg/logger/logger.go:56-57 | the count of string-keyed pairs is at most half the argument count |
| `Logger.FieldsCount` | pkg/logger/logger.go:55-61 | without a panic, there is exactly one field per pair whose first element is a string, so at most `len(a)/2` fields |
| `Logger.FieldsAppend` | pkg/logger/logger.go:55-61 | for an even-length first list, the fields of two lists laid end to end are the first list's fields then the second's; pair order is kept and a panic in the first list wins |
| `Logger.TrailingArgumentIgnored` | pkg/logger/logger.go:56 | a trailing unpaired argument contributes nothing |
| `Logger.NonStringKeyIgnored` | pkg/logger/logger.go:57-59 | a pair whose first element is not a string contributes nothing, wherever it stands |
| `Logger.NamedStringKeyIgnored` | pkg/logger/logger.go:57 | a pair whose key has a named string type fails the `string` assertion and contributes nothing |
| `Logger.UnknownKindYieldsZeroField` | pkg/logger/logger.go:57-59 | a string key with a value of unknown kind still appends a field, the zero field |
| `Logger.New` | pkg/logger/logger.go:66-96 | a new logger exists exactly when the sink is built; it has the given context and sink and an empty field list; a build error is passed on |
| `Logger.WithFields` | pkg/logger/logger.go:173-180 | the derived logger has the receiver's context and sink; its fields are the receiver's followed by the new ones in order |
| `Logger.WithField` | pkg/logger/logger.go:164-171 | the derived logger exists exactly when building the field does not panic; it is the receiver with that one field appended |
| `Logger.WithFieldsTwice` | pkg/logger/logger.go:173-180 | adding fields in two steps is the same as adding them all at once, in order |
| `Logger.DerivedFromNew` | pkg/logger/logger.go:91-95 | a logger derived from a new logger carries exactly the added fields |

## Left out

- Reflection is not modelled. A struct's shape is the `Config.FieldDecl` schema, and a value's type is the `Logger.Value` constructor. In the hook, named types are not told apart from built-in types of the same kind, as its kind checks do not tell them apart either; a `[]MyString` value reaches its `[]string` assertion as `OtherData` and panics. In the logger, a named type is `Logger.NamedValue` and carries only its kind, which is all `field` and `Fields` look at before their assertions fail.
- pflag's own checks are not modelled: duplicate flag names and shorthands longer than one character. pflag is a foreign library.
- The flag set's later parsing is not modelled. Neither is viper's `BindPFlags` in `InitFlags` (its error path panics), nor its precedence of flags over environment over file.
- The environment prefix and upper-casing are not modelled. viper adds them; only the `.`/`-` replacement is this repository's.
- `Config.Manager.ReadFromFile`: the YAML read of `MergeInConfig` is a parameter (`mergeErr`). The same holds for mapstructure's decoder construction and decode in `Unmarshal`.
- `AddConfigFlag` is not modelled. It is a single flag registration with fixed values (`config`, `c`, `./config.yml`).
- Strings are sequences of characters, not bytes. `=`, `.` and `-` are single-byte characters, so splitting and replacing agree with byte-wise Go.
- `Logger.New`: the zap configuration is not modelled (levels, encoder keys, stacktrace and caller switches, and the process-wide `zap.RegisterEncoder`). Only the outcome of building the logger is a parameter.
- Logging output (`Debug`, `Info`, `Warn`, `Error`, `Fatal`) and `Clean` are not modelled. They are I/O through zap.
- `NewContextWithLogger` and `NewLoggerFromContext` are not modelled. They store and fetch a logger in a Go context and panic when it is absent.
- `pkg/logger/middleware.go` (HTTP wiring) and `pkg/assertions/assertions.go` (a wrapper over an assertion library) are not part of this model.
- Field lists are immutable sequences. Go's `append` in `WithField`/`WithFields` may share a backing array between sibling loggers; that aliasing is not modelled.
- Float values are an opaque bit pattern with no arithmetic.
