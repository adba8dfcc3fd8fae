# Dev server command-line option reader, in Dafny

This project models `readCliArgsConfig` of the dev server CLI package. The function reads the command line into a
configuration object. It builds the option registry: the five built-in options `config`, `root-dir`, `open`,
`app-index` and `help`, followed by the caller's extra options. It hands that registry to the argument tokenizer.
Then it post-processes the tokenizer's key→value map:

- a bare `--open` becomes `true`;
- a `--help` prints usage for the whole registry and exits;
- otherwise every kebab-case key is renamed to camel case (`root-dir` → `rootDir`), and its value is kept.

The model works on the tokenizer's output. That output is a `map<string, Value>`, where a `Value` is `Str(s)`,
`Bool(b)` or `Null`. The result is an `Outcome`: `Help(options)` stands in for the usage print and process exit,
and `Config(config)` is the returned object.

Modules:

- `CliTypes` (`cli_types.dfy`): values, option definitions, the parsed map and the outcome.
- `CamelCase` (`camel_case.dfy`): the key renaming `Camel`. It removes each hyphen and upper-cases the character
  after it. Its inverse `Kebab` turns each upper-case letter into a hyphen and its lower case. The module proves
  both round trips, injectivity on kebab-case names, and that a name is unchanged exactly when it has no hyphen.
- `OptionRegistry` (`option_registry.dfy`): the built-in option list and the merge with the caller's extras.
- `ConfigNormalizer` (`config_normalizer.dfy`): the open-flag defaulting, the help short-circuit and the key
  normalization loop, plus the full pipeline `ReadCliArgsConfig`.

JavaScript objects iterate in insertion order. When two parsed keys rename to the same camel-case name, the key
the tokenizer inserted last wins. A `map` records no order, so the normalization is a method that visits the keys
in an unspecified order. Its contract `NormalizedFrom` says:

- the configuration's keys are exactly the renamed parsed keys;
- each value comes from a key that renames to it;
- the value is the key's own value whenever no other key shares its new name.

That last condition always holds when the keys are kebab-case names, for example the built-in ones
(`SegmentedKeysAreUnique`, `BuiltinKeysAreUnique`). In that case the configuration is unique
(`NormalizedIsDeterministic`).

## Model

| member | source | states |
|---|---|---|
| `OptionRegistry.MergeOptions` | packages/dev-server-cli/src/config/readCliArgsConfig.ts:43 | The registry is the built-ins followed by the extras. Its leading entries are exactly the built-in list, and the entries after them are exactly the extras, in their given order. |
| `OptionRegistry.MergedRegistryLayout` | packages/dev-server-cli/src/config/readCliArgsConfig.ts:43 | The merged registry has 5 + \|extras\| entries. Its first five names are `config`, `root-dir`, `open`, `app-index`, `help`, and entry 5 + i is extra i. |
| `OptionRegistry.MergeKeepsEveryOption` | packages/dev-server-cli/src/config/readCliArgsConfig.ts:43 | An option is in the registry exactly when it is a built-in or one of the extras; nothing is dropped or invented. |
| `OptionRegistry.MergeAppends` | packages/dev-server-cli/src/config/readCliArgsConfig.ts:43 | Extras keep their given order: merging `extras + more` equals merging `extras` and then appending `more`. |
| `OptionRegistry.BuiltinNamesAreKebab` | packages/dev-server-cli/src/config/readCliArgsConfig.ts:5-37 | Every built-in name is a kebab-case name: lower-case letters, no leading hyphen, and each hyphen followed by a letter. |
| `OptionRegistry.BuiltinNamesDistinct` | packages/dev-server-cli/src/config/readCliArgsConfig.ts:5-37 | No two built-ins share a name, and no two built-in aliases coincide. |
| `OptionRegistry.BuiltinPlainNames` | packages/dev-server-cli/src/config/readCliArgsConfig.ts:5-37 | The hyphen-free built-in names `config`, `open` and `help` are unchanged by the renaming. |
| `OptionRegistry.RootDirCamel` | packages/dev-server-cli/src/config/readCliArgsConfig.ts:13 | `root-dir` is renamed to `rootDir`. |
| `OptionRegistry.AppIndexCamel` | packages/dev-server-cli/src/config/readCliArgsConfig.ts:26 | `app-index` is renamed to `appIndex`. |
| `CamelCase.CamelKeepsHyphenFree` | packages/dev-server-cli/src/config/readCliArgsConfig.ts:71 | A key without a hyphen is its own camel-case form. |
| `CamelCase.CamelKeepsHyphenFreePrefix` | packages/dev-server-cli/src/config/readCliArgsConfig.ts:71 | The renaming leaves a hyphen-free prefix as it is and acts only on what follows. |
| `CamelCase.CamelJoin` | packages/dev-server-cli/src/config/readCliArgsConfig.ts:71 | Two hyphen-free words joined by a hyphen rename to the two words joined by the upper-cased letter that followed the hyphen. |
| `CamelCase.CamelFixedIffHyphenFree` | packages/dev-server-cli/src/config/readCliArgsConfig.ts:71 | A key is unchanged by the renaming if and only if it contains no hyphen. |
| `CamelCase.CamelOfSegmentedHasNoHyphen` | packages/dev-server-cli/src/config/readCliArgsConfig.ts:71 | The camel-case form of a kebab-case key contains no hyphen. |
| `CamelCase.KebabOfCamel` | packages/dev-server-cli/src/config/readCliArgsConfig.ts:71 | Round trip: turning the camel-case form of a kebab-case key back to kebab case gives the original key. |
| `CamelCase.CamelOfKebab` | packages/dev-server-cli/src/config/readCliArgsConfig.ts:71 | Round trip the other way: any hyphen-free camel-case name is the renaming of its kebab-case form. |
| `CamelCase.CamelInjective` | packages/dev-server-cli/src/config/readCliArgsConfig.ts:70-72 | Two distinct kebab-case keys never rename to the same configuration key. |
| `CamelCase.CamelIdempotent` | packages/dev-server-cli/src/config/readCliArgsConfig.ts:71 | Renaming a kebab-case key twice gives the same result as renaming it once. |
| `ConfigNormalizer.DefaultOpen` | packages/dev-server-cli/src/config/readCliArgsConfig.ts:45-48 | A present `open` with a non-string value becomes `Bool(true)`. A string `open` is kept as it is. No key is added or removed, and every other key keeps its value. |
| `ConfigNormalizer.DefaultOpenSettles` | packages/dev-server-cli/src/config/readCliArgsConfig.ts:45-48 | After defaulting, `open` (if present) holds a string or `true`, and a second defaulting changes nothing. |
| `ConfigNormalizer.NormalizedKeepsValue` | packages/dev-server-cli/src/config/readCliArgsConfig.ts:70-72 | When no other parsed key renames to the same name, the configuration maps `Camel(k)` to the parsed value of `k`. |
| `ConfigNormalizer.NormalizedKeepsValues` | packages/dev-server-cli/src/config/readCliArgsConfig.ts:70-72 | Every parsed key whose new name no other key shares keeps its value under that name. |
| `ConfigNormalizer.SegmentedKeysAreUnique` | packages/dev-server-cli/src/config/readCliArgsConfig.ts:70-72 | When all parsed keys are kebab-case names, no two of them share a renamed key. |
| `ConfigNormalizer.BuiltinKeysAreUnique` | packages/dev-server-cli/src/config/readCliArgsConfig.ts:70-72 | When all parsed keys are built-in option names, no two of them share a renamed key. |
| `ConfigNormalizer.NormalizedIsDeterministic` | packages/dev-server-cli/src/config/readCliArgsConfig.ts:70-72 | When no two keys share a renamed key, any two renamings of the same arguments are equal. |
| `ConfigNormalizer.NormalizingCamelKeysIsIdentity` | packages/dev-server-cli/src/config/readCliArgsConfig.ts:70-72 | Renaming a configuration whose keys have no hyphen gives back that same configuration. |
| `ConfigNormalizer.NormalizedIsIdempotent` | packages/dev-server-cli/src/config/readCliArgsConfig.ts:70-72 | Renaming a configuration built from kebab-case keys a second time is a no-op. |
| `ConfigNormalizer.NormalizedStep` | packages/dev-server-cli/src/config/readCliArgsConfig.ts:71 | One assignment of the loop body extends a renaming of the visited keys to a renaming of the visited keys plus the new one. |
| `ConfigNormalizer.Normalize` | packages/dev-server-cli/src/config/readCliArgsConfig.ts:68-74 | The result's keys are exactly the renamed parsed keys. Each value comes from a parsed key that renames to it, and it is that key's own value when the new name is not shared. |
| `ConfigNormalizer.ReadCliArgsConfig` | packages/dev-server-cli/src/config/readCliArgsConfig.ts:39-75 | The outcome is `Help` exactly when `help` was parsed, whatever its value, and it then carries the full merged registry. Otherwise the outcome is the renaming of the defaulted arguments. Here `open` is the string given or `true`, and no arguments give an empty configuration. |
| `ConfigNormalizer.NoArgumentsExample` | packages/dev-server-cli/src/config/readCliArgsConfig.ts:68-74 | An empty parsed map yields an empty configuration. |
| `ConfigNormalizer.WatchFlagExample` | packages/dev-server-cli/src/config/readCliArgsConfig.ts:70-72 | An extra boolean option `watch` given as `--watch` yields exactly `{ watch: true }`. |
| `ConfigNormalizer.NormalizedPair` | packages/dev-server-cli/src/config/readCliArgsConfig.ts:70-72 | Two keys with distinct camel-case names are renamed independently, each keeping its value. |
| `ConfigNormalizer.BareOpenExample` | packages/dev-server-cli/src/config/readCliArgsConfig.ts:45-72 | A bare `--open` next to `--root-dir site` yields exactly `{ open: true, rootDir: "site" }`. |

## Left out

- The argument tokenizer (`command-line-args`, line 44) is a foreign library. The model takes its output map as input and does not model its grammar or its errors for unknown or malformed flags.
- The usage rendering (`command-line-usage`) and its `console.log` (lines 52-64) are foreign formatting and output. The `Help` outcome carries the registry the usage text is rendered from; the fixed header texts are not modelled.
- `process.exit()` (line 65) is a process-level side effect. The `Help` outcome replaces it.
- The default `argv = process.argv` (line 41) is ambient process state, and it only reaches the tokenizer.
- CamelCase.Camel: models only kebab-case to camel-case on lower-case letters and hyphens. The full `camelcase` package (underscores, dots, Unicode, case folding of upper-case input, leading and trailing separators) is not part of this model. Outside kebab-case names, the model's transform need not agree with the package.
- ConfigNormalizer.Normalize: when two parsed keys rename to the same name, the source keeps the value of the key the tokenizer inserted last. A map records no insertion order, so the contract only says the value comes from one of those keys.
- ConfigNormalizer.ReadCliArgsConfig: has the same weakening for parsed keys that share a renamed name. It is exact whenever the parsed keys are kebab-case names, which includes all built-in ones.
- Name and alias collisions between extras and built-ins are not checked at line 43. What the tokenizer does with duplicate definitions is not modelled.
- The JavaScript value `undefined` is not a `Value`. The tokenizer produces strings, booleans and `null` for these options.
- `Partial<T>` (lines 42 and 68) is compile-time typing only and has no runtime behaviour.
