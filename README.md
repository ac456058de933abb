# Karin core: config, paths, config-save endpoint and switch builder

A Dafny model of four parts of the `@karinjs` core package (Karin, a bot framework written in TypeScript):

- **Config accessors and write-back** (`utils/config/config.ts`), in module `Config`. The environment is a
  `map<string, string>` and the config directories are a map from file path to JSON value. A class `Process`
  holds `env`, `files`, the cached `config()` value and the logger level. Its methods `AuthKey`, `SetYaml`,
  `SetConfig`, `UpdateLevel` and `Revalidate` change those fields in place. Pure functions (`Port`, `Host`,
  `AuthKeyStep`, `GetYaml`, `SetYamlOutcome`, `FilesAfterSet`, `ChosenLevel`) specify them.
- **Path helpers** (`utils/fs/path.ts`), in module `Paths`.
  - `getRelPath` is modelled as its two regular-expression passes, written as recursive functions over
    characters.
  - `filesByExt` is a method with the source's loop over a directory listing. It is proved equal to a
    specification function.
  - `isSubPath` and `urlToPath` work on normalised absolute paths, given as lists of segments. `Resolve`,
    `Relative`, `Dirname`, `Split` and `Join` are the segment-list counterparts of Node's path functions.
- **The config-save endpoint** (`server/api/file/set.ts`), in module `SetHandler`.
  - `Decide` is the decision table over `{ type, data }`: reply at once, or save a document under a config
    name.
  - `SetFileRouter` carries the decision out through `Config.Process.SetConfig` and builds the response.
- **The switch builder** (`components/switch.ts`), in module `SwitchBuilder`.
  - A `Switch` holds a reference to a `PropsObject`. Each setter writes one property of it and returns the
    builder itself.
  - `Options` replaces the reference, so the caller's object is shared.
  - The setters are specified by `Apply` over a `Setting` datatype. Lemmas cover "last write wins" and
    "distinct setters commute".

Module `Json` holds the JavaScript values a JSON request body can carry. It also holds the parts of the
language the handler relies on:
- object spread (`Spread`), which copies an object's fields, the indices of an array or the characters of a
  string;
- property reads (`Get`);
- `Number()` coercion (`ToNumber`), restricted to integers.

## Model

| member | source | states |
|---|---|---|
| Config.Port | packages/core/src/utils/config/config.ts:19 | the port is never 0; it is the integer `HTTP_PORT` parses to when that is non-zero, and 7777 when the variable is unset, not a number, or zero |
| Config.Host | packages/core/src/utils/config/config.ts:21 | `HTTP_HOST` when set and non-empty, otherwise `127.0.0.1`; never empty |
| Config.AuthKeyStep | packages/core/src/utils/config/config.ts:40-51 | an unset, empty or `default` key is replaced by the generated value, which is returned and stored; any other key is returned and the environment is unchanged; no other variable changes |
| Config.AuthKeyStable | packages/core/src/utils/config/config.ts:43-48 | once a usable key has been generated and stored, a second call returns that key and changes nothing |
| Config.Process.AuthKey | packages/core/src/utils/config/config.ts:40-51 | the returned key and the new environment are those of `AuthKeyStep` on the old environment |
| Config.ConfigFile | packages/core/src/utils/config/config.ts:67 | the file is `<dir>/<name>.json`, where dir is the user or the default config directory |
| Config.ConfigFileInjective | packages/core/src/utils/config/config.ts:82 | two config names map to the same user file only when they are the same name |
| Config.GetYaml | packages/core/src/utils/config/config.ts:62-73 | succeeds exactly when the chosen file exists, with that file's content; otherwise it fails with the TypeError `<file> 文件不存在` |
| Config.SetYamlOutcome | packages/core/src/utils/config/config.ts:80-87 | `env` is delegated to `setEnv`; for any other name, a missing file returns false, an existing file returns true after the write, and a failing write throws; each outcome is stated as an if-and-only-if |
| Config.FilesAfterSet | packages/core/src/utils/config/config.ts:82-86 | only a successful write changes the files (a failed write is taken to leave its file intact), and it replaces the whole content of that one file with `data`; every other file keeps its content |
| Config.SetThenGet | packages/core/src/utils/config/config.ts:62-87 | after a successful `setYaml`, `getYaml(name, 'user')` reads back exactly `data`, and a read of any other file is unchanged |
| Config.SetNeverCreates | packages/core/src/utils/config/config.ts:83 | `setYaml` never creates a file: the set of existing files is the same afterwards, whatever the outcome |
| Config.Process.SetYaml | packages/core/src/utils/config/config.ts:80-87 | the outcome is `SetYamlOutcome`, the new files are `FilesAfterSet`, and `data` reaches `setEnv` exactly when the name is `env` |
| Config.Process.SetConfig | packages/core/src/utils/config/config.ts:94-96 | same outcome and new state as `setYaml` |
| Config.ChosenLevel | packages/core/src/utils/config/config.ts:119-128 | a non-empty argument wins; otherwise `LOG_LEVEL` when non-empty; otherwise `info`; never empty |
| Config.Process.UpdateLevel | packages/core/src/utils/config/config.ts:119-128 | the logger level becomes `ChosenLevel`, and that same value is returned |
| Config.Process.Config | packages/core/src/utils/config/config.ts:13-16 | under the class invariant, `config()` is `lint(defaults, …)` of the last `config.json` read, never a raw document |
| Config.Process.constructor | packages/core/src/utils/config/config.ts:13-14 | module load reads `config.json` once and caches its linted form, so the invariant holds from the start |
| Config.Process.Revalidate | packages/core/src/utils/config/config.ts:130-132 | the watch callback records the newly read document and replaces the cache with `lint(defaults, data)`, keeping the invariant |
| Json.ToNumber | packages/core/src/server/api/file/set.ts:58-59 | `Number()` on integers: undefined and objects give NaN, null gives 0, booleans give 1 or 0, numbers are themselves, strings are parsed as by `ParseNumber`, and arrays of two or more items give NaN |
| Json.ParseNumber | packages/core/src/utils/config/config.ts:19 | `Number()` on a string: blank text gives 0, and the result is NaN exactly when the trimmed text is non-empty and not an optionally signed run of decimal digits |
| Json.Spread | packages/core/src/server/api/file/set.ts:23 | spreading an object copies its fields; an array copies exactly one property per index, key `i` holding item `i`; a string copies exactly one property per character; the other primitives copy nothing |
| Json.Get | packages/core/src/server/api/file/set.ts:51 | a property read returns an object's own field, or undefined when the key is absent |
| Paths.CollapseBackslashes | packages/core/src/utils/fs/path.ts:74 | the first pass leaves no backslash, is never longer than its input, and is the identity on text without backslashes |
| Paths.StripDotsAndTrailing | packages/core/src/utils/fs/path.ts:74 | the second pass is never longer than its input, and every character of its result occurs in the input |
| Paths.GetRelPath | packages/core/src/utils/fs/path.ts:74 | the result is never longer than the input and contains no backslash |
| Paths.GetRelPathExample | packages/core/src/utils/fs/path.ts:67-74 | `./plugins/karin-plugin-example/index.ts` becomes `plugins/karin-plugin-example/index.ts` |
| Paths.GetRelPathDotSlashPrefix | packages/core/src/utils/fs/path.ts:74 | a leading `./` is removed from any relative path with no `./` inside and no leading or trailing slash |
| Paths.GetRelPathPlain | packages/core/src/utils/fs/path.ts:74 | on text with no `.` and no backslash, only trailing slashes are removed, so the result does not end in `/` and is a prefix of the input |
| Paths.GetRelPathKeepsSlashBeforeDotSegment | packages/core/src/utils/fs/path.ts:74 | `a/./` becomes `a/`, which a second call turns into `a`, so the function is not idempotent |
| Paths.SplitCount | packages/core/src/utils/fs/path.ts:92 | `split(sep)` gives one more piece than there are separators, so even the empty string gives one piece |
| Paths.SplitJoin | packages/core/src/utils/fs/path.ts:92 | splitting a joined list of segments on the separator gives the segments back |
| Paths.ResolveRender | packages/core/src/utils/fs/path.ts:105-106 | resolving the rendering of an absolute normalised path gives the same path |
| Paths.Relative | packages/core/src/utils/fs/path.ts:110 | the relative path is empty exactly when both paths are the same |
| Paths.IsSubPath | packages/core/src/utils/fs/path.ts:103-113 | the result is the check on the text of the relative path: non-empty, does not start with `..`, and is not absolute |
| Paths.IsSubPathMeaning | packages/core/src/utils/fs/path.ts:103-113 | the target is inside the root exactly when the root's segments are a proper prefix of the target's and the first extra segment does not start with `..`; so it is false when the target equals the root and false when the target is outside it |
| Paths.IsSubPathIgnoresIsAbs | packages/core/src/utils/fs/path.ts:103-107 | the `isAbs` flag does not change the result, because the relative-path step resolves both paths anyway |
| Paths.UrlToPath | packages/core/src/utils/fs/path.ts:87-94 | the result is `'../'` repeated once per piece of the relative path split on the separator: once per segment, and once for an empty relative path |
| Paths.UpLevels | packages/core/src/utils/fs/path.ts:93 | `repeat('../', n)` has length `3n` and position `i` holds the character of `'../'` at `i mod 3` |
| Paths.UrlToPathInRoot | packages/core/src/utils/fs/path.ts:90-93 | for a file directly in the project root the result is `../` where no level is needed; deeper files agree with the corrected function |
| Paths.UrlToPathCorrected | packages/core/src/utils/fs/path.ts:87-94 | three characters per segment of the relative path |
| Paths.UrlToPathCorrectedLevels | packages/core/src/utils/fs/path.ts:77-94 | a file `k` directories below the root gets `'../'` exactly `k` times |
| Paths.ExtName | packages/core/src/utils/fs/path.ts:35 | the extension is empty, or a dot followed by no other dot that is a suffix of the name; it is non-empty exactly when the name has a last dot that is not its first character and the name is not `..` |
| Paths.SelectedMembers | packages/core/src/utils/fs/path.ts:33-35 | an entry is kept exactly when it is in the listing, is not a directory and its extension is in the list |
| Paths.ReportAll | packages/core/src/utils/fs/path.ts:36-43 | one report per kept entry, in order: the name, the path relative to the working directory, or the absolute path |
| Paths.FilesByExtSpec | packages/core/src/utils/fs/path.ts:24-47 | the empty path, a missing path or a file gives the empty list; a directory gives one report per kept entry |
| Paths.FilesByExtNames | packages/core/src/utils/fs/path.ts:27-38 | a single suffix behaves as a one-element list, and in `'name'` mode, for a non-empty path to a directory, a name is listed exactly when some non-directory entry with that name has that extension |
| Paths.FilesByExt | packages/core/src/utils/fs/path.ts:24-47 | the loop with `push` returns exactly `FilesByExtSpec` |
| SetHandler.Overlay | packages/core/src/server/api/file/set.ts:21-45 | `{ ...cfg, ...data }` has the keys of both; `data`'s value wins and every other key keeps its current value |
| SetHandler.NumberOrZero | packages/core/src/server/api/file/set.ts:58-63 | NaN becomes 0, and any other number is kept |
| SetHandler.CdTextBecomesNumber | packages/core/src/server/api/file/set.ts:58-62 | a `cd` sent as the decimal text of an integer is saved as that integer |
| SetHandler.CoerceGroup | packages/core/src/server/api/file/set.ts:57-65 | a group entry keeps every other field, and `cd` and `userCD` become their numeric values (0 for NaN) |
| SetHandler.CoercePrivate | packages/core/src/server/api/file/set.ts:77-83 | a private entry gets a numeric `cd` (0 for NaN), and every other field, `userCD` included, is untouched |
| SetHandler.CoerceList | packages/core/src/server/api/file/set.ts:51-85 | a list that is not an array, or has an item that is not an object, gives the format error; a `null` item gives the error reading `cd` throws; a list of non-null objects is always saved, with the same length and order and each item coerced |
| SetHandler.Decide | packages/core/src/server/api/file/set.ts:11-92 | missing or non-object `data` gives 400 `无效的配置数据`; an unknown `type` gives 400 `不支持的配置类型`, and only then; with valid `data`, an overlay section is always saved as the overlay of its current document (`config()` for `config`), `env` saves `data` unchanged, and `groups`/`privates` go through the list coercion |
| SetHandler.GroupsCoerced | packages/core/src/server/api/file/set.ts:57-67 | a `groups` list of non-null objects is always saved, with the same length and order, and entry `i` is entry `i` with `cd` and `userCD` coerced |
| SetHandler.PrivatesCoerced | packages/core/src/server/api/file/set.ts:77-85 | a `privates` list of non-null objects is always saved, with the same length and order, and entry `i` is entry `i` with only `cd` coerced |
| SetHandler.NullEntryIsServerError | packages/core/src/server/api/file/set.ts:51-96 | a `null` entry passes the `typeof` check, but reading `cd` from it throws, so the reply is a server error with that message and nothing is saved |
| SetHandler.GroupsScenario | packages/core/src/server/api/file/set.ts:57-67 | `groups: [{ cd: '5', userCD: 'abc' }]` is saved as `[{ cd: 5, userCD: 0 }]` |
| SetHandler.Finish | packages/core/src/server/api/file/set.ts:94-97 | any outcome of `setConfig` other than a throw, `false` included, gives `配置保存成功`; a throw gives a server error with its message |
| SetHandler.SetFileRouter | packages/core/src/server/api/file/set.ts:11-98 | an immediate reply writes nothing; a save is written through `setConfig`, with the new files and `setEnv` calls `SetConfig` promises, and the response is `Finish` of its outcome |
| SwitchBuilder.Initial | packages/core/src/components/switch.ts:6-11 | the initial props have the key, the switch type and no property set |
| SwitchBuilder.Apply | packages/core/src/components/switch.ts:17-119 | a setter call stores its argument in its own property (`selected` → `isSelected`, `readonly` → `isReadOnly`, `disabled` → `isDisabled`); no other property, and neither key nor type, changes |
| SwitchBuilder.LastWriteWins | packages/core/src/components/switch.ts:35-47 | calling the same setter twice leaves the second value |
| SwitchBuilder.DistinctSettersCommute | packages/core/src/components/switch.ts:17-119 | setters of different properties give the same record in either order |
| SwitchBuilder.LastWrite | packages/core/src/components/switch.ts:17-119 | in a chain of calls, nothing is found for a property exactly when no call writes it; a found call writes that property and no later call in the chain does |
| SwitchBuilder.ApplyAllRead | packages/core/src/components/switch.ts:17-128 | after a chain of calls, each property holds the last value written to it, or its old value if no call wrote it |
| SwitchBuilder.Switch.constructor | packages/core/src/components/switch.ts:6-11 | a new builder owns a fresh props object holding the initial props for the key |
| SwitchBuilder.Switch.Set | packages/core/src/components/switch.ts:17-119 | a setter writes `Apply` of the call into the shared props object and returns the builder itself |
| SwitchBuilder.Switch.SetStartText | packages/core/src/components/switch.ts:17-20 | sets `startText`, changes nothing else, returns the builder |
| SwitchBuilder.Switch.SetEndText | packages/core/src/components/switch.ts:26-29 | sets `endText`, changes nothing else, returns the builder |
| SwitchBuilder.Switch.SetSize | packages/core/src/components/switch.ts:35-38 | sets `size`, changes nothing else, returns the builder |
| SwitchBuilder.Switch.SetColor | packages/core/src/components/switch.ts:44-47 | sets `color`, changes nothing else, returns the builder |
| SwitchBuilder.Switch.SetThumbIcon | packages/core/src/components/switch.ts:53-56 | sets `thumbIcon`, changes nothing else, returns the builder |
| SwitchBuilder.Switch.SetStartContent | packages/core/src/components/switch.ts:62-65 | sets `startContent`, changes nothing else, returns the builder |
| SwitchBuilder.Switch.SetEndContent | packages/core/src/components/switch.ts:71-74 | sets `endContent`, changes nothing else, returns the builder |
| SwitchBuilder.Switch.SetSelected | packages/core/src/components/switch.ts:80-83 | sets `isSelected`, to true when called without an argument; changes nothing else |
| SwitchBuilder.Switch.SetDefaultSelected | packages/core/src/components/switch.ts:89-92 | sets `defaultSelected`, to true when called without an argument; changes nothing else |
| SwitchBuilder.Switch.SetReadonly | packages/core/src/components/switch.ts:98-101 | sets `isReadOnly`, to true when called without an argument; changes nothing else |
| SwitchBuilder.Switch.SetDisabled | packages/core/src/components/switch.ts:107-110 | sets `isDisabled`, to true when called without an argument; changes nothing else |
| SwitchBuilder.Switch.SetDisableAnimation | packages/core/src/components/switch.ts:116-119 | sets `disableAnimation`, to true when called without an argument; changes nothing else |
| SwitchBuilder.Switch.Options | packages/core/src/components/switch.ts:125-128 | the builder's props object becomes the argument itself, not a copy, and the builder is returned |
| SwitchBuilder.Create | packages/core/src/components/switch.ts:139 | `create(key)` gives a fresh builder whose props are the initial props for `key` |
| SwitchBuilder.CreateWithOptions | packages/core/src/components/switch.ts:145 | `options(key, o)` gives a builder whose props object is `o`, with `o` unchanged; `key` is discarded |
| SwitchBuilder.OptionsAliasing | packages/core/src/components/switch.ts:125-145 | a setter called after `options(o)` writes into the caller's `o` |

## Left out

- Node's `path` module is modelled only for POSIX paths that are already absolute and normalised, as segment lists. Windows drive letters, the `sep` constant (always `/` here) and `fileURLToPath` are not modelled. `UrlToPath` takes the file's path rather than a URL.
- `splitPath` is left out: it rests on `path.dirname` plus a one-time separator replace.
- `isSubPath` returns `''` rather than `false` when the relative path is empty. `Paths.IsSubPath` returns a `bool`, so it does not distinguish the two falsy values.
- Paths.FilesByExtSpec: existence is decided on the lexically resolved path. A path such as `missing/..` counts as its parent here, while `fs.existsSync` fails on it, and a symbolic link followed by `..` resolves to the link's parent rather than the target's.
- `filesByExt`: `fs.existsSync`, `statSync` and `readdirSync` are replaced by a map from directory paths to nodes. Only the listing order is kept.
- Json.ToNumber: models `Number()` on integers only, with exact values. JavaScript numbers are doubles, so text beyond 2^53 rounds (`Number('9007199254740993')` is `9007199254740992`), while the model and `Config.Port` return the exact integer. Fractions, exponents, hexadecimal, `Infinity` and Unicode whitespace are not modelled. A string is a number only as an optional sign followed by decimal digits, trimmed of space, tab, CR and LF, and the empty string is 0.
- Json.Get: `Json.Get(Arr(items), "length")` is `Undefined`, while JavaScript returns the array's length; prototype properties are not modelled either. The handler only reads `groups`, `privates`, `cd` and `userCD`, so it never looks these up.
- `Json.Spread` does not model key order.
- Config files hold the parsed JSON value. `JSON.stringify`'s formatting and key order are not modelled.
- `requireFileSync` and its time-to-live cache (behind `redis()`, `pm2()` and `getYaml`'s `isRefresh`) are not modelled.
  - `GetYaml` reads the file directly.
  - The handler takes `adapter()`, `render()`, `pm2()` and `redis()` as an opaque `read` function.
- `setEnv` is not part of this model: `Config.Process.SetYaml` records the data passed to it in `envUpdates`, and its return value is not modelled.
- `fs.writeFileSync` failures are an `ioError` parameter. `lint` and the default config are constants of `Config.Process`; their implementations are not part of this model. The file-watch callback is `Config.Process.Revalidate`, and the asynchrony of the initial load and of the callback is not modelled.
- Config.FilesAfterSet: a write that throws is assumed to leave the file as it was. `fs.writeFileSync` truncates the file before writing, so after a failed write the real file may be empty or hold part of the new text, which the model does not promise.
- `randomStr()` is the `random` parameter of `AuthKey`. `Config.AuthKeyStable` assumes the value is neither empty nor `default`.
- The `logger.warn` message and the logger itself are left out. Only the level assignment is modelled.
- `master`, `admin`, `env`, `pkg` and the `FFMPEG`/`FFPROBE`/`FFPLAY` accessors are one-line reads with no logic. They are not modelled.
- Express routing, status codes other than the response kind, and the response helpers are abstracted to `SetHandler.Response`.
- Exceptions thrown by `config()` or the other section accessors are not modelled. Only the throw from a `null` entry and from the file write are modelled.
- `SwitchBuilder.SwitchProps` holds only the properties the builder sets. Other `SwitchProps` fields and the `Component` base class are not part of this model.

## Findings

| source | as written | input that shows it | evidently intended | confidence | as-written member | corrected member |
|---|---|---|---|---|---|---|
| packages/core/src/utils/fs/path.ts:90-93 | the level count is `rel.split(sep).length`, and splitting the empty string gives one piece | a module directly in the project root: `rel` is `''`, so the result is `'../'` | no `'../'` for a file in the root, and one per directory level below it | not executed; medium | Paths.UrlToPathInRoot | Paths.UrlToPathCorrectedLevels |
