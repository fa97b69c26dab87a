# Dashboard and editor decision rules of the game-server panel

This project models two pieces of pure decision logic from the panel's
React front end and proves what they promise.

- **Editor language-mode resolution** (`codemirror_editor.dfy`, module
  `CodemirrorEditor`). The file editor picks a syntax mode for a filename
  from an ordered mode table. A mode has an optional filename pattern, an
  optional list of extensions and a mime type. `FindModeByFilename` is the
  component's two-pass search with early returns, written as a method with
  loops. It is proved equal to the index-valued specification
  `FindModeIndex`. `ResolveMime` is the mime the editor switches to, with
  `text/plain` as the fallback. The mode table is a parameter. The
  pattern is an abstract test `string -> bool`, standing for the regular
  expression's `test`.
- **Server row display rules** (`server_row.dfy`, module `ServerRow`). These
  turn a server record and an optional usage snapshot into display
  decisions: the memory/disk alarm threshold, the per-resource alarm flags,
  the `Unlimited` limit labels, the image name taken from the docker image
  string, the status colour, the suspended flag and the badge shown instead
  of the gauges. JavaScript numbers are exact `real`s.

`wrappers.dfy` holds the `Option` type that stands for `undefined`/`null`.

Modelling choices:

- `dot > -1 && filename.substring(dot + 1)` evaluates to `false` or a
  string, and only a non-empty string is truthy. `ExtensionOf` therefore
  yields `None` when there is no `.` or when the name ends in `.`.
- `findModeByFilename(filename)?.mime || 'text/plain'` also falls back when
  the found mode's mime is the empty string. `ResolveMime` keeps that case.
- A regular expression's `.` does not match the line terminators `\n`, `\r`,
  U+2028 and U+2029. `MatchFrom` models `/:(.*?)_/` with that rule, so a
  `:` whose `_` lies beyond a line break does not start a match. The
  "first `:` to the next `_`" reading is proved for single-line strings.
- An empty group (`"x:_y"`) gives the image `""`, not `discord`. The match
  array is truthy even when its group is empty.
- `status` values are strings, and truthiness is modelled exactly, so
  `null` and `""` are both falsy.
- The row's `isSuspended` is React state. `BadgeFor` takes it as a
  parameter. `RowBadge` and the lemmas about it use its settled value
  `IsSuspended(stats, server)`.
- A negative CPU limit is not `0`, so the CPU alarm is then
  `usage >= 0.9 * limit`, as written in the source.

## Model

| member | source | states |
|---|---|---|
| `CodemirrorEditor.PatternMatches` | resources/scripts/components/elements/CodemirrorEditor.tsx:20 | a mode without a filename pattern never matches by pattern |
| `CodemirrorEditor.ListsExtension` | resources/scripts/components/elements/CodemirrorEditor.tsx:31-33 | a mode without an extension list never matches; otherwise it matches exactly when some index of its list holds a string equal to the extension |
| `CodemirrorEditor.ExtensionOf` | resources/scripts/components/elements/CodemirrorEditor.tsx:25-28 | an extension that is searched for is non-empty, contains no `.` and is shorter than the filename |
| `CodemirrorEditor.FindModeIndex` | resources/scripts/components/elements/CodemirrorEditor.tsx:16-41 | the selected entry is in the table and either matches by pattern or lists the extension; an entry selected by extension means no entry matches by pattern |
| `CodemirrorEditor.LastIndexOf` | resources/scripts/components/elements/CodemirrorEditor.tsx:25 | the result is -1 or a position holding the character, and no later position holds it |
| `CodemirrorEditor.FirstPatternMatch` | resources/scripts/components/elements/CodemirrorEditor.tsx:17-23 | the first pass returns the lowest-index mode whose pattern matches, and returns nothing only when no pattern matches |
| `CodemirrorEditor.FirstExtensionMatch` | resources/scripts/components/elements/CodemirrorEditor.tsx:29-38 | the second pass returns the lowest-index mode whose extension list contains the extension, and returns nothing only when none does |
| `CodemirrorEditor.FindModeByFilename` | resources/scripts/components/elements/CodemirrorEditor.tsx:16-42 | the loops return exactly the table entry the specification selects, and any returned mode is an element of the table |
| `CodemirrorEditor.ResolveMime` | resources/scripts/components/elements/CodemirrorEditor.tsx:68 | the mime is never empty: it is the found mode's mime, or `text/plain` when nothing is found or the mime is empty |
| `CodemirrorEditor.ExtensionIsSuffixAfterLastDot` | resources/scripts/components/elements/CodemirrorEditor.tsx:25-28 | the extension is `e` exactly when `e` is non-empty, dot-free and the filename ends with `.` followed by `e` (both directions) |
| `CodemirrorEditor.NoExtensionIff` | resources/scripts/components/elements/CodemirrorEditor.tsx:25-28 | the extension search is skipped exactly when the filename has no `.` or ends in `.` |
| `CodemirrorEditor.PatternMatchWins` | resources/scripts/components/elements/CodemirrorEditor.tsx:17-23 | when any pattern matches, the result is the first pattern-matching mode, even if an earlier mode lists the extension |
| `CodemirrorEditor.ExtensionMatchLowestIndex` | resources/scripts/components/elements/CodemirrorEditor.tsx:28-39 | with no pattern match, the result is the lowest-index mode whose extension list contains the extension |
| `CodemirrorEditor.NotFoundIff` | resources/scripts/components/elements/CodemirrorEditor.tsx:16-41 | the result is undefined exactly when no pattern matches and there is no extension or no list contains it |
| `CodemirrorEditor.ExtensionComparisonIsCaseSensitive` | resources/scripts/components/elements/CodemirrorEditor.tsx:33 | a worked example of the exact comparison: `app.js` finds the `js` mode and `APP.JS` does not |
| `ServerRow.IsAlarmState` | resources/scripts/components/dashboard/ServerRow.tsx:16 | never an alarm for a limit `<= 0`; for a positive limit, an alarm exactly when usage reaches 90% of the limit in MiB expressed in bytes |
| `ServerRow.AlarmIsMonotone` | resources/scripts/components/dashboard/ServerRow.tsx:16 | raising the usage never clears an alarm |
| `ServerRow.ByteLimitLabel` | resources/scripts/components/dashboard/ServerRow.tsx:96-97 | the memory/disk label is `Unlimited` exactly when the limit is 0, and otherwise the limit's size |
| `ServerRow.CpuLimitLabel` | resources/scripts/components/dashboard/ServerRow.tsx:98 | the CPU label is `Unlimited` exactly when the limit is 0, and otherwise the limit in percent |
| `ServerRow.ComputeAlarms` | resources/scripts/components/dashboard/ServerRow.tsx:89-98 | no alarm without stats; with stats, CPU alarms iff the limit is non-zero and usage reaches 90% of it, and memory and disk alarm iff the limit is positive and usage reaches 90% of it in bytes; a limit labelled `Unlimited` never alarms |
| `ServerRow.GroupEnd` | resources/scripts/components/dashboard/ServerRow.tsx:99 | the lazy `(.*?)_` ends at the first `_` when no line terminator comes before it, and fails otherwise |
| `ServerRow.MatchFrom` | resources/scripts/components/dashboard/ServerRow.tsx:99 | the result is a match of `/:(.*?)_/` and no match starts further left; without a result no match exists |
| `ServerRow.ServerImage` | resources/scripts/components/dashboard/ServerRow.tsx:99-100 | the image name never contains `_` |
| `ServerRow.ServerImageBetweenColonAndUnderscore` | resources/scripts/components/dashboard/ServerRow.tsx:99-100 | on a single-line string, the image is the text from just after the first `:` up to the first `_` after it |
| `ServerRow.ServerImageDefault` | resources/scripts/components/dashboard/ServerRow.tsx:99-100 | with no `_` after any `:`, the image is `discord` |
| `ServerRow.StatusColour` | resources/scripts/components/dashboard/ServerRow.tsx:34-51 | red exactly for an absent, empty or `offline` status, green exactly for `running`, yellow for every other status; one rule serves both the text and the bar |
| `ServerRow.PowerState` | resources/scripts/components/dashboard/ServerRow.tsx:103 | the row has no power state while there are no stats |
| `ServerRow.RowWithoutStatsIsRed` | resources/scripts/components/dashboard/ServerRow.tsx:34-39 | a row without stats is coloured red |
| `ServerRow.IsSuspended` | resources/scripts/components/dashboard/ServerRow.tsx:72 | suspended when the stats report it or the server's status is `suspended`, and only then; without stats it is the server status alone |
| `ServerRow.BadgeFor` | resources/scripts/components/dashboard/ServerRow.tsx:149-170 | gauges exactly when stats are in and the row is not suspended; a suspended row shows `Suspended` or `Connection Error`; the spinner exactly when nothing is suspended, transferring or given as status |
| `ServerRow.RowBadge` | resources/scripts/components/dashboard/ServerRow.tsx:149-170 | with the settled suspended flag of line 72, every label is one of the six fixed texts; with stats there is never a spinner, and stats without gauges means `Suspended` or `Connection Error` |
| `ServerRow.SuspendedServerShowsSuspended` | resources/scripts/components/dashboard/ServerRow.tsx:149-153 | a server whose status is `suspended` shows `Suspended`, with or without stats |
| `ServerRow.ConnectionErrorIff` | resources/scripts/components/dashboard/ServerRow.tsx:149-153 | `Connection Error` appears exactly when the stats report a suspension that the server's status does not |
| `ServerRow.TransferringIff` | resources/scripts/components/dashboard/ServerRow.tsx:156-160 | `Transferring` appears exactly when there are no stats, the server is transferring and not suspended |
| `ServerRow.StatusLabels` | resources/scripts/components/dashboard/ServerRow.tsx:156-170 | without stats or transfer: `Installing`, `Restoring Backup`, else `Unavailable` for any other status except `suspended`, and the spinner exactly when there is no status |
| `ServerRow.GaugesIff` | resources/scripts/components/dashboard/ServerRow.tsx:149 | the gauges appear exactly when stats are in, they report no suspension and the server's status is not `suspended` |

## Left out

- The polling in `ServerRow.tsx` (lines 62-87): the 30-second timer, its cancellation, the promise chain and React state updates. This is asynchronous UI plumbing.
- The HTTP request for resource usage (`getServerResourceUsage`). This is network I/O, so a snapshot is a parameter.
- The formatters `bytesToString`, `mbToBytes` and `ip`, and `toFixed(2)`. They are not part of this model. `LimitLabel.Size` and `LimitLabel.Percent` stand for the formatted text.
- Styled components, Tailwind classes and JSX markup. These are presentation only.
- The editor widget's mount, the Ctrl+S binding, the `mode`/`initialContent` effects and the `fetchContent` callbacks (`CodemirrorEditor.tsx` lines 57-105). These are a third-party widget lifecycle.
- The `filename === undefined` guard of the mode effect (line 65). It only skips the update, and the update is React state.
- The contents of the `@/modes` table and the regular-expression semantics of a mode's filename pattern. Neither is part of this model, so the table is a parameter and the pattern an abstract predicate. A stateful (`/g`) pattern's `lastIndex` is not modelled.
- JavaScript strings are UTF-16 code units, while Dafny characters are Unicode scalar values. Filenames and image names outside the Basic Multilingual Plane are not modelled at code-unit level.
- Floating-point rounding in the threshold comparisons. The model uses exact reals.
- `BlueprintPlaceholderService.php`. It holds three getters returning constant strings and no behaviour.
