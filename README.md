# PsrEasy FileLogger in Dafny

This project models `PsrEasy\Log\FileLogger`, a PSR-3 logger. PSR-3 is the PHP-FIG logger interface. Its placeholder rules come from section 1.2 ("Message") of PSR-3, and the `exception` context key from section 1.3 ("Context"). One call `log(level, message, context)` does the following:

- it does nothing when a non-empty list of allowed levels leaves the level out;
- otherwise it splits the context in one pass into three parts:
  - `{key}` substitutions;
  - nested arrays;
  - the stack traces of the cause chain of an exception stored under `exception`;
- it substitutes the placeholders in one `strtr` pass, trying the longest key first and never rescanning inserted text;
- it removes every newline from the message;
- it trims the caller's path down to what follows the source root;
- it appends one line to `{logDir}/{level}.log.{Ymd}`.

The configuration has six fields: log directory, process tag, line format, backtrace limit, source root and allowed levels. The constructor sets the log directory. Five fluent `with*` methods set the other five fields and return the same object.

Modules:

- `Wrappers`: `Option`.
- `Text`: these PHP string built-ins, as pure functions:
  - `strpos` (`FindFirst`);
  - `strtr` with an array of pairs (`Translate`, using `LongestKey`);
  - `str_replace("\n", '', …)` (`StripNewlines`).
- `Context`: the following:
  - context values (`Scalar | Collection | Error`);
  - exceptions as a finite chain through `previous`;
  - the single-pass partition, given as a fold (`Split`) and as the loop of `interpolate` (`SplitContext`, with the do-while walk `CollectTraces`).
- `Interpolation`: the message field, and what substitution does to `{key}` markers.
- `Logger`: the following:
  - the `FileLogger` class with its fields and setters;
  - caller location, client address, process tag, payload and log file name;
  - `Interpolate` and `Log`.

Three details of the code are easy to misread; the model follows the code as written:

- The client address is the first of `X-Forwarded-For`, `Client-IP` and the remote address that is *set*. A header set to `""` still wins. It is not the first non-empty one (`isset`, FileLogger.php:215-221).
- The configured process tag is dropped when PHP's `empty()` holds for it. That is the case for `""` and also for `"0"` (FileLogger.php:183).
- The exception traces are appended to `$exception`, never overwritten. They are stored under `exception` after all nested arrays, whatever the entry's position in the context (FileLogger.php:193, 200-202).

## Model

| member | source | states |
|---|---|---|
| Text.FindFrom | src/PsrEasy/Log/FileLogger.php:229 | The result is the first index at or after `i` where the needle occurs; nothing means no occurrence from `i` on. |
| Text.FindFirst | src/PsrEasy/Log/FileLogger.php:229 | `strpos` finds something exactly when the needle occurs. What it finds is an occurrence, and no earlier index is one. |
| Text.LongestKey | src/PsrEasy/Log/FileLogger.php:205 | Returns the length of the longest key that prefixes the text: that prefix is a key, and no longer prefix up to the bound is one. |
| Text.Translate | src/PsrEasy/Log/FileLogger.php:205 | `strtr` with no pairs returns the text unchanged. |
| Text.TranslateKey | src/PsrEasy/Log/FileLogger.php:205 | A key at the front, with no longer key also matching there, becomes its value. The value is not rescanned, and translation resumes after the key. |
| Text.TranslateNoKeyAt | src/PsrEasy/Log/FileLogger.php:205 | Where no key is a prefix, the character is kept and scanning advances by one. |
| Text.TranslateLiteralChar | src/PsrEasy/Log/FileLogger.php:205 | When every key opens with `c`, a first character other than `c` is kept and scanning advances by one. |
| Text.TranslateLiteral | src/PsrEasy/Log/FileLogger.php:205 | When every key opens with `c`, a stretch without `c` is copied unchanged in front of the translation of the rest. |
| Text.StripNewlines | src/PsrEasy/Log/FileLogger.php:206 | The result holds no newline. It holds every other character as often as the input does, and it is no longer than the input. |
| Text.StripNewlinesConcat | src/PsrEasy/Log/FileLogger.php:206 | Stripping distributes over concatenation, so the characters kept stay in their order. |
| Text.StripNewlinesKeeps | src/PsrEasy/Log/FileLogger.php:206 | Text without newlines is unchanged, so stripping is idempotent. |
| Context.LinkStep | src/PsrEasy/Log/FileLogger.php:194 | Each link of the chain is the `getPrevious()` of the link before it. |
| Context.CausesWalkChain | src/PsrEasy/Log/FileLogger.php:192-194 | The walk yields one trace per link in chain order, outermost first, and stops at the first exception with no previous one. |
| Context.Causes | src/PsrEasy/Log/FileLogger.php:192-194 | The do-while body runs at least once: the first trace gathered is the exception's own. |
| Context.CollectTraces | src/PsrEasy/Log/FileLogger.php:192-194 | The do-while loop appends exactly the chain's traces to those already gathered. |
| Context.Marker | src/PsrEasy/Log/FileLogger.php:196 | The marker is the key wrapped in `{` and `}`, two characters longer than the key. |
| Context.MarkerInjective | src/PsrEasy/Log/FileLogger.php:196 | Distinct keys give distinct markers. |
| Context.SplitContext | src/PsrEasy/Log/FileLogger.php:188-198 | The `foreach` over the context produces exactly the fold `Split` of the context. |
| Context.RouteOf | src/PsrEasy/Log/FileLogger.php:189-197 | An entry is structured exactly when its value is an array, and feeds the chain exactly when its key is `exception` and its value an exception. Every other entry is a substitution. |
| Context.Step | src/PsrEasy/Log/FileLogger.php:188-198 | One iteration only adds: it appends at most one structured member, appends to the traces and never drops a substitution key. |
| Context.StepJoin | src/PsrEasy/Log/FileLogger.php:188-198 | Routing an entry after two stretches of the context touches only what the second stretch gathered. |
| Context.Split | src/PsrEasy/Log/FileLogger.php:188-198 | The whole pass gives no more structured members than there are entries. |
| Context.SplitConcat | src/PsrEasy/Log/FileLogger.php:188-198 | The pass is a left-to-right fold: the parts of `a + b` are those of `a` followed by those of `b`, and later substitutions win. So every output keeps context order. |
| Context.StructuredMembers | src/PsrEasy/Log/FileLogger.php:189-190 | Every nested array is a structured member under its original key, and every structured member is such an array. |
| Context.PlaceholderTable | src/PsrEasy/Log/FileLogger.php:195-197 | Every scalar entry, and every exception under another key, gives `{key}` => its text. The table has no other keys. The text is `TextOf` of the value. |
| Context.ChainTraces | src/PsrEasy/Log/FileLogger.php:191-194 | The traces are the whole chain of the exception under `exception`, or empty when there is none. |
| Context.Structured | src/PsrEasy/Log/FileLogger.php:200-202 | The chain's traces go after every nested array, under `exception`, and only when there are any. |
| Context.StructuredEmpty | src/PsrEasy/Log/FileLogger.php:200-202 | The structured output, with `exception` added only when traces exist, is empty exactly when every entry became a substitution. |
| Context.TwoLinkChain | tests/PsrEasy/Tests/Log/FileLoggerTest.php:32-38 | For the critical test's context, `exception` holds the two traces, outer then inner, and `{variable}` is the only substitution. |
| Context.NestedArrayKept | tests/PsrEasy/Tests/Log/FileLoggerTest.php:44-45 | For the error test's context, the nested array is the only structured member, kept verbatim under `other`. |
| Interpolation.Message | src/PsrEasy/Log/FileLogger.php:205-206 | The message field never contains a newline. |
| Interpolation.MarkerKeys | src/PsrEasy/Log/FileLogger.php:196 | Every key of the substitution table opens with `{`. |
| Interpolation.NoPlaceholderUnchanged | src/PsrEasy/Log/FileLogger.php:205 | A template with no `{` is returned unchanged by the substitution. |
| Interpolation.PlaceholderReplaced | src/PsrEasy/Log/FileLogger.php:205 | A `{key}` naming a context scalar is replaced by its text. The inserted text is not rescanned. |
| Interpolation.MarkerNotPrefix | src/PsrEasy/Log/FileLogger.php:205 | No prefix of `{name}` followed by more text is the marker of a different brace-free key. |
| Interpolation.UnmatchedHasNoKey | src/PsrEasy/Log/FileLogger.php:205 | For a name without `}` and context keys without `}`, no key of the table is a prefix of a `{name}` that no scalar fills. |
| Interpolation.UnmatchedPlaceholderKept | src/PsrEasy/Log/FileLogger.php:205 | A `{name}` with no matching context scalar stays in the message as literal text. |
| Interpolation.VariableFilled | tests/PsrEasy/Tests/Log/FileLoggerTest.php:19-20 | The tests' `... Var is {variable}` with `variable` in the context gives the text followed by the value, with no `{variable}` left. |
| Logger.TrimSourcePath | src/PsrEasy/Log/FileLogger.php:229-235 | Gives the suffix after the first occurrence of the source root, or the path unchanged when the root does not occur. |
| Logger.CallerLocation | src/PsrEasy/Log/FileLogger.php:226-236 | Frame number `limit` is used: its path trimmed, its line passed through untouched. A shorter stack gives no file and no line. |
| Logger.FirstSet | src/PsrEasy/Log/FileLogger.php:211-224 | The address is the value of the first header that is set, or `""` when none is. |
| Logger.ProcessTag | src/PsrEasy/Log/FileLogger.php:183 | Uses the configured tag unless PHP's `empty()` holds for it, else the generated one. `EmptyString` is PHP's `empty()` on a string. |
| Logger.ArrayString | src/PsrEasy/Log/FileLogger.php:238-247 | The structured text is blank exactly when there are no members, else it encodes exactly those members. |
| Logger.LogFile | src/PsrEasy/Log/FileLogger.php:164 | The file lies in the log directory and its name ends with the date. |
| Logger.LogFileInjective | src/PsrEasy/Log/FileLogger.php:164 | In one directory, and with dates of one length, the file name determines the level and the date. |
| Logger.FileLogger.constructor | src/PsrEasy/Log/FileLogger.php:21-76 | Sets the given directory and the defaults: no tag, the tab-separated format, limit 1, root `/src/`, every level allowed. |
| Logger.FileLogger.WithUniqid | src/PsrEasy/Log/FileLogger.php:85-89 | Sets only the process tag and returns the same logger. |
| Logger.FileLogger.WithFormat | src/PsrEasy/Log/FileLogger.php:98-102 | Sets only the format and returns the same logger. |
| Logger.FileLogger.WithBacktraceLimit | src/PsrEasy/Log/FileLogger.php:111-118 | Takes a positive limit and ignores anything else. It changes no other field, returns the same logger and keeps `limit >= 1`. |
| Logger.FileLogger.WithSrcDir | src/PsrEasy/Log/FileLogger.php:127-131 | Sets only the source root and returns the same logger. |
| Logger.FileLogger.WithLevels | src/PsrEasy/Log/FileLogger.php:140-144 | Sets only the allowed levels and returns the same logger. |
| Logger.FileLogger.RecordFor | src/PsrEasy/Log/FileLogger.php:179-209 | The record's message has no newline. Its payload is blank exactly when every context entry is a substitution. A non-empty configured tag is used, and the selected frame's line is kept. |
| Logger.FileLogger.Interpolate | src/PsrEasy/Log/FileLogger.php:179-209 | The partition loop, the `exception` member added after it, substitution, stripping, location and payload give exactly `RecordFor`. |
| Logger.FileLogger.Log | src/PsrEasy/Log/FileLogger.php:155-177 | Nothing is written exactly when the allowed list is non-empty and lacks the level. Otherwise the record is appended to `logDir/level.log.day` with the configured format. |
| Logger.Scenario | tests/PsrEasy/Tests/Log/FileLoggerTest.php:83-89 | With only `error` allowed, a `debug` call writes nothing and an `error` call writes to `logs/error.log.day` in the default format. A limit of 0 is ignored, so frame 1 supplies the line. |

## Left out

- Filesystem effects: `is_dir`, `mkdir`, `chmod`, `file_exists` and `error_log` are I/O. `Log` returns the `Write` (path, format, record) it would append instead of performing it.
- The clock: `time()` and `date()` are taken as the two formatted strings `time` and `day` of `Environment`. The time zone is whatever PHP's `date` uses.
- `uniqid(getmypid())` is process and random state. It is taken as `Environment.generatedId`.
- `$_SERVER` lookups are taken as three optional header values.
- `debug_backtrace` is taken as the list of frames `Environment.backtrace`. Frames without a `file` or `line` entry are not modelled.
- Trace frames are reduced to file and line. The `function`, `class`, `type` and `args` entries of `getTrace()`, which go into the JSON payload, are not modelled.
- `sprintf` and `json_encode` are foreign encoders:
  - The record keeps the seven values, and `Payload.Json` stands for the encoded members.
  - A `json_encode` failure (PHP's `false`, printed as nothing) is not modelled.
- PHP loose comparison is not modelled:
  - Levels and keys are strings compared exactly, so non-strict `in_array` and `'exception' == 0` for an integer key do not arise.
- Context values are scalars given in their string form, nested arrays, or exceptions. Objects of other classes are not modelled.
- Logger.FileLogger.WithBacktraceLimit: takes an `int` only. Numeric strings, fractions truncated by `intval` (`"0.5"` gives 0) and non-numeric arguments are not modelled.
- Interpolation.PlaceholderReplaced: stated only for contexts whose keys contain no `}`. With such keys a longer marker could start at the same place, and `strtr`'s longest-first rule would pick it.
- Interpolation.UnmatchedHasNoKey: stated only for names without `}` and contexts whose keys contain no `}`. Otherwise a key such as `{a}b}` can prefix `{a}b}…` although no scalar is named `a`.
- Interpolation.UnmatchedPlaceholderKept: stated only for names without `{` or `}` and contexts whose keys contain no `}`. The `}` restriction has the same cause as for `UnmatchedHasNoKey`. The `{` restriction has a different one: a different marker can start inside the name, as `{y}` does inside `{x{y}`, and `strtr` would replace it there.
- Logger.LogFileInjective: stated for dates of equal length, which `Ymd` always gives.
- The per-level convenience methods (`emergency` … `debug`) come from `Psr\Log\AbstractLogger`, which is not part of this model. They forward to `log` with a fixed level.
- Concurrency and atomic append are out of scope.
