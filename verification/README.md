# stream-screen: startup decision layer

`stream-screen` captures an X display with ffmpeg and serves it as an
MPEG-TS stream on `http://<host>:5599/stream`. Almost all of `index.js` is
process and HTTP plumbing. This project models the decisions taken on top
of that plumbing, with every subprocess outcome passed in as a value:

- **Encoder-path resolution** (`getFFMPEGPath`): the `--ffmpeg-path` and
  `--use-local-ffmpeg` options, plus the outcome of `which ffmpeg` (or
  `where ffmpeg` on Windows), decide which ffmpeg binary is used
  (module `Resolver`).
- **Format probe** (`checkInputFormat`): an `ffmpeg -formats` run that exits
  with code 0 resolves with whether the format name occurs in its output.
  Any other close code rejects (module `Prober`).
- **Format selection** (`getSupportedFormat`): `xcbgrab` is tried first, then
  `x11grab`. Rejections are swallowed. The result is `null` when neither
  probe resolves with `true` (module `Prober`).
- **Startup gate**: `http.listen(5599)` runs only when the path resolved
  and a format was found (module `Service`).

The JavaScript string operations these steps use are modelled in
`JsStrings`: `trim` with the ECMAScript whitespace set, `split` on one
character, and `includes`. Each one is checked against an independent
characterisation. `Results` holds the `Option` and `Result` types, which
stand for `null` and for a settled promise.

Modelling choices:

- The `exec` callback is a `LookupOutcome(err, stdout, stderr)`. A probe's
  `close` event and its collected output are a `ProbeRun(closeCode, stdout)`.
  `closeCode` is `None` when the close code is `null`, which happens when a
  signal ends the process.
- `path.resolve` is uninterpreted. `LocalBinary(line)` stands for
  `path.resolve(line)`, and `Bundled` stands for the path exported by
  `ffmpeg-static`.
- The options follow JavaScript truthiness. `--ffmpeg-path` counts only when
  present and non-empty. `stderr` counts only when non-empty.
- A rejected `getFFMPEGPath()` is never handled (line 69 has no `.catch`).
  So nothing after it runs, and the model records the rejection as
  `NotListening(PathRejected(..))`.
- `--ffmpeg-path` is declared as the "Path to ffmpeg" (index.js:13-16), and
  index.js:25-26 assigns it to the result. But both branches of the
  `if/else` at index.js:27-43 then overwrite it, so the code never uses it.
  The model follows the code; see "Findings".

## Model

| member | source | states |
|---|---|---|
| JsStrings.SkipLeading | index.js:36 | the scan stops at the first non-whitespace character at or after its start, or at the end, and everything it passed is whitespace |
| JsStrings.SkipTrailing | index.js:36 | the backward scan stops just after the last non-whitespace character above its lower bound, and everything it passed is whitespace |
| JsStrings.Trim | index.js:36 | `trim()` returns a slice of its input that has only whitespace around it and no whitespace at either end |
| JsStrings.TrimIsUnique | index.js:36 | the characterisation of `trim` determines its result: any whitespace-bordered slice with no whitespace at its own ends is the trimmed string |
| JsStrings.TrimKeepsAbsent | index.js:36 | a character absent from the input is absent from the trimmed string |
| JsStrings.TrimDropsCarriageReturn | index.js:36 | trimming a string with clean ends followed by `\r` gives back that string |
| JsStrings.IndexOf | index.js:36 | returns nothing exactly when the character is absent; otherwise returns the position of its first occurrence |
| JsStrings.IndexOfFirst | index.js:36 | a position holding the character with no earlier occurrence is what `IndexOf` returns |
| JsStrings.Split | index.js:36 | `split` returns at least one piece; no piece contains the separator; the first piece is the prefix before the first separator |
| JsStrings.SplitAt | index.js:36 | `split` emits the text before the first separator, then splits the rest after it |
| JsStrings.JoinCons | index.js:36 | joining a list puts the separator between its first piece and the join of the rest |
| JsStrings.JoinSplit | index.js:36 | joining the pieces of `split` with the separator restores the original string |
| JsStrings.SplitJoin | index.js:36 | splitting a join of separator-free pieces returns those pieces |
| JsStrings.FirstLine | index.js:36 | `split('\n')[0]` is the prefix before the first line feed: it has no line feed, and it is the whole string when the string has none |
| JsStrings.FirstLineOf | index.js:36 | the first line of `before + "\n" + after` is `before` when `before` has no line feed |
| JsStrings.OccursInTail | index.js:102 | an occurrence after position 0 is an occurrence in the tail, shifted by one |
| JsStrings.Includes | index.js:102 | `includes` is true exactly when the pattern occurs at some position of the text |
| Resolver.LookupCommand | index.js:29 | the lookup command is `where ffmpeg` exactly on `win32` and `which ffmpeg` otherwise (the command's outcome is a parameter of the rest of the model, so nothing else depends on this choice) |
| Resolver.LocalLookup | index.js:28-40 | the lookup rejects on `err`, or on non-empty `stderr` with the trimmed text as message; otherwise it resolves to the prefix of the trimmed stdout that runs up to its first line feed or to its end |
| Resolver.ResolveEncoderPath | index.js:23-45 | the result is never the explicit path; without `--use-local-ffmpeg` it is the bundled binary; with it, it is the lookup's outcome |
| Resolver.SingleLineLookup | index.js:35-37 | after a clean lookup whose trimmed stdout is one line, the path is that whole trimmed stdout |
| Resolver.CleanLookupYieldsFirstLine | index.js:35-37 | after a clean lookup, the path is the text of the trimmed stdout before its first line feed |
| Resolver.ExplicitPathIgnored | index.js:25-43 | changing or removing `--ffmpeg-path` never changes the resolution |
| Resolver.LookupOnlyWhenLocal | index.js:42-43 | without `--use-local-ffmpeg`, every lookup outcome gives the bundled path |
| Resolver.ResolveEncoderPathIntended | index.js:25-26 | corrected resolution: a non-empty explicit path wins; otherwise it is the source's resolution |
| Resolver.IntendedDiffersOnlyOnExplicitPath | index.js:25-43 | the corrected and the as-written resolutions agree exactly when no non-empty `--ffmpeg-path` is given |
| Resolver.ExplicitPathOverridden | index.js:25-43 | `--ffmpeg-path /opt/ffmpeg/bin/ffmpeg` alone yields the bundled binary; with `--use-local-ffmpeg` and a failing lookup it rejects, where the corrected resolution returns the explicit path |
| Resolver.CarriageReturnKept | index.js:29-37 | when the trimmed lookup output is `first + "\r\n" + rest`, the resolved line is `first + "\r"` |
| Resolver.LocalLookupIntended | index.js:36-37 | corrected lookup: the same error cases; the resolved line is the source's first line with the whitespace at its ends removed, so it has no line feed and does not end in `\r` |
| Resolver.IntendedLookupBarePath | index.js:36-37 | on CR LF output `first + "\r\n" + rest`, the corrected lookup yields exactly `first` when `first` has clean ends |
| Resolver.IntendedLookupAgreesOnCleanLines | index.js:36-37 | the corrected lookup equals the source's whenever the source's line has no whitespace at its ends |
| Prober.CheckInputFormat | index.js:100-109 | it resolves exactly when the close code is 0, with true exactly when stdout contains the format name; any other code, `null` included, rejects and carries that code |
| Prober.GetSupportedFormat | index.js:46-68 | the result is `xcbgrab`, `x11grab` or `null`; `xcbgrab` exactly when its probe resolves true; `x11grab` exactly when that probe does not but the `x11grab` probe does; `null` exactly when neither does |
| Prober.XcbgrabPreferred | index.js:49-52 | a supported `xcbgrab` is selected whatever the `x11grab` probe would yield |
| Prober.FailingProbesYieldNull | index.js:53-65 | when both probes exit with a non-zero or `null` code, selection settles on `null` without raising an error |
| Prober.RejectedProbeFallsThrough | index.js:48-62 | a rejected `xcbgrab` probe leaves the result to the `x11grab` probe alone |
| Prober.GetSupportedFormatIsPriorityScan | index.js:46-67 | the two unrolled `try` blocks pick the first candidate of the priority list `[xcbgrab, x11grab]` whose probe resolves true |
| Prober.SelectSupportedFormat | index.js:46-67 | the scan agrees with the priority definition; it starts probes only up to the first supported candidate; no earlier candidate is supported; it returns nothing only after probing every candidate without success |
| Service.Gate | index.js:72-83 | the listener opens exactly when the path resolved and one of the probes resolved true; it then binds port 5599, and the format selected at startup is the one logged; a rejected path or a `null` format leaves it closed |
| Service.Boot | index.js:69-86 | without `--use-local-ffmpeg` startup can fail only for lack of a format; with it, a failing lookup keeps the listener closed; a listening service uses port 5599 |
| Service.NoFormatNoListener | index.js:74-79 | when no probe resolves true, the listener is never opened, whatever the options |
| Service.ListenerIffFormatFound | index.js:69-83 | the listener opens exactly when the path resolves and the priority scan finds a format, and the format selected at startup is that scan's result |
| Service.BootIgnoresExplicitPath | index.js:25-26 | `--ffmpeg-path` has no effect on whether or how the service starts |

## Findings

| source | as written | input that shows it | evidently intended | confidence | as-written member | corrected member |
|---|---|---|---|---|---|---|
| index.js:25-43 | the explicit `--ffmpeg-path` value is assigned, and then both branches of the following `if/else` overwrite it | `--ffmpeg-path /opt/ffmpeg/bin/ffmpeg` without `--use-local-ffmpeg` uses the `ffmpeg-static` binary | an explicit path is used as given and takes precedence over the lookup | medium, not executed | Resolver.ExplicitPathOverridden | Resolver.ResolveEncoderPathIntended |
| index.js:36 | only the whole output is trimmed before `split('\n')`, so CR LF output leaves `\r` on the first line | `where ffmpeg` printing `C:\a\ffmpeg.exe\r\nD:\ffmpeg.exe\r\n` yields `path.resolve("C:\a\ffmpeg.exe\r")` | the first line is the bare path, with no carriage return | medium, not executed | Resolver.CarriageReturnKept | Resolver.IntendedLookupBarePath |

The startup model (`Service.Boot`) follows the source as written, using
`Resolver.ResolveEncoderPath`. The corrected definitions
`Resolver.ResolveEncoderPathIntended` and `Resolver.LocalLookupIntended`
sit next to it, with their properties proved.

## Left out

- The `/stream` route (index.js:114-138): it builds a fluent-ffmpeg command, writes the response headers and pipes the encoder's output into the response. All of this is I/O and library calls.
- `spawn` and `exec`, the accumulation of stdout chunks with `data.toString()`, and the forwarding of stderr to the console: only their outcomes are inputs. A multi-byte character split across two chunks is not modelled.
- A failed spawn (for example a missing binary): the probe has no `error` listener, so Node raises the error. The model covers the `close` code only.
- A `null` bundled path, which `ffmpeg-static` exports on unsupported platforms: `spawn(null, …)` then throws inside the promise executor (index.js:91-92), the probe rejects with a `TypeError`, and selection swallows it (index.js:53-55, index.js:63-65). This acts like a non-zero close code for selection but is not a `FormatsExited` error. A probe whose `close` event never fires leaves startup waiting forever; the model assumes every awaited result settles.
- `yargs` option parsing: the options are a record with an optional string and a boolean.
- `ffmpeg-static` and `path.resolve`: both are opaque values (`Bundled`, `LocalBinary(line)`).
- The startup format is only logged (index.js:73); `http.listen` takes no format. Each `/stream` request calls `getFFMPEGPath` and `getSupportedFormat` again (index.js:115, index.js:119) and uses that request's own result, which may be `null`. The per-request re-resolution belongs to the route and is not modelled.
- Strings are sequences of Unicode code points, while JavaScript strings are UTF-16 code units. Every character that `trim`, `split('\n')` and `includes` look for here lies in the Basic Multilingual Plane, so the two views agree on these operations.
- `http.listen`, port binding, the console messages and the process lifecycle: only the listener gate is kept.
- The promise and `async` sequencing: each awaited result is a parameter, so the model is sequential.
- Prober.CheckInputFormat: the rejection carries the close code, not the formatted message text `ffmpeg -formats exited with code <code>`, because the model has no number-to-text conversion.
