/** Resolution of the ffmpeg binary to use (`getFFMPEGPath`). The `exec` of
    the platform lookup command is not run here: its outcome is a parameter. */
module Resolver {

  import opened Results
  import opened JsStrings

  /** The two command-line options, after parsing. `ffmpegPath` is absent
      when `--ffmpeg-path` is not given. */
  datatype Options = Options(ffmpegPath: Option<string>, useLocalFfmpeg: bool)

  /** What the `exec` callback receives: whether `err` was set, and the
      collected standard output and standard error text. */
  datatype LookupOutcome = LookupOutcome(err: bool, stdout: string, stderr: string)

  /** A resolved encoder path. `Explicit(p)` is the value of `--ffmpeg-path`,
      `Bundled` is the path exported by the `ffmpeg-static` package, and
      `LocalBinary(line)` is `path.resolve(line)`, kept uninterpreted. */
  datatype EncoderPath = Explicit(path: string) | Bundled | LocalBinary(line: string)

  /** Why the returned promise rejects: the lookup command failed (`err`), or
      it wrote to standard error, in which case the error message is the
      trimmed standard-error text. */
  datatype ResolveError = LookupFailed | LookupStderr(message: string)

  /** JavaScript truthiness of an optional string: present and non-empty. */
  predicate Truthy(o: Option<string>) {
    o.Some? && o.value != ""
  }

  /** The lookup command: `where ffmpeg` on Windows, `which ffmpeg` elsewhere. */
  function LookupCommand(platform: string): (cmd: string)
    ensures cmd == "where ffmpeg" || cmd == "which ffmpeg"
    ensures cmd == "where ffmpeg" <==> platform == "win32"
  {
    if platform == "win32" then "where ffmpeg" else "which ffmpeg"
  }

  /** The outcome of the lookup as a settled promise: rejection on `err`,
      rejection on any standard-error text, otherwise the first line of the
      trimmed standard output. */
  function LocalLookup(lookup: LookupOutcome): (r: Result<EncoderPath, ResolveError>)
    ensures r.Ok? <==> !lookup.err && lookup.stderr == ""
    ensures r.Ok? ==> r.value.LocalBinary? && '\n' !in r.value.line
    ensures r.Ok? ==> |r.value.line| <= |Trim(lookup.stdout)|
                      && r.value.line == Trim(lookup.stdout)[..|r.value.line|]
    ensures r.Ok? && |r.value.line| < |Trim(lookup.stdout)| ==> Trim(lookup.stdout)[|r.value.line|] == '\n'
    ensures lookup.err ==> r == Err(LookupFailed)
    ensures !lookup.err && lookup.stderr != "" ==> r == Err(LookupStderr(Trim(lookup.stderr)))
  {
    if lookup.err then Err(LookupFailed)
    else if lookup.stderr != "" then Err(LookupStderr(Trim(lookup.stderr)))
    else Ok(LocalBinary(FirstLine(Trim(lookup.stdout))))
  }

  /** `getFFMPEGPath` as written. The explicit path is assigned first, but the
      following `if/else` assigns in both branches, so that value is always
      overwritten: the function depends only on `useLocalFfmpeg` and the lookup. */
  function ResolveEncoderPath(opts: Options, lookup: LookupOutcome): (r: Result<EncoderPath, ResolveError>)
    ensures r.Ok? ==> !r.value.Explicit?
    ensures !opts.useLocalFfmpeg ==> r == Ok(Bundled)
    ensures opts.useLocalFfmpeg ==> r == LocalLookup(lookup)
  {
    if opts.useLocalFfmpeg then LocalLookup(lookup) else Ok(Bundled)
  }

  /** With a clean lookup, the resolved path is the first line of the trimmed
      output of the lookup command. */
  lemma CleanLookupYieldsFirstLine(opts: Options, lookup: LookupOutcome, before: string, after: string)
    requires opts.useLocalFfmpeg && !lookup.err && lookup.stderr == ""
    requires Trim(lookup.stdout) == before + "\n" + after && '\n' !in before
    ensures ResolveEncoderPath(opts, lookup) == Ok(LocalBinary(before))
  {
    FirstLineOf(before, after);
  }

  /** With a clean lookup whose trimmed output is a single line (the usual
      `which` answer), the resolved path is that whole line. */
  lemma SingleLineLookup(opts: Options, lookup: LookupOutcome)
    requires opts.useLocalFfmpeg && !lookup.err && lookup.stderr == ""
    requires '\n' !in Trim(lookup.stdout)
    ensures ResolveEncoderPath(opts, lookup) == Ok(LocalBinary(Trim(lookup.stdout)))
  {
  }

  /** The value of `--ffmpeg-path` never influences the outcome. */
  lemma ExplicitPathIgnored(opts: Options, lookup: LookupOutcome, p: Option<string>)
    ensures ResolveEncoderPath(opts.(ffmpegPath := p), lookup) == ResolveEncoderPath(opts, lookup)
  {
  }

  /** Without `--use-local-ffmpeg`, the lookup outcome is never consulted. */
  lemma LookupOnlyWhenLocal(opts: Options, l1: LookupOutcome, l2: LookupOutcome)
    requires !opts.useLocalFfmpeg
    ensures ResolveEncoderPath(opts, l1) == ResolveEncoderPath(opts, l2) == Ok(Bundled)
  {
  }

  /** The resolution the option names promise: an explicit, non-empty
      `--ffmpeg-path` takes precedence, then the local lookup, then the
      bundled binary. */
  function ResolveEncoderPathIntended(opts: Options, lookup: LookupOutcome): (r: Result<EncoderPath, ResolveError>)
    ensures Truthy(opts.ffmpegPath) ==> r == Ok(Explicit(opts.ffmpegPath.value))
    ensures !Truthy(opts.ffmpegPath) ==> r == ResolveEncoderPath(opts, lookup)
  {
    if Truthy(opts.ffmpegPath) then Ok(Explicit(opts.ffmpegPath.value))
    else if opts.useLocalFfmpeg then LocalLookup(lookup)
    else Ok(Bundled)
  }

  /** The two resolutions agree exactly when no explicit path is given. */
  lemma IntendedDiffersOnlyOnExplicitPath(opts: Options, lookup: LookupOutcome)
    ensures ResolveEncoderPathIntended(opts, lookup) == ResolveEncoderPath(opts, lookup)
            <==> !Truthy(opts.ffmpegPath)
  {
  }

  /** A concrete input on which the source ignores the explicit path:
      `--ffmpeg-path /opt/ffmpeg/bin/ffmpeg` alone yields the bundled binary,
      and adding `--use-local-ffmpeg` with a failing lookup rejects. */
  lemma ExplicitPathOverridden(lookup: LookupOutcome)
    requires lookup.err
    ensures ResolveEncoderPath(Options(Some("/opt/ffmpeg/bin/ffmpeg"), false), lookup) == Ok(Bundled)
    ensures ResolveEncoderPath(Options(Some("/opt/ffmpeg/bin/ffmpeg"), true), lookup) == Err(LookupFailed)
    ensures ResolveEncoderPathIntended(Options(Some("/opt/ffmpeg/bin/ffmpeg"), true), lookup)
            == Ok(Explicit("/opt/ffmpeg/bin/ffmpeg"))
  {
  }

  /** `where` on Windows ends its lines with CR LF. When it lists more than
      one match, trimming only touches the ends of the whole text, so the
      first line keeps its carriage return and the path handed to
      `path.resolve` ends in `\r`. */
  lemma CarriageReturnKept(opts: Options, lookup: LookupOutcome, first: string, rest: string)
    requires opts.useLocalFfmpeg && !lookup.err && lookup.stderr == ""
    requires Trim(lookup.stdout) == first + "\r\n" + rest && '\n' !in first
    ensures ResolveEncoderPath(opts, lookup) == Ok(LocalBinary(first + "\r"))
  {
    assert first + "\r\n" + rest == (first + "\r") + "\n" + rest;
    CleanLookupYieldsFirstLine(opts, lookup, first + "\r", rest);
  }

  /** The lookup as evidently intended: the first line is trimmed as well, so
      a CR LF line ending leaves no carriage return in the path. */
  function LocalLookupIntended(lookup: LookupOutcome): (r: Result<EncoderPath, ResolveError>)
    ensures r.Ok? <==> !lookup.err && lookup.stderr == ""
    ensures r.Ok? ==> r.value.LocalBinary? && '\n' !in r.value.line
    ensures r.Ok? && |r.value.line| > 0 ==> !IsJsWhitespace(r.value.line[|r.value.line| - 1])
    ensures r.Ok? ==> IsWhitespaceBordered(r.value.line, LocalLookup(lookup).value.line)
    ensures r.Err? ==> r == LocalLookup(lookup)
  {
    if lookup.err || lookup.stderr != "" then LocalLookup(lookup)
    else
      var line := FirstLine(Trim(lookup.stdout));
      TrimKeepsAbsent(line, '\n');
      Ok(LocalBinary(Trim(line)))
  }

  /** The intended lookup agrees with the source whenever the source's first
      line has no whitespace at its ends. */
  lemma IntendedLookupAgreesOnCleanLines(lookup: LookupOutcome)
    requires !lookup.err && lookup.stderr == ""
    requires var line := LocalLookup(lookup).value.line;
             |line| > 0 ==> !IsJsWhitespace(line[0]) && !IsJsWhitespace(line[|line| - 1])
    ensures LocalLookupIntended(lookup) == LocalLookup(lookup)
  {
    var line := LocalLookup(lookup).value.line;
    assert line[..0] == [] && line[|line|..] == [];
    TrimIsUnique(line, 0, |line|);
    assert line[0..|line|] == line;
  }

  /** The corrected half of `CarriageReturnKept`: on the same CR LF output,
      the intended lookup yields the bare first path. */
  lemma IntendedLookupBarePath(lookup: LookupOutcome, first: string, rest: string)
    requires !lookup.err && lookup.stderr == ""
    requires Trim(lookup.stdout) == first + "\r\n" + rest && '\n' !in first
    requires |first| > 0 ==> !IsJsWhitespace(first[0]) && !IsJsWhitespace(first[|first| - 1])
    ensures LocalLookupIntended(lookup) == Ok(LocalBinary(first))
  {
    var line := first + "\r";
    assert Trim(lookup.stdout) == line + "\n" + rest;
    FirstLineOf(line, rest);
    assert LocalLookup(lookup) == Ok(LocalBinary(line));
    TrimDropsCarriageReturn(first);
  }
}
