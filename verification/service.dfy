/** Startup of the service: resolve the encoder path, pick a capture format,
    and open the HTTP listener only when a format was found. */
module Service {

  import opened Results
  import opened Resolver
  import opened Prober

  /** The fixed port the listener binds. */
  const Port: nat := 5599

  /** Why the listener was not opened. A rejected path resolution is never
      handled, so nothing after it runs; a `null` format is reported and
      startup returns early. */
  datatype StartupFailure = PathRejected(error: ResolveError) | NoSupportedFormat

  /** Whether `http.listen` was called, on which port, and the format that
      startup selected (only logged; each `/stream` request probes again). */
  datatype Startup = Listening(port: nat, format: string) | NotListening(reason: StartupFailure)

  /** The gate before `http.listen`, given the settled path promise and the
      outcomes of the two format probes run against that path. */
  function Gate(path: Result<EncoderPath, ResolveError>, xcb: ProbeRun, x11: ProbeRun): (s: Startup)
    ensures s.Listening? <==> path.Ok? && (Supported("xcbgrab", xcb) || Supported("x11grab", x11))
    ensures s.Listening? ==> s.port == 5599 && s.format in Candidates
                             && GetSupportedFormat(xcb, x11) == Some(s.format)
    ensures path.Err? ==> s == NotListening(PathRejected(path.error))
    ensures path.Ok? && GetSupportedFormat(xcb, x11) == None ==> s == NotListening(NoSupportedFormat)
  {
    match path
    case Err(e) => NotListening(PathRejected(e))
    case Ok(_) =>
      match GetSupportedFormat(xcb, x11)
      case None => NotListening(NoSupportedFormat)
      case Some(format) => Listening(Port, format)
  }

  /** The whole startup sequence of the source, with every awaited result
      passed in as a value. */
  function Boot(opts: Options, lookup: LookupOutcome, xcb: ProbeRun, x11: ProbeRun): (s: Startup)
    ensures !opts.useLocalFfmpeg ==> !s.NotListening? || s.reason == NoSupportedFormat
    ensures opts.useLocalFfmpeg && lookup.err ==> s == NotListening(PathRejected(LookupFailed))
    ensures s.Listening? ==> s.port == Port
  {
    Gate(ResolveEncoderPath(opts, lookup), xcb, x11)
  }

  /** When every probe fails or misses, the listener is never opened,
      whatever the options and the lookup. */
  lemma NoFormatNoListener(opts: Options, lookup: LookupOutcome, xcb: ProbeRun, x11: ProbeRun)
    requires !Supported("xcbgrab", xcb) && !Supported("x11grab", x11)
    ensures !Boot(opts, lookup, xcb, x11).Listening?
  {
  }

  /** The listener opens exactly when the path resolves and the scan over
      the candidate formats finds one, and the format selected at startup is
      that scan's result. */
  lemma ListenerIffFormatFound(opts: Options, lookup: LookupOutcome, xcb: ProbeRun, x11: ProbeRun)
    ensures Boot(opts, lookup, xcb, x11).Listening?
            <==> ResolveEncoderPath(opts, lookup).Ok? && FirstSupported(Candidates, [xcb, x11]).Some?
    ensures Boot(opts, lookup, xcb, x11).Listening?
            ==> Some(Boot(opts, lookup, xcb, x11).format) == FirstSupported(Candidates, [xcb, x11])
  {
    GetSupportedFormatIsPriorityScan(xcb, x11);
  }

  /** `--ffmpeg-path` has no effect on startup. */
  lemma BootIgnoresExplicitPath(opts: Options, lookup: LookupOutcome, xcb: ProbeRun, x11: ProbeRun, p: Option<string>)
    ensures Boot(opts.(ffmpegPath := p), lookup, xcb, x11) == Boot(opts, lookup, xcb, x11)
  {
    ExplicitPathIgnored(opts, lookup, p);
  }
}
