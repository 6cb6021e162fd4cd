/** Capture-format probing (`checkInputFormat`, `getSupportedFormat`). Each
    probe spawns `ffmpeg -formats`; the spawn is not run here, and its
    outcome (close code and collected standard output) is a parameter. */
module Prober {

  import opened Results
  import opened JsStrings

  /** The observable outcome of one `ffmpeg -formats` run: the code passed to
      the `close` handler (`None` for JavaScript `null`, a process ended by a
      signal) and the concatenated standard output. */
  datatype ProbeRun = ProbeRun(closeCode: Option<int>, stdout: string)

  /** The rejection `ffmpeg -formats exited with code <code>`. */
  datatype ProbeError = FormatsExited(code: Option<int>)

  /** Capture formats in the order they are tried. */
  const Candidates: seq<string> := ["xcbgrab", "x11grab"]

  /** `checkInputFormat(format, path)`, settled: a clean exit resolves with
      whether the format name occurs in the output; any other close code,
      including `null`, rejects. */
  function CheckInputFormat(format: string, run: ProbeRun): (r: Result<bool, ProbeError>)
    ensures r.Ok? <==> run.closeCode == Some(0)
    ensures r.Ok? ==> (r.value <==> IsSubstring(format, run.stdout))
    ensures r.Err? ==> r.error == FormatsExited(run.closeCode)
  {
    if run.closeCode == Some(0) then Ok(Includes(run.stdout, format))
    else Err(FormatsExited(run.closeCode))
  }

  /** The probe for `format` resolved with `true`. A rejected probe counts as
      unsupported: the caller swallows the error. */
  predicate Supported(format: string, run: ProbeRun) {
    CheckInputFormat(format, run) == Ok(true)
  }

  /** `getSupportedFormat` as written: `xcbgrab` first, then `x11grab`, each
      attempt wrapped in a `try` whose `catch` ignores the rejection, and
      `null` when neither resolves with `true`. */
  function GetSupportedFormat(xcb: ProbeRun, x11: ProbeRun): (r: Option<string>)
    ensures r == None || r == Some("xcbgrab") || r == Some("x11grab")
    ensures r == Some("xcbgrab") <==> Supported("xcbgrab", xcb)
    ensures r == Some("x11grab") <==> !Supported("xcbgrab", xcb) && Supported("x11grab", x11)
    ensures r == None <==> !Supported("xcbgrab", xcb) && !Supported("x11grab", x11)
  {
    var first := CheckInputFormat("xcbgrab", xcb);
    if first.Ok? && first.value then Some("xcbgrab")
    else
      var second := CheckInputFormat("x11grab", x11);
      if second.Ok? && second.value then Some("x11grab")
      else None
  }

  /** A supported `xcbgrab` is chosen whatever the `x11grab` probe would say:
      the second probe is not consulted. */
  lemma XcbgrabPreferred(xcb: ProbeRun, x11: ProbeRun, x11': ProbeRun)
    requires xcb.closeCode == Some(0) && IsSubstring("xcbgrab", xcb.stdout)
    ensures GetSupportedFormat(xcb, x11) == GetSupportedFormat(xcb, x11') == Some("xcbgrab")
  {
  }

  /** Probes that fail to exit cleanly never surface as errors: when every
      probe rejects, selection settles on `null`. */
  lemma FailingProbesYieldNull(xcb: ProbeRun, x11: ProbeRun)
    requires xcb.closeCode != Some(0) && x11.closeCode != Some(0)
    ensures GetSupportedFormat(xcb, x11) == None
  {
  }

  /** A rejected `xcbgrab` probe does not stop selection: the outcome is the
      `x11grab` probe's alone. */
  lemma RejectedProbeFallsThrough(xcb: ProbeRun, x11: ProbeRun)
    requires xcb.closeCode != Some(0)
    ensures GetSupportedFormat(xcb, x11) == (if Supported("x11grab", x11) then Some("x11grab") else None)
  {
  }

  /** Reference definition: the first candidate whose probe resolves with
      `true`, trying candidates in priority order. */
  function FirstSupported(cands: seq<string>, runs: seq<ProbeRun>): Option<string>
    requires |runs| == |cands|
  {
    if |cands| == 0 then None
    else if Supported(cands[0], runs[0]) then Some(cands[0])
    else FirstSupported(cands[1..], runs[1..])
  }

  /** The hand-unrolled selection is the priority scan over `Candidates`. */
  lemma GetSupportedFormatIsPriorityScan(xcb: ProbeRun, x11: ProbeRun)
    ensures GetSupportedFormat(xcb, x11) == FirstSupported(Candidates, [xcb, x11])
  {
    var rest := FirstSupported(["x11grab"], [x11]);
    assert rest == if Supported("x11grab", x11) then Some("x11grab") else None by {
      var c: seq<string> := ["x11grab"];
      assert c[0] == "x11grab" && [x11][0] == x11;
      assert c[1..] == [] && [x11][1..] == [];
      assert FirstSupported([], []) == None;
    }
    assert Candidates[0] == "xcbgrab" && Candidates[1..] == ["x11grab"];
    assert [xcb, x11][0] == xcb && [xcb, x11][1..] == [x11];
  }

  /** The first-supported scan, as a loop. `probed` is how many probes were
      started (each logs `Checking if <format> is supported`): the scan stops
      at the first supported candidate. */
  method SelectSupportedFormat(cands: seq<string>, runs: seq<ProbeRun>) returns (format: Option<string>, probed: nat)
    requires |runs| == |cands|
    ensures format == FirstSupported(cands, runs)
    ensures probed <= |cands|
    ensures forall j :: 0 <= j < probed - 1 ==> !Supported(cands[j], runs[j])
    ensures format.None? <==> probed == |cands| && (probed == 0 || !Supported(cands[probed - 1], runs[probed - 1]))
    ensures format.Some? ==> 0 < probed && format.value == cands[probed - 1]
                             && Supported(cands[probed - 1], runs[probed - 1])
  {
    var i := 0;
    while i < |cands|
      invariant 0 <= i <= |cands|
      invariant forall j :: 0 <= j < i ==> !Supported(cands[j], runs[j])
      invariant FirstSupported(cands, runs) == FirstSupported(cands[i..], runs[i..])
    {
      var verdict := CheckInputFormat(cands[i], runs[i]);
      if verdict == Ok(true) {
        return Some(cands[i]), i + 1;
      }
      assert cands[i..][1..] == cands[i + 1..];
      assert runs[i..][1..] == runs[i + 1..];
      i := i + 1;
    }
    return None, i;
  }
}
