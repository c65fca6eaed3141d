/**
 The desktop front-end's decision layer. The window holds a URL field, a
 quality radio group, a destination folder and a busy flag; pressing the
 button either does nothing (busy), shows an error (no "youtube" in the
 URL) or starts one background worker. The worker asks the media library
 for metadata, builds the options, downloads, and schedules exactly one
 of `on_complete` / `on_error` on the window. Widgets become fields of an
 immutable state; dialogs and worker starts become effects. `Next` delivers
 both callbacks, as evidently intended; `NextAsWritten` follows the program,
 whose failure callback never reaches the window.
 */
module Gui {
  import opened Text
  import opened Shared
  import Cli

  /** The text the URL field starts with. */
  const Placeholder: string := "Paste the YouTube URL here..."

  /** The progress bar: 0, or the percentage downloaded / total * 100 (left unevaluated). */
  datatype Progress = Zero | Fraction(downloaded: int, total: int)

  datatype GuiState = GuiState(
    isDownloading: bool,   // the busy flag
    buttonEnabled: bool,   // the "DOWNLOAD NOW" button
    status: string,        // the status label
    progress: Progress,
    urlField: string,
    quality: string,       // the radio group's variable: "1", "2" or "3"
    outputPath: string)

  /** What a transition asks the toolkit to do besides updating the window. */
  datatype Effect =
    | ShowError(title: string, message: string)   // a modal error dialog
    | StartWorker(url: string, output: string)     // a daemon thread running the download

  datatype Step = Step(state: GuiState, effects: seq<Effect>)

  /** The window as the constructor leaves it, for a user whose home directory is `home`. */
  function InitialState(home: string): (s: GuiState)
    ensures !s.isDownloading && s.buttonEnabled && s.progress == Zero
    ensures s.urlField == Placeholder && s.quality == "1"
    ensures s.outputPath == JoinPath(home, "Downloads")
    ensures |s.outputPath| > |home| && s.outputPath[..|home|] == home
  {
    JoinKeepsBoth(home, "Downloads");
    GuiState(false, true, "Waiting...", Zero, Placeholder, "1", JoinPath(home, "Downloads"))
  }

  /** The only test the URL must pass: the lower-case word "youtube" somewhere in it. */
  predicate LooksLikeYouTube(url: string) {
    Contains(url, "youtube")
  }

  /** The button's handler. */
  function StartDownload(s: GuiState): (r: Step)
    ensures s.isDownloading ==> r == Step(s, [])
    ensures !s.isDownloading && !LooksLikeYouTube(Strip(s.urlField)) ==>
      r == Step(s, [ShowError("Error", "Invalid URL")])
    ensures !s.isDownloading && LooksLikeYouTube(Strip(s.urlField)) ==>
      && r.state == s.(isDownloading := true, buttonEnabled := false, status := "Starting download...", progress := Zero)
      && r.effects == [StartWorker(Strip(s.urlField), s.outputPath)]
  {
    if s.isDownloading then Step(s, [])
    else
      var url := Strip(s.urlField);
      if !LooksLikeYouTube(url) then Step(s, [ShowError("Error", "Invalid URL")])
      else
        Step(s.(isDownloading := true, buttonEnabled := false, status := "Starting download...", progress := Zero),
             [StartWorker(url, s.outputPath)])
  }

  /** Pressing the button on the untouched window shows "Invalid URL": the
      placeholder says "YouTube", and the test is case-sensitive. */
  lemma PlaceholderRejected(home: string)
    ensures StartDownload(InitialState(home)) == Step(InitialState(home), [ShowError("Error", "Invalid URL")])
  {
    PlaceholderSurvivesStrip();
    PlaceholderLacksKeyword();
  }

  lemma PlaceholderSurvivesStrip()
    ensures Strip(Placeholder) == Placeholder
  {
  }

  /** The placeholder has no lower-case 'y', so it cannot contain "youtube". */
  lemma PlaceholderLacksKeyword()
    ensures !LooksLikeYouTube(Placeholder)
  {
    MissingFirstLetter(Placeholder, "youtube");
  }

  /** A worker is started exactly when the window was idle and the URL passed,
      and then exactly one. */
  lemma StartsAtMostOneWorker(s: GuiState)
    ensures |StartDownload(s).effects| <= 1
    ensures (exists k :: 0 <= k < |StartDownload(s).effects| && StartDownload(s).effects[k].StartWorker?)
        <==> !s.isDownloading && LooksLikeYouTube(Strip(s.urlField))
  {
    var r := StartDownload(s);
    if !s.isDownloading && LooksLikeYouTube(Strip(s.urlField)) {
      assert r.effects[0].StartWorker?;
    }
  }

  /** The worker's success callback. */
  function OnComplete(s: GuiState): (r: Step)
    ensures r.state == s.(isDownloading := false, buttonEnabled := true, status := "Download completed")
    ensures r.effects == []
  {
    Step(s.(isDownloading := false, buttonEnabled := true, status := "Download completed"), [])
  }

  /** The worker's failure callback: as on success, plus a dialog with the library's message. */
  function OnError(s: GuiState, error: string): (r: Step)
    ensures r.state == s.(isDownloading := false, buttonEnabled := true, status := "Error")
    ensures r.effects == [ShowError("Error", error)]
  {
    Step(s.(isDownloading := false, buttonEnabled := true, status := "Error"), [ShowError("Error", error)])
  }

  /** Both callbacks re-arm the window; they differ in the status text and
      the dialog only. */
  lemma CallbacksDifferOnlyInReport(s: GuiState, error: string)
    ensures !OnComplete(s).state.isDownloading && OnComplete(s).state.buttonEnabled
    ensures !OnError(s, error).state.isDownloading && OnError(s, error).state.buttonEnabled
    ensures OnError(s, error).state == OnComplete(s).state.(status := "Error")
    ensures OnError(s, error).effects == OnComplete(s).effects + [ShowError("Error", error)]
  {
  }

  /** The "Browse" button: a cancelled dialog returns "" and changes nothing. */
  function BrowseFolder(s: GuiState, picked: string): (r: GuiState)
    ensures r.outputPath == if picked == "" then s.outputPath else picked
    ensures r.(outputPath := s.outputPath) == s
  {
    if picked != "" then s.(outputPath := picked) else s
  }

  /** The format selector and post-processors for a quality value. */
  datatype GuiRow = GuiRow(format: string, postprocessors: seq<PostProcessor>)

  function QualityRow(q: string): (r: GuiRow)
    ensures q == "1" ==> r.postprocessors == RemuxToMp4
    ensures q == "2" ==> r.postprocessors == []
    ensures q != "1" && q != "2" ==> r.postprocessors == AudioToM4a
  {
    if q == "1" then GuiRow(Mp4Upto1080 + ("+" + M4aAudio) + "/best[ext=mp4]", RemuxToMp4)
    else if q == "2" then GuiRow(Mp4Upto1080, [])
    else GuiRow(M4aAudio + "/bestaudio", AudioToM4a)
  }

  /** The rows' format selectors: "1" asks for mp4 video of at most 1080
      lines merged with m4a audio, "2" for that video alone and never for
      audio, and every other value first for m4a audio and never for video. */
  lemma QualitySelectors(q: string)
    ensures q == "1" || q == "2" ==> StartsWith(QualityRow(q).format, Mp4Upto1080)
    ensures q == "1" ==> Contains(QualityRow(q).format, "+" + M4aAudio)
    ensures q == "2" ==> !Contains(QualityRow(q).format, "audio")
    ensures q != "1" && q != "2" ==> StartsWith(QualityRow(q).format, M4aAudio) && !Contains(QualityRow(q).format, "video")
  {
    if q == "1" {
      ContainsMiddle(Mp4Upto1080, "+" + M4aAudio, "/best[ext=mp4]");
    } else if q == "2" {
      NoAudioInVideoSelectors();
      MissingFirstLetter(Mp4Upto1080, "audio");
    } else {
      assert 'v' !in M4aAudio && 'v' !in "/bestaudio";
      MissingFirstLetter(QualityRow(q).format, "video");
    }
  }

  /** Anything other than "1" or "2" falls through to the audio row. */
  lemma UnknownQualityIsAudio(q: string)
    requires q != "1" && q != "2"
    ensures QualityRow(q) == QualityRow("3")
  {
  }

  /** The two front-ends agree on post-processing for the same menu entry,
      but every selector differs: the window's video rows drop the H.264
      requirement, and its audio row has no final `/best` fallback. */
  lemma FrontEndsAgreeOnPostprocessing(c: Cli.Choice)
    ensures QualityRow(Cli.Token(c)).postprocessors == Cli.CliRow(c).postprocessors
    ensures QualityRow(Cli.Token(c)).format != Cli.CliRow(c).format
    ensures var tail := "+" + M4aAudio + "/best[ext=mp4]";
      Cli.CliRow(Cli.VideoAudio).format == H264Upto1080 + tail && QualityRow("1").format == Mp4Upto1080 + tail
    ensures Cli.CliRow(Cli.VideoOnly).format == H264Upto1080 + "/" + QualityRow("2").format
    ensures Cli.CliRow(Cli.AudioOnly).format == QualityRow("3").format + "/best"
  {
    Cli.CliTable(c);
    match c
    case VideoAudio =>
      assert |Cli.CliRow(c).format| != |QualityRow("1").format|;
    case VideoOnly =>
      assert |Cli.CliRow(c).format| != |QualityRow("2").format|;
    case AudioOnly =>
      assert |Cli.CliRow(c).format| != |QualityRow("3").format|;
  }

  /** The options dictionary the worker hands to the library. */
  datatype GuiOptions = GuiOptions(
    format: string,
    outtmpl: string,
    postprocessors: seq<PostProcessor>,
    progressHooks: nat)   // the number of progress callbacks registered

  /** `'entries' in info`: the metadata describes a playlist. */
  predicate IsPlaylist(infoKeys: set<string>) {
    "entries" in infoKeys
  }

  /** The options for a quality value, a destination, and the keys of the metadata. */
  function BuildGuiOptions(q: string, output: string, infoKeys: set<string>): (o: GuiOptions)
    ensures o.format == QualityRow(q).format && o.postprocessors == QualityRow(q).postprocessors
    ensures o.progressHooks == 1
    ensures o.outtmpl == JoinPath(output, if IsPlaylist(infoKeys) then PlaylistTemplate else SingleTemplate)
  {
    var row := QualityRow(q);
    var template := if IsPlaylist(infoKeys) then PlaylistTemplate else SingleTemplate;
    GuiOptions(row.format, JoinPath(output, template), row.postprocessors, 1)
  }

  /** The output template lies under the chosen directory and ends with the
      playlist form when the metadata has entries, the single-file form otherwise. */
  lemma TemplateUnderOutput(q: string, output: string, infoKeys: set<string>)
    ensures var t := BuildGuiOptions(q, output, infoKeys).outtmpl;
      var name := if IsPlaylist(infoKeys) then PlaylistTemplate else SingleTemplate;
      && |t| >= |output| + |name|
      && t[..|output|] == output
      && t[|t| - |name|..] == name
      && |t| <= |output| + 1 + |name|
  {
    var name := if IsPlaylist(infoKeys) then PlaylistTemplate else SingleTemplate;
    assert PlaylistTemplate[0] == '%' && SingleTemplate[0] == '%';
    JoinKeepsBoth(output, name);
  }

  /** What the worker posts back to the window. */
  datatype Callback = Completed | Failed(message: string)

  /** One run of the worker thread. `info` is the metadata lookup (its keys,
      or the library's error message), `fetched` the download's outcome. */
  datatype WorkerRun = WorkerRun(options: Option<GuiOptions>, callback: Callback)

  function Worker(url: string, output: string, quality: string, info: Outcome<set<string>>, fetched: Outcome<()>): (w: WorkerRun)
    ensures info.Failure? ==> w == WorkerRun(None, Failed(info.message))
    ensures info.Success? ==> w.options == Some(BuildGuiOptions(quality, output, info.value))
    ensures info.Success? ==> (w.callback == Completed <==> fetched.Success?)
    ensures info.Success? && fetched.Failure? ==> w.callback == Failed(fetched.message)
  {
    match info
    case Failure(m) => WorkerRun(None, Failed(m))
    case Success(keys) =>
      var opts := BuildGuiOptions(quality, output, keys);
      match fetched
      case Success(_) => WorkerRun(Some(opts), Completed)
      case Failure(m) => WorkerRun(Some(opts), Failed(m))
  }

  /** The download's outcome decides only the callback: the options built
      do not depend on it, and the run completes iff both library calls succeed. */
  lemma WorkerOutcomeOnlyDecidesReport(url: string, output: string, quality: string, info: Outcome<set<string>>, f1: Outcome<()>, f2: Outcome<()>)
    ensures Worker(url, output, quality, info, f1).options == Worker(url, output, quality, info, f2).options
    ensures Worker(url, output, quality, info, f1).callback.Completed? <==> info.Success? && f1.Success?
  {
  }

  /** The callback a worker posts, run on the window. */
  function Deliver(s: GuiState, cb: Callback): (r: Step)
    ensures !r.state.isDownloading && r.state.buttonEnabled
    ensures r.state.(isDownloading := s.isDownloading, buttonEnabled := s.buttonEnabled, status := s.status) == s
  {
    match cb
    case Completed => OnComplete(s)
    case Failed(m) => OnError(s, m)
  }

  /** The dictionary the library passes to the progress hook; a missing key is None. */
  datatype HookInfo = HookInfo(
    status: string,
    totalBytes: Option<int>,
    totalBytesEstimate: Option<int>,
    downloadedBytes: Option<int>)

  /** Python truthiness of an optional number. */
  predicate NonZero(n: Option<int>) {
    n.Some? && n.value != 0
  }

  /** `d.get('total_bytes') or d.get('total_bytes_estimate', 0)`. */
  function SelectedTotal(d: HookInfo): (t: int)
    ensures NonZero(d.totalBytes) ==> t == d.totalBytes.value
    ensures !NonZero(d.totalBytes) ==> t == (if d.totalBytesEstimate.Some? then d.totalBytesEstimate.value else 0)
  {
    if NonZero(d.totalBytes) then d.totalBytes.value
    else match d.totalBytesEstimate
      case Some(e) => e
      case None => 0
  }

  /** The hook's decision: the new progress value, or None when no update is posted. */
  function ProgressUpdate(d: HookInfo): (u: Option<Progress>)
    ensures u.Some? <==> d.status == "downloading" && SelectedTotal(d) != 0
    ensures u.Some? ==> u.value == Fraction(if d.downloadedBytes.Some? then d.downloadedBytes.value else 0, SelectedTotal(d))
  {
    if d.status == "downloading" && SelectedTotal(d) != 0 then
      Some(Fraction(if d.downloadedBytes.Some? then d.downloadedBytes.value else 0, SelectedTotal(d)))
    else None
  }

  /** An update is posted iff the download is running and at least one of the
      two totals is a non-zero number; the exact total wins over the estimate. */
  lemma HookFiresIffSomeTotal(d: HookInfo)
    ensures ProgressUpdate(d).Some? <==> d.status == "downloading" && (NonZero(d.totalBytes) || NonZero(d.totalBytesEstimate))
    ensures ProgressUpdate(d).Some? ==> ProgressUpdate(d).value.total != 0
    ensures ProgressUpdate(d).Some? && NonZero(d.totalBytes) ==> ProgressUpdate(d).value.total == d.totalBytes.value
    ensures ProgressUpdate(d).Some? && !NonZero(d.totalBytes) ==> ProgressUpdate(d).value.total == d.totalBytesEstimate.value
  {
  }

  /** The posted update, applied on the window: only the progress bar changes. */
  function ApplyProgress(s: GuiState, d: HookInfo): (r: GuiState)
    ensures r.(progress := s.progress) == s
    ensures ProgressUpdate(d).None? ==> r == s
    ensures ProgressUpdate(d).Some? ==> r.progress == ProgressUpdate(d).value
  {
    match ProgressUpdate(d)
    case None => s
    case Some(p) => s.(progress := p)
  }

  /** A worker that was started and has not yet posted its callback. */
  datatype Job = Job(url: string, output: string)

  /** The window together with the workers in flight and the dialogs shown so far. */
  datatype System = System(gui: GuiState, running: seq<Job>, dialogs: seq<string>)

  /** What can happen to the window, in any order. Progress reports and
      worker completions come from the running worker and are dropped when
      there is none. */
  datatype Event =
    | Click
    | EditUrl(text: string)
    | PickQuality(q: string)
    | PickFolder(folder: string)
    | HookCall(report: HookInfo)
    | WorkerDone(metadata: Outcome<set<string>>, fetched: Outcome<()>)

  /** Workers and dialogs requested by a transition's effects. */
  function Jobs(effects: seq<Effect>): (r: seq<Job>)
    ensures |r| <= |effects|
    ensures (forall k :: 0 <= k < |effects| ==> !effects[k].StartWorker?) ==> r == []
  {
    if |effects| == 0 then []
    else (match effects[0]
      case StartWorker(u, o) => [Job(u, o)]
      case ShowError(_, _) => []) + Jobs(effects[1..])
  }

  function Dialogs(effects: seq<Effect>): (r: seq<string>)
    ensures |effects| == 1 && effects[0].ShowError? ==> r == [effects[0].message]
  {
    if |effects| == 0 then []
    else (match effects[0]
      case ShowError(_, m) => [m]
      case StartWorker(_, _) => []) + Dialogs(effects[1..])
  }

  function Perform(sys: System, step: Step): System {
    System(step.state, sys.running + Jobs(step.effects), sys.dialogs + Dialogs(step.effects))
  }

  /** One event on the window. A click runs the button handler; an edit or a
      pick changes its one field; a progress report or a completion from the
      running worker applies what the worker posted, and does nothing when no
      worker runs. Dialogs are only ever added. */
  function Next(sys: System, e: Event): (r: System)
    ensures sys.dialogs <= r.dialogs
    ensures e.Click? ==>
      && r.gui == StartDownload(sys.gui).state
      && sys.running <= r.running && |r.running| <= |sys.running| + 1
    ensures !e.Click? && !e.WorkerDone? ==>
      && r.running == sys.running && r.dialogs == sys.dialogs
      && r.gui.isDownloading == sys.gui.isDownloading && r.gui.buttonEnabled == sys.gui.buttonEnabled
    ensures e.HookCall? ==> r.gui.(progress := sys.gui.progress) == sys.gui
    ensures e.WorkerDone? && |sys.running| == 0 ==> r == sys
    ensures e.WorkerDone? && |sys.running| > 0 ==>
      var cb := Worker(sys.running[0].url, sys.running[0].output, sys.gui.quality, e.metadata, e.fetched).callback;
      && r.running == sys.running[1..]
      && !r.gui.isDownloading && r.gui.buttonEnabled
      && r.gui.(isDownloading := sys.gui.isDownloading, buttonEnabled := sys.gui.buttonEnabled, status := sys.gui.status) == sys.gui
      && r.dialogs == sys.dialogs + (if cb.Failed? then [cb.message] else [])
  {
    match e
    case Click => Perform(sys, StartDownload(sys.gui))
    case EditUrl(t) => sys.(gui := sys.gui.(urlField := t))
    case PickQuality(q) => sys.(gui := sys.gui.(quality := q))
    case PickFolder(f) => sys.(gui := BrowseFolder(sys.gui, f))
    case HookCall(d) =>
      if |sys.running| == 0 then sys else sys.(gui := ApplyProgress(sys.gui, d))
    case WorkerDone(info, fetched) =>
      if |sys.running| == 0 then sys
      else
        var job := sys.running[0];
        var run := Worker(job.url, job.output, sys.gui.quality, info, fetched);
        Perform(sys.(running := sys.running[1..]), Deliver(sys.gui, run.callback))
  }

  /** The events applied in order. Each adds at most one worker, and dialogs
      are only ever added. */
  function Run(sys: System, events: seq<Event>): (r: System)
    ensures sys.dialogs <= r.dialogs
    ensures |r.running| <= |sys.running| + |events|
    decreases |events|
  {
    if |events| == 0 then sys else Run(Next(sys, events[0]), events[1..])
  }

  /** At most one worker runs, exactly while the busy flag is set, and the
      button is enabled exactly while no worker runs. */
  ghost predicate Consistent(sys: System) {
    && |sys.running| <= 1
    && (|sys.running| == 1 <==> sys.gui.isDownloading)
    && (sys.gui.buttonEnabled <==> !sys.gui.isDownloading)
  }

  lemma InitialConsistent(home: string)
    ensures Consistent(System(InitialState(home), [], []))
  {
  }

  /** Every event keeps the window consistent. */
  lemma NextConsistent(sys: System, e: Event)
    requires Consistent(sys)
    ensures Consistent(Next(sys, e))
  {
  }

  /** Whatever the user does and whatever the library reports, the window
      never runs two downloads at once and never leaves the button enabled
      while one runs. */
  lemma {:induction false} RunConsistent(sys: System, events: seq<Event>)
    requires Consistent(sys)
    ensures Consistent(Run(sys, events))
    decreases |events|
  {
    if |events| > 0 {
      NextConsistent(sys, events[0]);
      RunConsistent(Next(sys, events[0]), events[1..]);
    }
  }

  /** While a download runs, clicking again changes nothing and starts nothing. */
  lemma BusyClickIgnored(sys: System)
    requires sys.gui.isDownloading
    ensures Next(sys, Click) == sys
  {
  }

  // The failure path as the program is written. The worker schedules
  // `lambda: self.on_error(str(e))`, and `e` is the exception variable of an
  // `except ... as e` clause, which Python unbinds when the clause ends. The
  // lambda runs later on the toolkit's loop, finds `e` unbound and raises
  // NameError, so `on_error` never runs: the job ends and the window hears
  // nothing. `Next` above is the evidently intended behaviour.

  /** One event as the program is written: the same as `Next`, except that a
      worker's failure ends the job without reaching the window. */
  function NextAsWritten(sys: System, e: Event): (r: System)
    ensures r.running == Next(sys, e).running
    ensures e.WorkerDone? && |sys.running| > 0
         && Worker(sys.running[0].url, sys.running[0].output, sys.gui.quality, e.metadata, e.fetched).callback.Failed?
         ==> r.gui == sys.gui && r.dialogs == sys.dialogs
    ensures r != Next(sys, e) ==> e.WorkerDone? && |sys.running| > 0 && r.gui == sys.gui && r.dialogs == sys.dialogs
  {
    match e
    case WorkerDone(info, fetched) =>
      if |sys.running| > 0
         && Worker(sys.running[0].url, sys.running[0].output, sys.gui.quality, info, fetched).callback.Failed?
      then sys.(running := sys.running[1..])
      else Next(sys, e)
    case _ => Next(sys, e)
  }

  /** The events applied in order, as written. Each adds at most one worker,
      and dialogs are only ever added. */
  function RunAsWritten(sys: System, events: seq<Event>): (r: System)
    ensures sys.dialogs <= r.dialogs
    ensures |r.running| <= |sys.running| + |events|
    decreases |events|
  {
    if |events| == 0 then sys else RunAsWritten(NextAsWritten(sys, events[0]), events[1..])
  }

  /** As written, a failed metadata lookup or download leaves the window busy
      with the button disabled and no worker, shows no dialog, and breaks
      the intended invariant; a click then does nothing. */
  lemma FailureLeavesWindowStuck(sys: System, info: Outcome<set<string>>, fetched: Outcome<()>)
    requires Consistent(sys) && |sys.running| == 1
    requires info.Failure? || fetched.Failure?
    ensures var after := NextAsWritten(sys, WorkerDone(info, fetched));
      && after.gui == sys.gui && after.dialogs == sys.dialogs && after.running == []
      && after.gui.isDownloading && !after.gui.buttonEnabled
      && !Consistent(after)
      && NextAsWritten(after, Click) == after
  {
  }

  /** Once stuck, no sequence of events ever clears the busy flag, starts a
      worker or shows a dialog. */
  lemma {:induction false} StuckForever(sys: System, events: seq<Event>)
    requires sys.gui.isDownloading && !sys.gui.buttonEnabled && sys.running == []
    ensures RunAsWritten(sys, events).gui.isDownloading
    ensures !RunAsWritten(sys, events).gui.buttonEnabled
    ensures RunAsWritten(sys, events).running == []
    ensures RunAsWritten(sys, events).dialogs == sys.dialogs
    decreases |events|
  {
    if |events| > 0 {
      if events[0].Click? { BusyClickIgnored(sys); }
      StuckForever(NextAsWritten(sys, events[0]), events[1..]);
    }
  }

  /** What the program as written still keeps: at most one worker, only
      while the busy flag is set, and the button enabled exactly while the
      window is idle. */
  ghost predicate AtMostOneWorker(sys: System) {
    && |sys.running| <= 1
    && (|sys.running| == 1 ==> sys.gui.isDownloading)
    && (sys.gui.buttonEnabled <==> !sys.gui.isDownloading)
  }

  lemma NextAsWrittenAtMostOne(sys: System, e: Event)
    requires AtMostOneWorker(sys)
    ensures AtMostOneWorker(NextAsWritten(sys, e))
  {
  }

  /** As written, the window still never runs two downloads at once. */
  lemma {:induction false} RunAsWrittenAtMostOne(sys: System, events: seq<Event>)
    requires AtMostOneWorker(sys)
    ensures AtMostOneWorker(RunAsWritten(sys, events))
    decreases |events|
  {
    if |events| > 0 {
      NextAsWrittenAtMostOne(sys, events[0]);
      RunAsWrittenAtMostOne(NextAsWritten(sys, events[0]), events[1..]);
    }
  }
}
