# YouTube downloader: the decision layer of both front-ends

The repository has two front-ends over the `yt_dlp` media library:

- a text-prompt program, `youtube_downloader_cli.py`;
- a tkinter window, `youtube_downloader_gui.py`.

Both do little more than turn user input into an options dictionary and hand it to the library. This project models that decision layer in Dafny and proves what it promises.

- `text.dfy` (module `Text`): the string primitives, stated as Python evaluates them.
  - `str.strip()` with Python's complete `isspace` set.
  - The substring test `t in s`.
  - `str.lower()` on ASCII letters.
- `shared.dfy` (module `Shared`): what both front-ends share.
  - The option and outcome wrappers.
  - The two post-processor entries.
  - The playlist and single-file output templates.
  - POSIX `os.path.join` for two components.
- `cli.dfy` (module `Cli`): the prompt program.
  - The URL prompt's three-way decision (quit, re-prompt, accept).
  - The menu loop that reads the first valid token.
  - The option table and the fixed `ydl_opts` record.
  - The always-playlist output template.
  - The "download something else?" question.
  - The whole recursive session as a function over the lines the user types. The library's download is a function parameter.
- `gui.dfy` (module `Gui`): the window as an immutable state record.
  - Handlers return the new state plus effects: an error dialog, or the start of a worker thread.
  - The busy gate, the URL test, the two completion callbacks, the folder picker, the quality table, the template choice from the metadata, and the progress-hook decision.
  - A system of window, running workers and dialogs, driven by arbitrary event sequences. It proves that at most one download is ever in flight.
  - Two versions of a worker's completion. `Next` delivers both callbacks, as the program evidently intends. `NextAsWritten` follows the program as written, where a failure never reaches the window (see "## Findings").

## Model

| member | source | states |
|---|---|---|
| Text.Strip | youtube_downloader_cli.py:11 | The stripped line has no whitespace at either end. It is empty exactly when the whole line is whitespace. |
| Text.StripTrims | youtube_downloader_cli.py:11 | The stripped line is a slice of the input with only whitespace before and after it. |
| Text.StripUnique | youtube_downloader_gui.py:310 | Any tight string framed by whitespace inside `s` is `s.strip()`, so strip is fully determined by that description. |
| Text.StripIdempotent | youtube_downloader_cli.py:29 | Stripping twice gives the same as stripping once. |
| Text.Contains | youtube_downloader_cli.py:17 | `t in s` holds exactly when `t` occurs at some index of `s`. |
| Text.MissingFirstLetter | youtube_downloader_gui.py:311 | A string lacking the first letter of `t` does not contain `t`. |
| Text.Lower | youtube_downloader_cli.py:13 | Lower-casing keeps the length and maps each character on its own: A–Z to a–z, everything else unchanged. |
| Text.LowerIdempotent | youtube_downloader_cli.py:13 | Lower-casing twice equals once. Text without capitals is unchanged. |
| Shared.FirstSome | youtube_downloader_cli.py:28-32 | Returns the first present element and its index; every earlier element is absent. Returns nothing exactly when all elements are absent. |
| Shared.FirstSomeFinds | youtube_downloader_cli.py:28-32 | If element `k` is present and all earlier ones are absent, the result is element `k` at index `k`. |
| Shared.JoinPath | youtube_downloader_gui.py:343-347 | An absolute name replaces the directory. A relative name is appended with one '/' only if the directory is non-empty and lacks a trailing '/'. |
| Shared.JoinKeepsBoth | youtube_downloader_gui.py:343-347 | A relative name joined under a directory keeps the directory as prefix and the name as suffix. |
| Cli.ClassifyUrl | youtube_downloader_cli.py:11-19 | Quit iff the line is blank or its stripped, lower-cased form is exit, quit or q. Otherwise re-prompt iff the stripped URL contains neither "youtube.com" nor "youtu.be". An accepted URL is the stripped, non-empty line. |
| Cli.ClassifyIgnoresSurroundingSpace | youtube_downloader_cli.py:11 | The decision depends only on the stripped line. |
| Cli.AcceptedUrlIsStable | youtube_downloader_cli.py:11-19 | An accepted URL, classified again, is accepted unchanged. |
| Cli.ExitWordsQuit | youtube_downloader_cli.py:13-15 | "q" and "EXIT" quit: the exit test runs before the host test, in any letter case. |
| Cli.NoLetterYRetries | youtube_downloader_cli.py:17-19 | A non-blank, non-exit line with no 'y' is re-prompted. |
| Cli.ShortLinkAccepted | youtube_downloader_cli.py:17-19 | Any line whose stripped form starts with "https://youtu.be/" is accepted as that stripped link. |
| Cli.ParseChoice | youtube_downloader_cli.py:29-31 | An answer is valid iff its stripped form is "1", "2" or "3", and the choice's token is exactly that stripped form. |
| Cli.TokenRoundTrip | youtube_downloader_cli.py:30 | Each choice's token parses back to that choice. |
| Cli.ReadChoice | youtube_downloader_cli.py:28-32 | The loop stops at the first valid line and returns its choice; every earlier line was invalid. With no valid line, all input is consumed. |
| Cli.CliTable | youtube_downloader_cli.py:34-57 | Only choice 1 has a merge format, and it is "mp4". The post-processors are: choice 1, convert to mp4; choice 2, none; choice 3, extract m4a at 192. Exactly the two video rows start with the H.264 ≤1080 selector. |
| Cli.CliSelectors | youtube_downloader_cli.py:35-50 | Both video rows first ask for H.264 mp4 video of at most 1080 lines. Row 1 merges m4a audio into it (`+bestaudio[ext=m4a]`), and row 2 never asks for audio. The audio row first asks for m4a audio and never for video. |
| Cli.CliOutputTemplate | youtube_downloader_cli.py:60 | The template is always the playlist form, never the single-file form. |
| Cli.BuildCliOptions | youtube_downloader_cli.py:62-71 | Every record has noplaylist, quiet and no_warnings false and player clients ["default", "ios"]. The template is the playlist form. Format, merge format and post-processors come from the chosen row. |
| Cli.OptionsDetermineChoice | youtube_downloader_cli.py:34-71 | Different choices always give different option records. |
| Cli.ContinueSession | youtube_downloader_cli.py:91-93 | The session continues iff the answer is entirely whitespace. |
| Cli.Session | youtube_downloader_cli.py:5-93 | Every attempt except a final one cut off by end of input consumes at least three lines (URL, choice, answer), so there are at most (lines + 1) / 3 attempts. A session ends "declined" only after an attempt. |
| Cli.Round | youtube_downloader_cli.py:28-93 | After an accepted URL, each attempt again consumes three lines. A "declined" ending follows an attempt. |
| Cli.AttemptsWellFormed | youtube_downloader_cli.py:11-71 | Every download in a session goes to a URL the classifier accepted, with the options built from that attempt's own choice. |
| Cli.RoundWellFormed | youtube_downloader_cli.py:28-93 | The same, for the part of a session after an accepted URL. |
| Cli.OutcomeIrrelevant | youtube_downloader_cli.py:77-93 | For any two library behaviours, the URLs and choices downloaded and the way the session ends are the same. Success and failure lead to the same question. |
| Cli.RoundOutcomeIrrelevant | youtube_downloader_cli.py:77-93 | The same, after an accepted URL. |
| Cli.OneRound | youtube_downloader_cli.py:11-93 | An accepted URL, a valid choice and an answer make exactly one attempt with that stripped URL and choice's options. A blank answer continues with the remaining lines; any other text ends the session as declined. |
| Cli.RoundAfterValidChoice | youtube_downloader_cli.py:28-93 | The same, from the menu prompt on. |
| Gui.InitialState | youtube_downloader_gui.py:22-25 | The window starts idle with the button enabled, quality "1", progress 0 and the placeholder in the URL field. The output directory is the home directory joined with "Downloads", so it lies strictly under the home directory. |
| Gui.StartDownload | youtube_downloader_gui.py:306-324 | When busy: no change and no effect. A stripped URL without "youtube": state unchanged, one "Invalid URL" dialog. Otherwise: busy flag set, button disabled, status "Starting download...", progress 0, and one worker started with the stripped URL and the output path. |
| Gui.PlaceholderRejected | youtube_downloader_gui.py:132 | Pressing the button on the untouched window shows "Invalid URL" and starts nothing. |
| Gui.PlaceholderSurvivesStrip | youtube_downloader_gui.py:132 | The placeholder is unchanged by stripping. |
| Gui.PlaceholderLacksKeyword | youtube_downloader_gui.py:311 | The placeholder does not contain lower-case "youtube". |
| Gui.StartsAtMostOneWorker | youtube_downloader_gui.py:306-324 | A press has at most one effect. It starts a worker iff the window was idle and the stripped URL passed the test. |
| Gui.OnComplete | youtube_downloader_gui.py:374-377 | Clears the busy flag, re-enables the button and sets status "Download completed". Nothing else changes and there is no dialog. |
| Gui.OnError | youtube_downloader_gui.py:379-383 | Clears the busy flag, re-enables the button, sets status "Error" and shows the library's message. Nothing else changes. |
| Gui.CallbacksDifferOnlyInReport | youtube_downloader_gui.py:374-383 | Both callbacks leave the window idle and enabled. Their states differ only in the status text; the error callback adds one dialog. |
| Gui.BrowseFolder | youtube_downloader_gui.py:301-304 | A cancelled dialog (empty answer) leaves the path. Any other answer becomes the path. No other field changes. |
| Gui.QualityRow | youtube_downloader_gui.py:332-341 | Quality "1" remuxes to mp4, "2" has no post-processors, and every other value extracts m4a audio. |
| Gui.QualitySelectors | youtube_downloader_gui.py:333-340 | Qualities "1" and "2" first ask for mp4 video of at most 1080 lines. "1" merges m4a audio into it, and "2" never asks for audio. Every other value first asks for m4a audio and never for video. |
| Gui.UnknownQualityIsAudio | youtube_downloader_gui.py:339-341 | Any quality other than "1" or "2" gets exactly the row of "3". |
| Gui.FrontEndsAgreeOnPostprocessing | youtube_downloader_gui.py:332-341 | For the same menu entry, the window and the prompt program use the same post-processors. Every selector differs. Row 1 is the H.264 ≤1080 selector in the prompt program and the mp4 ≤1080 selector in the window, both followed by the same m4a merge and `/best[ext=mp4]` fallback. The prompt program's row 2 is the H.264 selector, a '/', then the window's row 2. The prompt program's row 3 is the window's row 3 followed by `/best`. |
| Gui.BuildGuiOptions | youtube_downloader_gui.py:330-354 | Format and post-processors come from the quality row, and one progress hook is registered. The template is the playlist form joined under the output directory iff the metadata has "entries", otherwise the single-file form. |
| Gui.TemplateUnderOutput | youtube_downloader_gui.py:343-347 | The template starts with the output directory and ends with the chosen file pattern, with at most one separator between them. |
| Gui.Worker | youtube_downloader_gui.py:326-362 | The callback the worker schedules. A failed metadata lookup builds no options and schedules a failure with its message. Otherwise the options are built from the metadata; the run completes iff the download succeeded, and otherwise schedules a failure with the download's message. |
| Gui.WorkerOutcomeOnlyDecidesReport | youtube_downloader_gui.py:349-362 | The options do not depend on the download's outcome. A run completes iff both the metadata lookup and the download succeed. |
| Gui.Deliver | youtube_downloader_gui.py:374-383 | A callback that runs on the window leaves it idle and enabled, with nothing but the flag, button and status changed. As written only the success callback runs (see "## Findings"). |
| Gui.SelectedTotal | youtube_downloader_gui.py:366 | The total is `total_bytes` when present and non-zero. Otherwise it is the estimate, or 0 when that is missing. |
| Gui.ProgressUpdate | youtube_downloader_gui.py:364-372 | An update is posted iff the status is "downloading" and the selected total is non-zero. It carries the downloaded bytes (0 when missing) over that total. |
| Gui.HookFiresIffSomeTotal | youtube_downloader_gui.py:364-372 | An update fires iff the status is "downloading" and one of the two totals is a non-zero number. The exact total wins over the estimate, and the total used is never 0. |
| Gui.ApplyProgress | youtube_downloader_gui.py:369-372 | A posted update changes only the progress bar. With no update, nothing changes. |
| Gui.Next | youtube_downloader_gui.py:306-383 | One event on the window, with both callbacks delivered. A click runs the button handler and adds at most one worker. Edits, picks and progress reports leave the workers, dialogs, busy flag and button alone, and a progress report changes only the progress bar. A completion with no worker running changes nothing. Otherwise it ends the oldest worker, leaves the window idle and enabled with only the status changed, and adds the error dialog exactly when the worker failed. Dialogs are only ever added. |
| Gui.Run | youtube_downloader_gui.py:306-383 | A sequence of events never removes a dialog and adds at most one worker per event. |
| Gui.InitialConsistent | youtube_downloader_gui.py:22-25 | The fresh window runs no worker, is idle and has the button enabled. |
| Gui.NextConsistent | youtube_downloader_gui.py:306-383 | With both callbacks delivered, every event keeps the invariant: at most one worker runs, exactly while the busy flag is set, and the button is enabled exactly while none runs. |
| Gui.RunConsistent | youtube_downloader_gui.py:306-383 | With both callbacks delivered, the invariant holds after any sequence of clicks, edits, folder picks, progress reports and worker completions. |
| Gui.BusyClickIgnored | youtube_downloader_gui.py:306-308 | While a download runs, pressing the button changes nothing: no state change, no new worker and no dialog. |
| Gui.FailureLeavesWindowStuck | youtube_downloader_gui.py:361-362 | As written, a failed lookup or download while the one worker runs ends that worker but leaves the window unchanged. It stays busy with the button disabled, shows no dialog and breaks the invariant; a click then does nothing. |
| Gui.NextAsWritten | youtube_downloader_gui.py:359-362 | As written, the worker list evolves exactly as in `Next`. A completion whose worker failed leaves the window and the dialogs unchanged, and that is the only event where the two versions differ. |
| Gui.RunAsWritten | youtube_downloader_gui.py:306-362 | As written, a sequence of events never removes a dialog and adds at most one worker per event. |
| Gui.StuckForever | youtube_downloader_gui.py:306-308 | As written, once the window is busy with no worker, no sequence of events clears the busy flag, enables the button, starts a worker or shows a dialog. |
| Gui.NextAsWrittenAtMostOne | youtube_downloader_gui.py:306-362 | As written, every event keeps a weaker invariant: at most one worker, only while the busy flag is set, and the button enabled exactly while the window is idle. |
| Gui.RunAsWrittenAtMostOne | youtube_downloader_gui.py:306-362 | As written, that weaker invariant holds after any sequence of events, so the window never runs two downloads at once. |

## Left out

- Layout and styling: the tkinter widgets, styles, colour table, button colours and window centring are not modelled. They have no behaviour beyond what the state record holds.
- The focus handlers that clear and restore the placeholder: they are not modelled separately. A change of the URL field, by typing or by focus, is the `EditUrl` event.
- The media library (`extract_info`, `download`): each call is an opaque input. The metadata lookup is its key set or an error message; the download is a success or an error message. The prompt program's download is a function parameter.
- Threading and `root.after` scheduling: not modelled. A worker is a job in the system's `running` list. Its completion, and each progress report, is an event that applies the posted callback at once. In `NextAsWritten`, a failure's callback applies nothing (see "## Findings").
- Gui.Worker: the quality is read when the worker's completion event happens, not at the moment the worker thread reads it. The program ignores a quality change made after the thread's read; the model uses such a change if it comes before the completion event.
- Gui.ProgressUpdate: the byte counts are integers. The library may report `total_bytes_estimate` as a float; only whether it is zero matters to the decision.
- Gui.ProgressUpdate: the percentage `downloaded / total * 100` is float arithmetic. The model keeps the pair (downloaded, total) rather than the quotient.
- Gui.ProgressUpdate: a `downloaded_bytes` key that is present but None raises a TypeError in the hook. The model treats it as missing (0). A missing `status` key, which raises a KeyError, is not modelled.
- Dialog titles, printed messages, `sys.exit` and `KeyboardInterrupt` are not modelled. The session's `UserQuit` ending stands for the exit, and dialogs are kept as their message text.
- Text.Lower: only ASCII letters are lower-cased, whereas Python's `str.lower()` also maps non-ASCII capitals. The exit decision is unaffected: no non-ASCII character lower-cases to e, x, i, t, q or u alone (U+0130 gives "i" followed by a combining dot), so no such line lower-cases to "exit", "quit" or "q".
- Cli.Session: Python's recursion limit is not modelled. Each re-prompt (youtube_downloader_cli.py:19) and each further round (youtube_downloader_cli.py:93) nests another `main()` call. After about a thousand nested calls the program stops with RecursionError, or a download inside the `try` fails with it. The model lets a session run for any number of lines.
- End of input: `input()` raising EOFError is the `InputExhausted` ending, not an exception.
- Shared.JoinPath: models POSIX `os.path.join`; the Windows form with drive letters and backslashes is not modelled.
- The `quiet` option of the window's metadata lookup, and the option dictionaries' key spelling, are not modelled: the library that reads them is opaque.

## Findings

| source | as written | input that shows it | evidently intended | confidence | as-written member | corrected member |
|---|---|---|---|---|---|---|
| youtube_downloader_gui.py:361-362 | The failure callback `lambda: self.on_error(str(e))` reads `e` when the toolkit runs it. Python unbinds `e` when the `except` clause ends, so the lambda raises NameError and `on_error` never runs. The window stays busy with the button disabled, and every later click returns at line 307. | A download running, then a failed metadata lookup or download: `WorkerDone(Failure("video unavailable"), Success(()))` | `on_error` runs: the window goes idle, the button is re-enabled and the error dialog appears | high; not executed | Gui.FailureLeavesWindowStuck | Gui.RunConsistent |
