/**
 The text-prompt front-end. `main` reads a URL line, a format-choice line
 (repeating until it is valid), builds the options dictionary, hands it to
 the media library, and asks whether to go again. Here the recursion on
 `main()` becomes a function over the sequence of lines the user types, and
 the library's download is an opaque parameter.
 */
module Cli {
  import opened Text
  import opened Shared

  /** Lower-cased answers to the URL prompt that end the program. */
  const ExitWords: seq<string> := ["exit", "quit", "q"]

  /** What `main` does with the line typed at the URL prompt. */
  datatype UrlDecision =
    | Quit                 // empty or an exit word: say goodbye and exit
    | Retry                // not a YouTube address: warn and prompt again
    | Accept(url: string)  // go on to the format menu with this (stripped) URL

  /** A host marker the URL must contain to be accepted. */
  predicate HasYouTubeHost(url: string) {
    Contains(url, "youtube.com") || Contains(url, "youtu.be")
  }

  function ClassifyUrl(line: string): (d: UrlDecision)
    ensures d.Quit? <==> AllWhitespace(line) || Lower(Strip(line)) in ExitWords
    ensures d.Retry? <==> !d.Quit? &&
                          !exists i :: OccursAt(Strip(line), "youtube.com", i) || OccursAt(Strip(line), "youtu.be", i)
    ensures d.Accept? ==> d.url == Strip(line) && |d.url| > 0 && Tight(d.url)
  {
    var url := Strip(line);
    if |url| == 0 || Lower(url) in ExitWords then Quit
    else if !HasYouTubeHost(url) then Retry
    else Accept(url)
  }

  /** The decision depends on the stripped line only. */
  lemma {:induction false} ClassifyIgnoresSurroundingSpace(line: string)
    ensures ClassifyUrl(Strip(line)) == ClassifyUrl(line)
  {
    StripIdempotent(line);
  }

  /** An accepted URL, typed again, is accepted again unchanged. */
  lemma {:induction false} AcceptedUrlIsStable(line: string)
    requires ClassifyUrl(line).Accept?
    ensures ClassifyUrl(ClassifyUrl(line).url) == ClassifyUrl(line)
  {
    ClassifyIgnoresSurroundingSpace(line);
  }

  /** The exit test comes first: an exit word in any letter case quits,
      although it is no YouTube address. The general statement is the first
      ensures of ClassifyUrl; this lemma checks it on two concrete lines. */
  lemma ExitWordsQuit()
    ensures ClassifyUrl("q") == Quit
    ensures ClassifyUrl("EXIT") == Quit
  {
    StripTight("q");
    StripTight("EXIT");
    assert Lower("q") == "q";
    assert Lower("EXIT") == "exit";
  }

  /** A line without the letter 'y' that is not an exit line re-prompts. */
  lemma NoLetterYRetries(line: string)
    requires 'y' !in Strip(line)
    requires !AllWhitespace(line) && Lower(Strip(line)) !in ExitWords
    ensures ClassifyUrl(line) == Retry
  {
    MissingFirstLetter(Strip(line), "youtube.com");
    MissingFirstLetter(Strip(line), "youtu.be");
  }

  /** Any line whose stripped form is a short link is accepted as that link. */
  lemma ShortLinkAccepted(line: string)
    requires StartsWith(Strip(line), "https://youtu.be/")
    ensures ClassifyUrl(line) == Accept(Strip(line))
  {
    var u := Strip(line);
    assert |Lower(u)| == |u| >= 17;
    assert u[8..16] == u[..17][8..16] == "youtu.be";
    assert OccursAt(u, "youtu.be", 8);
  }

  /** The three entries of the format menu. */
  datatype Choice = VideoAudio | VideoOnly | AudioOnly

  /** The menu token that selects a choice. */
  function Token(c: Choice): string {
    match c
    case VideoAudio => "1"
    case VideoOnly => "2"
    case AudioOnly => "3"
  }

  /** One answer to "Choose (1 / 2 / 3)": a choice when the stripped line is a token. */
  function ParseChoice(line: string): (r: Option<Choice>)
    ensures r.Some? <==> Strip(line) in ["1", "2", "3"]
    ensures r.Some? ==> Token(r.value) == Strip(line)
  {
    match Strip(line)
    case "1" => Some(VideoAudio)
    case "2" => Some(VideoOnly)
    case "3" => Some(AudioOnly)
    case _ => None
  }

  /** Tokens and choices are in one-to-one correspondence. */
  lemma TokenRoundTrip(c: Choice)
    ensures ParseChoice(Token(c)) == Some(c)
  {
    var t := Token(c);
    assert Strip(t) == t by { assert TrimmedAt(t, t, 0); StripUnique(t, t, 0); }
  }

  /** How the menu loop reads each of the given lines. */
  function Answers(lines: seq<string>): (r: seq<Option<Choice>>)
    ensures |r| == |lines|
    ensures forall j :: 0 <= j < |lines| ==> r[j] == ParseChoice(lines[j])
  {
    seq(|lines|, j requires 0 <= j < |lines| => ParseChoice(lines[j]))
  }

  /** The `while True` menu loop: read lines until one is "1", "2" or "3".
      `consumed` counts the lines read; without a valid line the input runs out. */
  method ReadChoice(lines: seq<string>) returns (choice: Option<Choice>, consumed: nat)
    ensures consumed <= |lines|
    ensures choice.Some? ==> consumed >= 1 && ParseChoice(lines[consumed - 1]) == choice
    ensures choice.None? ==> consumed == |lines|
    ensures FirstSome(Answers(lines)) == if choice.None? then None else Some(Found(choice.value, consumed - 1))
  {
    var i := 0;
    while i < |lines|
      invariant i <= |lines|
      invariant forall j :: 0 <= j < i ==> ParseChoice(lines[j]).None?
    {
      var parsed := ParseChoice(lines[i]);
      if parsed.Some? {
        FirstSomeFinds(Answers(lines), i);
        return parsed, i + 1;
      }
      i := i + 1;
    }
    return None, |lines|;
  }

  /** One row of the option table selected by the menu choice. */
  datatype Row = Row(format: string, mergeFormat: Option<string>, postprocessors: seq<PostProcessor>, description: string)

  /** The option table, one row per menu choice. */
  function CliRow(c: Choice): Row {
    match c
    case VideoAudio =>
      Row(H264Upto1080 + ("+" + M4aAudio) + "/best[ext=mp4]", Some("mp4"), RemuxToMp4, "Video + Audio (mp4)")
    case VideoOnly =>
      Row(H264Upto1080 + "/" + Mp4Upto1080, None, [], "Video only (mp4, no audio)")
    case AudioOnly =>
      Row(M4aAudio + "/bestaudio/best", None, AudioToM4a, "Audio only (m4a)")
  }

  /** What each row promises: only the two-stream row merges (into mp4) and
      remuxes to mp4, the video-only row post-processes nothing, and the
      audio row extracts m4a audio. */
  lemma CliTable(c: Choice)
    ensures CliRow(c).mergeFormat.Some? <==> c == VideoAudio
    ensures CliRow(c).mergeFormat.Some? ==> CliRow(c).mergeFormat.value == "mp4"
    ensures c == VideoAudio ==> CliRow(c).postprocessors == RemuxToMp4
    ensures c == VideoOnly ==> CliRow(c).postprocessors == []
    ensures c == AudioOnly ==> CliRow(c).postprocessors == AudioToM4a
    ensures c != AudioOnly <==> StartsWith(CliRow(c).format, H264Upto1080)
  {
  }

  /** The rows' format selectors: both video rows first ask for H.264 mp4
      video of at most 1080 lines; the first adds m4a audio to it, the
      second never asks for audio; the audio row first asks for m4a audio
      and never for video. */
  lemma CliSelectors(c: Choice)
    ensures c != AudioOnly ==> StartsWith(CliRow(c).format, H264Upto1080)
    ensures c == VideoAudio ==> Contains(CliRow(c).format, "+" + M4aAudio)
    ensures c == VideoOnly ==> !Contains(CliRow(c).format, "audio")
    ensures c == AudioOnly ==> StartsWith(CliRow(c).format, M4aAudio) && !Contains(CliRow(c).format, "video")
  {
    match c
    case VideoAudio => VideoAudioMerges();
    case VideoOnly => VideoOnlyHasNoAudio();
    case AudioOnly => AudioOnlyHasNoVideo();
  }

  lemma VideoAudioMerges()
    ensures Contains(CliRow(VideoAudio).format, "+" + M4aAudio)
  {
    ContainsMiddle(H264Upto1080, "+" + M4aAudio, "/best[ext=mp4]");
  }

  lemma VideoOnlyHasNoAudio()
    ensures !Contains(CliRow(VideoOnly).format, "audio")
  {
    NoAudioInVideoSelectors();
    MissingFirstLetter(CliRow(VideoOnly).format, "audio");
  }

  lemma AudioOnlyHasNoVideo()
    ensures !Contains(CliRow(AudioOnly).format, "video")
  {
    assert 'v' !in M4aAudio && 'v' !in "/bestaudio/best";
    MissingFirstLetter(CliRow(AudioOnly).format, "video");
  }

  /** The literal the template conditional tests. */
  const PlaylistTitleField: string := "%(playlist_title)s"

  /** The output template as written: the condition is a non-empty literal,
      so the playlist form is chosen whatever was downloaded. */
  function CliOutputTemplate(): (t: string)
    ensures t == PlaylistTemplate && t != SingleTemplate
  {
    if Truthy(PlaylistTitleField) then PlaylistTemplate else SingleTemplate
  }

  /** The `ydl_opts` dictionary. */
  datatype CliOptions = CliOptions(
    format: string,
    outtmpl: string,
    mergeOutputFormat: Option<string>,
    postprocessors: seq<PostProcessor>,
    noPlaylist: bool,
    playerClients: seq<string>,   // extractor_args["youtube"]["player_client"]
    quiet: bool,
    noWarnings: bool)

  function BuildCliOptions(c: Choice): (o: CliOptions)
    ensures !o.noPlaylist && !o.quiet && !o.noWarnings
    ensures o.playerClients == ["default", "ios"]
    ensures o.outtmpl == PlaylistTemplate
    ensures o.format == CliRow(c).format
    ensures o.mergeOutputFormat == CliRow(c).mergeFormat
    ensures o.postprocessors == CliRow(c).postprocessors
  {
    var row := CliRow(c);
    CliOptions(row.format, CliOutputTemplate(), row.mergeFormat, row.postprocessors, false, ["default", "ios"], false, false)
  }

  /** Different menu choices never produce the same options. */
  lemma OptionsDetermineChoice(a: Choice, b: Choice)
    ensures BuildCliOptions(a) == BuildCliOptions(b) ==> a == b
  {
  }

  /** "Do you want to download something else?": an empty answer (after
      stripping) means yes, any other text means no. */
  function ContinueSession(line: string): (again: bool)
    ensures again <==> forall i :: 0 <= i < |line| ==> IsWhitespace(line[i])
  {
    Strip(line) == ""
  }

  /** A download handed to the media library, with what the library reported. */
  datatype Attempt = Attempt(url: string, choice: Choice, options: CliOptions, outcome: Outcome<()>)

  datatype Ending =
    | UserQuit        // empty or exit word at the URL prompt
    | Declined        // non-empty answer to "download something else?"
    | InputExhausted  // no more lines: `input()` raises EOFError in the program

  datatype SessionLog = SessionLog(attempts: seq<Attempt>, ending: Ending)

  /** Every attempt went to an accepted URL with the options of its own choice. */
  ghost predicate WellFormed(a: Attempt) {
    && ClassifyUrl(a.url) == Accept(a.url)
    && a.options == BuildCliOptions(a.choice)
  }

  /** The whole interactive session over the lines typed by the user; the
      download's outcome comes from `download`, standing for the library. */
  function Session(lines: seq<string>, download: (string, CliOptions) -> Outcome<()>): (log: SessionLog)
    ensures 3 * |log.attempts| <= |lines| + 1
    ensures log.ending == Declined ==> |log.attempts| > 0
    decreases |lines|
  {
    if |lines| == 0 then SessionLog([], InputExhausted)
    else match ClassifyUrl(lines[0])
      case Quit => SessionLog([], UserQuit)
      case Retry => Session(lines[1..], download)
      case Accept(url) => Round(url, lines[1..], download)
  }

  /** The rest of `main` once `url` is accepted: the menu loop, the download,
      and the "download something else?" question. */
  function Round(url: string, rest: seq<string>, download: (string, CliOptions) -> Outcome<()>): (log: SessionLog)
    ensures 3 * |log.attempts| <= |rest| + 2
    ensures log.ending == Declined ==> |log.attempts| > 0
    decreases |rest|
  {
    match FirstSome(Answers(rest))
    case None => SessionLog([], InputExhausted)
    case Some(pick) =>
      var options := BuildCliOptions(pick.value);
      var attempt := Attempt(url, pick.value, options, download(url, options));
      var after := rest[pick.at + 1..];
      if |after| == 0 then SessionLog([attempt], InputExhausted)
      else if !ContinueSession(after[0]) then SessionLog([attempt], Declined)
      else
        var tail := Session(after[1..], download);
        SessionLog([attempt] + tail.attempts, tail.ending)
  }

  /** Every download goes to a URL the classifier accepted, with the
      options of the choice the user made for it. */
  lemma {:induction false} AttemptsWellFormed(lines: seq<string>, download: (string, CliOptions) -> Outcome<()>)
    ensures forall k :: 0 <= k < |Session(lines, download).attempts| ==> WellFormed(Session(lines, download).attempts[k])
    decreases |lines|
  {
    if |lines| > 0 {
      match ClassifyUrl(lines[0])
      case Quit =>
      case Retry => AttemptsWellFormed(lines[1..], download);
      case Accept(url) =>
        AcceptedUrlIsStable(lines[0]);
        RoundWellFormed(url, lines[1..], download);
    }
  }

  lemma {:induction false} RoundWellFormed(url: string, rest: seq<string>, download: (string, CliOptions) -> Outcome<()>)
    requires ClassifyUrl(url) == Accept(url)
    ensures forall k :: 0 <= k < |Round(url, rest, download).attempts| ==> WellFormed(Round(url, rest, download).attempts[k])
    decreases |rest|
  {
    match FirstSome(Answers(rest))
    case None =>
    case Some(pick) =>
      var options := BuildCliOptions(pick.value);
      var attempt := Attempt(url, pick.value, options, download(url, options));
      var after := rest[pick.at + 1..];
      if |after| > 0 && ContinueSession(after[0]) {
        var tail := Session(after[1..], download).attempts;
        assert Round(url, rest, download).attempts == [attempt] + tail;
        assert WellFormed(attempt);
        AttemptsWellFormed(after[1..], download);
        AllCons(WellFormed, attempt, tail);
      }
  }

  /** The URL and choice of every attempt, without what the library reported. */
  function Requests(attempts: seq<Attempt>): (r: seq<(string, Choice)>)
    ensures |r| == |attempts|
    ensures forall k :: 0 <= k < |r| ==> r[k] == (attempts[k].url, attempts[k].choice)
  {
    seq(|attempts|, k requires 0 <= k < |attempts| => (attempts[k].url, attempts[k].choice))
  }

  lemma RequestsCons(a: Attempt, tail: seq<Attempt>)
    ensures Requests([a] + tail) == [(a.url, a.choice)] + Requests(tail)
  {
  }

  /** Success and failure are followed by the same question: what the user
      is asked for, and when the session ends, never depends on the library. */
  lemma {:induction false} OutcomeIrrelevant(lines: seq<string>, d1: (string, CliOptions) -> Outcome<()>, d2: (string, CliOptions) -> Outcome<()>)
    ensures Requests(Session(lines, d1).attempts) == Requests(Session(lines, d2).attempts)
    ensures Session(lines, d1).ending == Session(lines, d2).ending
    decreases |lines|
  {
    if |lines| > 0 {
      match ClassifyUrl(lines[0])
      case Quit =>
      case Retry => OutcomeIrrelevant(lines[1..], d1, d2);
      case Accept(url) => RoundOutcomeIrrelevant(url, lines[1..], d1, d2);
    }
  }

  lemma {:induction false} RoundOutcomeIrrelevant(url: string, rest: seq<string>, d1: (string, CliOptions) -> Outcome<()>, d2: (string, CliOptions) -> Outcome<()>)
    ensures Requests(Round(url, rest, d1).attempts) == Requests(Round(url, rest, d2).attempts)
    ensures Round(url, rest, d1).ending == Round(url, rest, d2).ending
    decreases |rest|
  {
    match FirstSome(Answers(rest))
    case None =>
    case Some(pick) =>
      var after := rest[pick.at + 1..];
      if |after| > 0 && ContinueSession(after[0]) {
        OutcomeIrrelevant(after[1..], d1, d2);
        var t1, t2 := Session(after[1..], d1), Session(after[1..], d2);
        var options := BuildCliOptions(pick.value);
        RequestsCons(Attempt(url, pick.value, options, d1(url, options)), t1.attempts);
        RequestsCons(Attempt(url, pick.value, options, d2(url, options)), t2.attempts);
      }
  }

  /** One full round (URL, valid choice, answer) makes exactly one attempt,
      with the stripped URL and the options of that choice, and the session
      goes on with the remaining lines iff the answer is blank. */
  lemma {:induction false} OneRound(url: string, choice: string, answer: string, more: seq<string>, download: (string, CliOptions) -> Outcome<()>)
    requires ClassifyUrl(url).Accept?
    requires ParseChoice(choice).Some?
    ensures
      var c := ParseChoice(choice).value;
      var options := BuildCliOptions(c);
      var attempt := Attempt(Strip(url), c, options, download(Strip(url), options));
      var next := Session(more, download);
      Session([url, choice, answer] + more, download)
        == if AllWhitespace(answer) then SessionLog([attempt] + next.attempts, next.ending)
           else SessionLog([attempt], Declined)
  {
    var lines := [url, choice, answer] + more;
    assert lines[0] == url && lines[1..] == [choice, answer] + more;
    assert Session(lines, download) == Round(Strip(url), [choice, answer] + more, download);
    RoundAfterValidChoice(Strip(url), choice, answer, more, download);
  }

  /** The part of OneRound after the URL was accepted. */
  lemma RoundAfterValidChoice(url: string, choice: string, answer: string, more: seq<string>, download: (string, CliOptions) -> Outcome<()>)
    requires ParseChoice(choice).Some?
    ensures
      var c := ParseChoice(choice).value;
      var options := BuildCliOptions(c);
      var attempt := Attempt(url, c, options, download(url, options));
      var next := Session(more, download);
      Round(url, [choice, answer] + more, download)
        == if AllWhitespace(answer) then SessionLog([attempt] + next.attempts, next.ending)
           else SessionLog([attempt], Declined)
  {
  }
}
