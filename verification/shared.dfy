/**
 Vocabulary shared by both front-ends: the option and result wrappers, the
 post-processing steps handed to the media library, the two output-file
 templates, and POSIX `os.path.join` for the GUI's destination directory.
 */
module Shared {

  datatype Option<+T> = None | Some(value: T)

  /** An element found in a sequence, with its index. */
  datatype Found<+T> = Found(value: T, at: nat)

  /** The first present element of `xs`. */
  function FirstSome<T>(xs: seq<Option<T>>): (r: Option<Found<T>>)
    ensures r.Some? ==> r.value.at < |xs| && xs[r.value.at] == Some(r.value.value)
    ensures r.Some? ==> forall j :: 0 <= j < r.value.at ==> xs[j].None?
    ensures r.None? <==> forall j :: 0 <= j < |xs| ==> xs[j].None?
  {
    if |xs| == 0 then None
    else if xs[0].Some? then Some(Found(xs[0].value, 0))
    else match FirstSome(xs[1..])
      case None =>
        assert forall j :: 1 <= j < |xs| ==> xs[j] == xs[1..][j - 1];
        None
      case Some(f) =>
        assert forall j :: 1 <= j <= f.at ==> xs[j] == xs[1..][j - 1];
        Some(Found(f.value, f.at + 1))
  }

  /** The first present element is unique: FirstSome finds exactly it. */
  lemma FirstSomeFinds<T>(xs: seq<Option<T>>, k: nat)
    requires k < |xs| && xs[k].Some?
    requires forall j :: 0 <= j < k ==> xs[j].None?
    ensures FirstSome(xs) == Some(Found(xs[k].value, k))
  {
  }

  /** A property of every element survives putting one more element that has it in front. */
  lemma AllCons<T>(p: T -> bool, a: T, tail: seq<T>)
    requires p(a)
    requires forall k :: 0 <= k < |tail| ==> p(tail[k])
    ensures forall k :: 0 <= k < |[a] + tail| ==> p(([a] + tail)[k])
  {
  }

  /** What the opaque media library reports back: a value, or the text of the exception it raised. */
  datatype Outcome<+T> = Success(value: T) | Failure(message: string)

  /** A post-processor entry of the options dictionary, keyed by its "key" field. */
  datatype PostProcessor =
    | VideoConvertor(preferedFormat: string)                            // {"key": "FFmpegVideoConvertor", "preferedformat": ...}
    | ExtractAudio(preferredCodec: string, preferredQuality: string)   // {"key": "FFmpegExtractAudio", ...}

  /** The post-processor list shared by both front-ends' "video + audio" row. */
  const RemuxToMp4: seq<PostProcessor> := [VideoConvertor("mp4")]

  /** The post-processor list shared by both front-ends' "audio only" row. */
  const AudioToM4a: seq<PostProcessor> := [ExtractAudio("m4a", "192")]

  /** Format-selector pieces. A selector is a `/`-separated list of fallbacks;
      `a+b` downloads two streams and merges them. */

  /** mp4 video of at most 1080 lines, in any codec. */
  const Mp4Upto1080: string := "bestvideo[ext=mp4][height<=1080]"

  /** H.264 video in an mp4 container, at most 1080 lines. */
  const H264Upto1080: string := "bestvideo[ext=mp4][vcodec=h264][height<=1080]"

  /** The best m4a audio stream. */
  const M4aAudio: string := "bestaudio[ext=m4a]"

  /** Neither video selector mentions the letter 'a', so neither asks for audio. */
  lemma NoAudioInVideoSelectors()
    ensures 'a' !in Mp4Upto1080 && 'a' !in H264Upto1080
  {
  }

  /** One file named after the video title. */
  const SingleTemplate: string := "%(title)s.%(ext)s"

  /** Files grouped in a directory per playlist, prefixed by their index in it:
      "%(playlist_title)s/%(playlist_index)s - %(title)s.%(ext)s". */
  const PlaylistTemplate: string := "%(playlist_title)s/" + "%(playlist_index)s - " + SingleTemplate

  /** Python truthiness of a string: only the empty string is false. */
  predicate Truthy(s: string) {
    |s| > 0
  }

  /** POSIX `os.path.join(dir, name)` for two components. */
  function JoinPath(dir: string, name: string): (r: string)
    ensures |name| > 0 && name[0] == '/' ==> r == name
    ensures |name| == 0 || name[0] != '/' ==>
      exists sep :: (sep == "" || sep == "/") && r == dir + sep + name
    ensures |name| == 0 || name[0] != '/' ==>
      (|r| == |dir| + 1 + |name| <==> |dir| > 0 && dir[|dir| - 1] != '/')
  {
    if |name| > 0 && name[0] == '/' then name
    else if |dir| == 0 || dir[|dir| - 1] == '/' then
      assert dir + name == dir + "" + name;
      dir + name
    else
      dir + "/" + name
  }

  /** A relative file name joined under a directory keeps the directory as
      its prefix and the file name as its suffix. */
  lemma JoinKeepsBoth(dir: string, name: string)
    requires |name| == 0 || name[0] != '/'
    ensures |JoinPath(dir, name)| >= |dir| + |name|
    ensures JoinPath(dir, name)[..|dir|] == dir
    ensures JoinPath(dir, name)[|JoinPath(dir, name)| - |name|..] == name
  {
  }
}
