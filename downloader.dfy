/** The YouTube download step: choosing the formats that can be fetched as
    one progressive mp4 file, and the error raised when there is none. The
    video-information request, the mirror race and the streaming download
    are collaborators given as parameters. */
module Downloader {
  import opened Wrappers
  import opened Seqs

  /** The container that downloads are saved in. */
  const MediaContainer: string := "mp4"

  const NoSuitableFormatMessage: string := "No suitable mp4 format found"

  /** One entry of the video information's format list. */
  datatype Format = Format(container: string, hasAudio: bool, isHLS: bool, isDashMPD: bool, url: string)

  /** A completed download: the candidate chosen by the race and the file written. */
  datatype Download = Download(url: string, file: string)

  predicate IsSuitable(f: Format)
  {
    f.container == MediaContainer && f.hasAudio && !f.isHLS && !f.isDashMPD
  }

  function SuitableFormats(formats: seq<Format>): seq<Format>
  {
    Filter(formats, IsSuitable)
  }

  /** `formats.map((f) => f.url)`. */
  function Urls(formats: seq<Format>): (urls: seq<string>)
    ensures |urls| == |formats|
    ensures forall i :: 0 <= i < |formats| ==> urls[i] == formats[i].url
  {
    if formats == [] then [] else [formats[0].url] + Urls(formats[1..])
  }

  /** The address whose video information is requested. */
  function VideoUrl(id: string): string
  {
    "https://youtu.be/" + id
  }

  /** The race among mirrors, modelled by the index of the winner; taking it
      modulo the number of candidates makes the winner one of them. */
  function Winner(candidates: seq<string>, race: seq<string> -> nat): (url: string)
    requires |candidates| > 0
    ensures url in candidates
  {
    candidates[race(candidates) % |candidates|]
  }

  /** `downloadYouTubeVideo(id, outputFile)`: `formatsOf` stands for the
      formats listed by the video information of a URL. */
  function DownloadYouTubeVideo(id: string, outputFile: string, formatsOf: string -> seq<Format>,
                                race: seq<string> -> nat): (r: Result<Download, string>)
    ensures r.Failure? <==> forall f :: f in formatsOf(VideoUrl(id)) ==> !IsSuitable(f)
    ensures r.Failure? ==> r.error == NoSuitableFormatMessage
    ensures r.Success? ==> r.value.file == outputFile &&
                           r.value.url in Urls(SuitableFormats(formatsOf(VideoUrl(id))))
  {
    var formats := SuitableFormats(formatsOf(VideoUrl(id)));
    if |formats| == 0 then
      assert forall f :: f in formatsOf(VideoUrl(id)) ==> !IsSuitable(f) by {
        forall f | f in formatsOf(VideoUrl(id)) ensures !IsSuitable(f) {
          if IsSuitable(f) { FilterKeeps(formatsOf(VideoUrl(id)), IsSuitable, f); }
        }
      }
      Failure(NoSuitableFormatMessage)
    else
      assert formats[0] in formats;
      Success(Download(Winner(Urls(formats), race), outputFile))
  }

  /** The kept formats are exactly the suitable ones, in their original
      order, each as often as listed. */
  lemma SuitableFormatsExactly(formats: seq<Format>)
    ensures IsSubsequence(SuitableFormats(formats), formats)
    ensures forall f :: f in SuitableFormats(formats) <==> f in formats && IsSuitable(f)
    ensures forall f :: multiset(SuitableFormats(formats))[f] == if IsSuitable(f) then multiset(formats)[f] else 0
  {
    FilterIsSubsequence(formats, IsSuitable);
    FilterMultiset(formats, IsSuitable);
  }
}
