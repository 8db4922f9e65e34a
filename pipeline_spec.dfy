/** What each step of the transcription pipeline does to the output
    directory, as functions of the directory's contents, and what follows
    for resumability. The imperative steps in `TranscribePipeline` are
    proved equal to these. */
module PipelineSpec {
  import opened Wrappers
  import opened Seqs
  import opened FidUtils
  import opened Transcribe
  import Downloader

  /** What a file of the output directory holds. */
  datatype Content = TranscriptFile(transcript: Transcript) | MediaFile(source: string) | OtherFile

  /** A directory: the names a listing shows, in order, and each file's contents. */
  datatype Dir = Dir(names: seq<string>, contents: map<string, Content>)

  predicate WellFormed(d: Dir)
  {
    (forall i, j :: 0 <= i < j < |d.names| ==> d.names[i] != d.names[j]) &&
    (set n | n in d.names) == d.contents.Keys
  }

  /** Writing a file: a new name is listed last, an existing one is replaced. */
  function Put(d: Dir, name: string, c: Content): Dir
  {
    Dir(if name in d.names then d.names else d.names + [name], d.contents[name := c])
  }

  /** Nothing listed or stored in `d` disappears from `d2`, and the listing of
      `d` stays in front. */
  predicate Grows(d: Dir, d2: Dir)
  {
    d.names <= d2.names && (forall n :: n in d.contents ==> n in d2.contents)
  }

  /** Outside the names `w`, `d2` has exactly the files of `d`. */
  ghost predicate OnlyWrites(d: Dir, d2: Dir, w: set<string>)
  {
    forall n :: n !in w ==> (n in d.contents <==> n in d2.contents) &&
                            (n in d.contents ==> d2.contents[n] == d.contents[n])
  }

  /** Every file of `d` is in `d2` with the same contents. */
  predicate NeverOverwrites(d: Dir, d2: Dir)
  {
    forall n :: n in d.contents ==> n in d2.contents && d2.contents[n] == d.contents[n]
  }

  function JsonNames(fids: seq<ForeignId>): set<string>
  {
    set f | f in fids :: MapFidToOutputFile(f)
  }

  function Mp4Names(fids: seq<ForeignId>): set<string>
  {
    set f | f in fids :: MapFidToOutputFile(f, "", ".mp4")
  }

  /** The transcript file of `f` is in `d` and carries `f`'s volume. */
  predicate HoldsTranscriptOf(d: Dir, f: ForeignId)
  {
    MapFidToOutputFile(f) in d.contents &&
    d.contents[MapFidToOutputFile(f)].TranscriptFile? &&
    d.contents[MapFidToOutputFile(f)].transcript.volume == f.volume
  }

  /** The transcript file of every fid of `ws` is in `d` and carries that fid's volume. */
  predicate TranscriptsStored(d: Dir, ws: seq<ForeignId>)
  {
    forall i :: 0 <= i < |ws| ==> HoldsTranscriptOf(d, ws[i])
  }

  /** Every transcript file present for a fid of `fids` holds a transcript of its volume. */
  predicate TranscriptFilesMatch(d: Dir, fids: seq<ForeignId>)
  {
    forall i :: 0 <= i < |fids| && MapFidToOutputFile(fids[i]) in d.contents ==> HoldsTranscriptOf(d, fids[i])
  }

  // ---------------------------------------------------------------------
  // Collaborators and errors

  /** A transcript as the prior-transcription service returns it. */
  datatype PriorTranscript = PriorTranscript(segments: seq<Segment>, timestamp: Timestamp, srtLink: string)

  /** The external services: the prior-transcription lookup and download,
      the video formats listed for a URL, the mirror race and the
      transcription service (given the media path and whether noise
      reduction is switched off). */
  datatype Services = Services(
    mediaUrlForVideoId: string -> Option<string>,
    mediaTranscript: string -> PriorTranscript,
    formatsOf: string -> seq<Downloader.Format>,
    race: seq<string> -> nat,
    transcribe: (string, bool) -> seq<Chunk>)

  /** The exceptions that end a run. */
  datatype PipelineError =
    | DownloadFailed(videoId: string, message: string)
    | TokensMissing(media: string)
    | NoTokens(media: string)
    | TranscriptUnreadable(file: string)

  /** The outcome of one loop over fids together with the directory it leaves. */
  datatype Step = Step(outcome: Result<seq<ForeignId>, PipelineError>, dir: Dir)

  function PrependAll<T>(xs: seq<T>, o: Result<seq<T>, PipelineError>): Result<seq<T>, PipelineError>
  {
    match o
    case Success(v) => Success(xs + v)
    case Failure(e) => Failure(e)
  }

  /** `path.join(dir, name)` for a bare name. */
  function JoinPath(dir: string, name: string): string
  {
    if dir == "" then name else dir + "/" + name
  }

  /** `fids` with each id replaced by the fid's output file in `dir`. */
  function OutputFiles(fids: seq<ForeignId>, dir: string, ext: string := ".json"): (r: seq<ForeignId>)
    ensures |r| == |fids|
    ensures forall i :: 0 <= i < |fids| ==> r[i] == ForeignId(MapFidToOutputFile(fids[i], dir, ext), fids[i].volume)
  {
    if fids == [] then [] else [ForeignId(MapFidToOutputFile(fids[0], dir, ext), fids[0].volume)] + OutputFiles(fids[1..], dir, ext)
  }

  lemma OutputFilesAppend(fids: seq<ForeignId>, f: ForeignId, dir: string, ext: string)
    ensures OutputFiles(fids + [f], dir, ext) == OutputFiles(fids, dir, ext) + [ForeignId(MapFidToOutputFile(f, dir, ext), f.volume)]
  {
  }

  // ---------------------------------------------------------------------
  // The steps

  predicate HasPriorTranscript(svc: Services, fid: ForeignId)
  {
    TruthyString(svc.mediaUrlForVideoId(fid.id))
  }

  /** `getTranscribedVolumes`. */
  function TranscribedVolumes(fids: seq<ForeignId>, svc: Services): seq<ForeignId>
  {
    if fids == [] then []
    else
      var url := svc.mediaUrlForVideoId(fids[0].id);
      (if TruthyString(url) then [ForeignId(url.value, fids[0].volume)] else []) + TranscribedVolumes(fids[1..], svc)
  }

  function PriorToTranscript(p: PriorTranscript, volume: int): Transcript
  {
    Transcript(p.segments, p.timestamp, Some([p.srtLink]), volume)
  }

  /** The files `downloadTranscripts` writes. */
  function SaveTranscripts(d: Dir, fids: seq<ForeignId>, svc: Services): Dir
    decreases |fids|
  {
    if fids == [] then d
    else
      var t := PriorToTranscript(svc.mediaTranscript(fids[0].id), fids[0].volume);
      SaveTranscripts(Put(d, MapFidToOutputFile(fids[0]), TranscriptFile(t)), fids[1..], svc)
  }

  /** `downloadYouTubeVideos`: stops at the first video without a suitable format. */
  function DownloadVideos(d: Dir, path: string, fids: seq<ForeignId>, svc: Services): Step
    decreases |fids|
  {
    if fids == [] then Step(Success([]), d)
    else
      var file := MapFidToOutputFile(fids[0], path, ".mp4");
      match Downloader.DownloadYouTubeVideo(fids[0].id, file, svc.formatsOf, svc.race)
      case Failure(msg) => Step(Failure(DownloadFailed(fids[0].id, msg)), d)
      case Success(dl) =>
        var rest := DownloadVideos(Put(d, MapFidToOutputFile(fids[0], "", ".mp4"), MediaFile(dl.url)), path, fids[1..], svc);
        Step(PrependAll([ForeignId(dl.file, fids[0].volume)], rest.outcome), rest.dir)
  }

  /** The transcript written for one media, or why the service's answer is unusable. */
  function TranscriptOf(media: string, chunks: seq<Chunk>, volume: int, now: Timestamp): Result<Transcript, PipelineError>
  {
    match ChunkTokens(chunks)
    case None => Failure(TokensMissing(media))
    case Some(tokens) =>
      if tokens == [] then Failure(NoTokens(media))
      else Success(Transcript([BuildSegment(tokens)], now, None, volume))
  }

  /** `transcribeDownloadedVideos`: stops at the first media whose
      transcription has no tokens. */
  function TranscribeVideos(d: Dir, path: string, medias: seq<ForeignId>, noiseReductionOff: bool,
                            svc: Services, now: Timestamp): Step
    decreases |medias|
  {
    if medias == [] then Step(Success([]), d)
    else
      var media := JoinPath(path, medias[0].id);
      match TranscriptOf(media, svc.transcribe(media, noiseReductionOff), medias[0].volume, now)
      case Failure(e) => Step(Failure(e), d)
      case Success(t) =>
        var rest := TranscribeVideos(Put(d, MapFidToOutputFile(medias[0]), TranscriptFile(t)), path, medias[1..],
                                     noiseReductionOff, svc, now);
        Step(PrependAll([ForeignId(MapFidToOutputFile(medias[0], path), medias[0].volume)], rest.outcome), rest.dir)
  }

  /** What one run reports: the transcripts saved from the prior
      transcription service, the fids whose media was downloaded and the
      files written, the medias transcribed and the files written, and the
      volumes the end-of-run warning lists (it is issued iff there are any). */
  datatype Report = Report(fromPrior: seq<ForeignId>, toDownload: seq<ForeignId>, downloaded: seq<ForeignId>,
                           toTranscribe: seq<ForeignId>, transcribed: seq<ForeignId>, remaining: seq<ForeignId>)

  datatype Run = Run(outcome: Result<Report, PipelineError>, dir: Dir)

  /** The fids whose transcript is fetched from the prior transcription
      service: none when a target collection is set, otherwise those still
      unprocessed with a prior transcript, each carrying the lookup's URL. */
  function PriorVolumes(d: Dir, fids: seq<ForeignId>, targetCollection: Option<string>, svc: Services): seq<ForeignId>
  {
    if TruthyString(targetCollection) then []
    else TranscribedVolumes(GetUnprocessedVolumes(GetUnprocessedVolumes(fids, d.names), d.names), svc)
  }

  /** The directory once the prior transcripts are saved. */
  function AfterPrior(d: Dir, fids: seq<ForeignId>, targetCollection: Option<string>, svc: Services): Dir
  {
    if TruthyString(targetCollection) then d else SaveTranscripts(d, PriorVolumes(d, fids, targetCollection, svc), svc)
  }

  /** The fids still unprocessed in `d1` that have no media file there. */
  function ToDownload(d1: Dir, fids: seq<ForeignId>): seq<ForeignId>
  {
    GetMissingMedias(GetUnprocessedVolumes(fids, d1.names), d1.names)
  }

  /** The media files in `d2` of the fids that were unprocessed in `d1`. */
  function ToTranscribe(d1: Dir, d2: Dir, fids: seq<ForeignId>): seq<ForeignId>
  {
    GetMediasAlreadyDownloaded(GetUnprocessedVolumes(fids, d1.names), d2.names)
  }

  /** `downloadAndTranscribe`. */
  function DownloadAndTranscribeSpec(d: Dir, path: string, fids: seq<ForeignId>, targetCollection: Option<string>,
                                     svc: Services, now: Timestamp): Run
  {
    var d1 := AfterPrior(d, fids, targetCollection, svc);
    var toDownload := ToDownload(d1, fids);
    var s2 := DownloadVideos(d1, path, toDownload, svc);
    if s2.outcome.Failure? then Run(Failure(s2.outcome.error), s2.dir)
    else
      var toTranscribe := ToTranscribe(d1, s2.dir, fids);
      var s3 := TranscribeVideos(s2.dir, path, toTranscribe, TruthyString(targetCollection), svc, now);
      if s3.outcome.Failure? then Run(Failure(s3.outcome.error), s3.dir)
      else
        Run(Success(Report(OutputFiles(PriorVolumes(d, fids, targetCollection, svc), path), toDownload, s2.outcome.value,
                           toTranscribe, s3.outcome.value, GetUnprocessedVolumes(fids, s3.dir.names))), s3.dir)
  }

  /** The transcripts `integrateTranscriptions` reads, in fid order. */
  function ReadTranscripts(d: Dir, path: string, fids: seq<ForeignId>): Result<seq<Transcript>, PipelineError>
  {
    if fids == [] then Success([])
    else
      var name := MapFidToOutputFile(fids[0]);
      if name !in d.contents || !d.contents[name].TranscriptFile? then
        Failure(TranscriptUnreadable(MapFidToOutputFile(fids[0], path)))
      else
        PrependAll([d.contents[name].transcript], ReadTranscripts(d, path, fids[1..]))
  }

  /** `integrateTranscriptions`. */
  function Integrate(d: Dir, path: string, fids: seq<ForeignId>, now: Timestamp): Result<TranscriptSeries, PipelineError>
  {
    match ReadTranscripts(d, path, fids)
    case Success(ts) => Success(TranscriptSeries(ContractVersion, now, now, ts))
    case Failure(e) => Failure(e)
  }
}
