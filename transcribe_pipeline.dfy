/** The transcription pipeline as it runs: an output directory whose files
    the steps write one at a time, and the loops of each step, each proved
    to do what its function in `PipelineSpec` says. */
module TranscribePipeline {
  import opened Wrappers
  import opened FidUtils
  import opened Transcribe
  import opened PipelineSpec
  import opened PipelineSteps
  import Downloader

  /** The output directory of a collection: its path, the names a listing
      shows, and what each file holds. Files are addressed by their name
      inside the directory. */
  class OutputDirectory {
    const path: string
    var names: seq<string>
    var contents: map<string, Content>

    ghost predicate Valid()
      reads this
    {
      WellFormed(Dir(names, contents))
    }

    function State(): Dir
      reads this
    {
      Dir(names, contents)
    }

    constructor (path: string, d: Dir)
      requires WellFormed(d)
      ensures Valid() && this.path == path && State() == d
    {
      this.path := path;
      names := d.names;
      contents := d.contents;
    }

    /** `fs.readdir(outputDirectory)`. */
    method ReadDir() returns (listing: seq<string>)
      ensures listing == names
    {
      listing := names;
    }

    /** Writing the file `name` of the directory. */
    method Write(name: string, c: Content)
      requires Valid()
      modifies this
      ensures Valid() && State() == Put(old(State()), name, c)
    {
      PutWellFormed(State(), name, c);
      if name !in names {
        names := names + [name];
      }
      contents := contents[name := c];
    }

    /** Reading the file `name`: nothing when it is absent. */
    method Read(name: string) returns (c: Option<Content>)
      ensures c == if name in contents then Some(contents[name]) else None
    {
      c := if name in contents then Some(contents[name]) else None;
    }
  }

  /** `getRemainingFids`. */
  method GetRemainingFids(fids: seq<ForeignId>, dir: OutputDirectory) returns (r: seq<ForeignId>)
    ensures r == GetUnprocessedVolumes(fids, dir.names)
  {
    var listing := dir.ReadDir();
    r := GetUnprocessedVolumes(fids, listing);
  }

  /** `getTranscribedVolumes`. */
  method GetTranscribedVolumes(fids: seq<ForeignId>, svc: Services) returns (result: seq<ForeignId>)
    ensures result == TranscribedVolumes(fids, svc)
  {
    result := [];
    var i := 0;
    while i < |fids|
      invariant 0 <= i <= |fids|
      invariant result + TranscribedVolumes(fids[i..], svc) == TranscribedVolumes(fids, svc)
    {
      var url := svc.mediaUrlForVideoId(fids[i].id);
      TranscribedVolumesStep(fids, i, svc);
      if TruthyString(url) {
        var found := [ForeignId(url.value, fids[i].volume)];
        assert result + (found + TranscribedVolumes(fids[i + 1..], svc)) ==
               (result + found) + TranscribedVolumes(fids[i + 1..], svc);
        result := result + found;
      }
      i := i + 1;
    }
    assert fids[i..] == [];
  }

  /** `downloadTranscripts`. */
  method DownloadTranscripts(transcribed: seq<ForeignId>, dir: OutputDirectory, svc: Services)
    returns (result: seq<ForeignId>)
    requires dir.Valid()
    modifies dir
    ensures dir.Valid()
    ensures result == OutputFiles(transcribed, dir.path)
    ensures dir.State() == SaveTranscripts(old(dir.State()), transcribed, svc)
  {
    ghost var final := SaveTranscripts(dir.State(), transcribed, svc);
    result := [];
    var i := 0;
    while i < |transcribed|
      invariant 0 <= i <= |transcribed| && dir.Valid()
      invariant SaveTranscripts(dir.State(), transcribed[i..], svc) == final
      invariant result == OutputFiles(transcribed[..i], dir.path)
    {
      var fid := transcribed[i];
      var prior := svc.mediaTranscript(fid.id);
      var transformed := Transcript(prior.segments, prior.timestamp, Some([prior.srtLink]), fid.volume);
      SaveTranscriptsStep(final, dir.State(), transcribed, i, svc);
      OutputFilesStep(transcribed, i, dir.path);
      dir.Write(MapFidToOutputFile(fid), TranscriptFile(transformed));
      result := result + [ForeignId(MapFidToOutputFile(fid, dir.path), fid.volume)];
      i := i + 1;
    }
    assert transcribed[i..] == [] && transcribed[..i] == transcribed;
  }

  /** `downloadTranscriptsAlreadyTranscribed`. */
  method DownloadTranscriptsAlreadyTranscribed(fids: seq<ForeignId>, dir: OutputDirectory, svc: Services)
    returns (result: seq<ForeignId>)
    requires dir.Valid()
    modifies dir
    ensures dir.Valid()
    ensures var available := TranscribedVolumes(GetUnprocessedVolumes(fids, old(dir.names)), svc);
      result == OutputFiles(available, dir.path) && dir.State() == SaveTranscripts(old(dir.State()), available, svc)
  {
    var notTranscribed := GetRemainingFids(fids, dir);
    var available := GetTranscribedVolumes(notTranscribed, svc);
    result := DownloadTranscripts(available, dir, svc);
  }

  /** `downloadYouTubeVideos`: the first video without a suitable format
      ends the step with that error. */
  method DownloadYouTubeVideos(fids: seq<ForeignId>, dir: OutputDirectory, svc: Services)
    returns (r: Result<seq<ForeignId>, PipelineError>)
    requires dir.Valid()
    modifies dir
    ensures dir.Valid()
    ensures Step(r, dir.State()) == DownloadVideos(old(dir.State()), dir.path, fids, svc)
  {
    ghost var final := DownloadVideos(dir.State(), dir.path, fids, svc);
    var result := [];
    var i := 0;
    PrependNothing(final.outcome);
    while i < |fids|
      invariant 0 <= i <= |fids| && dir.Valid()
      invariant var rest := DownloadVideos(dir.State(), dir.path, fids[i..], svc);
        final == Step(PrependAll(result, rest.outcome), rest.dir)
    {
      var fid := fids[i];
      assert fids[i..][0] == fid && fids[i..][1..] == fids[i + 1..];
      var outputFile := MapFidToOutputFile(fid, dir.path, ".mp4");
      var download := Downloader.DownloadYouTubeVideo(fid.id, outputFile, svc.formatsOf, svc.race);
      if download.Failure? {
        return Failure(DownloadFailed(fid.id, download.error));
      }
      ghost var before := dir.State();
      dir.Write(MapFidToOutputFile(fid, "", ".mp4"), MediaFile(download.value.url));
      ghost var rest := DownloadVideos(dir.State(), dir.path, fids[i + 1..], svc);
      assert DownloadVideos(before, dir.path, fids[i..], svc) ==
             Step(PrependAll([ForeignId(download.value.file, fid.volume)], rest.outcome), rest.dir);
      PrependAllAssoc(result, [ForeignId(download.value.file, fid.volume)], rest.outcome);
      result := result + [ForeignId(download.value.file, fid.volume)];
      i := i + 1;
    }
    assert fids[i..] == [] && result + [] == result;
    r := Success(result);
  }

  /** One pass of the loop of `transcribeDownloadedVideos`: transcribes the
      media and writes the volume's transcript file. */
  method TranscribeVideo(video: ForeignId, dir: OutputDirectory, noiseReductionOff: bool, svc: Services, now: Timestamp)
    returns (r: Result<ForeignId, PipelineError>)
    requires dir.Valid()
    modifies dir
    ensures dir.Valid()
    ensures var media := JoinPath(dir.path, video.id);
      var t := TranscriptOf(media, svc.transcribe(media, noiseReductionOff), video.volume, now);
      (t.Failure? ==> r == Failure(t.error) && dir.State() == old(dir.State())) &&
      (t.Success? ==> r == Success(ForeignId(MapFidToOutputFile(video, dir.path), video.volume)) &&
                      dir.State() == Put(old(dir.State()), MapFidToOutputFile(video), TranscriptFile(t.value)))
  {
    var media := JoinPath(dir.path, video.id);
    var chunks := svc.transcribe(media, noiseReductionOff);
    var tokens := ChunkTokens(chunks);
    if tokens.None? {
      return Failure(TokensMissing(media));
    }
    if tokens.value == [] {
      return Failure(NoTokens(media));
    }
    var result := Transcript([BuildSegment(tokens.value)], now, None, video.volume);
    var outputFile := MapFidToOutputFile(video, dir.path);
    dir.Write(MapFidToOutputFile(video), TranscriptFile(result));
    r := Success(ForeignId(outputFile, video.volume));
  }

  /** `transcribeDownloadedVideos`: a media whose transcription has no token
      list, or no tokens at all, ends the step with that error. */
  method TranscribeDownloadedVideos(downloadedVideos: seq<ForeignId>, dir: OutputDirectory,
                                    targetCollection: Option<string>, svc: Services, now: Timestamp)
    returns (r: Result<seq<ForeignId>, PipelineError>)
    requires dir.Valid()
    modifies dir
    ensures dir.Valid()
    ensures Step(r, dir.State()) ==
            TranscribeVideos(old(dir.State()), dir.path, downloadedVideos, TruthyString(targetCollection), svc, now)
  {
    var noiseReductionOff := TruthyString(targetCollection);
    ghost var final := TranscribeVideos(dir.State(), dir.path, downloadedVideos, noiseReductionOff, svc, now);
    assert final == TranscribeVideos(old(dir.State()), dir.path, downloadedVideos, TruthyString(targetCollection), svc, now);
    var transcribed := [];
    var pending := downloadedVideos;
    PrependNothing(final.outcome);
    while pending != []
      invariant dir.Valid()
      invariant var rest := TranscribeVideos(dir.State(), dir.path, pending, noiseReductionOff, svc, now);
        final == Step(PrependAll(transcribed, rest.outcome), rest.dir)
      decreases |pending|
    {
      var video := pending[0];
      ghost var before := dir.State();
      var one := TranscribeVideo(video, dir, noiseReductionOff, svc, now);
      TranscribeLoopStep(final, transcribed, before, dir.State(), dir.path, pending, one,
                         noiseReductionOff, svc, now);
      if one.Failure? {
        r := Failure(one.error);
        assert Step(r, dir.State()) == final;
        return;
      }
      transcribed := transcribed + [one.value];
      pending := pending[1..];
    }
    assert transcribed + [] == transcribed;
    r := Success(transcribed);
  }

  /** `integrateTranscriptions`: reads each fid's transcript file in order;
      a missing or unreadable file ends it with that error. */
  method IntegrateTranscriptions(fids: seq<ForeignId>, dir: OutputDirectory, now: Timestamp)
    returns (r: Result<TranscriptSeries, PipelineError>)
    ensures r == Integrate(dir.State(), dir.path, fids, now)
  {
    var transcripts := [];
    var i := 0;
    PrependNothing(ReadTranscripts(dir.State(), dir.path, fids));
    while i < |fids|
      invariant 0 <= i <= |fids|
      invariant PrependAll(transcripts, ReadTranscripts(dir.State(), dir.path, fids[i..])) ==
                ReadTranscripts(dir.State(), dir.path, fids)
    {
      var fid := fids[i];
      assert fids[i..][0] == fid && fids[i..][1..] == fids[i + 1..];
      var file := dir.Read(MapFidToOutputFile(fid));
      if file.None? || !file.value.TranscriptFile? {
        return Failure(TranscriptUnreadable(MapFidToOutputFile(fid, dir.path)));
      }
      PrependAllAssoc(transcripts, [file.value.transcript], ReadTranscripts(dir.State(), dir.path, fids[i + 1..]));
      transcripts := transcripts + [file.value.transcript];
      i := i + 1;
    }
    assert fids[i..] == [] && transcripts + [] == transcripts;
    r := Success(TranscriptSeries(ContractVersion, now, now, transcripts));
  }

  /** `downloadAndTranscribe`: the transcripts already available from the
      prior transcription service (unless a target collection is given),
      then the missing videos, then the transcription of every media of a
      volume still without transcript. The report's `remaining` is what
      the closing warning lists. */
  method DownloadAndTranscribe(fids: seq<ForeignId>, dir: OutputDirectory, targetCollection: Option<string>,
                               svc: Services, now: Timestamp)
    returns (r: Result<Report, PipelineError>)
    requires dir.Valid()
    modifies dir
    ensures dir.Valid()
    ensures Run(r, dir.State()) ==
            DownloadAndTranscribeSpec(old(dir.State()), dir.path, fids, targetCollection, svc, now)
  {
    ghost var d0 := dir.State();
    var remainingFids := GetRemainingFids(fids, dir);
    var fromPrior := [];
    if !TruthyString(targetCollection) {
      fromPrior := DownloadTranscriptsAlreadyTranscribed(remainingFids, dir, svc);
    }
    assert dir.State() == AfterPrior(d0, fids, targetCollection, svc);
    assert fromPrior == OutputFiles(PriorVolumes(d0, fids, targetCollection, svc), dir.path);
    ghost var d1 := dir.State();
    remainingFids := GetRemainingFids(fids, dir);
    var listing := dir.ReadDir();
    var toDownload := GetMissingMedias(remainingFids, listing);
    var downloaded := DownloadYouTubeVideos(toDownload, dir, svc);
    if downloaded.Failure? {
      return Failure(downloaded.error);
    }
    listing := dir.ReadDir();
    var medias := GetMediasAlreadyDownloaded(remainingFids, listing);
    assert medias == ToTranscribe(d1, dir.State(), fids);
    var transcribed := TranscribeDownloadedVideos(medias, dir, targetCollection, svc, now);
    if transcribed.Failure? {
      return Failure(transcribed.error);
    }
    remainingFids := GetRemainingFids(fids, dir);
    r := Success(Report(fromPrior, toDownload, downloaded.value, medias, transcribed.value, remainingFids));
  }
}
