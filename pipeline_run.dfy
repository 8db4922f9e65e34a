/** Properties of a whole `downloadAndTranscribe` run: what it may write,
    that it never overwrites a file, that a successful run leaves no volume
    unprocessed, and that running it again changes nothing. */
module PipelineRun {
  import opened Wrappers
  import opened Seqs
  import opened FidUtils
  import opened Transcribe
  import opened PipelineSpec
  import opened PipelineSteps
  import Downloader

  // ---------------------------------------------------------------------
  // Which fids each phase works on

  /** Every prior transcript is fetched for a fid still unprocessed that has one. */
  lemma PriorVolumesFrom(d: Dir, fids: seq<ForeignId>, targetCollection: Option<string>, svc: Services)
    ensures forall p :: p in PriorVolumes(d, fids, targetCollection, svc) ==>
              exists f :: f in fids && f.volume == p.volume && IsUnprocessed(d.names, f) && HasPriorTranscript(svc, f)
  {
    if !TruthyString(targetCollection) {
      var u := GetUnprocessedVolumes(fids, d.names);
      UnprocessedIdempotent(fids, d.names);
      UnprocessedVolumesExactly(fids, d.names);
      TranscribedVolumesFrom(u, svc);
    }
  }

  /** The prior transcripts land on transcript files of `fids` absent from `d`. */
  lemma PriorNames(d: Dir, fids: seq<ForeignId>, targetCollection: Option<string>, svc: Services)
    ensures var ws := PriorVolumes(d, fids, targetCollection, svc);
      JsonNames(ws) <= JsonNames(fids) && forall n :: n in JsonNames(ws) ==> n !in d.names
  {
    var ws := PriorVolumes(d, fids, targetCollection, svc);
    PriorVolumesFrom(d, fids, targetCollection, svc);
    forall p | p in ws ensures MapFidToOutputFile(p) in JsonNames(fids) && MapFidToOutputFile(p) !in d.names {
      var f :| f in fids && f.volume == p.volume && IsUnprocessed(d.names, f) && HasPriorTranscript(svc, f);
      assert MapFidToOutputFile(p) == MapFidToOutputFile(f);
    }
  }

  /** Each fid queued for download is one of `fids`, unprocessed and without media in `d1`. */
  lemma ToDownloadFrom(d1: Dir, fids: seq<ForeignId>)
    ensures forall f :: f in ToDownload(d1, fids) ==>
              f in fids && IsUnprocessed(d1.names, f) && !HasMedia(d1.names, f) &&
              MapFidToOutputFile(f, "", ".mp4") !in d1.names
  {
    var u := GetUnprocessedVolumes(fids, d1.names);
    UnprocessedVolumesExactly(fids, d1.names);
    MissingIffNotDownloaded(u, d1.names);
  }

  /** Each media queued for transcription belongs to a fid of `fids` that was
      unprocessed in `d1` and has media in `d2`. */
  lemma ToTranscribeFrom(d1: Dir, d2: Dir, fids: seq<ForeignId>)
    ensures forall m :: m in ToTranscribe(d1, d2, fids) ==>
              exists g :: g in fids && g.volume == m.volume && IsUnprocessed(d1.names, g) && HasMedia(d2.names, g)
  {
    var u := GetUnprocessedVolumes(fids, d1.names);
    UnprocessedVolumesExactly(fids, d1.names);
    forall m | m in ToTranscribe(d1, d2, fids)
      ensures exists g :: g in fids && g.volume == m.volume && IsUnprocessed(d1.names, g) && HasMedia(d2.names, g)
    {
      MediaVolumes(u, d2.names, m);
    }
  }

  // ---------------------------------------------------------------------
  // The phases

  lemma PriorPhase(d: Dir, fids: seq<ForeignId>, targetCollection: Option<string>, svc: Services)
    requires WellFormed(d)
    ensures var d1 := AfterPrior(d, fids, targetCollection, svc);
      WellFormed(d1) && Grows(d, d1) && NeverOverwrites(d, d1) && OnlyWrites(d, d1, JsonNames(fids)) &&
      TranscriptsStored(d1, PriorVolumes(d, fids, targetCollection, svc))
  {
    var ws := PriorVolumes(d, fids, targetCollection, svc);
    if !TruthyString(targetCollection) {
      SaveTranscriptsFacts(d, ws, svc);
      SaveTranscriptsWellFormed(d, ws, svc);
      PriorNames(d, fids, targetCollection, svc);
      FreshWrites(d, AfterPrior(d, fids, targetCollection, svc), JsonNames(ws));
    }
  }

  lemma DownloadPhase(d1: Dir, path: string, fids: seq<ForeignId>, svc: Services)
    requires WellFormed(d1)
    ensures var d2 := DownloadVideos(d1, path, ToDownload(d1, fids), svc).dir;
      WellFormed(d2) && Grows(d1, d2) && NeverOverwrites(d1, d2) && OnlyWrites(d1, d2, Mp4Names(fids))
  {
    var ws := ToDownload(d1, fids);
    var d2 := DownloadVideos(d1, path, ws, svc).dir;
    DownloadVideosFrame(d1, path, ws, svc);
    DownloadVideosWellFormed(d1, path, ws, svc);
    ToDownloadFrom(d1, fids);
    assert Mp4Names(ws) <= Mp4Names(fids);
    FreshWrites(d1, d2, Mp4Names(ws));
  }

  lemma TranscribePhase(d1: Dir, d2: Dir, path: string, fids: seq<ForeignId>, noiseReductionOff: bool,
                        svc: Services, now: Timestamp)
    requires WellFormed(d1) && WellFormed(d2) && OnlyWrites(d1, d2, Mp4Names(fids))
    ensures var d3 := TranscribeVideos(d2, path, ToTranscribe(d1, d2, fids), noiseReductionOff, svc, now).dir;
      WellFormed(d3) && Grows(d2, d3) && NeverOverwrites(d2, d3) && OnlyWrites(d2, d3, JsonNames(fids))
  {
    var ws := ToTranscribe(d1, d2, fids);
    var d3 := TranscribeVideos(d2, path, ws, noiseReductionOff, svc, now).dir;
    TranscribeVideosFrame(d2, path, ws, noiseReductionOff, svc, now);
    TranscribeVideosWellFormed(d2, path, ws, noiseReductionOff, svc, now);
    ToTranscribeFrom(d1, d2, fids);
    MediaWritesKeepTranscripts(d1, d2, fids, []);
    NamesAreFiles(d1);
    NamesAreFiles(d2);
    forall m | m in ws ensures MapFidToOutputFile(m) in JsonNames(fids) && MapFidToOutputFile(m) !in d2.names {
      var g :| g in fids && g.volume == m.volume && IsUnprocessed(d1.names, g) && HasMedia(d2.names, g);
      assert MapFidToOutputFile(m) == MapFidToOutputFile(g);
    }
    FreshWrites(d2, d3, JsonNames(ws));
  }

  // ---------------------------------------------------------------------
  // A whole run

  /** A run writes only transcript and mp4 files of the given volumes,
      never changes or removes a file that was there, and can only shrink
      the list of unprocessed volumes — whether it succeeds or not. */
  lemma RunFrame(d: Dir, path: string, fids: seq<ForeignId>, targetCollection: Option<string>,
                 svc: Services, now: Timestamp)
    requires WellFormed(d)
    ensures var r := DownloadAndTranscribeSpec(d, path, fids, targetCollection, svc, now);
      WellFormed(r.dir) && Grows(d, r.dir) && NeverOverwrites(d, r.dir) &&
      OnlyWrites(d, r.dir, JsonNames(fids) + Mp4Names(fids)) &&
      IsSubsequence(GetUnprocessedVolumes(fids, r.dir.names), GetUnprocessedVolumes(fids, d.names))
  {
    var r := DownloadAndTranscribeSpec(d, path, fids, targetCollection, svc, now);
    var d1 := AfterPrior(d, fids, targetCollection, svc);
    PriorPhase(d, fids, targetCollection, svc);
    var s2 := DownloadVideos(d1, path, ToDownload(d1, fids), svc);
    DownloadPhase(d1, path, fids, svc);
    GrowsTrans(d, d1, s2.dir);
    NeverOverwritesTrans(d, d1, s2.dir);
    OnlyWritesTrans(d, d1, s2.dir, JsonNames(fids), Mp4Names(fids), JsonNames(fids) + Mp4Names(fids));
    if s2.outcome.Success? {
      var s3 := TranscribeVideos(s2.dir, path, ToTranscribe(d1, s2.dir, fids), TruthyString(targetCollection), svc, now);
      TranscribePhase(d1, s2.dir, path, fids, TruthyString(targetCollection), svc, now);
      GrowsTrans(d, s2.dir, s3.dir);
      NeverOverwritesTrans(d, s2.dir, s3.dir);
      OnlyWritesTrans(d, s2.dir, s3.dir, JsonNames(fids) + Mp4Names(fids), JsonNames(fids), JsonNames(fids) + Mp4Names(fids));
      assert r.dir == s3.dir;
    }
    GrowsNames(d, r.dir);
    UnprocessedMonotone(fids, d.names, r.dir.names);
  }

  /** After a successful run every volume has its transcript file, so the
      end-of-run warning lists nothing. */
  lemma RunSuccessLeavesNothing(d: Dir, path: string, fids: seq<ForeignId>, targetCollection: Option<string>,
                                svc: Services, now: Timestamp)
    requires WellFormed(d)
    ensures var r := DownloadAndTranscribeSpec(d, path, fids, targetCollection, svc, now);
      r.outcome.Success? ==>
        r.outcome.value.remaining == [] && forall f :: f in fids ==> MapFidToOutputFile(f) in r.dir.names
  {
    var r := DownloadAndTranscribeSpec(d, path, fids, targetCollection, svc, now);
    var d1 := AfterPrior(d, fids, targetCollection, svc);
    var s2 := DownloadVideos(d1, path, ToDownload(d1, fids), svc);
    if r.outcome.Success? {
      var ws := ToTranscribe(d1, s2.dir, fids);
      var s3 := TranscribeVideos(s2.dir, path, ws, TruthyString(targetCollection), svc, now);
      PriorPhase(d, fids, targetCollection, svc);
      DownloadPhase(d1, path, fids, svc);
      TranscribePhase(d1, s2.dir, path, fids, TruthyString(targetCollection), svc, now);
      DownloadVideosSuccess(d1, path, ToDownload(d1, fids), svc);
      TranscribeVideosStores(s2.dir, path, ws, TruthyString(targetCollection), svc, now);
      GrowsTrans(d1, s2.dir, s3.dir);
      GrowsNames(d1, s2.dir);
      GrowsNames(d1, s3.dir);
      NamesAreFiles(s3.dir);
      var u := GetUnprocessedVolumes(fids, d1.names);
      forall f | f in fids ensures MapFidToOutputFile(f) in s3.dir.names {
        if MapFidToOutputFile(f) !in d1.names {
          FilterKeeps(fids, fid => IsUnprocessed(d1.names, fid), f);
          if !HasMedia(d1.names, f) {
            FilterKeeps(u, fid => !HasMedia(d1.names, fid), f);
          } else {
            HasMediaMonotone(f, d1.names, s2.dir.names);
          }
          MediaOfVolume(u, s2.dir.names, f);
          var m :| m in ws && m.volume == f.volume;
          assert MapFidToOutputFile(m) == MapFidToOutputFile(f);
        }
      }
      AllTranscribed(fids, s3.dir.names);
    }
  }

  /** What a successful run worked on: prior transcripts only for
      unprocessed fids that have one, downloads only for unprocessed fids
      without any media, transcriptions only for media of unprocessed fids,
      and each report lists the files written for them. */
  lemma RunTargets(d: Dir, path: string, fids: seq<ForeignId>, targetCollection: Option<string>,
                   svc: Services, now: Timestamp)
    requires WellFormed(d)
    ensures var r := DownloadAndTranscribeSpec(d, path, fids, targetCollection, svc, now);
      r.outcome.Success? ==>
        var rep := r.outcome.value;
        (forall p :: p in rep.fromPrior ==>
           exists f :: f in fids && f.volume == p.volume && IsUnprocessed(d.names, f) && HasPriorTranscript(svc, f)) &&
        (forall f :: f in rep.toDownload ==> f in fids && IsUnprocessed(d.names, f) && !HasMedia(d.names, f)) &&
        rep.downloaded == OutputFiles(rep.toDownload, path, ".mp4") &&
        (forall m :: m in rep.toTranscribe ==> exists f :: f in fids && f.volume == m.volume && IsUnprocessed(d.names, f)) &&
        rep.transcribed == OutputFiles(rep.toTranscribe, path)
  {
    var r := DownloadAndTranscribeSpec(d, path, fids, targetCollection, svc, now);
    var d1 := AfterPrior(d, fids, targetCollection, svc);
    var s2 := DownloadVideos(d1, path, ToDownload(d1, fids), svc);
    if r.outcome.Success? {
      var rep := r.outcome.value;
      var prior := PriorVolumes(d, fids, targetCollection, svc);
      PriorPhase(d, fids, targetCollection, svc);
      GrowsNames(d, d1);
      PriorVolumesFrom(d, fids, targetCollection, svc);
      forall p | p in rep.fromPrior
        ensures exists f :: f in fids && f.volume == p.volume && IsUnprocessed(d.names, f) && HasPriorTranscript(svc, f)
      {
        var i :| 0 <= i < |rep.fromPrior| && rep.fromPrior[i] == p;
        assert prior[i] in prior;
      }
      ToDownloadFrom(d1, fids);
      forall f | f in rep.toDownload ensures !HasMedia(d.names, f) {
        HasMediaMonotone(f, d.names, d1.names);
      }
      DownloadVideosSuccess(d1, path, ToDownload(d1, fids), svc);
      ToTranscribeFrom(d1, s2.dir, fids);
      TranscribeVideosReport(s2.dir, path, rep.toTranscribe, TruthyString(targetCollection), svc, now);
    }
  }

  /** A run in which every volume already has its transcript file changes
      nothing and reports nothing. */
  lemma RunWhenAllTranscribed(d: Dir, path: string, fids: seq<ForeignId>, targetCollection: Option<string>,
                              svc: Services, now: Timestamp)
    requires forall f :: f in fids ==> MapFidToOutputFile(f) in d.names
    ensures DownloadAndTranscribeSpec(d, path, fids, targetCollection, svc, now) ==
            Run(Success(Report([], [], [], [], [], [])), d)
  {
    AllTranscribed(fids, d.names);
    assert GetUnprocessedVolumes([], d.names) == [];
    assert GetMissingMedias([], d.names) == [];
  }

  /** Running again after a successful run changes nothing, whatever the
      services answer the second time. */
  lemma RunTwice(d: Dir, path: string, fids: seq<ForeignId>, targetCollection: Option<string>, svc: Services,
                 now: Timestamp, targetCollection2: Option<string>, svc2: Services, now2: Timestamp)
    requires WellFormed(d)
    ensures var r := DownloadAndTranscribeSpec(d, path, fids, targetCollection, svc, now);
      r.outcome.Success? ==>
        DownloadAndTranscribeSpec(r.dir, path, fids, targetCollection2, svc2, now2) ==
        Run(Success(Report([], [], [], [], [], [])), r.dir)
  {
    var r := DownloadAndTranscribeSpec(d, path, fids, targetCollection, svc, now);
    RunSuccessLeavesNothing(d, path, fids, targetCollection, svc, now);
    if r.outcome.Success? {
      RunWhenAllTranscribed(r.dir, path, fids, targetCollection2, svc2, now2);
    }
  }

  /** A successful run leaves every transcript file of the collection
      holding a transcript of its volume, provided those present before did. */
  lemma RunKeepsTranscriptFiles(d: Dir, path: string, fids: seq<ForeignId>, targetCollection: Option<string>,
                                svc: Services, now: Timestamp)
    requires TranscriptFilesMatch(d, fids)
    ensures var r := DownloadAndTranscribeSpec(d, path, fids, targetCollection, svc, now);
      r.outcome.Success? ==> TranscriptFilesMatch(r.dir, fids)
  {
    var r := DownloadAndTranscribeSpec(d, path, fids, targetCollection, svc, now);
    var d1 := AfterPrior(d, fids, targetCollection, svc);
    var s2 := DownloadVideos(d1, path, ToDownload(d1, fids), svc);
    if r.outcome.Success? {
      var ws := ToTranscribe(d1, s2.dir, fids);
      var s3 := TranscribeVideos(s2.dir, path, ws, TruthyString(targetCollection), svc, now);
      var prior := PriorVolumes(d, fids, targetCollection, svc);
      if !TruthyString(targetCollection) {
        SaveTranscriptsFacts(d, prior, svc);
        TranscriptFilesStillMatch(d, d1, prior, fids);
      }
      DownloadVideosFrame(d1, path, ToDownload(d1, fids), svc);
      MediaWritesKeepTranscripts(d1, s2.dir, ToDownload(d1, fids), fids);
      TranscribeVideosFrame(s2.dir, path, ws, TruthyString(targetCollection), svc, now);
      TranscribeVideosStores(s2.dir, path, ws, TruthyString(targetCollection), svc, now);
      TranscriptFilesStillMatch(s2.dir, s3.dir, ws, fids);
    }
  }

  /** After a successful run, integration succeeds with one transcript per
      volume in order, provided the transcript files already present held
      transcripts of their volumes. */
  lemma RunThenIntegrate(d: Dir, path: string, fids: seq<ForeignId>, targetCollection: Option<string>,
                         svc: Services, now: Timestamp, now2: Timestamp)
    requires WellFormed(d) && TranscriptFilesMatch(d, fids)
    ensures var r := DownloadAndTranscribeSpec(d, path, fids, targetCollection, svc, now);
      r.outcome.Success? ==>
        var series := Integrate(r.dir, path, fids, now2);
        series.Success? && |series.value.transcripts| == |fids| &&
        forall i :: 0 <= i < |fids| ==> series.value.transcripts[i].volume == fids[i].volume
  {
    var r := DownloadAndTranscribeSpec(d, path, fids, targetCollection, svc, now);
    if r.outcome.Success? {
      RunKeepsTranscriptFiles(d, path, fids, targetCollection, svc, now);
      RunSuccessLeavesNothing(d, path, fids, targetCollection, svc, now);
      RunFrame(d, path, fids, targetCollection, svc, now);
      NamesAreFiles(r.dir);
      forall i | 0 <= i < |fids| ensures HoldsTranscriptOf(r.dir, fids[i]) {
        assert fids[i] in fids;
      }
      IntegrateExactly(r.dir, path, fids, now2);
    }
  }

  /** Downloading depends only on the format listing and the mirror race. */
  lemma {:induction false} DownloadVideosServices(d: Dir, path: string, fids: seq<ForeignId>, svc: Services, svc2: Services)
    requires svc2.formatsOf == svc.formatsOf && svc2.race == svc.race
    decreases |fids|
    ensures DownloadVideos(d, path, fids, svc2) == DownloadVideos(d, path, fids, svc)
  {
    if fids != [] {
      var r := Downloader.DownloadYouTubeVideo(fids[0].id, MapFidToOutputFile(fids[0], path, ".mp4"), svc.formatsOf, svc.race);
      if r.Success? {
        DownloadVideosServices(Put(d, MapFidToOutputFile(fids[0], "", ".mp4"), MediaFile(r.value.url)), path, fids[1..], svc, svc2);
      }
    }
  }

  /** Transcribing depends only on the transcription service. */
  lemma {:induction false} TranscribeVideosServices(d: Dir, path: string, medias: seq<ForeignId>, noiseReductionOff: bool,
                                                    svc: Services, svc2: Services, now: Timestamp)
    requires svc2.transcribe == svc.transcribe
    decreases |medias|
    ensures TranscribeVideos(d, path, medias, noiseReductionOff, svc2, now) ==
            TranscribeVideos(d, path, medias, noiseReductionOff, svc, now)
  {
    if medias != [] {
      var media := JoinPath(path, medias[0].id);
      var t := TranscriptOf(media, svc.transcribe(media, noiseReductionOff), medias[0].volume, now);
      if t.Success? {
        TranscribeVideosServices(Put(d, MapFidToOutputFile(medias[0]), TranscriptFile(t.value)), path, medias[1..],
                                 noiseReductionOff, svc, svc2, now);
      }
    }
  }

  /** With a target collection the prior transcription service is never
      consulted: the run saves nothing from it and its outcome does not
      depend on its answers. */
  lemma RunWithTarget(d: Dir, path: string, fids: seq<ForeignId>, targetCollection: Option<string>,
                      svc: Services, svc2: Services, now: Timestamp)
    requires TruthyString(targetCollection)
    requires svc2.formatsOf == svc.formatsOf && svc2.race == svc.race && svc2.transcribe == svc.transcribe
    ensures var r := DownloadAndTranscribeSpec(d, path, fids, targetCollection, svc, now);
      DownloadAndTranscribeSpec(d, path, fids, targetCollection, svc2, now) == r &&
      (r.outcome.Success? ==> r.outcome.value.fromPrior == [])
  {
    var d1 := AfterPrior(d, fids, targetCollection, svc);
    assert AfterPrior(d, fids, targetCollection, svc2) == d1 == d;
    DownloadVideosServices(d1, path, ToDownload(d1, fids), svc, svc2);
    var s2 := DownloadVideos(d1, path, ToDownload(d1, fids), svc);
    TranscribeVideosServices(s2.dir, path, ToTranscribe(d1, s2.dir, fids), true, svc, svc2, now);
  }
}
