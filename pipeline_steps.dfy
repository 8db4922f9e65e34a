/** Properties of each step of the transcription pipeline: which files it
    writes, what they hold, and when it fails. */
module PipelineSteps {
  import opened Wrappers
  import opened Seqs
  import opened FidUtils
  import opened Transcribe
  import opened PipelineSpec
  import Downloader

  // ---------------------------------------------------------------------
  // Directories

  /** A write lists the name, stores the contents and changes no other file. */
  lemma PutFacts(d: Dir, name: string, c: Content)
    ensures var d2 := Put(d, name, c);
      Grows(d, d2) && OnlyWrites(d, d2, {name}) && name in d2.names && name in d2.contents && d2.contents[name] == c
  {
  }

  /** A write keeps the directory well formed. */
  lemma PutWellFormed(d: Dir, name: string, c: Content)
    requires WellFormed(d)
    ensures WellFormed(Put(d, name, c))
  {
    var d2 := Put(d, name, c);
    if name !in d.names {
      forall i, j | 0 <= i < j < |d2.names| ensures d2.names[i] != d2.names[j] {
        if j == |d.names| {
          assert d2.names[i] == d.names[i] && d.names[i] in d.names;
        }
      }
    }
    assert (set n | n in d2.names) == (set n | n in d.names) + {name};
  }

  lemma PrefixKeeps(a: seq<string>, b: seq<string>, x: string)
    requires a <= b && x in a
    ensures x in b
  {
    var i :| 0 <= i < |a| && a[i] == x;
    assert b[i] == x;
  }

  lemma PrependAllAssoc<T>(xs: seq<T>, ys: seq<T>, o: Result<seq<T>, PipelineError>)
    ensures PrependAll(xs, PrependAll(ys, o)) == PrependAll(xs + ys, o)
  {
    if o.Success? {
      assert xs + (ys + o.value) == (xs + ys) + o.value;
    }
  }

  lemma PrependNothing<T>(o: Result<seq<T>, PipelineError>)
    ensures PrependAll([], o) == o
  {
    if o.Success? {
      assert [] + o.value == o.value;
    }
  }

  lemma GrowsTrans(d1: Dir, d2: Dir, d3: Dir)
    requires Grows(d1, d2) && Grows(d2, d3)
    ensures Grows(d1, d3)
  {
  }

  lemma OnlyWritesTrans(d1: Dir, d2: Dir, d3: Dir, w1: set<string>, w2: set<string>, w: set<string>)
    requires OnlyWrites(d1, d2, w1) && OnlyWrites(d2, d3, w2) && w1 + w2 <= w
    ensures OnlyWrites(d1, d3, w)
  {
  }

  /** In well-formed directories, growing keeps every listed name listed. */
  lemma GrowsNames(d: Dir, d2: Dir)
    requires WellFormed(d) && WellFormed(d2) && Grows(d, d2)
    ensures forall n :: n in d.names ==> n in d2.names
  {
    forall n | n in d.names ensures n in d2.names {
      assert n in (set m | m in d.names);
      assert n in (set m | m in d2.names);
    }
  }

  lemma NamesAreFiles(d: Dir)
    requires WellFormed(d)
    ensures forall n :: n in d.names <==> n in d.contents
  {
    forall n ensures n in d.names <==> n in d.contents {
      assert n in d.names <==> n in (set m | m in d.names);
    }
  }

  /** A step that writes only names absent from `d` overwrites nothing. */
  lemma FreshWrites(d: Dir, d2: Dir, w: set<string>)
    requires WellFormed(d) && OnlyWrites(d, d2, w)
    requires forall n :: n in w ==> n !in d.names
    ensures NeverOverwrites(d, d2)
  {
    NamesAreFiles(d);
  }

  lemma NeverOverwritesTrans(d1: Dir, d2: Dir, d3: Dir)
    requires NeverOverwrites(d1, d2) && NeverOverwrites(d2, d3)
    ensures NeverOverwrites(d1, d3)
  {
  }

  lemma JsonNamesCons(fids: seq<ForeignId>)
    requires fids != []
    ensures JsonNames(fids) == {MapFidToOutputFile(fids[0])} + JsonNames(fids[1..])
    ensures Mp4Names(fids) == {MapFidToOutputFile(fids[0], "", ".mp4")} + Mp4Names(fids[1..])
  {
    assert forall f :: f in fids <==> f == fids[0] || f in fids[1..] by {
      assert fids == [fids[0]] + fids[1..];
    }
  }

  /** After a step that wrote transcripts for `ws`, a fid's transcript file
      that held a transcript of its volume still does. */
  lemma KeepsTranscriptOf(d1: Dir, d2: Dir, ws: seq<ForeignId>, f: ForeignId)
    requires OnlyWrites(d1, d2, JsonNames(ws)) && TranscriptsStored(d2, ws)
    requires MapFidToOutputFile(f) in d1.contents ==> HoldsTranscriptOf(d1, f)
    ensures MapFidToOutputFile(f) in d2.contents ==> HoldsTranscriptOf(d2, f)
  {
    var n := MapFidToOutputFile(f);
    if n in JsonNames(ws) {
      var g :| g in ws && MapFidToOutputFile(g) == n;
      var i :| 0 <= i < |ws| && ws[i] == g;
      OutputNameInjective(g, f, ".json", ".json");
    }
  }

  /** Transcript files of `fids` keep holding transcripts of their volume. */
  lemma TranscriptFilesStillMatch(d1: Dir, d2: Dir, ws: seq<ForeignId>, fids: seq<ForeignId>)
    requires OnlyWrites(d1, d2, JsonNames(ws)) && TranscriptsStored(d2, ws)
    requires TranscriptFilesMatch(d1, fids)
    ensures TranscriptFilesMatch(d2, fids)
  {
    forall i | 0 <= i < |fids| {
      KeepsTranscriptOf(d1, d2, ws, fids[i]);
    }
  }

  /** Writing media files leaves every transcript file alone. */
  lemma MediaWritesKeepTranscripts(d1: Dir, d2: Dir, ws: seq<ForeignId>, fids: seq<ForeignId>)
    requires OnlyWrites(d1, d2, Mp4Names(ws))
    requires TranscriptFilesMatch(d1, fids)
    ensures TranscriptFilesMatch(d2, fids)
    ensures forall f :: MapFidToOutputFile(f) in d1.contents <==> MapFidToOutputFile(f) in d2.contents
  {
    assert MediaExtensions[2] == ".mp4";
    forall f ensures MapFidToOutputFile(f) !in Mp4Names(ws) {
      forall g | g in ws ensures MapFidToOutputFile(g, "", ".mp4") != MapFidToOutputFile(f) {
        TranscriptIsNotMedia(f, g, ".mp4");
      }
    }
  }

  // ---------------------------------------------------------------------
  // getTranscribedVolumes

  /** One result per fid with a prior transcript, in order, each carrying
      the lookup's URL and the fid's volume. */
  lemma {:induction false} TranscribedVolumesExactly(fids: seq<ForeignId>, svc: Services)
    ensures var kept := Filter(fids, (f: ForeignId) => HasPriorTranscript(svc, f));
      var r := TranscribedVolumes(fids, svc);
      |r| == |kept| &&
      forall i :: 0 <= i < |r| ==> HasPriorTranscript(svc, kept[i]) && r[i] == ForeignId(svc.mediaUrlForVideoId(kept[i].id).value, kept[i].volume)
  {
    if fids != [] {
      TranscribedVolumesExactly(fids[1..], svc);
    }
  }

  /** Every transcribed volume is the volume of a fid that has a prior transcript. */
  lemma TranscribedVolumesFrom(fids: seq<ForeignId>, svc: Services)
    ensures forall p :: p in TranscribedVolumes(fids, svc) ==>
              exists f :: f in fids && f.volume == p.volume && HasPriorTranscript(svc, f)
  {
    var kept := Filter(fids, (f: ForeignId) => HasPriorTranscript(svc, f));
    var r := TranscribedVolumes(fids, svc);
    TranscribedVolumesExactly(fids, svc);
    forall p | p in r ensures exists f :: f in fids && f.volume == p.volume && HasPriorTranscript(svc, f) {
      var i :| 0 <= i < |r| && r[i] == p;
      assert kept[i] in kept;
    }
  }

  // ---------------------------------------------------------------------
  // downloadTranscripts

  /** Saving prior transcripts writes only the fids' transcript files. */
  lemma {:induction false} SaveTranscriptsFrame(d: Dir, fids: seq<ForeignId>, svc: Services)
    decreases |fids|
    ensures var d2 := SaveTranscripts(d, fids, svc);
      Grows(d, d2) && OnlyWrites(d, d2, JsonNames(fids))
  {
    if fids != [] {
      var n := MapFidToOutputFile(fids[0]);
      var t := PriorToTranscript(svc.mediaTranscript(fids[0].id), fids[0].volume);
      var d1 := Put(d, n, TranscriptFile(t));
      PutFacts(d, n, TranscriptFile(t));
      SaveTranscriptsFrame(d1, fids[1..], svc);
      JsonNamesCons(fids);
      OnlyWritesTrans(d, d1, SaveTranscripts(d1, fids[1..], svc), {n}, JsonNames(fids[1..]), JsonNames(fids));
    }
  }

  /** Each fid's transcript file then holds a transcript of its volume. */
  lemma {:induction false} SaveTranscriptsStored(d: Dir, fids: seq<ForeignId>, svc: Services)
    decreases |fids|
    ensures TranscriptsStored(SaveTranscripts(d, fids, svc), fids)
  {
    if fids != [] {
      var n := MapFidToOutputFile(fids[0]);
      var t := PriorToTranscript(svc.mediaTranscript(fids[0].id), fids[0].volume);
      var d1 := Put(d, n, TranscriptFile(t));
      var d2 := SaveTranscripts(d1, fids[1..], svc);
      PutFacts(d, n, TranscriptFile(t));
      SaveTranscriptsStored(d1, fids[1..], svc);
      SaveTranscriptsFrame(d1, fids[1..], svc);
      KeepsTranscriptOf(d1, d2, fids[1..], fids[0]);
      forall i | 0 <= i < |fids| ensures HoldsTranscriptOf(d2, fids[i]) {
        if i > 0 { assert fids[i] == fids[1..][i - 1]; }
      }
    }
  }

  /** Saving prior transcripts writes exactly the fids' transcript files,
      each holding a transcript of its fid's volume. */
  lemma SaveTranscriptsFacts(d: Dir, fids: seq<ForeignId>, svc: Services)
    ensures var d2 := SaveTranscripts(d, fids, svc);
      Grows(d, d2) && OnlyWrites(d, d2, JsonNames(fids)) && TranscriptsStored(d2, fids)
  {
    SaveTranscriptsFrame(d, fids, svc);
    SaveTranscriptsStored(d, fids, svc);
  }

  /** One pass of the loop of `downloadTranscripts`: the volume at `i` is
      written next. */
  lemma SaveTranscriptsStep(final: Dir, before: Dir, fids: seq<ForeignId>, i: int, svc: Services)
    requires 0 <= i < |fids|
    requires SaveTranscripts(before, fids[i..], svc) == final
    ensures SaveTranscripts(Put(before, MapFidToOutputFile(fids[i]),
                                TranscriptFile(PriorToTranscript(svc.mediaTranscript(fids[i].id), fids[i].volume))),
                            fids[i + 1..], svc) == final
  {
    assert fids[i..][0] == fids[i] && fids[i..][1..] == fids[i + 1..];
  }

  /** The files reported so far grow by the file of the volume at `i`. */
  lemma OutputFilesStep(fids: seq<ForeignId>, i: int, path: string)
    requires 0 <= i < |fids|
    ensures OutputFiles(fids[..i], path) + [ForeignId(MapFidToOutputFile(fids[i], path), fids[i].volume)] ==
            OutputFiles(fids[..i + 1], path)
  {
    assert fids[..i + 1] == fids[..i] + [fids[i]];
    OutputFilesAppend(fids[..i], fids[i], path, ".json");
  }

  /** One pass of the loop of `getTranscribedVolumes`. */
  lemma TranscribedVolumesStep(fids: seq<ForeignId>, i: int, svc: Services)
    requires 0 <= i < |fids|
    ensures var url := svc.mediaUrlForVideoId(fids[i].id);
      (TruthyString(url) ==>
         TranscribedVolumes(fids[i..], svc) == [ForeignId(url.value, fids[i].volume)] + TranscribedVolumes(fids[i + 1..], svc)) &&
      (!TruthyString(url) ==> TranscribedVolumes(fids[i..], svc) == TranscribedVolumes(fids[i + 1..], svc))
  {
    assert fids[i..][0] == fids[i] && fids[i..][1..] == fids[i + 1..];
  }

  lemma {:induction false} SaveTranscriptsWellFormed(d: Dir, fids: seq<ForeignId>, svc: Services)
    requires WellFormed(d)
    decreases |fids|
    ensures WellFormed(SaveTranscripts(d, fids, svc))
  {
    if fids != [] {
      var t := PriorToTranscript(svc.mediaTranscript(fids[0].id), fids[0].volume);
      PutWellFormed(d, MapFidToOutputFile(fids[0]), TranscriptFile(t));
      SaveTranscriptsWellFormed(Put(d, MapFidToOutputFile(fids[0]), TranscriptFile(t)), fids[1..], svc);
    }
  }

  // ---------------------------------------------------------------------
  // downloadYouTubeVideos

  predicate HasSuitableFormat(svc: Services, fid: ForeignId)
  {
    exists f :: f in svc.formatsOf(Downloader.VideoUrl(fid.id)) && Downloader.IsSuitable(f)
  }

  /** Downloading writes only the fids' mp4 files. */
  lemma {:induction false} DownloadVideosFrame(d: Dir, path: string, fids: seq<ForeignId>, svc: Services)
    decreases |fids|
    ensures var s := DownloadVideos(d, path, fids, svc);
      Grows(d, s.dir) && OnlyWrites(d, s.dir, Mp4Names(fids))
  {
    if fids != [] {
      var n := MapFidToOutputFile(fids[0], "", ".mp4");
      var r := Downloader.DownloadYouTubeVideo(fids[0].id, MapFidToOutputFile(fids[0], path, ".mp4"), svc.formatsOf, svc.race);
      if r.Success? {
        var d1 := Put(d, n, MediaFile(r.value.url));
        PutFacts(d, n, MediaFile(r.value.url));
        DownloadVideosFrame(d1, path, fids[1..], svc);
        var rest := DownloadVideos(d1, path, fids[1..], svc);
        assert DownloadVideos(d, path, fids, svc).dir == rest.dir;
        JsonNamesCons(fids);
        OnlyWritesTrans(d, d1, rest.dir, {n}, Mp4Names(fids[1..]), Mp4Names(fids));
      }
    }
  }

  /** A successful download reports every fid's mp4 file, in order. */
  lemma {:induction false} DownloadVideosReport(d: Dir, path: string, fids: seq<ForeignId>, svc: Services)
    decreases |fids|
    ensures var s := DownloadVideos(d, path, fids, svc);
      s.outcome.Success? ==> s.outcome.value == OutputFiles(fids, path, ".mp4")
  {
    if fids != [] {
      var n := MapFidToOutputFile(fids[0], "", ".mp4");
      var file := MapFidToOutputFile(fids[0], path, ".mp4");
      var r := Downloader.DownloadYouTubeVideo(fids[0].id, file, svc.formatsOf, svc.race);
      if r.Success? {
        var d1 := Put(d, n, MediaFile(r.value.url));
        DownloadVideosReport(d1, path, fids[1..], svc);
        var rest := DownloadVideos(d1, path, fids[1..], svc);
        assert DownloadVideos(d, path, fids, svc).outcome == PrependAll([ForeignId(file, fids[0].volume)], rest.outcome);
      }
    }
  }

  /** One step of `downloadYouTubeVideos`. */
  lemma DownloadVideosCons(d: Dir, path: string, fids: seq<ForeignId>, svc: Services)
    requires fids != []
    ensures var r := Downloader.DownloadYouTubeVideo(fids[0].id, MapFidToOutputFile(fids[0], path, ".mp4"), svc.formatsOf, svc.race);
      var s := DownloadVideos(d, path, fids, svc);
      (r.Failure? ==> s == Step(Failure(DownloadFailed(fids[0].id, r.error)), d)) &&
      (r.Success? ==>
         var rest := DownloadVideos(Put(d, MapFidToOutputFile(fids[0], "", ".mp4"), MediaFile(r.value.url)), path, fids[1..], svc);
         s == Step(PrependAll([ForeignId(r.value.file, fids[0].volume)], rest.outcome), rest.dir))
  {
  }

  /** After a successful download every fid's mp4 file is listed. */
  lemma {:induction false} DownloadVideosListed(d: Dir, path: string, fids: seq<ForeignId>, svc: Services)
    decreases |fids|
    ensures var s := DownloadVideos(d, path, fids, svc);
      s.outcome.Success? ==> forall i :: 0 <= i < |fids| ==> MapFidToOutputFile(fids[i], "", ".mp4") in s.dir.names
  {
    if fids != [] {
      var n := MapFidToOutputFile(fids[0], "", ".mp4");
      var r := Downloader.DownloadYouTubeVideo(fids[0].id, MapFidToOutputFile(fids[0], path, ".mp4"), svc.formatsOf, svc.race);
      DownloadVideosCons(d, path, fids, svc);
      if r.Success? {
        var d1 := Put(d, n, MediaFile(r.value.url));
        var rest := DownloadVideos(d1, path, fids[1..], svc);
        if rest.outcome.Success? {
          PutFacts(d, n, MediaFile(r.value.url));
          DownloadVideosListed(d1, path, fids[1..], svc);
          DownloadVideosFrame(d1, path, fids[1..], svc);
          PrefixKeeps(d1.names, rest.dir.names, n);
          forall i | 0 <= i < |fids| ensures MapFidToOutputFile(fids[i], "", ".mp4") in rest.dir.names {
            if i > 0 {
              assert fids[i] == fids[1..][i - 1];
            }
          }
        }
      }
    }
  }

  /** A successful download reports every fid's mp4 file and leaves it listed. */
  lemma DownloadVideosSuccess(d: Dir, path: string, fids: seq<ForeignId>, svc: Services)
    ensures var s := DownloadVideos(d, path, fids, svc);
      s.outcome.Success? ==> s.outcome.value == OutputFiles(fids, path, ".mp4") &&
                             forall f :: f in fids ==> MapFidToOutputFile(f, "", ".mp4") in s.dir.names
  {
    DownloadVideosReport(d, path, fids, svc);
    DownloadVideosListed(d, path, fids, svc);
    forall f | f in fids ensures DownloadVideos(d, path, fids, svc).outcome.Success? ==>
                                 MapFidToOutputFile(f, "", ".mp4") in DownloadVideos(d, path, fids, svc).dir.names {
      var i :| 0 <= i < |fids| && fids[i] == f;
    }
  }

  lemma {:induction false} DownloadVideosWellFormed(d: Dir, path: string, fids: seq<ForeignId>, svc: Services)
    requires WellFormed(d)
    decreases |fids|
    ensures WellFormed(DownloadVideos(d, path, fids, svc).dir)
  {
    if fids != [] {
      var n := MapFidToOutputFile(fids[0], "", ".mp4");
      var r := Downloader.DownloadYouTubeVideo(fids[0].id, MapFidToOutputFile(fids[0], path, ".mp4"), svc.formatsOf, svc.race);
      if r.Success? {
        PutWellFormed(d, n, MediaFile(r.value.url));
        DownloadVideosWellFormed(Put(d, n, MediaFile(r.value.url)), path, fids[1..], svc);
      }
    }
  }

  /** Downloading fails iff some fid has no suitable format, with the
      downloader's message. */
  lemma {:induction false} DownloadVideosFailure(d: Dir, path: string, fids: seq<ForeignId>, svc: Services)
    decreases |fids|
    ensures var s := DownloadVideos(d, path, fids, svc);
      (s.outcome.Failure? <==> exists f :: f in fids && !HasSuitableFormat(svc, f)) &&
      (s.outcome.Failure? ==> s.outcome.error.DownloadFailed? &&
                              s.outcome.error.message == Downloader.NoSuitableFormatMessage)
  {
    if fids != [] {
      assert forall g :: g in fids <==> g == fids[0] || g in fids[1..] by {
        assert fids == [fids[0]] + fids[1..];
      }
      var n := MapFidToOutputFile(fids[0], "", ".mp4");
      var file := MapFidToOutputFile(fids[0], path, ".mp4");
      var r := Downloader.DownloadYouTubeVideo(fids[0].id, file, svc.formatsOf, svc.race);
      if r.Success? {
        assert HasSuitableFormat(svc, fids[0]);
        var rest := DownloadVideos(Put(d, n, MediaFile(r.value.url)), path, fids[1..], svc);
        DownloadVideosFailure(Put(d, n, MediaFile(r.value.url)), path, fids[1..], svc);
        assert DownloadVideos(d, path, fids, svc).outcome == PrependAll([ForeignId(r.value.file, fids[0].volume)], rest.outcome);
        if exists f :: f in fids && !HasSuitableFormat(svc, f) {
          var f :| f in fids && !HasSuitableFormat(svc, f);
          assert f in fids[1..];
        }
        if rest.outcome.Failure? {
          var f :| f in fids[1..] && !HasSuitableFormat(svc, f);
          assert f in fids;
        }
      } else {
        assert !HasSuitableFormat(svc, fids[0]) && fids[0] in fids;
      }
    }
  }

  // ---------------------------------------------------------------------
  // transcribeDownloadedVideos

  /** Whether the transcription of `m` yields a transcript. */
  predicate Transcribable(path: string, m: ForeignId, noiseReductionOff: bool, svc: Services, now: Timestamp)
  {
    var media := JoinPath(path, m.id);
    TranscriptOf(media, svc.transcribe(media, noiseReductionOff), m.volume, now).Success?
  }

  /** The transcript written for a media has one well-formed segment built
      from all the service's tokens, no URLs, and the media's volume. */
  lemma TranscriptOfExactly(media: string, chunks: seq<Chunk>, volume: int, now: Timestamp)
    ensures var r := TranscriptOf(media, chunks, volume, now);
      (r.Success? <==> ChunkTokens(chunks).Some? && ChunkTokens(chunks).value != []) &&
      (r.Failure? ==> r.error == TokensMissing(media) || r.error == NoTokens(media)) &&
      (r.Success? ==> |r.value.segments| == 1 && WellFormedSegment(r.value.segments[0]) &&
                      r.value.segments[0].tokens == ChunkTokens(chunks).value &&
                      r.value.urls.None? && r.value.timestamp == now && r.value.volume == volume)
  {
  }

  /** One pass of the transcription loop: if the loop so far agrees with
      the whole step, it still does after handling the next media, whether
      that media stops the step (`one` is an error and the directory is
      unchanged) or adds its transcript file. */
  lemma TranscribeLoopStep(final: Step, transcribed: seq<ForeignId>, before: Dir, after: Dir, path: string,
                           medias: seq<ForeignId>, one: Result<ForeignId, PipelineError>, noiseReductionOff: bool,
                           svc: Services, now: Timestamp)
    requires medias != []
    requires var s := TranscribeVideos(before, path, medias, noiseReductionOff, svc, now);
      final == Step(PrependAll(transcribed, s.outcome), s.dir)
    requires var media := JoinPath(path, medias[0].id);
      var t := TranscriptOf(media, svc.transcribe(media, noiseReductionOff), medias[0].volume, now);
      (t.Failure? ==> one == Failure(t.error) && after == before) &&
      (t.Success? ==> one == Success(ForeignId(MapFidToOutputFile(medias[0], path), medias[0].volume)) &&
                      after == Put(before, MapFidToOutputFile(medias[0]), TranscriptFile(t.value)))
    ensures one.Failure? ==> final == Step(Failure(one.error), after)
    ensures one.Success? ==>
      var rest := TranscribeVideos(after, path, medias[1..], noiseReductionOff, svc, now);
      final == Step(PrependAll(transcribed + [one.value], rest.outcome), rest.dir)
  {
    if one.Success? {
      var rest := TranscribeVideos(after, path, medias[1..], noiseReductionOff, svc, now);
      PrependAllAssoc(transcribed, [one.value], rest.outcome);
    }
  }

  /** Transcribing writes only the medias' transcript files. */
  lemma {:induction false} TranscribeVideosFrame(d: Dir, path: string, medias: seq<ForeignId>, noiseReductionOff: bool,
                                                 svc: Services, now: Timestamp)
    decreases |medias|
    ensures var s := TranscribeVideos(d, path, medias, noiseReductionOff, svc, now);
      Grows(d, s.dir) && OnlyWrites(d, s.dir, JsonNames(medias))
  {
    if medias != [] {
      var n := MapFidToOutputFile(medias[0]);
      var media := JoinPath(path, medias[0].id);
      var r := TranscriptOf(media, svc.transcribe(media, noiseReductionOff), medias[0].volume, now);
      if r.Success? {
        var d1 := Put(d, n, TranscriptFile(r.value));
        PutFacts(d, n, TranscriptFile(r.value));
        TranscribeVideosFrame(d1, path, medias[1..], noiseReductionOff, svc, now);
        var rest := TranscribeVideos(d1, path, medias[1..], noiseReductionOff, svc, now);
        assert TranscribeVideos(d, path, medias, noiseReductionOff, svc, now).dir == rest.dir;
        JsonNamesCons(medias);
        OnlyWritesTrans(d, d1, rest.dir, {n}, JsonNames(medias[1..]), JsonNames(medias));
      }
    }
  }

  /** A successful transcription reports every media's transcript file. */
  lemma {:induction false} TranscribeVideosReport(d: Dir, path: string, medias: seq<ForeignId>, noiseReductionOff: bool,
                                                  svc: Services, now: Timestamp)
    decreases |medias|
    ensures var s := TranscribeVideos(d, path, medias, noiseReductionOff, svc, now);
      s.outcome.Success? ==> s.outcome.value == OutputFiles(medias, path)
  {
    if medias != [] {
      var n := MapFidToOutputFile(medias[0]);
      var media := JoinPath(path, medias[0].id);
      var r := TranscriptOf(media, svc.transcribe(media, noiseReductionOff), medias[0].volume, now);
      if r.Success? {
        var d1 := Put(d, n, TranscriptFile(r.value));
        TranscribeVideosReport(d1, path, medias[1..], noiseReductionOff, svc, now);
        var rest := TranscribeVideos(d1, path, medias[1..], noiseReductionOff, svc, now);
        var x := ForeignId(MapFidToOutputFile(medias[0], path), medias[0].volume);
        assert TranscribeVideos(d, path, medias, noiseReductionOff, svc, now).outcome == PrependAll([x], rest.outcome);
      }
    }
  }

  /** A successful transcription leaves each media's transcript file
      holding a transcript of its volume. */
  lemma {:induction false} TranscribeVideosStores(d: Dir, path: string, medias: seq<ForeignId>, noiseReductionOff: bool,
                                                  svc: Services, now: Timestamp)
    decreases |medias|
    ensures var s := TranscribeVideos(d, path, medias, noiseReductionOff, svc, now);
      s.outcome.Success? ==> TranscriptsStored(s.dir, medias)
  {
    if medias != [] {
      var n := MapFidToOutputFile(medias[0]);
      var media := JoinPath(path, medias[0].id);
      var r := TranscriptOf(media, svc.transcribe(media, noiseReductionOff), medias[0].volume, now);
      if r.Success? {
        var d1 := Put(d, n, TranscriptFile(r.value));
        PutFacts(d, n, TranscriptFile(r.value));
        TranscribeVideosStores(d1, path, medias[1..], noiseReductionOff, svc, now);
        TranscribeVideosFrame(d1, path, medias[1..], noiseReductionOff, svc, now);
        var rest := TranscribeVideos(d1, path, medias[1..], noiseReductionOff, svc, now);
        var s := TranscribeVideos(d, path, medias, noiseReductionOff, svc, now);
        var x := ForeignId(MapFidToOutputFile(medias[0], path), medias[0].volume);
        assert s == Step(PrependAll([x], rest.outcome), rest.dir);
        if rest.outcome.Success? {
          KeepsTranscriptOf(d1, rest.dir, medias[1..], medias[0]);
          forall i | 0 <= i < |medias| ensures HoldsTranscriptOf(rest.dir, medias[i]) {
            if i > 0 { assert medias[i] == medias[1..][i - 1]; }
          }
        }
      }
    }
  }

  lemma {:induction false} TranscribeVideosWellFormed(d: Dir, path: string, medias: seq<ForeignId>,
                                                      noiseReductionOff: bool, svc: Services, now: Timestamp)
    requires WellFormed(d)
    decreases |medias|
    ensures WellFormed(TranscribeVideos(d, path, medias, noiseReductionOff, svc, now).dir)
  {
    if medias != [] {
      var media := JoinPath(path, medias[0].id);
      var r := TranscriptOf(media, svc.transcribe(media, noiseReductionOff), medias[0].volume, now);
      if r.Success? {
        PutWellFormed(d, MapFidToOutputFile(medias[0]), TranscriptFile(r.value));
        TranscribeVideosWellFormed(Put(d, MapFidToOutputFile(medias[0]), TranscriptFile(r.value)), path, medias[1..],
                                   noiseReductionOff, svc, now);
      }
    }
  }

  /** Transcribing fails iff some media yields no transcript. */
  lemma {:induction false} TranscribeVideosFailure(d: Dir, path: string, medias: seq<ForeignId>, noiseReductionOff: bool,
                                                   svc: Services, now: Timestamp)
    decreases |medias|
    ensures TranscribeVideos(d, path, medias, noiseReductionOff, svc, now).outcome.Failure? <==>
            exists m :: m in medias && !Transcribable(path, m, noiseReductionOff, svc, now)
  {
    if medias != [] {
      assert forall g :: g in medias <==> g == medias[0] || g in medias[1..] by {
        assert medias == [medias[0]] + medias[1..];
      }
      var media := JoinPath(path, medias[0].id);
      var r := TranscriptOf(media, svc.transcribe(media, noiseReductionOff), medias[0].volume, now);
      if r.Success? {
        var d1 := Put(d, MapFidToOutputFile(medias[0]), TranscriptFile(r.value));
        var rest := TranscribeVideos(d1, path, medias[1..], noiseReductionOff, svc, now);
        TranscribeVideosFailure(d1, path, medias[1..], noiseReductionOff, svc, now);
        assert TranscribeVideos(d, path, medias, noiseReductionOff, svc, now).outcome ==
               PrependAll([ForeignId(MapFidToOutputFile(medias[0], path), medias[0].volume)], rest.outcome);
        assert Transcribable(path, medias[0], noiseReductionOff, svc, now);
        if exists m :: m in medias && !Transcribable(path, m, noiseReductionOff, svc, now) {
          var m :| m in medias && !Transcribable(path, m, noiseReductionOff, svc, now);
          assert m in medias[1..];
        }
        if rest.outcome.Failure? {
          var m :| m in medias[1..] && !Transcribable(path, m, noiseReductionOff, svc, now);
          assert m in medias;
        }
      } else {
        assert !Transcribable(path, medias[0], noiseReductionOff, svc, now) && medias[0] in medias;
      }
    }
  }

  // ---------------------------------------------------------------------
  // integrateTranscriptions

  /** Reading succeeds iff every fid's transcript file holds a transcript;
      the transcripts come in fid order, and a failure names the file. */
  lemma {:induction false} ReadTranscriptsExactly(d: Dir, path: string, fids: seq<ForeignId>)
    ensures var r := ReadTranscripts(d, path, fids);
      (r.Success? <==> forall i :: 0 <= i < |fids| ==>
                         MapFidToOutputFile(fids[i]) in d.contents && d.contents[MapFidToOutputFile(fids[i])].TranscriptFile?) &&
      (r.Success? ==> |r.value| == |fids| &&
                      forall i :: 0 <= i < |fids| ==> r.value[i] == d.contents[MapFidToOutputFile(fids[i])].transcript) &&
      (r.Failure? ==> exists i :: 0 <= i < |fids| && r.error == TranscriptUnreadable(MapFidToOutputFile(fids[i], path)))
  {
    if fids != [] {
      ReadTranscriptsExactly(d, path, fids[1..]);
      var r := ReadTranscripts(d, path, fids);
      var rest := ReadTranscripts(d, path, fids[1..]);
      if r.Failure? && rest.Failure? && r.error == rest.error {
        var i :| 0 <= i < |fids[1..]| && rest.error == TranscriptUnreadable(MapFidToOutputFile(fids[1..][i], path));
        assert fids[1..][i] == fids[i + 1];
      }
    }
  }

  /** The series holds one transcript per fid, in fid order, under the
      current contract version. */
  lemma IntegrateExactly(d: Dir, path: string, fids: seq<ForeignId>, now: Timestamp)
    ensures var r := Integrate(d, path, fids, now);
      (r.Success? <==> forall i :: 0 <= i < |fids| ==>
                         MapFidToOutputFile(fids[i]) in d.contents && d.contents[MapFidToOutputFile(fids[i])].TranscriptFile?) &&
      (r.Success? ==> r.value.contractVersion == "v1.0" && r.value.createdAt == now && r.value.lastUpdatedAt == now &&
                      |r.value.transcripts| == |fids| &&
                      forall i :: 0 <= i < |fids| ==>
                        r.value.transcripts[i] == d.contents[MapFidToOutputFile(fids[i])].transcript)
  {
    ReadTranscriptsExactly(d, path, fids);
  }
}
