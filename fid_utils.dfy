/** The resumable work-set derivation: from the flat list of file names in
    the output directory, which volumes still lack a transcript, which lack
    any media file and which media file each remaining one can use. */
module FidUtils {
  import opened Wrappers
  import opened Seqs
  import Decimal
  import Downloader

  /** A volume of a collection and the id of its source (a video id, a URL
      or a file name, depending on the step). */
  datatype ForeignId = ForeignId(id: string, volume: int)

  /** `path.format({ dir, name, ext })` with a POSIX separator. */
  function PathFormat(dir: string, name: string, ext: string): string
  {
    if dir == "" then name + ext else dir + "/" + name + ext
  }

  /** The file that holds the artifact of `fid`'s volume with extension `ext`. */
  function MapFidToOutputFile(fid: ForeignId, outputDirectory: string := "", ext: string := ".json"): string
  {
    PathFormat(outputDirectory, Decimal.IntToString(fid.volume), ext)
  }

  /** The media extensions in the order they are looked for. */
  const MediaExtensions: seq<string> := [".wav", ".mp3", "." + Downloader.MediaContainer]

  function MediaCandidates(fid: ForeignId): seq<string>
  {
    [MapFidToOutputFile(fid, "", MediaExtensions[0]),
     MapFidToOutputFile(fid, "", MediaExtensions[1]),
     MapFidToOutputFile(fid, "", MediaExtensions[2])]
  }

  /** The transcript of `fid`'s volume is not in `files`. */
  predicate IsUnprocessed(files: seq<string>, fid: ForeignId)
  {
    MapFidToOutputFile(fid) !in files
  }

  function GetUnprocessedVolumes(fids: seq<ForeignId>, files: seq<string>): seq<ForeignId>
  {
    Filter(fids, fid => IsUnprocessed(files, fid))
  }

  function GetMediaDownloadedForVolume(fid: ForeignId, files: seq<string>): (r: Option<string>)
    ensures MapFidToOutputFile(fid, "", ".wav") in files ==> r == Some(MapFidToOutputFile(fid, "", ".wav"))
    ensures MapFidToOutputFile(fid, "", ".wav") !in files && MapFidToOutputFile(fid, "", ".mp3") in files ==>
              r == Some(MapFidToOutputFile(fid, "", ".mp3"))
    ensures (MapFidToOutputFile(fid, "", ".wav") !in files && MapFidToOutputFile(fid, "", ".mp3") !in files &&
             MapFidToOutputFile(fid, "", ".mp4") in files) ==> r == Some(MapFidToOutputFile(fid, "", ".mp4"))
    ensures r.None? <==> (MapFidToOutputFile(fid, "", ".wav") !in files && MapFidToOutputFile(fid, "", ".mp3") !in files &&
                          MapFidToOutputFile(fid, "", ".mp4") !in files)
  {
    var candidates := MediaCandidates(fid);
    assert candidates[0] == MapFidToOutputFile(fid, "", ".wav");
    assert candidates[1] == MapFidToOutputFile(fid, "", ".mp3");
    assert candidates[2] == MapFidToOutputFile(fid, "", ".mp4");
    Find(candidates, files)
  }

  /** Some media file of `fid`'s volume is in `files`. */
  predicate HasMedia(files: seq<string>, fid: ForeignId)
  {
    GetMediaDownloadedForVolume(fid, files).Some?
  }

  /** The fids that have a media file, each with its id replaced by the
      name of that file. */
  function GetMediasAlreadyDownloaded(fids: seq<ForeignId>, files: seq<string>): seq<ForeignId>
  {
    if fids == [] then []
    else
      match GetMediaDownloadedForVolume(fids[0], files)
      case Some(name) => [ForeignId(name, fids[0].volume)] + GetMediasAlreadyDownloaded(fids[1..], files)
      case None => GetMediasAlreadyDownloaded(fids[1..], files)
  }

  function GetMissingMedias(fids: seq<ForeignId>, files: seq<string>): seq<ForeignId>
  {
    Filter(fids, fid => !HasMedia(files, fid))
  }

  // ---------------------------------------------------------------------
  // Output names

  /** The file of a volume inside a directory is the directory joined with
      the bare name that a listing of that directory shows. */
  lemma OutputFileInDirectory(fid: ForeignId, dir: string, ext: string)
    requires dir != ""
    ensures MapFidToOutputFile(fid, dir, ext) == dir + "/" + MapFidToOutputFile(fid, "", ext)
    ensures MapFidToOutputFile(fid, "", ext) == Decimal.IntToString(fid.volume) + ext
  {
  }

  /** A bare output name determines the volume and the extension, for
      extensions that start with a dot. */
  lemma {:induction false} OutputNameInjective(f: ForeignId, g: ForeignId, e1: string, e2: string)
    requires |e1| >= 1 && e1[0] == '.' && |e2| >= 1 && e2[0] == '.'
    requires MapFidToOutputFile(f, "", e1) == MapFidToOutputFile(g, "", e2)
    ensures f.volume == g.volume && e1 == e2
  {
    var a, b := Decimal.IntToString(f.volume), Decimal.IntToString(g.volume);
    var n := a + e1;
    assert n == b + e2;
    DotAfterName(a, e1);
    DotAfterName(b, e2);
    assert a == n[..|a|] == b;
    assert e1 == n[|a|..] == e2;
    Decimal.IntToStringInjective(f.volume, g.volume);
  }

  /** The position of the first dot of `s`, or `|s|` if there is none. */
  function FirstDot(s: string): (k: nat)
    ensures k <= |s|
  {
    if s == [] then 0 else if s[0] == '.' then 0 else 1 + FirstDot(s[1..])
  }

  lemma {:induction false} DotAfterName(a: string, e: string)
    requires '.' !in a && |e| >= 1 && e[0] == '.'
    ensures FirstDot(a + e) == |a|
  {
    if a == [] {
      assert a + e == e;
    } else {
      assert a[0] in a;
      assert (a + e)[1..] == a[1..] + e;
      DotAfterName(a[1..], e);
    }
  }

  /** A transcript name is never a media name. */
  lemma TranscriptIsNotMedia(f: ForeignId, g: ForeignId, ext: string)
    requires ext in MediaExtensions
    ensures MapFidToOutputFile(f) != MapFidToOutputFile(g, "", ext)
  {
    var a, b := MapFidToOutputFile(f), MapFidToOutputFile(g, "", ext);
    assert a[|a| - 1] == 'n';
    assert b[|b| - 1] != 'n';
  }

  // ---------------------------------------------------------------------
  // Unprocessed volumes

  /** Exactly the fids without a transcript file are returned, in their
      order, each as often as it occurs. */
  lemma UnprocessedVolumesExactly(fids: seq<ForeignId>, files: seq<string>)
    ensures IsSubsequence(GetUnprocessedVolumes(fids, files), fids)
    ensures forall f :: f in GetUnprocessedVolumes(fids, files) <==> f in fids && MapFidToOutputFile(f) !in files
    ensures forall f :: multiset(GetUnprocessedVolumes(fids, files))[f] ==
                        if MapFidToOutputFile(f) in files then 0 else multiset(fids)[f]
  {
    FilterIsSubsequence(fids, fid => IsUnprocessed(files, fid));
    FilterMultiset(fids, fid => IsUnprocessed(files, fid));
    forall f | f in fids && MapFidToOutputFile(f) !in files ensures f in GetUnprocessedVolumes(fids, files) {
      FilterKeeps(fids, fid => IsUnprocessed(files, fid), f);
    }
  }

  /** Nothing is left exactly when every transcript file is present. */
  lemma AllTranscribed(fids: seq<ForeignId>, files: seq<string>)
    ensures GetUnprocessedVolumes(fids, files) == [] <==>
            forall i :: 0 <= i < |fids| ==> MapFidToOutputFile(fids[i]) in files
  {
    FilterEmpty(fids, fid => IsUnprocessed(files, fid));
  }

  /** Filtering twice against the same listing changes nothing more. */
  lemma UnprocessedIdempotent(fids: seq<ForeignId>, files: seq<string>)
    ensures GetUnprocessedVolumes(GetUnprocessedVolumes(fids, files), files) == GetUnprocessedVolumes(fids, files)
  {
    FilterStronger(fids, fid => IsUnprocessed(files, fid), fid => IsUnprocessed(files, fid));
  }

  /** When more files appear, the unprocessed volumes are those of the
      earlier answer that are still unprocessed: volumes only ever leave. */
  lemma UnprocessedMonotone(fids: seq<ForeignId>, files: seq<string>, more: seq<string>)
    requires forall n :: n in files ==> n in more
    ensures GetUnprocessedVolumes(fids, more) == GetUnprocessedVolumes(GetUnprocessedVolumes(fids, files), more)
    ensures IsSubsequence(GetUnprocessedVolumes(fids, more), GetUnprocessedVolumes(fids, files))
  {
    FilterStronger(fids, fid => IsUnprocessed(files, fid), fid => IsUnprocessed(more, fid));
    FilterIsSubsequence(GetUnprocessedVolumes(fids, files), fid => IsUnprocessed(more, fid));
  }

  // ---------------------------------------------------------------------
  // Media files

  /** The media found is the first of the wav, mp3 and mp4 names present. */
  lemma MediaPriority(fid: ForeignId, files: seq<string>)
    ensures var r := GetMediaDownloadedForVolume(fid, files);
      r == Find(MediaCandidates(fid), files) &&
      (r.Some? ==> r.value in files && exists k :: 0 <= k < 3 && r.value == MapFidToOutputFile(fid, "", MediaExtensions[k]) &&
                                                forall j :: 0 <= j < k ==> MapFidToOutputFile(fid, "", MediaExtensions[j]) !in files)
  {
  }

  /** The downloaded medias are the fids that have a media file, in their
      order: the volume is kept and the id is the media file found. */
  lemma {:induction false} MediasAlreadyDownloadedExactly(fids: seq<ForeignId>, files: seq<string>)
    ensures var kept := Filter(fids, fid => HasMedia(files, fid));
      var r := GetMediasAlreadyDownloaded(fids, files);
      |r| == |kept| &&
      forall i :: 0 <= i < |r| ==>
        (r[i].volume == kept[i].volume && GetMediaDownloadedForVolume(kept[i], files) == Some(r[i].id))
  {
    if fids != [] {
      var hasMedia := fid => HasMedia(files, fid);
      MediasAlreadyDownloadedExactly(fids[1..], files);
      var m0 := GetMediaDownloadedForVolume(fids[0], files);
      var keptRest := Filter(fids[1..], hasMedia);
      var rest := GetMediasAlreadyDownloaded(fids[1..], files);
      if m0.Some? {
        assert Filter(fids, hasMedia) == [fids[0]] + keptRest;
        assert GetMediasAlreadyDownloaded(fids, files) == [ForeignId(m0.value, fids[0].volume)] + rest;
      } else {
        assert Filter(fids, hasMedia) == keptRest;
        assert GetMediasAlreadyDownloaded(fids, files) == rest;
      }
    }
  }

  /** The missing and the downloaded medias together account for every fid. */
  lemma MediaPartition(fids: seq<ForeignId>, files: seq<string>)
    ensures |GetMissingMedias(fids, files)| + |GetMediasAlreadyDownloaded(fids, files)| == |fids|
    ensures multiset(GetMissingMedias(fids, files)) + multiset(Filter(fids, fid => HasMedia(files, fid))) == multiset(fids)
  {
    FilterPartition(fids, fid => !HasMedia(files, fid), fid => HasMedia(files, fid));
    MediasAlreadyDownloadedExactly(fids, files);
  }

  /** A fid is missing its media exactly when no downloaded entry has its
      volume: each fid lands in exactly one of the two lists. */
  lemma MissingIffNotDownloaded(fids: seq<ForeignId>, files: seq<string>)
    ensures forall f :: f in GetMissingMedias(fids, files) <==> f in fids && !HasMedia(files, f)
    ensures forall f :: f in fids ==> (f in GetMissingMedias(fids, files) <==>
                                       forall m :: m in GetMediasAlreadyDownloaded(fids, files) ==> m.volume != f.volume)
  {
    forall f | f in fids
      ensures f in GetMissingMedias(fids, files) <==> !HasMedia(files, f)
      ensures f in GetMissingMedias(fids, files) <==>
              forall m :: m in GetMediasAlreadyDownloaded(fids, files) ==> m.volume != f.volume
    {
      if !HasMedia(files, f) {
        FilterKeeps(fids, fid => !HasMedia(files, fid), f);
      }
      MediaOfVolume(fids, files, f);
    }
  }

  /** A downloaded entry with the volume of `f` exists exactly when `f` has media. */
  lemma {:induction false} MediaOfVolume(fids: seq<ForeignId>, files: seq<string>, f: ForeignId)
    requires f in fids
    ensures HasMedia(files, f) <==> exists m :: m in GetMediasAlreadyDownloaded(fids, files) && m.volume == f.volume
  {
    var r := GetMediasAlreadyDownloaded(fids, files);
    var m0 := GetMediaDownloadedForVolume(fids[0], files);
    if fids[0] == f {
      if HasMedia(files, f) {
        assert r[0] == ForeignId(m0.value, f.volume);
      } else if exists m :: m in r && m.volume == f.volume {
        var m :| m in r && m.volume == f.volume;
        assert r == GetMediasAlreadyDownloaded(fids[1..], files);
        MediaVolumes(fids[1..], files, m);
        assert false;
      }
    } else {
      MediaOfVolume(fids[1..], files, f);
      if m0.Some? {
        assert r == [ForeignId(m0.value, fids[0].volume)] + GetMediasAlreadyDownloaded(fids[1..], files);
        if fids[0].volume == f.volume {
          MediaDependsOnVolume(f, fids[0], files);
        }
      }
    }
  }

  /** Every downloaded entry belongs to a fid of the input that has media. */
  lemma {:induction false} MediaVolumes(fids: seq<ForeignId>, files: seq<string>, m: ForeignId)
    requires m in GetMediasAlreadyDownloaded(fids, files)
    ensures exists g :: g in fids && g.volume == m.volume && HasMedia(files, g)
  {
    var m0 := GetMediaDownloadedForVolume(fids[0], files);
    if m0.Some? && m == ForeignId(m0.value, fids[0].volume) {
      assert fids[0] in fids;
    } else {
      MediaVolumes(fids[1..], files, m);
      var g :| g in fids[1..] && g.volume == m.volume && HasMedia(files, g);
      assert g in fids;
    }
  }

  /** Whether a fid has been transcribed or has media depends only on its volume. */
  lemma MediaDependsOnVolume(f: ForeignId, g: ForeignId, files: seq<string>)
    requires f.volume == g.volume
    ensures GetMediaDownloadedForVolume(f, files) == GetMediaDownloadedForVolume(g, files)
    ensures IsUnprocessed(files, f) == IsUnprocessed(files, g)
  {
    assert MediaCandidates(f) == MediaCandidates(g);
  }

  /** Media found stays found when more files appear. */
  lemma HasMediaMonotone(fid: ForeignId, files: seq<string>, more: seq<string>)
    requires forall n :: n in files ==> n in more
    ensures HasMedia(files, fid) ==> HasMedia(more, fid)
  {
  }

  /** When more files appear, fids can only leave the missing-media list. */
  lemma MissingMediasMonotone(fids: seq<ForeignId>, files: seq<string>, more: seq<string>)
    requires forall n :: n in files ==> n in more
    ensures GetMissingMedias(fids, more) == GetMissingMedias(GetMissingMedias(fids, files), more)
    ensures IsSubsequence(GetMissingMedias(fids, more), GetMissingMedias(fids, files))
  {
    forall fid ensures !HasMedia(more, fid) ==> !HasMedia(files, fid) {
      HasMediaMonotone(fid, files, more);
    }
    FilterStronger(fids, fid => !HasMedia(files, fid), fid => !HasMedia(more, fid));
    FilterIsSubsequence(GetMissingMedias(fids, files), fid => !HasMedia(more, fid));
  }

  // ---------------------------------------------------------------------
  // Only a volume's own names matter

  /** The names a fid's answers depend on. */
  function ExpectedNames(fid: ForeignId): set<string>
  {
    {MapFidToOutputFile(fid)} + set k | 0 <= k < 3 :: MediaCandidates(fid)[k]
  }

  /** Two listings that agree on a fid's expected names give that fid the
      same answers. */
  lemma OnlyExpectedNamesMatter(fid: ForeignId, files: seq<string>, other: seq<string>)
    requires forall n :: n in ExpectedNames(fid) ==> (n in files <==> n in other)
    ensures GetUnprocessedVolumes([fid], files) == GetUnprocessedVolumes([fid], other)
    ensures GetMediaDownloadedForVolume(fid, files) == GetMediaDownloadedForVolume(fid, other)
    ensures GetMissingMedias([fid], files) == GetMissingMedias([fid], other)
    ensures GetMediasAlreadyDownloaded([fid], files) == GetMediasAlreadyDownloaded([fid], other)
  {
    var c := MediaCandidates(fid);
    assert c[0] in ExpectedNames(fid) && c[1] in ExpectedNames(fid) && c[2] in ExpectedNames(fid);
    assert MapFidToOutputFile(fid) in ExpectedNames(fid);
  }

  /** The names of another volume are never among a fid's expected names. */
  lemma OtherVolumesDoNotMatter(fid: ForeignId, other: ForeignId, ext: string)
    requires other.volume != fid.volume
    requires |ext| >= 1 && ext[0] == '.'
    ensures MapFidToOutputFile(other, "", ext) !in ExpectedNames(fid)
  {
    if MapFidToOutputFile(other, "", ext) == MapFidToOutputFile(fid) {
      OutputNameInjective(other, fid, ext, ".json");
    }
    forall k | 0 <= k < 3 ensures MapFidToOutputFile(other, "", ext) != MediaCandidates(fid)[k] {
      if MapFidToOutputFile(other, "", ext) == MediaCandidates(fid)[k] {
        OutputNameInjective(other, fid, ext, MediaExtensions[k]);
      }
    }
  }

  // ---------------------------------------------------------------------
  // The cases of the unit tests

  lemma UnprocessedTestCases()
    ensures GetUnprocessedVolumes([ForeignId("abcd", 1), ForeignId("efg", 2)], ["1.json"]) == [ForeignId("efg", 2)]
    ensures GetUnprocessedVolumes([ForeignId("abcd", 1), ForeignId("efg", 2)], ["1.json", "2.json"]) == []
  {
    assert MapFidToOutputFile(ForeignId("abcd", 1)) == "1.json";
    assert MapFidToOutputFile(ForeignId("efg", 2)) == "2.json";
    var fids := [ForeignId("abcd", 1), ForeignId("efg", 2)];
    assert fids[1..] == [ForeignId("efg", 2)];
    assert fids[1..][1..] == [];
  }

  lemma OutputFileTestCases()
    ensures MapFidToOutputFile(ForeignId("1", 1), "folder") == "folder/1.json"
    ensures MapFidToOutputFile(ForeignId("1", 1), "") == "1.json"
  {
    assert Decimal.IntToString(1) == "1";
  }

  lemma VolumeOneNames(id: string)
    ensures MapFidToOutputFile(ForeignId(id, 1), "", ".wav") == "1.wav"
    ensures MapFidToOutputFile(ForeignId(id, 1), "", ".mp3") == "1.mp3"
    ensures MapFidToOutputFile(ForeignId(id, 1), "", ".mp4") == "1.mp4"
  {
    assert Decimal.IntToString(1) == "1";
  }

  lemma MissingMediaTestCases()
    ensures GetMissingMedias([ForeignId("1", 1)], ["1.mp4"]) == []
    ensures GetMissingMedias([ForeignId("1", 1)], ["1.wav"]) == []
    ensures GetMissingMedias([ForeignId("1", 1)], ["2.json"]) == [ForeignId("1", 1)]
  {
    var one := ForeignId("1", 1);
    VolumeOneNames("1");
    assert "1.wav" !in ["1.mp4"] && "1.mp3" !in ["1.mp4"];
    assert "1.wav" !in ["2.json"] && "1.mp3" !in ["2.json"] && "1.mp4" !in ["2.json"];
    assert HasMedia(["1.mp4"], one) && HasMedia(["1.wav"], one) && !HasMedia(["2.json"], one);
    assert [one][1..] == [];
  }

  lemma DownloadedMediaTestCases()
    ensures GetMediasAlreadyDownloaded([ForeignId("1", 1)], ["1.mp4"]) == [ForeignId("1.mp4", 1)]
    ensures GetMediasAlreadyDownloaded([ForeignId("1", 1)], ["1.wav"]) == [ForeignId("1.wav", 1)]
    ensures GetMediasAlreadyDownloaded([ForeignId("1", 1)], ["2.wav"]) == []
  {
    var one := ForeignId("1", 1);
    VolumeOneNames("1");
    assert "1.wav" !in ["1.mp4"] && "1.mp3" !in ["1.mp4"];
    assert "1.wav" !in ["2.wav"] && "1.mp3" !in ["2.wav"] && "1.mp4" !in ["2.wav"];
    assert GetMediaDownloadedForVolume(one, ["1.mp4"]) == Some("1.mp4");
    assert GetMediaDownloadedForVolume(one, ["1.wav"]) == Some("1.wav");
    assert GetMediaDownloadedForVolume(one, ["2.wav"]) == None;
    assert [one][1..] == [];
  }
}
