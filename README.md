# ilmtest-cli core, modelled in Dafny

ilmtest-cli is a command-line tool that prepares Arabic manuscript
collections. It turns the videos of a collection into transcripts and
combines them into one archive. It also uploads compiled archives and
fetches the pages and entries of a collection for translation. This
project models the tool's local logic and proves properties of it.

- **FidUtils** works out the resumable work set from a flat listing of
  the output directory. Each volume has a foreign id (`fid`): a volume number
  plus the id of its source. The module decides which volumes still lack
  their `<volume>.json` transcript and which lack any media file. For those
  with media, it picks the file to use: `.wav` first, then `.mp3`, then `.mp4`.
- **Downloader** picks the progressive mp4 formats of a video. When none
  exists it fails with the error the tool throws. The mirror race is a
  parameter.
- **Transcribe** holds the transcript values. It builds the single segment
  of a volume from the transcription service's chunks, and it filters the
  fids by a requested volume.
- **PipelineSpec**, **PipelineSteps** and **PipelineRun** describe
  `downloadAndTranscribe` as functions of the directory's contents. They
  prove what one run does and, when every download in it completes,
  what it leaves for the next one:
  - files already present are never overwritten;
  - a successful run leaves no volume without a transcript;
  - a second run does nothing;
  - integration then reads one transcript per volume, in order.
- **TranscribePipeline** holds the steps as they run. A class
  `OutputDirectory` has its listing and its file contents as fields. Each
  loop of the source is a `while` loop whose result and new directory
  state are proved equal to its function in `PipelineSpec`.
- **Collections** maps catalogue rows to collections. It also decodes a
  collection's `fid` field, which is either a JSON object from volume to
  video id or one plain video id.
- **Endpoint** is `changeEndpointName` on a URL's path. It models the regular
  expression `/\/([^/]+)(\.[^.]+)$/` and the full expansion of JavaScript's
  replacement template (`$$`, `$&`, `` $` ``, `$'`, `$1`, `$2`, `$01`, `$02`).
- **Maktabah** and **Entries** map page and entry rows. The page sort is a
  stable insertion sort by page number, proved sorted, a permutation and
  stable.
- **UploadAsl** covers:
  - cleaning a dropped path: `\ ` becomes a space, then JavaScript `trim`;
  - the two prompt validators, with their messages;
  - the names of the storage keys.
- **Translate** covers:
  - the anchored collection-id check;
  - the three file paths of a collection;
  - create-if-absent, as a method on a class `FileStore` whose fields are the
    directories and the files.

External services are parameters: function-typed fields of a `Services` or
`Fetchers` value. These are the prior-transcription service, the YouTube
format listing, the mirror race, the transcription service, and the
catalogue and page/entry services. The same goes for the file-existence
check and for JavaScript's `Number`, `parseInt` and `JSON.parse`. A thrown
exception that ends a run is the `Failure` case of a `Result`.

Two behaviours are modelled as the code has them, though they may surprise:
- The upload prompt's collection-id check `/\d+/` is unanchored, so `abc1`
  passes it. The translation prompt's `/^\d+$/` rejects `abc1`
  (`UploadAsl.ValidateCollectionIdUnanchored`,
  `Translate.StricterThanUploadCheck`).
- A target collection given on the command line is used in
  `translateWithAI` without being checked (`Translate.ChosenCollection`).

## Model

| member | source | states |
|---|---|---|
| FidUtils.GetMediaDownloadedForVolume | src/utils/fidUtils.ts:17-20 | the `.wav` name is chosen when listed, else the `.mp3` one, else the `.mp4` one; nothing is found exactly when none of the three is listed |
| FidUtils.OutputFileInDirectory | src/utils/fidUtils.ts:6-8 | a volume's file in a directory is the directory, `/` and the bare name, and the bare name is the volume's decimal numeral followed by the extension |
| FidUtils.OutputNameInjective | src/utils/fidUtils.ts:6-8 | a bare output name determines the volume and the extension |
| FidUtils.TranscriptIsNotMedia | src/utils/fidUtils.ts:6-8 | no transcript name equals a media name of any volume |
| FidUtils.UnprocessedVolumesExactly | src/utils/fidUtils.ts:10-15 | the result is a subsequence of the fids; it holds exactly the fids whose transcript name is not listed, each as often as in the input |
| FidUtils.AllTranscribed | src/utils/fidUtils.ts:10-15 | nothing is unprocessed exactly when every fid's transcript name is listed |
| FidUtils.UnprocessedIdempotent | src/utils/fidUtils.ts:10-15 | filtering a second time against the same listing changes nothing |
| FidUtils.UnprocessedMonotone | src/utils/fidUtils.ts:10-15 | when more files are listed, the unprocessed fids are those of the earlier answer still unprocessed, a subsequence of it |
| FidUtils.MediaPriority | src/utils/fidUtils.ts:17-20 | the media found is listed, is the fid's name with one of the three extensions, and no earlier extension's name is listed |
| FidUtils.MediasAlreadyDownloadedExactly | src/utils/fidUtils.ts:22-28 | one entry per fid that has media, in order, keeping its volume and carrying the media file found as its id |
| FidUtils.MediaPartition | src/utils/fidUtils.ts:22-32 | the missing and the downloaded lists together account for every fid, by count and as a multiset |
| FidUtils.MissingIffNotDownloaded | src/utils/fidUtils.ts:22-32 | a fid is missing its media iff it has none iff no downloaded entry has its volume |
| FidUtils.MediaOfVolume | src/utils/fidUtils.ts:22-28 | a fid has media iff some downloaded entry carries its volume |
| FidUtils.MediaVolumes | src/utils/fidUtils.ts:22-28 | every downloaded entry comes from a fid of the input with that volume that has media |
| FidUtils.MediaDependsOnVolume | src/utils/fidUtils.ts:6-20 | whether a fid is unprocessed and which media it has depend only on its volume |
| FidUtils.HasMediaMonotone | src/utils/fidUtils.ts:17-20 | media found in a listing is still found when more files are listed |
| FidUtils.MissingMediasMonotone | src/utils/fidUtils.ts:30-32 | when more files are listed, fids can only leave the missing list, which stays a subsequence |
| FidUtils.OnlyExpectedNamesMatter | src/utils/fidUtils.ts:10-32 | the four answers for a fid depend only on whether its transcript name and its three media names are listed |
| FidUtils.OtherVolumesDoNotMatter | src/utils/fidUtils.ts:6-8 | the names of another volume are never among a fid's expected names |
| FidUtils.UnprocessedTestCases | src/utils/fidUtils.test.ts:8-28 | the two `getUnprocessedVolumes` cases of the unit tests |
| FidUtils.OutputFileTestCases | src/utils/fidUtils.test.ts:32-40 | the two `mapFidToOutputFile` cases of the unit tests |
| FidUtils.MissingMediaTestCases | src/utils/fidUtils.test.ts:44-57 | the three `getMissingMedias` cases of the unit tests |
| FidUtils.DownloadedMediaTestCases | src/utils/fidUtils.test.ts:61-74 | the three `getMediasAlreadyDownloaded` cases of the unit tests |
| Downloader.Urls | src/utils/downloader.ts:17 | the URLs of the formats, one per format, in order |
| Downloader.Winner | src/utils/downloader.ts:17 | the URL the mirror race picks is one of the candidates |
| Downloader.DownloadYouTubeVideo | src/utils/downloader.ts:7-21 | fails exactly when no format of the video's listing is a progressive mp4 with audio, with the message "No suitable mp4 format found"; otherwise it writes the output file from the URL of a suitable format |
| Downloader.SuitableFormatsExactly | src/utils/downloader.ts:9-11 | the kept formats are a subsequence of the listing; they are exactly the mp4 ones with audio that are neither HLS nor DASH, each as often as listed |
| Transcribe.ReduceAll | src/actions/transcribe.ts:99 | each token is reduced to its start, end and text, in order |
| Transcribe.Texts | src/actions/transcribe.ts:107 | the token texts, in order |
| Transcribe.BuildSegment | src/actions/transcribe.ts:103-110 | the segment keeps the tokens, starts at the first token's start, ends at the last token's end, and its text is the token texts joined by single spaces |
| Transcribe.ChunkTokensExactly | src/actions/transcribe.ts:99 | the tokens exist iff every chunk has a token list, and then they are all the chunks' tokens in order, reduced |
| Transcribe.SegmentTextRoundTrip | src/actions/transcribe.ts:107 | splitting the segment text on spaces gives the token texts back when no text contains a space |
| Transcribe.SelectVolumesExactly | src/actions/transcribe.ts:179-181 | a requested volume that is a nonzero number keeps exactly the fids of that volume, in order and with their multiplicity; any other request keeps every fid |
| PipelineSpec.OutputFiles | src/actions/transcribe.ts:38 | each fid with its id replaced by its output file in the directory, in order |
| PipelineSteps.TranscribedVolumesExactly | src/actions/transcribe.ts:44-58 | one entry per fid with a truthy lookup URL, in order, carrying that URL and the fid's volume |
| PipelineSteps.TranscribedVolumesFrom | src/actions/transcribe.ts:44-58 | every entry has the volume of an input fid that has a prior transcript |
| PipelineSteps.SaveTranscriptsFacts | src/actions/transcribe.ts:21-42 | saving writes only the fids' transcript files, and each then holds a transcript of its fid's volume |
| PipelineSteps.SaveTranscriptsWellFormed | src/actions/transcribe.ts:21-42 | the listing stays free of duplicates and matches the stored files |
| PipelineSteps.DownloadVideosReport | src/actions/transcribe.ts:60-73 | a successful step reports every fid's mp4 file in the directory, in order |
| PipelineSteps.DownloadVideosSuccess | src/actions/transcribe.ts:60-73 | after a successful step every fid's mp4 file is listed |
| PipelineSteps.DownloadVideosFailure | src/actions/transcribe.ts:60-73 | the step fails iff some fid's video has no suitable format, and then with the download error and its message |
| PipelineSteps.DownloadVideosWellFormed | src/actions/transcribe.ts:60-73 | the listing stays free of duplicates and matches the stored files |
| PipelineSteps.TranscriptOfExactly | src/actions/transcribe.ts:85-113 | a transcript exists iff every chunk has tokens and there is at least one; it has one well-formed segment of all the tokens, no URLs, the current date and the media's volume |
| PipelineSteps.TranscribeVideosReport | src/actions/transcribe.ts:75-124 | a successful step reports every media's transcript file in the directory, in order |
| PipelineSteps.TranscribeVideosStores | src/actions/transcribe.ts:75-124 | after a successful step each media's transcript file holds a transcript of its volume |
| PipelineSteps.TranscribeVideosFailure | src/actions/transcribe.ts:75-124 | the step fails iff some media's transcription has no token list or no tokens |
| PipelineSteps.TranscribeVideosWellFormed | src/actions/transcribe.ts:75-124 | the listing stays free of duplicates and matches the stored files |
| PipelineSteps.ReadTranscriptsExactly | src/actions/transcribe.ts:147-151 | reading succeeds iff every fid's transcript file exists, giving those transcripts in fid order; otherwise it names a missing file |
| PipelineSteps.IntegrateExactly | src/actions/transcribe.ts:139-154 | the series has contract version "v1.0", both dates equal to the run's clock reading `now` (read once in the model), and one transcript per fid in order |
| PipelineRun.PriorVolumesFrom | src/actions/transcribe.ts:187-190 | every prior transcript fetched belongs to a fid without a transcript file that has one |
| PipelineRun.PriorNames | src/actions/transcribe.ts:187-190 | the prior transcripts land on transcript names of the fids that were not yet listed |
| PipelineRun.ToDownloadFrom | src/actions/transcribe.ts:193-196 | every fid queued for download is an input fid without a transcript file and without any media |
| PipelineRun.ToTranscribeFrom | src/actions/transcribe.ts:203-204 | every media queued for transcription belongs to an input fid without a transcript file that has media |
| PipelineRun.PriorPhase | src/actions/transcribe.ts:187-190 | the first phase writes only transcript files of the fids, overwrites nothing and stores each fetched transcript |
| PipelineRun.DownloadPhase | src/actions/transcribe.ts:193-196 | the download phase writes only mp4 files of the fids and overwrites nothing |
| PipelineRun.TranscribePhase | src/actions/transcribe.ts:203-204 | the transcription phase writes only transcript files of the fids and overwrites nothing |
| PipelineRun.RunFrame | src/actions/transcribe.ts:186-212 | a run, successful or not, keeps the directory well formed, overwrites no file, writes only the fids' transcript and mp4 files, and only shrinks the unprocessed list |
| PipelineRun.RunSuccessLeavesNothing | src/actions/transcribe.ts:207-211 | after a successful run every fid's transcript file is listed, so the closing warning lists nothing |
| PipelineRun.RunTargets | src/actions/transcribe.ts:186-212 | a successful run fetches prior transcripts, downloads and transcribes only for fids without a transcript file (downloads also only without media), and reports the files written |
| PipelineRun.RunWhenAllTranscribed | src/actions/transcribe.ts:186-212 | when every transcript file is listed, a run changes nothing and reports nothing |
| PipelineRun.RunTwice | src/actions/transcribe.ts:186-212 | a second run after a successful one changes nothing and reports nothing, whatever the services answer |
| PipelineRun.RunKeepsTranscriptFiles | src/actions/transcribe.ts:186-212 | a successful run keeps every transcript file of a fid holding a transcript of its volume, provided those present before did |
| PipelineRun.RunThenIntegrate | src/actions/transcribe.ts:241-244 | after a successful run, integration succeeds with one transcript per fid, in fid order, each of that fid's volume |
| PipelineRun.DownloadVideosServices | src/actions/transcribe.ts:60-73 | downloading depends only on the format listing and the mirror race |
| PipelineRun.TranscribeVideosServices | src/actions/transcribe.ts:75-124 | transcribing depends only on the transcription service |
| PipelineRun.RunWithTarget | src/actions/transcribe.ts:189-191 | with a target collection the prior-transcription service is never consulted and nothing is fetched from it |
| TranscribePipeline.OutputDirectory.ReadDir | src/actions/transcribe.ts:127 | the listing is the directory's names |
| TranscribePipeline.OutputDirectory.Write | src/actions/transcribe.ts:34 | a write adds or replaces one file, lists a new name last, and keeps the directory well formed |
| TranscribePipeline.OutputDirectory.Read | src/actions/transcribe.ts:149 | reading gives the file's contents, or nothing when it is absent |
| TranscribePipeline.GetRemainingFids | src/actions/transcribe.ts:126-129 | the unprocessed fids of the current listing |
| TranscribePipeline.GetTranscribedVolumes | src/actions/transcribe.ts:44-58 | the loop's result is `TranscribedVolumes` of the fids |
| TranscribePipeline.DownloadTranscripts | src/actions/transcribe.ts:21-42 | the loop reports the output files and leaves the directory that `SaveTranscripts` describes |
| TranscribePipeline.DownloadTranscriptsAlreadyTranscribed | src/actions/transcribe.ts:131-137 | saves the prior transcripts of the fids still unprocessed and reports their files |
| TranscribePipeline.DownloadYouTubeVideos | src/actions/transcribe.ts:60-73 | the loop's outcome and new directory are `DownloadVideos` of the old one |
| TranscribePipeline.TranscribeVideo | src/actions/transcribe.ts:85-120 | one media: on failure nothing is written; otherwise its transcript file is written and reported |
| TranscribePipeline.TranscribeDownloadedVideos | src/actions/transcribe.ts:75-124 | the loop's outcome and new directory are `TranscribeVideos` of the old one, with noise reduction off iff a target collection is given |
| TranscribePipeline.IntegrateTranscriptions | src/actions/transcribe.ts:139-154 | the loop's result is `Integrate` of the directory |
| TranscribePipeline.DownloadAndTranscribe | src/actions/transcribe.ts:186-212 | the run's report and new directory are `DownloadAndTranscribeSpec` of the old directory |
| Collections.CollectionIdRoundTrip | src/api/collections.ts:11 | the collection id is a numeral that parses back to the row's numeric id |
| Collections.TitleCases | src/api/collections.ts:12 | the title is "display, author", or the truthy one of the two alone, or empty |
| Collections.GetCollections | src/api/collections.ts:15-19 | one collection per row, in row order |
| Collections.EntriesToFids | src/api/collections.ts:28-31 | one fid per object entry, in order, with the value as id and the parsed key as volume |
| Collections.DecodeFid | src/api/collections.ts:25-34 | an object-looking fid decodes to its entries, or fails when it is not valid JSON; another truthy fid is one volume 1; a falsy fid gives no fid list |
| Collections.GetCollection | src/api/collections.ts:21-37 | no row fails with not found; otherwise the first row's id, title and decoded fid, and the decoding's error when it fails |
| Collections.PlainFidIsOneVolume | src/api/collections.ts:32-33 | a plain truthy fid gives a one-volume collection with that video id |
| Endpoint.LastIndex | src/api/index.ts:26 | the last index below the bound holding the character, or -1 when there is none |
| Endpoint.FindMatchExactly | src/api/index.ts:26 | the match found is the pattern's match: a `/` then a nonempty run without `/`, then a `.` group of non-dots reaching the end |
| Endpoint.NoMatchAnywhere | src/api/index.ts:26 | when nothing is found, the pattern matches nowhere |
| Endpoint.Reference | src/api/index.ts:26 | a `$` reference consumes at least one and at most all remaining template characters |
| Endpoint.ExpandLiteral | src/api/index.ts:26 | template text without `$` is copied as it is |
| Endpoint.ExpandGroupTwo | src/api/index.ts:26 | `$2` expands to the extension group |
| Endpoint.NoMatchUnchanged | src/api/index.ts:24-28 | a path the pattern does not match is left unchanged |
| Endpoint.RenamesBaseName | src/api/index.ts:24-28 | on a match, for a name without `$`, the last segment's base name is replaced and the extension kept |
| Endpoint.ChangePathnameIdempotent | src/api/index.ts:24-28 | renaming twice to the same plain name is renaming once |
| Endpoint.NoExtensionUnchanged | src/api/index.ts:24-28 | a path without any `.` is left unchanged |
| Maktabah.MapPage | src/api/maktabah.ts:27 | the page keeps body and id; page is the page number, pp the part page and volume the part number |
| Maktabah.MapPages | src/api/maktabah.ts:27 | one page per row, in row order |
| Maktabah.InsertPermutes | src/api/maktabah.ts:28 | inserting adds exactly the one page |
| Maktabah.InsertSorted | src/api/maktabah.ts:28 | inserting into a page-ordered list keeps it ordered |
| Maktabah.SortByPageFacts | src/api/maktabah.ts:28 | the sort's result is in page order and is a permutation of the input |
| Maktabah.InsertOnPage | src/api/maktabah.ts:28 | inserting a page puts it first among the pages of its number already in the sorted list |
| Maktabah.SortByPageStable | src/api/maktabah.ts:28 | the pages of each page number keep their input order |
| Maktabah.GetPagesFacts | src/api/maktabah.ts:20-29 | `getPages` returns the renamed rows, all of them, in page order, with ties in row order |
| Maktabah.SortedUnchanged | src/api/maktabah.ts:28 | rows already in page order come back as they were |
| Entries.MapEntry | src/api/entries.ts:31-39 | no Arabic text; the row's body as translation; `from` converted by `Number`; id, part page and part number kept; flags present iff the row's flags are truthy, then converted; index present iff the row's index is truthy, then copied |
| Entries.GetEntries | src/api/entries.ts:25-40 | one entry per row, in row order |
| Entries.MapEntryKeepsRow | src/api/entries.ts:31-39 | two rows with the same entry, one of them with a truthy index, agree on body, id, part, part page and index |
| Entries.GetEntriesTranslationOnly | src/api/entries.ts:25-40 | no entry carries Arabic text and every one carries its translation |
| UploadAsl.TrimStart | src/actions/uploadAsl.ts:10 | the result is the suffix of the input left after cutting off a leading run of white space: everything cut is white space and the result does not start with white space |
| UploadAsl.TrimEnd | src/actions/uploadAsl.ts:10 | the result is the prefix of the input left after cutting off a trailing run of white space: everything cut is white space and the result does not end with white space |
| UploadAsl.TrimSlice | src/actions/uploadAsl.ts:10 | trimming keeps one slice of the text, everything cut off before and after it is white space, and the slice neither starts nor ends with white space |
| UploadAsl.ReplaceEscapedSpaces | src/actions/uploadAsl.ts:10 | replacing never lengthens the text |
| UploadAsl.ReplaceEscapedSpacesUnits | src/actions/uploadAsl.ts:10 | a backslash followed by a space becomes one space; any other single character is kept |
| UploadAsl.ReplaceEscapedSpacesAppend | src/actions/uploadAsl.ts:10 | the replacement is applied piece by piece: for a piece that does not end in a backslash, replacing the joined text is joining the replaced pieces |
| UploadAsl.LoneBackslashKept | src/actions/uploadAsl.ts:10 | a backslash followed by anything but a space is kept, and the next character is still examined, so it can start an escaped space |
| UploadAsl.SanitizeInputTrimmed | src/actions/uploadAsl.ts:10 | a sanitized input is the unescaped input with only its leading and trailing white space cut off; it neither starts nor ends with white space and is no longer than the input |
| UploadAsl.NoBackslashUnchanged | src/actions/uploadAsl.ts:10 | without a backslash, sanitizing is trimming |
| UploadAsl.UnescapeRoundTrip | src/actions/uploadAsl.ts:10 | sanitizing undoes a terminal's escaping of spaces, up to trimming |
| UploadAsl.ValidateAslPath | src/actions/uploadAsl.ts:18-31 | accepted iff the sanitized path ends in `.json` and exists; otherwise rejected with the `.json` message first, else with the missing-file message |
| UploadAsl.HasDigit | src/actions/uploadAsl.ts:39 | the pattern matches iff some character is an ASCII digit |
| UploadAsl.ValidateCollectionId | src/actions/uploadAsl.ts:39 | accepted iff some character is an ASCII digit; otherwise rejected with "Please enter a valid collection ID" |
| UploadAsl.ValidateCollectionIdUnanchored | src/actions/uploadAsl.ts:39 | `abc1` is accepted and `abc` rejected |
| UploadAsl.KeyNames | src/actions/uploadAsl.ts:44-75 | the upload key is the compressed name of the legacy key, no legacy key is an upload key, and different collections have different upload keys |
| Translate.ValidateCollectionId | src/actions/translate.ts:15-21 | accepted iff the id is one or more ASCII digits and nothing else; otherwise rejected with the message |
| Translate.StricterThanUploadCheck | src/actions/translate.ts:16 | every id this check accepts, the upload check accepts too, and `abc1` shows the converse fails |
| Translate.ChosenCollection | src/actions/translate.ts:10-22 | a truthy target collection is used as it is; otherwise the prompted id |
| Translate.PathsDistinct | src/actions/translate.ts:26-28 | the pages, entries and translation files are three different files, all in the collection's directory |
| Translate.FileStore.Exists | src/actions/translate.ts:30 | true iff a file is at the path |
| Translate.FileStore.Write | src/actions/translate.ts:35 | the file at the path is set and nothing else changes |
| Translate.FileStore.MakeDir | src/actions/translate.ts:24 | the directory is added and nothing else changes |
| Translate.TranslateWithAI | src/actions/translate.ts:24-48 | the files become `TranslateSpec` of the old ones, the collection's directory exists, and pages or entries are fetched iff their file was absent |
| Translate.TranslateNeverOverwrites | src/actions/translate.ts:30-48 | existing files are kept as they were, and only the three files of the collection are added |
| Translate.TranslateCreates | src/actions/translate.ts:30-48 | afterwards the three files exist; a missing one holds the fetched pages, the mapped entries or an empty text |
| Translate.TranslateAllPresent | src/actions/translate.ts:30-48 | when the three files exist, nothing is fetched and nothing changes |
| Translate.TranslateIdempotent | src/actions/translate.ts:30-48 | a second run changes nothing |

## Left out

- The prompts, the menu of `src/index.ts`, logging, the S3 client and compression are left out. Only the key names and the checks they use are modelled.
- `compileManuscript`, `downloadAsl`, `deleteAsl` and `checkAsl` are outside this model.
- `getSelectedCollection` prompts for a collection and calls `getCollections` over the network. Only its volume filter is modelled (`SelectVolumes`).
- HTTP requests (`doGet`), response decoding and `fetch` failures are left out. Service answers are parameters, and a transport error is not modelled.
- `src/utils/network.ts`: the mirror race is a function choosing an index among the candidate URLs. The streaming download is the write of an mp4 file holding the chosen URL, made in one step.
- Interrupted downloads: the program writes the body chunk by chunk straight into `<volume>.mp4` (src/utils/network.ts:31-46). A download that fails or is cut off partway leaves a truncated `<volume>.mp4` in the directory. The next run lists it as present: the step that picks the missing media skips it, and it is handed to transcription as downloaded. The model writes each mp4 whole or not at all. So `RunTwice`, `RunFrame` and the other lemmas about consecutive runs cover only runs whose downloads completed.
- Clocks: `new Date()` is a `now` parameter, one value per run. The program reads the clock separately for each transcript's `timestamp` (src/actions/transcribe.ts:111) and for `createdAt` and `lastUpdatedAt` (src/actions/transcribe.ts:142-143), so its dates can differ by the time between those reads. That `createdAt` equals `lastUpdatedAt` in `IntegrateExactly` follows from this choice of the model, not from the program.
- Floating point: token times are `real` values that are copied, never computed. `Number` and `parseInt` are parameters, so a `NaN` volume is not modelled inside collections.
- Large numbers: the decimal rendering of a volume ignores the exponent notation JavaScript uses for very large numbers.
- `new URL(...)` and its serialisation: `changeEndpointName` is modelled on the path part only.
- `path.join` and `path.format` are modelled for a plain directory name with a `/` separator, without normalising `.`, `..` or repeated separators.
- The JSON text of files is left out. A file holds a value (`TranscriptFile`, `MediaFile`, `OtherFile`, `PagesJson`, `EntriesJson`, `Text`). So `JSON.stringify` is not modelled, and a JSON file that does not hold a transcript is unreadable for integration.
- Collections.DecodeFid: a JSON object whose values are not strings is not modelled; `parseObject` yields string pairs.
- The author and display names of a catalogue row are optional. The source's type says they are strings, but at run time they may be `null`.
- The segment type in `src/types.ts` differs from what `transcribe.ts` writes. The model follows the code in `transcribe.ts`.
- In `transcribeDownloadedVideos`, the `if (outputFile)` test is always true because the name is never empty, so its warning branch is not modelled.
- Empty transcription results are modelled as errors: chunks without a token list (`tokens!`) fail with `TokensMissing`, and no tokens at all (`tokens.at(-1)!`) fail with `NoTokens`.
- Concurrency: the `Promise.all` of `getSelectedCollection` and the five-fold concurrency of the transcription service are left out. Each step runs its loop sequentially, as the code does.
- There is no per-volume failure isolation: as in the code, the first error ends the whole run.
- `waitForKeyPress` before transcription is left out. A user's changes to the media files at that pause are not modelled.
- Files are addressed by their bare name inside the output directory.
- In `uploadAsl`, the default collection id taken from `path.parse(filePath).name` is not modelled.
- Endpoint.ChangePathname: a `$` in the new name is interpreted by the replacement template, and this is modelled in full. The idempotence and renaming lemmas are stated for names without `$`.
