/** Preparing a collection for translation: the collection's directory
    receives its pages, its entries and an empty translation file, each
    only when it is not there yet. */
module Translate {
  import opened Wrappers
  import opened FidUtils
  import UploadAsl
  import Maktabah
  import Entries

  /** The prompt's check `/^\d+$/`: one or more ASCII digits and nothing else. */
  predicate IsValidCollectionId(c: string)
  {
    |c| >= 1 && forall i :: 0 <= i < |c| ==> UploadAsl.IsAsciiDigit(c[i])
  }

  function ValidateCollectionId(c: string): (r: UploadAsl.Validation)
    ensures r == UploadAsl.Accepted <==> IsValidCollectionId(c)
    ensures r != UploadAsl.Accepted ==> r == UploadAsl.Rejected("Please enter a valid collection ID")
  {
    if IsValidCollectionId(c) then UploadAsl.Accepted else UploadAsl.Rejected("Please enter a valid collection ID")
  }

  /** This check is stricter than the upload prompt's unanchored one: every
      id it accepts the upload prompt accepts, and `"abc1"` only the latter. */
  lemma StricterThanUploadCheck(c: string)
    ensures ValidateCollectionId(c) == UploadAsl.Accepted ==> UploadAsl.ValidateCollectionId(c) == UploadAsl.Accepted
    ensures UploadAsl.ValidateCollectionId("abc1") == UploadAsl.Accepted
    ensures ValidateCollectionId("abc1") != UploadAsl.Accepted
  {
    if IsValidCollectionId(c) {
      assert UploadAsl.IsAsciiDigit(c[0]);
    }
    UploadAsl.ValidateCollectionIdUnanchored();
    assert !UploadAsl.IsAsciiDigit("abc1"[0]);
  }

  /** The collection worked on: the one given on the command line when it
      is non-empty (it is not checked), otherwise the prompted one. */
  function ChosenCollection(targetCollection: Option<string>, prompted: string): (r: string)
    ensures TruthyString(targetCollection) ==> r == targetCollection.value
    ensures !TruthyString(targetCollection) ==> r == prompted
  {
    if TruthyString(targetCollection) then targetCollection.value else prompted
  }

  function PagesPath(collectionId: string): string { PathFormat(collectionId, "pages", ".json") }
  function EntriesPath(collectionId: string): string { PathFormat(collectionId, "entries", ".json") }
  function TranslationPath(collectionId: string): string { PathFormat(collectionId, "translation", ".txt") }

  /** The three files are different files, all in the collection's directory. */
  lemma PathsDistinct(c: string)
    ensures PagesPath(c) != EntriesPath(c) && PagesPath(c) != TranslationPath(c) && EntriesPath(c) != TranslationPath(c)
    ensures c != "" ==> forall p :: p in [PagesPath(c), EntriesPath(c), TranslationPath(c)] ==>
              |p| > |c| + 1 && p[..|c| + 1] == c + "/"
  {
    assert |PagesPath(c)| < |EntriesPath(c)| < |TranslationPath(c)|;
    if c != "" {
      assert PagesPath(c) == (c + "/") + "pages.json";
      assert EntriesPath(c) == (c + "/") + "entries.json";
      assert TranslationPath(c) == (c + "/") + "translation.txt";
    }
  }

  /** What a file of the store holds: the pages or entries written by this
      operation (`JSON.stringify` of them), a text, or anything else found
      there before. */
  datatype Content<N> = PagesJson(pages: seq<Maktabah.Page>) | EntriesJson(entries: seq<Entries.Entry<N>>)
                      | Text(text: string) | Other

  /** The service calls: the raw rows `getPages` and `getEntries` receive for
      a collection, and `Number`. */
  datatype Fetchers<N> = Fetchers(pageRows: string -> seq<Maktabah.RawPage>,
                                  entryRows: string -> seq<Entries.RawEntry>,
                                  toNumber: string -> N)

  /** A directory tree: the directories that exist and the files by path. */
  class FileStore<N> {
    var dirs: set<string>
    var files: map<string, Content<N>>

    constructor (dirs: set<string>, files: map<string, Content<N>>)
      ensures this.dirs == dirs && this.files == files
    {
      this.dirs := dirs;
      this.files := files;
    }

    /** `Bun.file(path).exists()`. */
    method Exists(path: string) returns (b: bool)
      ensures b <==> path in files
    {
      b := path in files;
    }

    /** `Bun.file(path).write(...)`. */
    method Write(path: string, c: Content<N>)
      modifies this
      ensures files == old(files)[path := c] && dirs == old(dirs)
    {
      files := files[path := c];
    }

    /** `fs.mkdir(path, { recursive: true })`. */
    method MakeDir(path: string)
      modifies this
      ensures dirs == old(dirs) + {path} && files == old(files)
    {
      dirs := dirs + {path};
    }
  }

  /** Adds `c` at `path` unless a file is already there. */
  function PutIfAbsent<N>(files: map<string, Content<N>>, path: string, c: Content<N>): map<string, Content<N>>
  {
    if path in files then files else files[path := c]
  }

  /** The files after `translateWithAI` on `collectionId`. */
  function TranslateSpec<N>(files: map<string, Content<N>>, collectionId: string, svc: Fetchers<N>): map<string, Content<N>>
  {
    var f1 := PutIfAbsent(files, PagesPath(collectionId),
                          PagesJson(Maktabah.GetPages(svc.pageRows(collectionId))));
    var f2 := PutIfAbsent(f1, EntriesPath(collectionId),
                          EntriesJson(Entries.GetEntries(svc.entryRows(collectionId), svc.toNumber)));
    PutIfAbsent(f2, TranslationPath(collectionId), Text(""))
  }

  /** `translateWithAI` once the collection is chosen. It reports whether
      the pages and the entries were fetched. */
  method TranslateWithAI<N>(store: FileStore<N>, collectionId: string, svc: Fetchers<N>)
    returns (fetchedPages: bool, fetchedEntries: bool)
    modifies store
    ensures store.files == TranslateSpec(old(store.files), collectionId, svc)
    ensures store.dirs == old(store.dirs) + {collectionId}
    ensures fetchedPages <==> PagesPath(collectionId) !in old(store.files)
    ensures fetchedEntries <==> EntriesPath(collectionId) !in old(store.files)
  {
    PathsDistinct(collectionId);
    store.MakeDir(collectionId);
    var pagesFile, entriesFile, translationFile :=
      PagesPath(collectionId), EntriesPath(collectionId), TranslationPath(collectionId);
    var hasPages := store.Exists(pagesFile);
    fetchedPages := !hasPages;
    if !hasPages {
      var pages := Maktabah.GetPages(svc.pageRows(collectionId));
      store.Write(pagesFile, PagesJson(pages));
    }
    var hasEntries := store.Exists(entriesFile);
    fetchedEntries := !hasEntries;
    if !hasEntries {
      var entries := Entries.GetEntries(svc.entryRows(collectionId), svc.toNumber);
      store.Write(entriesFile, EntriesJson(entries));
    }
    var hasTranslation := store.Exists(translationFile);
    if !hasTranslation {
      store.Write(translationFile, Text(""));
    }
  }

  /** A file that was there is kept as it was, and only the three files of
      the collection are added. */
  lemma TranslateNeverOverwrites<N>(files: map<string, Content<N>>, collectionId: string, svc: Fetchers<N>)
    ensures var r := TranslateSpec(files, collectionId, svc);
      (forall p :: p in files ==> p in r && r[p] == files[p]) &&
      r.Keys == files.Keys + {PagesPath(collectionId), EntriesPath(collectionId), TranslationPath(collectionId)}
  {
  }

  /** Afterwards the three files exist; a file that was missing holds the
      fetched pages, the fetched entries or the empty text. */
  lemma TranslateCreates<N>(files: map<string, Content<N>>, collectionId: string, svc: Fetchers<N>)
    ensures var r := TranslateSpec(files, collectionId, svc);
      PagesPath(collectionId) in r && EntriesPath(collectionId) in r && TranslationPath(collectionId) in r &&
      (PagesPath(collectionId) !in files ==>
         r[PagesPath(collectionId)] == PagesJson(Maktabah.GetPages(svc.pageRows(collectionId)))) &&
      (EntriesPath(collectionId) !in files ==>
         r[EntriesPath(collectionId)] == EntriesJson(Entries.GetEntries(svc.entryRows(collectionId), svc.toNumber))) &&
      (TranslationPath(collectionId) !in files ==> r[TranslationPath(collectionId)] == Text(""))
  {
    PathsDistinct(collectionId);
  }

  /** When the three files exist nothing is fetched and nothing changes. */
  lemma TranslateAllPresent<N>(files: map<string, Content<N>>, collectionId: string, svc: Fetchers<N>)
    requires PagesPath(collectionId) in files && EntriesPath(collectionId) in files
    requires TranslationPath(collectionId) in files
    ensures TranslateSpec(files, collectionId, svc) == files
  {
  }

  /** A second run changes nothing. */
  lemma TranslateIdempotent<N>(files: map<string, Content<N>>, collectionId: string, svc: Fetchers<N>)
    ensures TranslateSpec(TranslateSpec(files, collectionId, svc), collectionId, svc) ==
            TranslateSpec(files, collectionId, svc)
  {
    TranslateCreates(files, collectionId, svc);
    TranslateAllPresent(TranslateSpec(files, collectionId, svc), collectionId, svc);
  }
}
