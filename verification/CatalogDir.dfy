/**
 The tool over a directory of catalogs: `sync`, `sync --verify`, `add-entry` and
 the check the build runs (liana-i18n-toolbox/src/main.rs, liana-i18n/build.rs).
 Files are a map from name to text; the order in which the file system lists
 names is arbitrary.
 */
module CatalogDir {
  import opened Wrappers
  import opened Text
  import opened Sorting
  import opened Catalog
  import opened CatalogRender
  import opened CatalogRoundTrip
  import opened CatalogSync

  const ENGLISH_FILE := "liana_en.lang"
  const PREFIX := "liana_"
  const SUFFIX := ".lang"

  type Files = map<string, string>

  datatype ToolError =
    | Unreadable(name: string)
    | Malformed(name: string, error: ParseError)
    | InvalidNewId(id: string)
    | IdExists(id: string)

  predicate IsLocaleFile(name: string) {
    name != ENGLISH_FILE && PREFIX <= name && EndsWith(name, SUFFIX)
  }

  function Name(name: string): string {
    name
  }

  /** Every catalog but the English source, sorted, from a directory listing. */
  function LocaleFiles(listing: seq<string>): seq<string> {
    Sort(Name, LocaleNames(listing))
  }

  function LocaleNames(listing: seq<string>): seq<string> {
    if listing == [] then []
    else (if IsLocaleFile(listing[0]) then [listing[0]] else []) + LocaleNames(listing[1..])
  }

  /** A listing of the directory: every file name, once, in any order. */
  ghost predicate IsListing(listing: seq<string>, files: Files) {
    (forall name :: name in listing <==> name in files)
    && forall i, j :: 0 <= i < j < |listing| ==> listing[i] != listing[j]
  }

  function ParseFile(files: Files, name: string): Result<Catalog, ToolError> {
    if name !in files then Err(Unreadable(name))
    else match Parsed(files[name])
      case Ok(c) => Ok(c)
      case Err(e) => Err(Malformed(name, e))
  }

  /** What a run leaves behind: the files, its result and the names it reports as outdated. */
  datatype Outcome = Outcome(files: Files, result: Result<bool, ToolError>, outdated: seq<string>)

  /** One file brought to `text`: reported when it differs, written unless verifying. */
  function Settle(files: Files, name: string, text: string, verify: bool): Files {
    if verify then files else files[name := text]
  }

  function SyncedText(english: seq<Entry>, catalog: Catalog): string {
    Rendered(Catalog(catalog.language, Sync(english, catalog.entries)), false)
  }

  function SyncLocales(files: Files, names: seq<string>, english: seq<Entry>, verify: bool, outdated: seq<string>)
    : Outcome
  {
    if names == [] then Outcome(files, Ok(outdated == [] || !verify), outdated)
    else match ParseFile(files, names[0])
      case Err(e) => Outcome(files, Err(e), outdated)
      case Ok(catalog) =>
        var text := SyncedText(english, catalog);
        if files[names[0]] == text then SyncLocales(files, names[1..], english, verify, outdated)
        else SyncLocales(Settle(files, names[0], text, verify), names[1..], english, verify, outdated + [names[0]])
  }

  /** A whole `sync` run. */
  function SyncRun(files: Files, listing: seq<string>, verify: bool): Outcome {
    match ParseFile(files, ENGLISH_FILE)
    case Err(e) => Outcome(files, Err(e), [])
    case Ok(english) =>
      var text := Rendered(english, true);
      var clean := files[ENGLISH_FILE] == text;
      var settled := if clean then files else Settle(files, ENGLISH_FILE, text, verify);
      SyncLocales(settled, LocaleFiles(listing), english.entries, verify, if clean then [] else [ENGLISH_FILE])
  }

  /** Every catalog of the directory can be read. */
  predicate AllParse(files: Files) {
    ParseFile(files, ENGLISH_FILE).Ok?
    && forall name :: name in files && IsLocaleFile(name) ==> ParseFile(files, name).Ok?
  }

  /** The build's condition on one locale: in step with the English, every entry bilingual. */
  predicate BuildAcceptsLocale(english: seq<Entry>, locale: seq<Entry>) {
    VerifyLocale(english, locale).Ok? && forall e :: e in locale ==> e.translated.Some?
  }

  predicate BuildAccepts(files: Files) {
    AllParse(files)
    && forall name :: name in files && IsLocaleFile(name) ==>
         BuildAcceptsLocale(ParseFile(files, ENGLISH_FILE).value.entries, ParseFile(files, name).value.entries)
  }

  // ----- the tool -----

  class Tool {
    var files: Files

    constructor (initial: Files)
      ensures files == initial
    {
      files := initial;
    }

    method ReadCatalog(name: string) returns (r: Result<Catalog, ToolError>)
      ensures r == ParseFile(files, name)
    {
      if name !in files {
        return Err(Unreadable(name));
      }
      var parsed := Parse(files[name]);
      match parsed
      case Ok(c) => return Ok(c);
      case Err(e) => return Err(Malformed(name, e));
    }

    /** `sync` and `sync --verify`. `listing` is what reading the directory yields. */
    method SyncCatalogs(listing: seq<string>, verify: bool)
      returns (r: Result<bool, ToolError>, outdated: seq<string>)
      modifies this
      ensures Outcome(files, r, outdated) == SyncRun(old(files), listing, verify)
    {
      hide Parsed, Rendered, Sync, LocaleFiles;
      outdated := [];
      var read := ReadCatalog(ENGLISH_FILE);
      if read.Err? {
        return Err(read.error), outdated;
      }
      var english := read.value;
      var clean := true;
      var rendered := Render(english, true);
      if files[ENGLISH_FILE] != rendered {
        clean := false;
        outdated := outdated + [ENGLISH_FILE];
        if !verify {
          files := files[ENGLISH_FILE := rendered];
        }
      }
      var names := LocaleFiles(listing);
      ghost var run := SyncRun(old(files), listing, verify);
      assert names[0..] == names && outdated == if clean then [] else [ENGLISH_FILE];
      for i := 0 to |names|
        invariant clean == (outdated == [])
        invariant run == SyncLocales(files, names[i..], english.entries, verify, outdated)
      {
        assert names[i..][0] == names[i] && names[i..][1..] == names[i + 1..];
        read := ReadCatalog(names[i]);
        if read.Err? {
          return Err(read.error), outdated;
        }
        var synced := Catalog(read.value.language, Sync(english.entries, read.value.entries));
        rendered := Render(synced, false);
        if files[names[i]] == rendered {
          continue;
        }
        clean := false;
        outdated := outdated + [names[i]];
        if !verify {
          files := files[names[i] := rendered];
        }
      }
      return Ok(clean || !verify), outdated;
    }

    /** `add-entry`: the English catalog grows by one entry, then everything is synced. */
    method AddEntry(listing: seq<string>, id: string, english: string) returns (r: Result<bool, ToolError>)
      modifies this
      ensures (files, r) == AddRun(old(files), listing, id, english)
    {
      if !ValidId(id) {
        return Err(InvalidNewId(id));
      }
      var read := ReadCatalog(ENGLISH_FILE);
      if read.Err? {
        return Err(read.error);
      }
      var catalog := read.value;
      if Lookup(catalog.entries, id).Some? {
        return Err(IdExists(id));
      }
      catalog := Catalog(catalog.language, catalog.entries + [Entry(id, english, None, None)]);
      var rendered := Render(catalog, true);
      files := files[ENGLISH_FILE := rendered];
      var synced, outdated := SyncCatalogs(listing, false);
      if synced.Err? {
        return Err(synced.error);
      }
      return Ok(true);
    }
  }

  /** The English catalog with one more entry. */
  function Extended(c: Catalog, id: string, english: string): Catalog {
    Catalog(c.language, c.entries + [Entry(id, english, None, None)])
  }

  function AddRun(files: Files, listing: seq<string>, id: string, english: string): (Files, Result<bool, ToolError>) {
    if !ValidId(id) then (files, Err(InvalidNewId(id)))
    else match ParseFile(files, ENGLISH_FILE)
      case Err(e) => (files, Err(e))
      case Ok(catalog) =>
        if Lookup(catalog.entries, id).Some? then (files, Err(IdExists(id)))
        else
          var run := SyncRun(files[ENGLISH_FILE := Rendered(Extended(catalog, id, english), true)], listing, false);
          (run.files, match run.result case Ok(_) => Ok(true) case Err(e) => Err(e))
  }
}
