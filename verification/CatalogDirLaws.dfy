/** What a whole run of the catalog tool achieves. */
module CatalogDirLaws {
  import opened Wrappers
  import opened Text
  import opened Sorting
  import opened Catalog
  import opened CatalogRender
  import opened CatalogRoundTrip
  import opened CatalogSync
  import opened CatalogDir

  // ----- one English catalog, one locale -----

  /** The English entries as they read back after a run. */
  function Canonical(english: seq<Entry>): seq<Entry> {
    Map(EnglishOnly, SortEntries(english))
  }

  lemma {:induction false} BodyOfEnglishOnly(entries: seq<Entry>, first: bool)
    ensures Body(Map(EnglishOnly, entries), true, first) == Body(entries, true, first)
  {
    if entries != [] {
      assert Map(EnglishOnly, entries)[1..] == Map(EnglishOnly, entries[1..]);
      BodyOfEnglishOnly(entries[1..], false);
    }
  }

  lemma SortTwice(entries: seq<Entry>)
    ensures SortEntries(SortEntries(entries)) == SortEntries(entries)
  {
    SortLaw(EntryId, entries);
    SortOfSorted(EntryId, SortEntries(entries));
  }

  lemma SortOfCanonical(english: seq<Entry>)
    ensures SortEntries(Canonical(english)) == Canonical(english)
  {
    SortOfMap(EntryId, EntryId, EnglishOnly, SortEntries(english));
    SortTwice(english);
  }

  /** The rewritten English source reads back canonically and would not be rewritten again. */
  lemma EnglishSettles(english: Catalog)
    requires WellFormed(english)
    ensures var text := Rendered(english, true); var again := Catalog(english.language, Canonical(english.entries));
            Parsed(text) == Ok(again) && Rendered(again, true) == text
  {
    RoundTripOfPrintable(english, true);
    SortOfCanonical(english.entries);
    BodyOfEnglishOnly(SortEntries(english.entries), true);
  }

  lemma CanonicalIsInStep(english: seq<Entry>, locale: seq<Entry>)
    requires InStep(SortEntries(english), locale)
    ensures InStep(Canonical(english), locale)
  {
  }

  lemma SortedSyncIsFixed(english: seq<Entry>, locale: seq<Entry>)
    requires UniqueIds(english)
    ensures var merged := Sync(english, locale);
            Sync(english, SortEntries(merged)) == merged
            && Sync(Canonical(english), SortEntries(merged)) == SortEntries(merged)
  {
    var merged := Sync(english, locale);
    hide Sync, SortEntries, UniqueIds;
    SyncTwice(english, locale);
    SyncOfSorted(english, merged);
    SyncIgnoresForm(SortEntries(english), SortEntries(merged));
    SyncOfSorted(SortEntries(english), merged);
  }

  lemma {:induction false} MapUnchanged(f: Entry -> Entry, entries: seq<Entry>)
    requires forall e :: e in entries ==> f(e) == e
    ensures Map(f, entries) == entries
  {
    var mapped := Map(f, entries);
    forall i | 0 <= i < |entries| ensures mapped[i] == entries[i] {
      assert entries[i] in entries;
    }
  }

  /** The catalog a locale reads back as after a run. */
  function SettledLocale(english: seq<Entry>, catalog: Catalog): Catalog {
    Catalog(catalog.language, SortEntries(Sync(english, catalog.entries)))
  }

  lemma LocaleReadsBack(english: Catalog, catalog: Catalog)
    requires WellFormed(english) && WellFormed(catalog)
    ensures Parsed(SyncedText(english.entries, catalog)) == Ok(SettledLocale(english.entries, catalog))
  {
    var merged := Sync(english.entries, catalog.entries);
    var c := Catalog(catalog.language, merged);
    assert forall e :: e in english.entries ==> WellFormedEntry(e);
    SyncIsInStep(english.entries, catalog.entries);
    assert UniqueIds(merged) by {
      forall i, j | 0 <= i < j < |merged| ensures merged[i].id != merged[j].id {
        assert english.entries[i].id != english.entries[j].id;
      }
    }
    RoundTripOfPrintable(c, false);
    UniqueIdsAfterSort(merged);
    hide Sync;
    forall e | e in SortEntries(merged) ensures Bilingual(e) == e {
      assert e in merged;
    }
    MapUnchanged(Bilingual, SortEntries(merged));
  }

  /** A rewritten locale is not rewritten again, by the old English or by the rewritten one. */
  lemma LocaleSettles(english: Catalog, catalog: Catalog)
    requires WellFormed(english) && WellFormed(catalog)
    ensures var settled := SettledLocale(english.entries, catalog);
            SyncedText(english.entries, settled) == SyncedText(english.entries, catalog)
            && SyncedText(Canonical(english.entries), settled) == SyncedText(english.entries, catalog)
  {
    SortedSyncIsFixed(english.entries, catalog.entries);
    SortTwice(Sync(english.entries, catalog.entries));
  }

  /** The build accepts a rewritten locale against the rewritten English. */
  lemma LocaleIsAccepted(english: Catalog, catalog: Catalog)
    requires WellFormed(english) && WellFormed(catalog)
    ensures BuildAcceptsLocale(Canonical(english.entries), SettledLocale(english.entries, catalog).entries)
  {
    var sorted := SortEntries(english.entries);
    SyncOfSorted(english.entries, catalog.entries);
    UniqueIdsAfterSort(english.entries);
    assert forall e :: e in sorted ==> WellFormedEntry(e);
    SyncIsInStep(sorted, catalog.entries);
    CanonicalIsInStep(english.entries, Sync(sorted, catalog.entries));
    VerifyLocaleLaw(Canonical(english.entries), Sync(sorted, catalog.entries));
  }

  // ----- directories -----

  lemma ParsedFileIsWellFormed(files: Files, name: string)
    ensures ParseFile(files, name).Ok? ==> name in files && WellFormed(ParseFile(files, name).value)
  {
    if name in files {
      ParsedIsWellFormed(files[name]);
    }
  }

  /** The text a file ends up with when it is synced against `english`. */
  function Target(files: Files, english: seq<Entry>, name: string): string
    requires name in files
  {
    match ParseFile(files, name)
    case Ok(catalog) => SyncedText(english, catalog)
    case Err(_) => files[name]
  }

  /** Some of the files of `before` have been synced; the others are as they were. */
  ghost predicate Between(before: Files, files: Files, english: seq<Entry>) {
    files.Keys == before.Keys
    && forall name :: name in before ==> files[name] == before[name] || files[name] == Target(before, english, name)
  }

  /** Syncing a synced file leads to the same text; whether a file can be read never changes. */
  lemma TargetIsStable(before: Files, files: Files, english: Catalog, name: string)
    requires WellFormed(english) && Between(before, files, english.entries) && name in before
    ensures ParseFile(files, name).Ok? <==> ParseFile(before, name).Ok?
    ensures Target(files, english.entries, name) == Target(before, english.entries, name)
  {
    ParsedFileIsWellFormed(before, name);
    var read := ParseFile(before, name);
    if read.Ok? && files[name] != before[name] {
      LocaleReadsBack(english, read.value);
      LocaleSettles(english, read.value);
    }
  }

  /** A rewriting run succeeds exactly when every file can be read, and brings each to its target. */
  lemma {:induction false} SyncLocalesLaw(before: Files, files: Files, names: seq<string>, english: Catalog,
                                          outdated: seq<string>)
    requires WellFormed(english) && Between(before, files, english.entries)
    requires forall name :: name in names ==> name in before
    ensures var run := SyncLocales(files, names, english.entries, false, outdated);
            (run.result.Ok? <==> forall name :: name in names ==> ParseFile(before, name).Ok?)
            && (run.result.Ok? ==>
                  run.result == Ok(true)
                  && run.files.Keys == before.Keys
                  && (forall name :: name in names ==> run.files[name] == Target(before, english.entries, name))
                  && (forall name :: name in before && name !in names ==> run.files[name] == files[name]))
    decreases |names|
  {
    hide WellFormed, SyncedText, ParseFile;
    if names != [] {
      var name := names[0];
      assert name in names;
      TargetIsStable(before, files, english, name);
      assert names == [name] + names[1..];
      if ParseFile(files, name).Ok? {
        var text := Target(files, english.entries, name);
        var next := if files[name] == text then files else files[name := text];
        var reported := if files[name] == text then outdated else outdated + [name];
        assert Between(before, next, english.entries);
        SyncLocalesLaw(before, next, names[1..], english, reported);
      }
    }
  }

  /** A verifying run never writes, needs every file readable, and reports the files that are not at their target. */
  lemma {:induction false} VerifyLocalesLaw(files: Files, names: seq<string>, english: seq<Entry>,
                                            outdated: seq<string>)
    requires forall name :: name in names ==> name in files
    ensures var run := SyncLocales(files, names, english, true, outdated);
            run.files == files
            && (run.result.Ok? <==> forall name :: name in names ==> ParseFile(files, name).Ok?)
            && (run.result.Ok? ==>
                  run.result == Ok(run.outdated == [])
                  && forall name :: name in run.outdated <==>
                       name in outdated || (name in names && files[name] != Target(files, english, name)))
    decreases |names|
  {
    hide SyncedText, ParseFile;
    if names != [] {
      var name := names[0];
      assert name in names && names == [name] + names[1..];
      if ParseFile(files, name).Ok? {
        var reported := if files[name] == Target(files, english, name) then outdated else outdated + [name];
        VerifyLocalesLaw(files, names[1..], english, reported);
      }
    }
  }

  /** Where a rewriting run stops: the first file that cannot be read. */
  predicate StopsAt(files: Files, names: seq<string>, k: nat) {
    k < |names| && ParseFile(files, names[k]).Err? && forall j :: 0 <= j < k ==> ParseFile(files, names[j]).Ok?
  }

  /** A run that fails has rewritten the files before the first unreadable one, and no other. */
  lemma {:induction false} SyncLocalesStop(before: Files, files: Files, names: seq<string>, english: Catalog,
                                           outdated: seq<string>, k: nat)
    requires WellFormed(english) && Between(before, files, english.entries)
    requires forall name :: name in names ==> name in before
    requires StopsAt(before, names, k)
    ensures var run := SyncLocales(files, names, english.entries, false, outdated);
            run.result == Err(ParseFile(before, names[k]).error)
            && run.files.Keys == before.Keys
            && (forall name :: name in names[..k] ==> run.files[name] == Target(before, english.entries, name))
            && (forall name :: name in before && name !in names[..k] ==> run.files[name] == files[name])
    decreases |names|
  {
    hide WellFormed, SyncedText, ParseFile;
    var name := names[0];
    assert name in names;
    TargetIsStable(before, files, english, name);
    if k > 0 {
      var text := Target(files, english.entries, name);
      var next := if files[name] == text then files else files[name := text];
      var reported := if files[name] == text then outdated else outdated + [name];
      assert Between(before, next, english.entries);
      assert forall j :: 0 <= j < |names[1..]| ==> names[1..][j] == names[j + 1];
      assert names[..k] == [name] + names[1..][..k - 1] && names == [name] + names[1..];
      SyncLocalesStop(before, next, names[1..], english, reported, k - 1);
    } else {
      SameError(before, files, english, name);
    }
  }

  /** An unreadable file is never touched, and is unreadable for the same reason. */
  lemma SameError(before: Files, files: Files, english: Catalog, name: string)
    requires Between(before, files, english.entries) && name in before && ParseFile(before, name).Err?
    ensures ParseFile(files, name) == ParseFile(before, name)
  {
  }

  lemma {:induction false} LocaleNamesLaw(listing: seq<string>)
    ensures forall name :: name in LocaleNames(listing) <==> name in listing && IsLocaleFile(name)
  {
    if listing != [] {
      LocaleNamesLaw(listing[1..]);
      assert listing == [listing[0]] + listing[1..];
    }
  }

  lemma LocaleFilesLaw(listing: seq<string>, files: Files)
    requires IsListing(listing, files)
    ensures forall name :: name in LocaleFiles(listing) <==> name in files && IsLocaleFile(name)
  {
    LocaleNamesLaw(listing);
    SortLaw(Name, LocaleNames(listing));
  }

  /** The English catalog of a directory. */
  function English(files: Files): Catalog
    requires ParseFile(files, ENGLISH_FILE).Ok?
  {
    ParseFile(files, ENGLISH_FILE).value
  }

  /** The text every file has after a run over readable catalogs. */
  function Synced(files: Files): Files
    requires AllParse(files)
  {
    map name | name in files ::
      if name == ENGLISH_FILE then Rendered(English(files), true)
      else if IsLocaleFile(name) then Target(files, English(files).entries, name)
      else files[name]
  }

  lemma OtherFilesUnchanged(files: Files, text: string, name: string)
    requires name != ENGLISH_FILE && name in files
    ensures ParseFile(files[ENGLISH_FILE := text], name) == ParseFile(files, name)
  {
  }

  lemma TargetsFromStart(files: Files, text: string, name: string)
    requires name in files && name != ENGLISH_FILE
    ensures forall english :: Target(files[ENGLISH_FILE := text], english, name) == Target(files, english, name)
  {
    OtherFilesUnchanged(files, text, name);
  }

  /** `sync` succeeds exactly when every catalog can be read, and then rewrites all of them. */
  lemma SyncRunLaw(files: Files, listing: seq<string>)
    requires IsListing(listing, files)
    ensures var run := SyncRun(files, listing, false);
            (run.result.Ok? <==> AllParse(files))
            && (AllParse(files) ==> run.result == Ok(true) && run.files == Synced(files))
  {
    hide WellFormed, SyncedText, Rendered, Target, ParseFile;
    var parsed := ParseFile(files, ENGLISH_FILE);
    if parsed.Ok? {
      var text, names := Rendered(parsed.value, true), LocaleFiles(listing);
      ParsedFileIsWellFormed(files, ENGLISH_FILE);
      LocaleFilesLaw(listing, files);
      hide LocaleFiles, IsListing;
      var start := files[ENGLISH_FILE := text];
      assert files[ENGLISH_FILE] == text ==> start == files;
      forall name | name in names
        ensures ParseFile(start, name) == ParseFile(files, name)
        ensures name in files && Target(start, parsed.value.entries, name) == Target(files, parsed.value.entries, name)
      {
        OtherFilesUnchanged(files, text, name);
        TargetsFromStart(files, text, name);
      }
      SyncLocalesLaw(start, start, names, parsed.value, if files[ENGLISH_FILE] == text then [] else [ENGLISH_FILE]);
      if AllParse(files) {
        var run := SyncRun(files, listing, false);
        forall name | name in files ensures run.files[name] == Synced(files)[name] {
        }
      }
    }
  }

  /** Reading a rewritten directory. */
  lemma SyncedReadsBack(files: Files)
    requires AllParse(files)
    ensures ParseFile(Synced(files), ENGLISH_FILE)
         == Ok(Catalog(English(files).language, Canonical(English(files).entries)))
    ensures forall name :: name in files && IsLocaleFile(name) ==>
              ParseFile(Synced(files), name)
              == Ok(SettledLocale(English(files).entries, ParseFile(files, name).value))
    ensures AllParse(Synced(files))
  {
    ParsedFileIsWellFormed(files, ENGLISH_FILE);
    EnglishSettles(English(files));
    forall name | name in files && IsLocaleFile(name)
      ensures ParseFile(Synced(files), name)
           == Ok(SettledLocale(English(files).entries, ParseFile(files, name).value))
    {
      ParsedFileIsWellFormed(files, name);
      LocaleReadsBack(English(files), ParseFile(files, name).value);
    }
  }

  /** Rewriting a rewritten directory changes nothing. */
  lemma SyncedTwice(files: Files)
    requires AllParse(files)
    ensures AllParse(Synced(files)) && Synced(Synced(files)) == Synced(files)
  {
    var once := Synced(files);
    SyncedReadsBack(files);
    ParsedFileIsWellFormed(files, ENGLISH_FILE);
    EnglishSettles(English(files));
    forall name | name in files ensures Synced(once)[name] == once[name] {
      if IsLocaleFile(name) {
        ParsedFileIsWellFormed(files, name);
        LocaleSettles(English(files), ParseFile(files, name).value);
      }
    }
  }

  lemma EmptyOrHead(s: seq<string>)
    ensures s == [] || s[0] in s
  {
  }

  /**
   `sync --verify` never writes. It gives a verdict exactly when every catalog can be read, and
   then reports exactly the files `sync` would change.
   */
  lemma VerifyRunLaw(files: Files, listing: seq<string>)
    requires IsListing(listing, files)
    ensures var run := SyncRun(files, listing, true);
            run.files == files && (run.result.Ok? <==> AllParse(files))
            && (AllParse(files) ==>
                  run.result == Ok(Synced(files) == files)
                  && forall name :: name in run.outdated <==> name in files && Synced(files)[name] != files[name])
  {
    if ParseFile(files, ENGLISH_FILE).Ok? {
      var english, names := English(files), LocaleFiles(listing);
      LocaleFilesLaw(listing, files);
      var first := if files[ENGLISH_FILE] == Rendered(english, true) then [] else [ENGLISH_FILE];
      hide SyncedText, ParseFile, Rendered, LocaleFiles;
      VerifyLocalesLaw(files, names, english.entries, first);
      if AllParse(files) {
        var run := SyncRun(files, listing, true);
        forall name ensures name in run.outdated <==> name in files && Synced(files)[name] != files[name] {
        }
        hide SyncRun, SyncLocales, Target;
        NothingOutdated(files, run.outdated);
      }
    }
  }

  lemma NothingOutdated(files: Files, outdated: seq<string>)
    requires AllParse(files)
    requires forall name :: name in outdated <==> name in files && Synced(files)[name] != files[name]
    ensures outdated == [] <==> Synced(files) == files
  {
    assert Synced(files).Keys == files.Keys;
    hide Synced, AllParse;
    EmptyOrHead(outdated);
  }

  /**
   The promise of the tool: for any readable directory, whatever order it is listed in,
   one `sync` makes `sync --verify` report nothing and the build accept every locale, and
   a further `sync` changes nothing. A directory with an unreadable catalog is refused.
   */
  lemma SyncThenVerify(files: Files, listing: seq<string>, listing': seq<string>)
    requires IsListing(listing, files) && IsListing(listing', files)
    ensures var run := SyncRun(files, listing, false);
            (run.result == Ok(true) <==> AllParse(files))
            && (AllParse(files) ==>
                  SyncRun(run.files, listing', true) == Outcome(run.files, Ok(true), [])
                  && SyncRun(run.files, listing', false).files == run.files
                  && BuildAccepts(run.files))
  {
    SyncRunLaw(files, listing);
    if AllParse(files) {
      var once := Synced(files);
      SyncedTwice(files);
      SyncedReadsBack(files);
      SyncRunLaw(once, listing');
      VerifyRunLaw(once, listing');
      var verified := SyncRun(once, listing', true);
      EmptyOrHead(verified.outdated);
      SyncedIsAccepted(files);
    }
  }

  lemma SyncedIsAccepted(files: Files)
    requires AllParse(files)
    ensures BuildAccepts(Synced(files))
  {
    SyncedReadsBack(files);
    ParsedFileIsWellFormed(files, ENGLISH_FILE);
    forall name | name in files && IsLocaleFile(name)
      ensures BuildAcceptsLocale(ParseFile(Synced(files), ENGLISH_FILE).value.entries,
                                 ParseFile(Synced(files), name).value.entries)
    {
      ParsedFileIsWellFormed(files, name);
      LocaleIsAccepted(English(files), ParseFile(files, name).value);
    }
  }

  // ----- adding an entry -----

  lemma CanonicalLookup(english: seq<Entry>, id: string)
    ensures Lookup(Canonical(english), id) ==
            match Lookup(english, id)
            case Some(e) => Some(EnglishOnly(e))
            case None => None
  {
    LookupAfterSort(english, id);
    LookupOfMap(SortEntries(english), id);
  }

  lemma {:induction false} LookupOfMap(entries: seq<Entry>, id: string)
    ensures Lookup(Map(EnglishOnly, entries), id) ==
            match Lookup(entries, id)
            case Some(e) => Some(EnglishOnly(e))
            case None => None
  {
    if entries != [] {
      assert Map(EnglishOnly, entries)[1..] == Map(EnglishOnly, entries[1..]);
      LookupOfMap(entries[1..], id);
    }
  }

  lemma {:induction false} LookupOfAppended(entries: seq<Entry>, e: Entry, id: string)
    ensures Lookup(entries + [e], id) ==
            if Lookup(entries, id).Some? then Lookup(entries, id)
            else if e.id == id then Some(e) else None
  {
    if entries == [] {
      assert [] + [e] == [e];
    } else {
      assert (entries + [e])[1..] == entries[1..] + [e];
      LookupOfAppended(entries[1..], e, id);
    }
  }

  lemma ExtendedIsWellFormed(c: Catalog, id: string, english: string)
    requires WellFormed(c) && ValidId(id) && Lookup(c.entries, id).None?
    ensures WellFormed(Extended(c, id, english))
  {
    var more := Extended(c, id, english).entries;
    forall i, j | 0 <= i < j < |more| ensures more[i].id != more[j].id {
      if j == |c.entries| {
        assert c.entries[i] in c.entries;
      }
    }
  }

  /** An entry can be added: its identifier is valid and new to an English source that can be read. */
  predicate CanAdd(files: Files, id: string) {
    ValidId(id) && ParseFile(files, ENGLISH_FILE).Ok? && Lookup(English(files).entries, id).None?
  }

  /** The English source has the new text and every text it had. */
  ghost predicate EnglishHas(files: Files, after: Files, id: string, english: string)
    requires ParseFile(files, ENGLISH_FILE).Ok?
  {
    ParseFile(after, ENGLISH_FILE).Ok?
    && Lookup(English(after).entries, id) == Some(Entry(id, english, None, None))
    && forall other :: other != id ==>
         Lookup(English(after).entries, other) == Lookup(Canonical(English(files).entries), other)
  }

  /** Everything is as it should be with the new entry: the English, every locale, and the build. */
  ghost predicate Added(files: Files, after: Files, id: string, english: string)
    requires ParseFile(files, ENGLISH_FILE).Ok?
  {
    BuildAccepts(after) && EnglishHas(files, after, id, english)
    && forall name :: name in files && IsLocaleFile(name) ==>
         ParseFile(after, name).Ok?
         && var entry := Lookup(ParseFile(after, name).value.entries, id);
            entry.Some? && entry.value.english == english
  }

  /** The locales listed before `k` are at their target, by the English now written, and no other file has changed. */
  ghost predicate WrittenUpTo(files: Files, after: Files, names: seq<string>, k: nat)
    requires k <= |names| && ParseFile(after, ENGLISH_FILE).Ok?
  {
    after.Keys == files.Keys
    && (forall name :: name in names[..k] && name in files ==>
          after[name] == Target(files, English(after).entries, name))
    && forall name :: name in files && name != ENGLISH_FILE && name !in names[..k] ==> after[name] == files[name]
  }

  /** What a run leaves that is stopped by a locale: the English is written, and the locales before. */
  ghost predicate HalfAdded(files: Files, after: Files, names: seq<string>, id: string, english: string,
                            error: ToolError)
    requires ParseFile(files, ENGLISH_FILE).Ok?
  {
    EnglishHas(files, after, id, english)
    && exists k: nat :: StopsAt(files, names, k) && error == ParseFile(files, names[k]).error
                        && WrittenUpTo(files, after, names, k)
  }

  lemma {:induction false} FirstUnreadable(files: Files, names: seq<string>, i: nat) returns (k: nat)
    requires i < |names| && ParseFile(files, names[i]).Err?
    ensures StopsAt(files, names, k)
  {
    hide ParseFile;
    if j :| 0 <= j < i && ParseFile(files, names[j]).Err? {
      k := FirstUnreadable(files, names, j);
    } else {
      k := i;
    }
  }

  /**
   `add-entry` succeeds exactly for a valid new identifier in a directory where every catalog
   can be read, and then all is as it should be. Refused because of the identifier or the English
   source, it writes nothing. Stopped by a locale that cannot be read, it has already written the
   English source and the locales listed before: the entry is then in the English source to stay.
   */
  lemma AddEntryLaw(files: Files, listing: seq<string>, id: string, english: string)
    requires IsListing(listing, files)
    ensures var (after, result) := AddRun(files, listing, id, english);
            (result.Ok? <==> CanAdd(files, id) && AllParse(files))
            && (result.Ok? ==> Added(files, after, id, english))
            && (!CanAdd(files, id) ==> after == files)
            && (CanAdd(files, id) && result.Err? ==>
                  HalfAdded(files, after, LocaleFiles(listing), id, english, result.error))
  {
    hide ParseFile, Lookup, LocaleFiles, Added, HalfAdded, SyncRun, AllParse;
    LocaleFilesLaw(listing, files);
    if CanAdd(files, id) {
      var start := Start(files, id, english);
      StartReads(files, id, english);
      assert IsListing(listing, start) by { EnglishIsThere(files); }
      SyncRunLaw(start, listing);
      if AllParse(files) {
        AddedWhenReadable(files, listing, id, english);
      } else {
        var k := StopsSomewhere(files, listing);
        HalfAddedWhenNot(files, listing, k, id, english);
      }
    }
  }

  lemma EnglishIsThere(files: Files)
    requires ParseFile(files, ENGLISH_FILE).Ok?
    ensures ENGLISH_FILE in files
  {
  }

  /** The directory once `add-entry` has written the English source. */
  function Start(files: Files, id: string, english: string): Files
    requires ParseFile(files, ENGLISH_FILE).Ok?
  {
    files[ENGLISH_FILE := Rendered(Extended(English(files), id, english), true)]
  }

  /** The written English reads back and needs no rewriting; the locales are as they were. */
  lemma StartReads(files: Files, id: string, english: string)
    requires CanAdd(files, id)
    ensures var start, more := Start(files, id, english), Extended(English(files), id, english);
            ParseFile(start, ENGLISH_FILE) == Ok(Catalog(more.language, Canonical(more.entries)))
            && Rendered(English(start), true) == start[ENGLISH_FILE]
    ensures forall name :: name in files && IsLocaleFile(name) ==>
              ParseFile(Start(files, id, english), name) == ParseFile(files, name)
    ensures AllParse(Start(files, id, english)) <==> AllParse(files)
  {
    var more := Extended(English(files), id, english);
    ParsedFileIsWellFormed(files, ENGLISH_FILE);
    ExtendedIsWellFormed(English(files), id, english);
    EnglishSettles(more);
    hide WellFormed, Lookup, Canonical;
    forall name | name in files && IsLocaleFile(name)
      ensures ParseFile(Start(files, id, english), name) == ParseFile(files, name)
    {
      OtherFilesUnchanged(files, Rendered(more, true), name);
    }
    hide Rendered, Parsed;
  }

  lemma AddedWhenReadable(files: Files, listing: seq<string>, id: string, english: string)
    requires IsListing(listing, files) && CanAdd(files, id) && AllParse(files)
    ensures Added(files, AddRun(files, listing, id, english).0, id, english)
  {
    var start := Start(files, id, english);
    StartReads(files, id, english);
    EnglishIsThere(files);
    assert IsListing(listing, start);
    hide ParseFile, Lookup, Canonical, Rendered, Synced;
    SyncRunLaw(start, listing);
    SyncedIsAccepted(start);
    AddedIsThere(files, start, id, english);
    LocalesAdded(files, start, id, english);
  }

  lemma LocalesAdded(files: Files, start: Files, id: string, english: string)
    requires AllParse(start) && start.Keys == files.Keys && ParseFile(files, ENGLISH_FILE).Ok?
    requires BuildAccepts(Synced(start)) && EnglishHas(files, Synced(start), id, english)
    requires forall name :: name in start && IsLocaleFile(name) ==>
               ParseFile(Synced(start), name).Ok?
               && var entry := Lookup(ParseFile(Synced(start), name).value.entries, id);
                  entry.Some? && entry.value.english == english
    ensures Added(files, Synced(start), id, english)
  {
    hide ParseFile, Lookup, Synced, BuildAccepts, EnglishHas;
  }

  lemma StopsSomewhere(files: Files, listing: seq<string>) returns (k: nat)
    requires IsListing(listing, files) && ParseFile(files, ENGLISH_FILE).Ok? && !AllParse(files)
    ensures StopsAt(files, LocaleFiles(listing), k)
  {
    LocaleFilesLaw(listing, files);
    hide ParseFile, LocaleFiles;
    var name :| name in files && IsLocaleFile(name) && ParseFile(files, name).Err?;
    var names := LocaleFiles(listing);
    assert name in names;
    var i :| 0 <= i < |names| && names[i] == name;
    k := FirstUnreadable(files, names, i);
  }

  lemma HalfAddedWhenNot(files: Files, listing: seq<string>, k: nat, id: string, english: string)
    requires IsListing(listing, files) && CanAdd(files, id) && StopsAt(files, LocaleFiles(listing), k)
    ensures var (after, result) := AddRun(files, listing, id, english);
            result.Err? && HalfAdded(files, after, LocaleFiles(listing), id, english, result.error)
  {
    var start, names := Start(files, id, english), LocaleFiles(listing);
    StartReads(files, id, english);
    EnglishIsThere(files);
    LocaleFilesLaw(listing, files);
    ParsedFileIsWellFormed(start, ENGLISH_FILE);
    hide ParseFile, Lookup, Canonical, Rendered, LocaleFiles, WellFormed;
    forall j | 0 <= j < |names| ensures ParseFile(start, names[j]) == ParseFile(files, names[j]) && names[j] in files {
      assert names[j] in names;
    }
    SyncLocalesStop(start, start, names, English(start), [], k);
    var (after, result) := AddRun(files, listing, id, english);
    StoppedHasEnglish(files, after, id, english);
    StoppedWrote(files, after, names, k, id, english);
    hide AddRun, EnglishHas, WrittenUpTo;
  }

  /** The files as `add-entry` wrote them, with the English source not touched again. */
  lemma StoppedHasEnglish(files: Files, after: Files, id: string, english: string)
    requires CanAdd(files, id) && ENGLISH_FILE in after
    requires after[ENGLISH_FILE] == Start(files, id, english)[ENGLISH_FILE]
    ensures EnglishHas(files, after, id, english)
    ensures ParseFile(after, ENGLISH_FILE) == ParseFile(Start(files, id, english), ENGLISH_FILE)
  {
    var start := Start(files, id, english);
    assert ParseFile(after, ENGLISH_FILE) == ParseFile(start, ENGLISH_FILE);
    StartReads(files, id, english);
    hide ParseFile, Lookup, Canonical, Rendered, Parsed;
    forall other
      ensures Lookup(English(after).entries, other)
           == if other == id then Some(Entry(id, english, None, None))
              else Lookup(Canonical(English(files).entries), other)
    {
      AddedEnglish(English(files).entries, id, english, other);
    }
  }

  lemma StoppedWrote(files: Files, after: Files, names: seq<string>, k: nat, id: string, english: string)
    requires ParseFile(files, ENGLISH_FILE).Ok? && k <= |names| && ENGLISH_FILE in files
    requires forall name :: name in names ==> name in files && name != ENGLISH_FILE
    requires var start := Start(files, id, english);
             ParseFile(after, ENGLISH_FILE).Ok? && ParseFile(after, ENGLISH_FILE) == ParseFile(start, ENGLISH_FILE)
             && after.Keys == start.Keys
             && (forall name :: name in names[..k] ==> after[name] == Target(start, English(start).entries, name))
             && (forall name :: name in start && name !in names[..k] ==> after[name] == start[name])
    ensures WrittenUpTo(files, after, names, k)
  {
    hide ParseFile, Rendered;
    forall name | name in names[..k] && name in files
      ensures after[name] == Target(files, English(after).entries, name)
    {
      TargetsFromStart(files, Start(files, id, english)[ENGLISH_FILE], name);
    }
    hide Target;
  }

  /** The extended English source after being rewritten twice: by `add-entry` and by its `sync`. */
  lemma AddedEnglish(entries: seq<Entry>, id: string, english: string, other: string)
    requires Lookup(entries, id).None?
    ensures Lookup(Canonical(Canonical(entries + [Entry(id, english, None, None)])), other)
         == if other == id then Some(Entry(id, english, None, None)) else Lookup(Canonical(entries), other)
    ensures Lookup(Canonical(entries + [Entry(id, english, None, None)]), other)
         == if other == id then Some(Entry(id, english, None, None)) else Lookup(Canonical(entries), other)
  {
    hide Lookup, Canonical;
    var e := Entry(id, english, None, None);
    CanonicalLookup(Canonical(entries + [e]), other);
    CanonicalLookup(entries + [e], other);
    CanonicalLookup(entries, other);
    LookupOfAppended(entries, e, other);
  }

  lemma AddedLocale(source: seq<Entry>, locale: seq<Entry>, id: string)
    requires Lookup(source, id).Some?
    ensures var entry := Lookup(SortEntries(Sync(source, locale)), id);
            entry.Some? && entry.value.english == Lookup(source, id).value.english
  {
    hide Lookup, Sync, SortEntries;
    LookupAfterSort(Sync(source, locale), id);
    LookupOfSync(source, locale, id);
  }

  lemma AddedIsThere(files: Files, start: Files, id: string, english: string)
    requires AllParse(files) && AllParse(start)
    requires Lookup(English(files).entries, id).None?
    requires English(start).entries == Canonical(Extended(English(files), id, english).entries)
    ensures AllParse(Synced(start))
    ensures Lookup(English(Synced(start)).entries, id) == Some(Entry(id, english, None, None))
    ensures forall other | other != id ::
              Lookup(English(Synced(start)).entries, other) == Lookup(Canonical(English(files).entries), other)
    ensures forall name :: name in start && IsLocaleFile(name) ==>
              var entry := Lookup(ParseFile(Synced(start), name).value.entries, id);
              entry.Some? && entry.value.english == english
  {
    hide ParseFile, Lookup, Canonical, Synced, SortEntries, Sync;
    var entries, source := English(files).entries, English(start).entries;
    SyncedReadsBack(start);
    AddedEnglish(entries, id, english, id);
    forall other ensures Lookup(English(Synced(start)).entries, other)
                      == if other == id then Some(Entry(id, english, None, None))
                        else Lookup(Canonical(entries), other)
    {
      AddedEnglish(entries, id, english, other);
    }
    forall name | name in start && IsLocaleFile(name)
      ensures var entry := Lookup(ParseFile(Synced(start), name).value.entries, id);
              entry.Some? && entry.value.english == english
    {
      AddedLocale(source, ParseFile(start, name).value.entries, id);
    }
  }

  // ----- adding a language -----

  /** The catalog `add-lang` writes: every entry untranslated. */
  function NewLocale(english: Catalog, language: string): Catalog {
    Catalog(language, Map(Untouched, english.entries))
  }

  function Untouched(e: Entry): Entry {
    Entry(e.id, e.english, Some(Untranslated), None)
  }

  /** `add-lang` refuses only a blank name. */
  predicate AcceptedLanguage(language: string) {
    Trim(language) != ""
  }

  /** A new locale reads back as written exactly when its language name is one trimmed line. */
  lemma NewLocaleReadsBack(english: Catalog, language: string)
    requires WellFormed(english)
    ensures var c := NewLocale(english, language);
            Parsed(Rendered(c, false)) == Ok(ReadBack(c, false)) <==> WellFormedLanguage(language)
  {
    var c := NewLocale(english, language);
    forall i, j | 0 <= i < j < |c.entries| ensures c.entries[i].id != c.entries[j].id {
      assert english.entries[i].id != english.entries[j].id;
    }
    forall e | e in c.entries ensures Printable(e, false) {
      var i :| 0 <= i < |c.entries| && c.entries[i] == e;
      assert english.entries[i] in english.entries && WellFormedEntry(english.entries[i]);
    }
    RoundTrip(c, false);
  }

  /** The check of `add-lang` lets names through that do not read back: " x", for one, whatever the English. */
  lemma AcceptedLanguageMayNotReadBack(english: Catalog)
    requires WellFormed(english)
    ensures var c := NewLocale(english, " x");
            AcceptedLanguage(" x") && Parsed(Rendered(c, false)) != Ok(ReadBack(c, false))
  {
    assert " x"[1..] == "x";
    assert TrimStart(" x") == "x";
    assert TrimEnd("x") == "x";
    assert !Trimmed(" x");
    hide Parsed, Rendered;
    NewLocaleReadsBack(english, " x");
  }
}
