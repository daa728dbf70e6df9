/**
 The three-way merge that keeps locale catalogs in step with the English source
 (liana-i18n-toolbox/src/lib.rs, `sync` and `verify_locale`).
 */
module CatalogSync {
  import opened Wrappers
  import opened Text
  import opened Sorting
  import opened Catalog
  import opened CatalogRender
  import opened CatalogRoundTrip

  /** The first entry with an identifier. */
  function Lookup(entries: seq<Entry>, id: string): (r: Option<Entry>)
    ensures r.Some? ==> r.value in entries && r.value.id == id
    ensures r.None? ==> forall e :: e in entries ==> e.id != id
  {
    if entries == [] then None
    else if entries[0].id == id then Some(entries[0])
    else Lookup(entries[1..], id)
  }

  /** The locale entry as it should be next to its English source. */
  function Merged(source: Entry, found: Option<Entry>): Entry {
    match found
    case None => Entry(source.id, source.english, Some(Untranslated), None)
    case Some(entry) =>
      match entry.translated
      case Some(Text(text)) =>
        if entry.english == source.english then Entry(source.id, source.english, Some(Text(text)), None)
        else Entry(source.id, source.english, Some(Untranslated), Some(text))
      case _ => Entry(source.id, source.english, Some(Untranslated), entry.previous)
  }

  function MergeWith(locale: seq<Entry>): Entry -> Entry {
    (source: Entry) => Merged(source, Lookup(locale, source.id))
  }

  function Sync(english: seq<Entry>, locale: seq<Entry>): seq<Entry> {
    Map(MergeWith(locale), english)
  }

  datatype SyncError = NotSynced | EnglishChanged(id: string)

  /** The build's check: same identifiers in the same order, then same English texts. */
  function VerifyLocale(english: seq<Entry>, locale: seq<Entry>): Result<(), SyncError> {
    if |english| != |locale| || exists i :: 0 <= i < |english| && english[i].id != locale[i].id then
      Err(NotSynced)
    else
      FirstChange(english, locale)
  }

  function FirstChange(english: seq<Entry>, locale: seq<Entry>): Result<(), SyncError>
    requires |english| == |locale|
  {
    if english == [] then Ok(())
    else if english[0].english != locale[0].english then Err(EnglishChanged(locale[0].id))
    else FirstChange(english[1..], locale[1..])
  }

  /** The same identifiers and English texts, in the same order. */
  predicate InStep(english: seq<Entry>, locale: seq<Entry>) {
    |english| == |locale|
    && forall i :: 0 <= i < |english| ==> english[i].id == locale[i].id && english[i].english == locale[i].english
  }

  lemma {:induction false} FirstChangeLaw(english: seq<Entry>, locale: seq<Entry>)
    requires |english| == |locale|
    ensures FirstChange(english, locale).Ok? <==>
            forall i :: 0 <= i < |english| ==> english[i].english == locale[i].english
  {
    if english != [] {
      FirstChangeLaw(english[1..], locale[1..]);
      if english[0].english == locale[0].english {
        forall i | 0 < i < |english| ensures english[i] == english[1..][i - 1] && locale[i] == locale[1..][i - 1] {
        }
      }
    }
  }

  /** The build accepts a locale exactly when it is in step with the English source. */
  lemma VerifyLocaleLaw(english: seq<Entry>, locale: seq<Entry>)
    ensures VerifyLocale(english, locale).Ok? <==> InStep(english, locale)
  {
    if |english| == |locale| {
      FirstChangeLaw(english, locale);
    }
  }

  lemma MergedIsGood(source: Entry, found: Option<Entry>)
    requires ValidId(source.id)
    ensures var e := Merged(source, found);
            Printable(e, false) && Bilingual(e) == e && WellFormedEntry(e)
            && e.id == source.id && e.english == source.english
  {
  }

  /** The result of a merge is in step, with every entry bilingual, printable and well formed. */
  lemma SyncIsInStep(english: seq<Entry>, locale: seq<Entry>)
    requires forall e :: e in english ==> ValidId(e.id)
    ensures InStep(english, Sync(english, locale))
    ensures forall e :: e in Sync(english, locale) ==> Printable(e, false) && Bilingual(e) == e && WellFormedEntry(e)
  {
    hide Merged, Printable, Bilingual, WellFormedEntry, Lookup, ValidId;
    var merged := Sync(english, locale);
    forall i | 0 <= i < |english|
      ensures english[i].id == merged[i].id && english[i].english == merged[i].english
      ensures Printable(merged[i], false) && Bilingual(merged[i]) == merged[i] && WellFormedEntry(merged[i])
    {
      assert english[i] in english;
      MergedIsGood(english[i], Lookup(locale, english[i].id));
    }
  }

  // ----- merging twice -----

  lemma {:induction false} LookupByPosition(entries: seq<Entry>, i: nat)
    requires UniqueIds(entries) && i < |entries|
    ensures Lookup(entries, entries[i].id) == Some(entries[i])
  {
    if i > 0 {
      assert entries[0].id != entries[i].id;
      assert entries[1..][i - 1] == entries[i];
      forall j, k | 0 <= j < k < |entries| - 1 ensures entries[1..][j].id != entries[1..][k].id {
        assert entries[j + 1].id != entries[k + 1].id;
      }
      LookupByPosition(entries[1..], i - 1);
    }
  }

  lemma MergedTwice(source: Entry, found: Option<Entry>)
    ensures Merged(source, Some(Merged(source, found))) == Merged(source, found)
  {
  }

  /** A second merge against the same English changes nothing. */
  lemma SyncTwice(english: seq<Entry>, locale: seq<Entry>)
    requires UniqueIds(english)
    ensures Sync(english, Sync(english, locale)) == Sync(english, locale)
  {
    hide Lookup, Merged;
    assert forall i :: 0 <= i < |english| ==> Sync(english, locale)[i].id == english[i].id by {
      forall i | 0 <= i < |english| ensures Sync(english, locale)[i].id == english[i].id {
        MergedKeepsSource(english[i], Lookup(locale, english[i].id));
      }
    }
    var once := Sync(english, locale);
    forall i, j | 0 <= i < j < |once| ensures once[i].id != once[j].id {
      assert english[i].id != english[j].id;
    }
    forall i | 0 <= i < |english| ensures MergeWith(once)(english[i]) == once[i] {
      LookupByPosition(once, i);
      MergedTwice(english[i], Lookup(locale, english[i].id));
    }
    MapIs(MergeWith(once), english, once);
  }

  lemma MapIs<T, U>(f: T -> U, s: seq<T>, r: seq<U>)
    requires |r| == |s| && forall i :: 0 <= i < |s| ==> f(s[i]) == r[i]
    ensures Map(f, s) == r
  {
  }

  /** Sorting never changes which entry an identifier names first. */
  lemma {:induction false} LookupAfterInsert(e: Entry, sorted: seq<Entry>, id: string)
    ensures Lookup(Insert(EntryId, e, sorted), id) == Lookup([e] + sorted, id)
  {
    if sorted != [] && !LessEq(e.id, sorted[0].id) {
      LookupAfterInsert(e, sorted[1..], id);
      LessEqTotal(e.id, e.id);
      assert ([e] + sorted[1..])[1..] == sorted[1..];
      assert ([e] + sorted)[1..] == sorted;
    }
  }

  lemma {:induction false} LookupAfterSort(entries: seq<Entry>, id: string)
    ensures Lookup(SortEntries(entries), id) == Lookup(entries, id)
  {
    if entries != [] {
      LookupAfterSort(entries[1..], id);
      LookupAfterInsert(entries[0], SortEntries(entries[1..]), id);
    }
  }

  /** Merging with the locale sorted, or the English sorted, only reorders the result. */
  lemma SyncOfSorted(english: seq<Entry>, locale: seq<Entry>)
    ensures Sync(SortEntries(english), locale) == SortEntries(Sync(english, locale))
    ensures Sync(english, SortEntries(locale)) == Sync(english, locale)
  {
    assert forall e :: e in english ==> EntryId(MergeWith(locale)(e)) == EntryId(e);
    SortOfMap(EntryId, EntryId, MergeWith(locale), english);
    hide Merged, Lookup, SortEntries;
    var sorted := SortEntries(locale);
    forall i | 0 <= i < |english| ensures MergeWith(sorted)(english[i]) == MergeWith(locale)(english[i]) {
      LookupAfterSort(locale, english[i].id);
    }
    MapIs(MergeWith(sorted), english, Sync(english, locale));
  }

  /** Only the identifiers and texts of the English entries matter to a merge. */
  lemma SyncIgnoresForm(english: seq<Entry>, locale: seq<Entry>)
    ensures Sync(Map(EnglishOnly, english), locale) == Sync(english, locale)
  {
    MapIs(MergeWith(locale), Map(EnglishOnly, english), Sync(english, locale));
  }

  // ----- the last human translation -----

  /** The last translation a human wrote for an entry: the live one, or else the note. */
  function LastHuman(e: Entry): Option<string> {
    match e.translated
    case Some(Text(text)) => Some(text)
    case _ => e.previous
  }

  /** Merging against one English version after another. */
  function SyncAll(versions: seq<seq<Entry>>, locale: seq<Entry>): seq<Entry> {
    if versions == [] then locale else SyncAll(versions[1..], Sync(versions[0], locale))
  }

  /** The English text an identifier has in a version. */
  function EnglishOf(version: seq<Entry>, id: string): Option<string> {
    match Lookup(version, id)
    case Some(e) => Some(e.english)
    case None => None
  }

  predicate PresentIn(versions: seq<seq<Entry>>, id: string) {
    forall v :: v in versions ==> Lookup(v, id).Some?
  }

  lemma MergedKeepsSource(source: Entry, found: Option<Entry>)
    ensures Merged(source, found).id == source.id && Merged(source, found).english == source.english
  {
  }

  lemma {:induction false} LookupOfSync(english: seq<Entry>, locale: seq<Entry>, id: string)
    ensures Lookup(Sync(english, locale), id) ==
            match Lookup(english, id)
            case None => None
            case Some(source) => Some(Merged(source, Lookup(locale, id)))
  {
    if english != [] {
      var source := english[0];
      var found := Lookup(locale, source.id);
      MergedKeepsSource(source, found);
      LookupOfSync(english[1..], locale, id);
      hide Merged;
      var synced := Sync(english, locale);
      assert synced[0] == Merged(source, found) && synced[1..] == Sync(english[1..], locale);
    }
  }

  /**
   However often the English changes, an entry that stays in the catalog keeps the
   last translation a human wrote for it, and that translation is still live exactly
   when the English text never differed from the one it was written for.
   */
  lemma {:induction false} LastHumanSurvives(versions: seq<seq<Entry>>, locale: seq<Entry>, id: string)
    requires PresentIn(versions, id) && Lookup(locale, id).Some?
    ensures var before, after := Lookup(locale, id).value, Lookup(SyncAll(versions, locale), id);
            after.Some? && LastHuman(after.value) == LastHuman(before)
            && ((after.value.translated.Some? && after.value.translated.value.Text?) <==>
                 before.translated.Some? && before.translated.value.Text?
                 && forall v :: v in versions ==> EnglishOf(v, id) == Some(before.english))
  {
    if versions != [] {
      hide Lookup, Sync;
      var v, next := versions[0], Sync(versions[0], locale);
      assert v in versions;
      LookupOfSync(v, locale, id);
      LastHumanSurvives(versions[1..], next, id);
      assert versions == [v] + versions[1..];
    }
  }

  /** An identifier the English source drops is gone, translation and note. */
  lemma DroppedIsGone(english: seq<Entry>, locale: seq<Entry>, id: string)
    requires Lookup(english, id).None?
    ensures Lookup(Sync(english, locale), id).None?
  {
    LookupOfSync(english, locale, id);
  }
}
