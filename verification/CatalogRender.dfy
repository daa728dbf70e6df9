/** The printer of the `.lang` format (liana-i18n-toolbox/src/lib.rs). */
module CatalogRender {
  import opened Wrappers
  import opened Text
  import opened Sorting
  import opened Catalog

  /** The widest an entry may be on one line. */
  const INLINE_LIMIT := 85

  /** `str::replace` of one character. */
  function Replace(s: string, c: char, other: string): string {
    if s == "" then "" else (if s[0] == c then other else [s[0]]) + Replace(s[1..], c, other)
  }

  function Escape(value: string): string {
    Replace(Replace(Replace(Replace(value, '\\', "\\\\"), '\n', "\\n"), '\t', "\\t"), '"', "\\\"")
  }

  function Quote(value: string): string {
    "\"" + Escape(value) + "\""
  }

  function TranslationText(t: Option<Translation>): string {
    match t
    case Some(Text(text)) => Quote(text)
    case _ => UNTRANSLATED
  }

  function NoteSuffix(previous: Option<string>): string {
    match previous
    case Some(text) => " # " + Quote(text)
    case None => ""
  }

  function RenderEntry(e: Entry, englishOnly: bool): (lines: seq<string>)
    ensures lines != []
  {
    var english := e.id + " => " + Quote(e.english);
    if englishOnly then
      if |english| <= INLINE_LIMIT then [english]
      else [e.id, "=> " + Quote(e.english) + ";;"]
    else
      var translated := TranslationText(e.translated);
      var note := NoteSuffix(e.previous);
      var inline := english + " => " + translated;
      if |inline| <= INLINE_LIMIT then [inline + note]
      else [e.id, "=> " + Quote(e.english), "=> " + translated + ";;" + note]
  }

  function EntryId(e: Entry): string {
    e.id
  }

  function SortEntries(entries: seq<Entry>): seq<Entry> {
    Sort(EntryId, entries)
  }

  function Header(language: string, englishOnly: bool): seq<string> {
    ["# Translator-friendly catalog",
     LANGUAGE_HEADER + " " + language,
     if englishOnly then "# Format: id => \"English\"" else "# Format: id => \"English\" => \"Translation\"",
     "# Use \\n for line breaks",
     ""]
  }

  /** The lines of the entries, an empty line before each but possibly the first. */
  function Body(entries: seq<Entry>, englishOnly: bool, first: bool): seq<string> {
    if entries == [] then []
    else (if first then [] else [""]) + RenderEntry(entries[0], englishOnly) + Body(entries[1..], englishOnly, false)
  }

  /** The text of a catalog. */
  function Rendered(c: Catalog, englishOnly: bool): string {
    Join(Header(c.language, englishOnly) + Body(SortEntries(c.entries), englishOnly, true) + [""], "\n")
  }

  lemma RenderedEntryEndsInText(e: Entry, englishOnly: bool)
    ensures var lines := RenderEntry(e, englishOnly); lines[|lines| - 1] != ""
  {
  }

  /** `lines` with one more entry, after an empty line unless there is one already. */
  function WithEntry(lines: seq<string>, e: Entry, englishOnly: bool): seq<string>
    requires lines != []
  {
    (if lines[|lines| - 1] == "" then lines else lines + [""]) + RenderEntry(e, englishOnly)
  }

  lemma WithEntryIsBody(lines: seq<string>, entries: seq<Entry>, englishOnly: bool)
    requires lines != [] && entries != []
    ensures lines + Body(entries, englishOnly, lines[|lines| - 1] == "")
         == WithEntry(lines, entries[0], englishOnly) + Body(entries[1..], englishOnly, false)
  {
    hide RenderEntry;
    var e, rest := RenderEntry(entries[0], englishOnly), Body(entries[1..], englishOnly, false);
    if lines[|lines| - 1] == "" {
      assert [] + e + rest == e + rest;
      assert lines + (e + rest) == (lines + e) + rest;
    } else {
      assert lines + ([""] + e + rest) == (lines + [""] + e) + rest;
    }
  }

  method Render(catalog: Catalog, englishOnly: bool) returns (text: string)
    ensures text == Rendered(catalog, englishOnly)
  {
    ghost var head := Header(catalog.language, englishOnly);
    var lines := Header(catalog.language, englishOnly);
    var entries := SortEntries(catalog.entries);
    for i := 0 to |entries|
      invariant lines != [] && (lines[|lines| - 1] == "" <==> i == 0)
      invariant lines + Body(entries[i..], englishOnly, i == 0) == head + Body(entries, englishOnly, true)
    {
      WithEntryIsBody(lines, entries[i..], englishOnly);
      assert entries[i..][1..] == entries[i + 1..];
      if lines[|lines| - 1] != "" {
        lines := lines + [""];
      }
      lines := lines + RenderEntry(entries[i], englishOnly);
      RenderedEntryEndsInText(entries[i], englishOnly);
    }
    assert lines + [] == lines;
    text := Join(lines + [""], "\n");
  }
}
