/**
 Translation catalogs in `.lang` files: their data and their reader
 (liana-i18n-toolbox/src/lib.rs). Every loop of the source is a method here,
 proved to compute the function of the same meaning that precedes it.
 */
module Catalog {
  import opened Wrappers
  import opened Text

  const LANGUAGE_HEADER := "# Language:"
  const UNTRANSLATED := "NONE"

  datatype Translation = Untranslated | Text(text: string)

  datatype Entry = Entry(
    id: string,
    english: string,
    /** A locale's second value; absent in the English source. */
    translated: Option<Translation>,
    /** The last translation of an entry that has none any more. */
    previous: Option<string>)

  datatype Catalog = Catalog(language: string, entries: seq<Entry>)

  datatype ValueError =
    | ExpectedQuoted
    | UnfinishedEscape
    | UnterminatedValue
    | TrailingText
    | ExpectedArrow

  datatype EntryError =
    | BadValue(error: ValueError)
    | UnterminatedBlock
    | NoteBeforeLastValue
    | InvalidId(id: string)
    | DuplicateId(id: string)
    | EnglishUntranslated
    | WrongValueCount
    | NoteOnTranslated

  /** Lines are numbered from one, as the messages of the source do. */
  datatype ParseError = NoLanguage | At(line: nat, error: EntryError)

  predicate ValidIdChar(c: char) {
    'a' <= c <= 'z' || '0' <= c <= '9' || c == '-'
  }

  predicate ValidId(id: string) {
    id != "" && forall c :: c in id ==> ValidIdChar(c)
  }

  // ----- notes -----

  /** Where a line's note starts: its first `#` outside quotes and escapes. */
  function NoteStart(line: string, quoted: bool, escaped: bool): (r: Option<nat>)
    ensures r.Some? ==> r.value < |line| && line[r.value] == '#'
  {
    if line == "" then None
    else if !quoted && !escaped && line[0] == '#' then Some(0)
    else
      var rest := NoteStart(line[1..],
                            if !escaped && line[0] == '"' then !quoted else quoted,
                            !escaped && line[0] == '\\');
      match rest
      case Some(i) => Some(i + 1)
      case None => None
  }

  /** A line without its note, and the note. */
  function NoteSplit(line: string): (string, Option<string>) {
    match NoteStart(line, false, false)
    case Some(i) => (TrimEnd(line[..i]), Some(line[i + 1..]))
    case None => (line, None)
  }

  method SplitNote(line: string) returns (body: string, note: Option<string>)
    ensures (body, note) == NoteSplit(line)
  {
    var quoted, escaped := false, false;
    for offset := 0 to |line|
      invariant NoteStart(line, false, false)
             == match NoteStart(line[offset..], quoted, escaped)
                case Some(i) => Some(i + offset)
                case None => None
    {
      var ch := line[offset];
      if escaped {
        escaped := false;
      } else if ch == '\\' {
        escaped := true;
      } else if ch == '"' {
        quoted := !quoted;
      } else if ch == '#' && !quoted {
        return TrimEnd(line[..offset]), Some(line[offset + 1..]);
      }
      assert line[offset..][1..] == line[offset + 1..];
    }
    return line, None;
  }

  // ----- quoted values -----

  function Unescaped(c: char): char {
    if c == 'n' then '\n' else if c == 't' then '\t' else c
  }

  /** Reads a quoted value whose opening quote is already consumed. */
  function QuotedTail(source: string, escaped: bool, out: string)
    : (r: Result<(string, string), ValueError>)
    ensures r.Ok? ==> |r.value.1| < |source|
  {
    if source == "" then Err(if escaped then UnfinishedEscape else UnterminatedValue)
    else if escaped then QuotedTail(source[1..], false, out + [Unescaped(source[0])])
    else if source[0] == '\\' then QuotedTail(source[1..], true, out)
    else if source[0] == '"' then Ok((out, source[1..]))
    else QuotedTail(source[1..], false, out + [source[0]])
  }

  /** The value quoted at the front of `source`, and the text after it. */
  function Quoted(source: string): (r: Result<(string, string), ValueError>)
    ensures r.Ok? ==> |r.value.1| < |source|
  {
    if source == "" || source[0] != '"' then Err(ExpectedQuoted)
    else QuotedTail(source[1..], false, "")
  }

  method ParseQuoted(source: string) returns (r: Result<(string, string), ValueError>)
    ensures r == Quoted(source)
  {
    if source == "" || source[0] != '"' {
      return Err(ExpectedQuoted);
    }
    var out, escaped := "", false;
    for offset := 1 to |source|
      invariant Quoted(source) == QuotedTail(source[offset..], escaped, out)
    {
      var ch := source[offset];
      assert source[offset..][1..] == source[offset + 1..];
      if escaped {
        out := out + (match ch case 'n' => ['\n'] case 't' => ['\t'] case other => [other]);
        escaped := false;
      } else if ch == '\\' {
        escaped := true;
      } else if ch == '"' {
        return Ok((out, source[offset + 1..]));
      } else {
        out := out + [ch];
      }
    }
    return Err(if escaped then UnfinishedEscape else UnterminatedValue);
  }

  /** A note is one quoted text and nothing after it. */
  function NoteText(source: string): Result<string, ValueError> {
    var (text, rest) :- Quoted(TrimStart(source));
    if Trim(rest) == "" then Ok(text) else Err(TrailingText)
  }

  /** One value, translated or marked as not translated, and what follows it. */
  function Value(source: string): (r: Result<(Translation, string), ValueError>)
    ensures r.Ok? ==> |r.value.1| < |source|
  {
    var bare := StripPrefix(source, UNTRANSLATED);
    if bare.Some? && (TrimStart(bare.value) == "" || "=>" <= bare.value) then
      Ok((Untranslated, bare.value))
    else
      var (text, rest) :- Quoted(source);
      Ok((Translation.Text(text), rest))
  }

  lemma {:induction false} TrimStartShortens(s: string)
    ensures |TrimStart(s)| <= |s|
  {
    if s != "" && IsWhitespace(s[0]) {
      TrimStartShortens(s[1..]);
    }
  }

  /** `=>`-separated values up to the end of the line, appended to `values`. */
  function InlineValues(source: string, values: seq<Translation>): Result<seq<Translation>, ValueError>
    decreases |source|
  {
    TrimStartShortens(source);
    var (value, rest) :- Value(TrimStart(source));
    TrimStartShortens(rest);
    var after := TrimStart(rest);
    match StripPrefix(after, "=>")
    case Some(more) => InlineValues(more, values + [value])
    case None => if after == "" then Ok(values + [value]) else Err(TrailingText)
  }

  method ParseInlineValues(line: string) returns (r: Result<seq<Translation>, ValueError>)
    ensures r == InlineValues(line, [])
  {
    var source, values := line, [];
    while true
      invariant InlineValues(line, []) == InlineValues(source, values)
      decreases |source|
    {
      TrimStartShortens(source);
      var value := Value(TrimStart(source));
      if value.Err? {
        return Err(value.error);
      }
      TrimStartShortens(value.value.1);
      values := values + [value.value.0];
      source := TrimStart(value.value.1);
      match StripPrefix(source, "=>")
      case Some(more) =>
        source := more;
      case None =>
        if source == "" {
          return Ok(values);
        }
        return Err(TrailingText);
    }
  }

  /** One `=> value` line of a block. */
  function BlockValue(line: string): Result<Translation, ValueError> {
    match StripPrefix(TrimStart(line), "=>")
    case None => Err(ExpectedArrow)
    case Some(source) =>
      var (value, rest) :- Value(TrimStart(source));
      if Trim(rest) == "" then Ok(value) else Err(TrailingText)
  }

  /** `trim_end_matches(";;")`. */
  function TrimEndMarks(s: string): string {
    if EndsWith(s, ";;") then TrimEndMarks(s[..|s| - 2]) else s
  }

  // ----- entries -----

  /** What one entry of the text holds, before any check. */
  datatype RawEntry = RawEntry(id: string, values: seq<Translation>, note: Option<string>, next: nat)

  /** The rest of a block entry that starts on line `start`, read from `index` on. */
  function Block(lines: seq<string>, index: nat, start: nat, values: seq<Translation>)
    : (r: Result<(seq<Translation>, Option<string>, nat), ParseError>)
    requires index <= |lines|
    ensures r.Ok? ==> index < r.value.2 <= |lines|
    decreases |lines| - index
  {
    if index == |lines| then Err(At(start, UnterminatedBlock))
    else
      var (line, note) := NoteSplit(Trim(lines[index]));
      if line == "" then Block(lines, index + 1, start, values)
      else
        var end := EndsWith(line, ";;");
        match BlockValue(if end then TrimEnd(TrimEndMarks(line)) else line)
        case Err(e) => Err(At(index + 1, BadValue(e)))
        case Ok(value) =>
          if end then Ok((values + [value], note, index + 1))
          else if note.Some? then Err(At(index + 1, NoteBeforeLastValue))
          else Block(lines, index + 1, start, values + [value])
  }

  method ParseBlock(lines: seq<string>, first: nat, start: nat)
    returns (r: Result<(seq<Translation>, Option<string>, nat), ParseError>)
    requires first <= |lines|
    ensures r == Block(lines, first, start, [])
  {
    var index, values := first, [];
    while true
      invariant first <= index <= |lines|
      invariant Block(lines, first, start, []) == Block(lines, index, start, values)
      decreases |lines| - index
    {
      if index == |lines| {
        return Err(At(start, UnterminatedBlock));
      }
      var line, note := SplitNote(Trim(lines[index]));
      index := index + 1;
      if line == "" {
        continue;
      }
      var end := EndsWith(line, ";;");
      var source := if end then TrimEnd(TrimEndMarks(line)) else line;
      var value := BlockValue(source);
      if value.Err? {
        return Err(At(index, BadValue(value.error)));
      }
      values := values + [value.value];
      if end {
        return Ok((values, note, index));
      }
      if note.Some? {
        return Err(At(index, NoteBeforeLastValue));
      }
    }
  }

  /** The entry that starts at `lines[index]`, whose text without note is `line`. */
  function Raw(lines: seq<string>, index: nat, line: string, note: Option<string>)
    : (r: Result<RawEntry, ParseError>)
    requires index < |lines|
    ensures r.Ok? ==> index < r.value.next <= |lines|
  {
    match Find(line, "=>")
    case Some(at) =>
      (match InlineValues(line[at + 2..], [])
       case Ok(values) => Ok(RawEntry(Trim(line[..at]), values, note, index + 1))
       case Err(e) => Err(At(index + 1, BadValue(e))))
    case None =>
      var (values, note, next) :- Block(lines, index + 1, index + 1, []);
      Ok(RawEntry(line, values, note, next))
  }

  method ParseRaw(lines: seq<string>, first: nat, line: string, note: Option<string>)
    returns (r: Result<RawEntry, ParseError>)
    requires first < |lines|
    ensures r == Raw(lines, first, line, note)
  {
    match Find(line, "=>")
    case Some(at) =>
      var values := ParseInlineValues(line[at + 2..]);
      if values.Err? {
        return Err(At(first + 1, BadValue(values.error)));
      }
      return Ok(RawEntry(Trim(line[..at]), values.value, note, first + 1));
    case None =>
      var block := ParseBlock(lines, first + 1, first + 1);
      if block.Err? {
        return Err(block.error);
      }
      return Ok(RawEntry(line, block.value.0, block.value.1, block.value.2));
  }

  /** The checks an entry passes, in the order the source runs them. */
  function Checked(raw: RawEntry, ids: set<string>): Result<Entry, EntryError> {
    var previous :- match raw.note
                    case None => Ok(None)
                    case Some(note) =>
                      match NoteText(note)
                      case Ok(text) => Ok(Some(text))
                      case Err(e) => Err(BadValue(e));
    if !ValidId(raw.id) then Err(InvalidId(raw.id))
    else if raw.id in ids then Err(DuplicateId(raw.id))
    else if raw.values == [] then Err(WrongValueCount)
    else if raw.values[0].Untranslated? then Err(EnglishUntranslated)
    else
      var translated := if |raw.values| > 1 then Some(raw.values[1]) else None;
      if |raw.values| > 2 then Err(WrongValueCount)
      else if previous.Some? && translated != Some(Untranslated) then Err(NoteOnTranslated)
      else Ok(Entry(raw.id, raw.values[0].text, translated, previous))
  }

  /** The checked entry at `lines[index]`, and the line after it. */
  function EntryAt(lines: seq<string>, index: nat, line: string, note: Option<string>, ids: set<string>)
    : (r: Result<(Entry, nat), ParseError>)
    requires index < |lines|
    ensures r.Ok? ==> index < r.value.1 <= |lines|
  {
    var raw :- Raw(lines, index, line, note);
    match Checked(raw, ids)
    case Err(e) => Err(At(index + 1, e))
    case Ok(entry) => Ok((entry, raw.next))
  }

  method ParseEntry(lines: seq<string>, first: nat, line: string, note: Option<string>, ids: set<string>)
    returns (r: Result<(Entry, nat), ParseError>)
    requires first < |lines|
    ensures r == EntryAt(lines, first, line, note, ids)
  {
    var raw := ParseRaw(lines, first, line, note);
    if raw.Err? {
      return Err(raw.error);
    }
    var entry := Checked(raw.value, ids);
    if entry.Err? {
      return Err(At(first + 1, entry.error));
    }
    return Ok((entry.value, raw.value.next));
  }

  function Ids(entries: seq<Entry>): set<string> {
    set e | e in entries :: e.id
  }

  lemma IdsOfAppended(entries: seq<Entry>, e: Entry)
    ensures Ids(entries + [e]) == Ids(entries) + {e.id}
  {
    assert forall x :: x in entries + [e] <==> x in entries || x == e;
  }

  /** Reads the entries from `lines[index]` on, after those already in `entries`. */
  function EntriesFrom(lines: seq<string>, index: nat, entries: seq<Entry>): Result<seq<Entry>, ParseError>
    requires index <= |lines|
    decreases |lines| - index
  {
    if index == |lines| then Ok(entries)
    else
      var (line, note) := NoteSplit(Trim(lines[index]));
      if line == "" then EntriesFrom(lines, index + 1, entries)
      else
        var (entry, next) :- EntryAt(lines, index, line, note, Ids(entries));
        EntriesFrom(lines, next, entries + [entry])
  }

  /** The text after the first language header. */
  function Language(lines: seq<string>): Option<string> {
    if lines == [] then None
    else match StripPrefix(Trim(lines[0]), LANGUAGE_HEADER)
      case Some(language) => Some(Trim(language))
      case None => Language(lines[1..])
  }

  /** What a catalog source means. */
  function Parsed(source: string): Result<Catalog, ParseError> {
    var lines := Lines(source);
    match Language(lines)
    case None => Err(NoLanguage)
    case Some(language) =>
      if language == "" then Err(NoLanguage)
      else
        var entries :- EntriesFrom(lines, 0, []);
        Ok(Catalog(language, entries))
  }

  method Parse(source: string) returns (r: Result<Catalog, ParseError>)
    ensures r == Parsed(source)
  {
    var lines := Lines(source);
    var language := Language(lines);
    if language.None? || language.value == "" {
      return Err(NoLanguage);
    }
    var entries, ids, index := [], {}, 0;
    while index < |lines|
      invariant index <= |lines|
      invariant ids == Ids(entries)
      invariant EntriesFrom(lines, 0, []) == EntriesFrom(lines, index, entries)
    {
      var line, note := SplitNote(Trim(lines[index]));
      if line == "" {
        index := index + 1;
        continue;
      }
      var read := ParseEntry(lines, index, line, note, ids);
      if read.Err? {
        return Err(read.error);
      }
      var (entry, next) := read.value;
      IdsOfAppended(entries, entry);
      entries, ids, index := entries + [entry], ids + {entry.id}, next;
    }
    return Ok(Catalog(language.value, entries));
  }

  // ----- what a parsed catalog satisfies -----

  predicate WellFormedEntry(e: Entry) {
    ValidId(e.id) && (e.previous.Some? ==> e.translated == Some(Untranslated))
  }

  predicate UniqueIds(entries: seq<Entry>) {
    forall i, j :: 0 <= i < j < |entries| ==> entries[i].id != entries[j].id
  }

  predicate WellFormedLanguage(language: string) {
    language != "" && Trimmed(language) && '\n' !in language
  }

  predicate WellFormed(c: Catalog) {
    WellFormedLanguage(c.language)
    && UniqueIds(c.entries)
    && forall e :: e in c.entries ==> WellFormedEntry(e)
  }

  lemma EntryAtWellFormed(lines: seq<string>, index: nat, line: string, note: Option<string>, ids: set<string>)
    requires index < |lines|
    ensures var r := EntryAt(lines, index, line, note, ids);
            r.Ok? ==> WellFormedEntry(r.value.0) && r.value.0.id !in ids
  {
    hide Raw, NoteText;
  }

  lemma {:induction false} EntriesFromWellFormed(lines: seq<string>, index: nat, entries: seq<Entry>)
    requires index <= |lines|
    requires UniqueIds(entries) && forall e :: e in entries ==> WellFormedEntry(e)
    ensures var r := EntriesFrom(lines, index, entries);
            r.Ok? ==> UniqueIds(r.value) && forall e :: e in r.value ==> WellFormedEntry(e)
    decreases |lines| - index
  {
    hide EntryAt, NoteSplit, Trim, WellFormedEntry;
    if index < |lines| {
      var (line, note) := NoteSplit(Trim(lines[index]));
      if line == "" {
        EntriesFromWellFormed(lines, index + 1, entries);
      } else {
        var read := EntryAt(lines, index, line, note, Ids(entries));
        if read.Ok? {
          EntryAtWellFormed(lines, index, line, note, Ids(entries));
          forall i | 0 <= i < |entries| ensures entries[i].id in Ids(entries) {
            assert entries[i] in entries;
          }
          EntriesFromWellFormed(lines, read.value.1, entries + [read.value.0]);
        }
      }
    }
  }

  lemma {:induction false} LanguageWellFormed(lines: seq<string>)
    requires forall l :: l in lines ==> '\n' !in l
    ensures var r := Language(lines); r.Some? ==> Trimmed(r.value) && '\n' !in r.value
  {
    if lines != [] {
      var line := Trim(lines[0]);
      TrimLaw(lines[0]);
      assert lines[0] in lines;
      match StripPrefix(line, LANGUAGE_HEADER)
      case Some(language) =>
        TrimLaw(language);
        assert forall c :: c in language ==> c in line;
      case None =>
        LanguageWellFormed(lines[1..]);
    }
  }

  /** Reading only ever returns well-formed catalogs. */
  lemma ParsedIsWellFormed(source: string)
    ensures Parsed(source).Ok? ==> WellFormed(Parsed(source).value)
  {
    LinesHoldNoLineFeed(source);
    LanguageWellFormed(Lines(source));
    EntriesFromWellFormed(Lines(source), 0, []);
  }
}
