/**
 Reading what was printed: the round trip of the `.lang` format, from single
 quoted values up to whole catalogs.
 */
module CatalogRoundTrip {
  import opened Wrappers
  import opened Text
  import opened Sorting
  import opened Catalog
  import opened CatalogRender

  // ----- escaping -----

  function EscapedChar(c: char): (r: string)
    ensures '\n' !in r
  {
    match c
    case '\\' => "\\\\"
    case '\n' => "\\n"
    case '\t' => "\\t"
    case '"' => "\\\""
    case _ => [c]
  }

  /** Escaping in one pass, character by character. */
  function EscapedChars(value: string): (r: string)
    ensures '\n' !in r
  {
    if value == "" then "" else EscapedChar(value[0]) + EscapedChars(value[1..])
  }

  lemma {:induction false} ReplaceConcat(a: string, b: string, c: char, other: string)
    ensures Replace(a + b, c, other) == Replace(a, c, other) + Replace(b, c, other)
  {
    if a == "" {
      assert a + b == b;
    } else {
      assert (a + b)[1..] == a[1..] + b;
      ReplaceConcat(a[1..], b, c, other);
    }
  }

  lemma {:induction false} ReplaceChar(x: char, c: char, other: string)
    ensures Replace([x], c, other) == if x == c then other else [x]
  {
    assert [x][1..] == "";
  }

  /** Later replacements leave the escapes of earlier ones alone. */
  lemma ReplacePair(x: char, y: char, c: char, other: string)
    ensures x != c && y != c ==> Replace([x, y], c, other) == [x, y]
  {
    assert [x, y] == [x] + [y];
    ReplaceConcat([x], [y], c, other);
    ReplaceChar(x, c, other);
    ReplaceChar(y, c, other);
  }

  lemma EscapeChar(c: char)
    ensures Escape([c]) == EscapedChar(c)
  {
    ReplaceChar(c, '\\', "\\\\");
    ReplaceChar(c, '\n', "\\n");
    ReplaceChar(c, '\t', "\\t");
    ReplaceChar(c, '"', "\\\"");
    ReplacePair('\\', '\\', '\n', "\\n");
    ReplacePair('\\', '\\', '\t', "\\t");
    ReplacePair('\\', '\\', '"', "\\\"");
    ReplacePair('\\', 'n', '\t', "\\t");
    ReplacePair('\\', 'n', '"', "\\\"");
    ReplacePair('\\', 't', '"', "\\\"");
  }

  /** The four passes of `escape` amount to one. */
  lemma {:induction false} EscapeIsOnePass(value: string)
    ensures Escape(value) == EscapedChars(value)
  {
    if value != "" {
      var a, b := [value[0]], value[1..];
      assert value == a + b;
      EscapeChar(value[0]);
      EscapeIsOnePass(b);
      ReplaceConcat(a, b, '\\', "\\\\");
      var a1, b1 := Replace(a, '\\', "\\\\"), Replace(b, '\\', "\\\\");
      ReplaceConcat(a1, b1, '\n', "\\n");
      var a2, b2 := Replace(a1, '\n', "\\n"), Replace(b1, '\n', "\\n");
      ReplaceConcat(a2, b2, '\t', "\\t");
      var a3, b3 := Replace(a2, '\t', "\\t"), Replace(b2, '\t', "\\t");
      ReplaceConcat(a3, b3, '"', "\\\"");
    }
  }

  // ----- the quote scanner inverts escaping -----

  lemma QuotedTailOfChar(c: char, tail: string, out: string)
    ensures QuotedTail(EscapedChar(c) + tail, false, out) == QuotedTail(tail, false, out + [c])
  {
    var e := EscapedChar(c);
    var source := e + tail;
    if |e| == 2 {
      var second := [e[1]] + tail;
      assert source[1..] == second && second[1..] == tail;
      assert Unescaped(e[1]) == c;
    } else {
      assert source[1..] == tail;
    }
  }

  lemma {:induction false} QuotedTailOfEscaped(value: string, rest: string, out: string)
    ensures QuotedTail(EscapedChars(value) + "\"" + rest, false, out) == Ok((out + value, rest))
  {
    if value == "" {
      assert EscapedChars(value) + "\"" + rest == "\"" + rest;
      assert out + value == out;
    } else {
      hide QuotedTail;
      var c, tail := value[0], EscapedChars(value[1..]) + "\"" + rest;
      assert EscapedChars(value) + "\"" + rest == EscapedChar(c) + tail;
      QuotedTailOfChar(c, tail, out);
      QuotedTailOfEscaped(value[1..], rest, out + [c]);
      assert out + [c] + value[1..] == out + value;
    }
  }

  /** Reading a quoted value back gives that value and exactly the text after it. */
  lemma QuotedRoundTrip(value: string, rest: string)
    ensures Quoted(Quote(value) + rest) == Ok((value, rest))
  {
    EscapeIsOnePass(value);
    assert (Quote(value) + rest)[1..] == EscapedChars(value) + "\"" + rest;
    QuotedTailOfEscaped(value, rest, "");
    assert "" + value == value;
  }

  // ----- the note scanner agrees with the quote scanner -----

  function Shifted(offset: Option<nat>, by_: nat): Option<nat> {
    match offset
    case Some(i) => Some(i + by_)
    case None => None
  }

  predicate Plain(s: string) {
    '"' !in s && '\\' !in s && '#' !in s
  }

  lemma {:induction false} NoteStartAfterPlain(head: string, rest: string)
    requires Plain(head)
    ensures NoteStart(head + rest, false, false) == Shifted(NoteStart(rest, false, false), |head|)
  {
    if head == "" {
      assert head + rest == rest;
    } else {
      assert (head + rest)[0] == head[0] && head[0] in head;
      assert (head + rest)[1..] == head[1..] + rest;
      NoteStartAfterPlain(head[1..], rest);
    }
  }

  lemma NoteStartInQuotesChar(c: char, tail: string)
    ensures NoteStart(EscapedChar(c) + tail, true, false)
         == Shifted(NoteStart(tail, true, false), |EscapedChar(c)|)
  {
    var e := EscapedChar(c);
    var source := e + tail;
    if |e| == 2 {
      var second := [e[1]] + tail;
      assert source[1..] == second && second[1..] == tail;
      assert NoteStart(second, true, true) == Shifted(NoteStart(tail, true, false), 1);
    } else {
      assert source[1..] == tail;
    }
  }

  lemma {:induction false} NoteStartInQuotes(value: string, rest: string)
    ensures NoteStart(EscapedChars(value) + rest, true, false)
         == Shifted(NoteStart(rest, true, false), |EscapedChars(value)|)
  {
    if value == "" {
      assert EscapedChars(value) + rest == rest;
    } else {
      var e, more := EscapedChar(value[0]), EscapedChars(value[1..]);
      calc {
        NoteStart(EscapedChars(value) + rest, true, false);
        { assert EscapedChars(value) + rest == e + (more + rest); }
        NoteStart(e + (more + rest), true, false);
        { NoteStartInQuotesChar(value[0], more + rest); }
        Shifted(NoteStart(more + rest, true, false), |e|);
        { NoteStartInQuotes(value[1..], rest); }
        Shifted(Shifted(NoteStart(rest, true, false), |more|), |e|);
        Shifted(NoteStart(rest, true, false), |EscapedChars(value)|);
      }
    }
  }

  lemma NoteStartAtQuote(tail: string, quoted: bool)
    ensures NoteStart("\"" + tail, quoted, false) == Shifted(NoteStart(tail, !quoted, false), 1)
  {
    assert ("\"" + tail)[1..] == tail;
  }

  /** A quoted value never hides the real start of a note, nor invents one. */
  lemma NoteStartAfterQuote(value: string, rest: string)
    ensures NoteStart(Quote(value) + rest, false, false)
         == Shifted(NoteStart(rest, false, false), |Quote(value)|)
  {
    hide NoteStart, Escape;
    EscapeIsOnePass(value);
    var escaped, close := EscapedChars(value), "\"" + rest;
    assert Quote(value) + rest == "\"" + (escaped + close);
    NoteStartAtQuote(escaped + close, false);
    NoteStartInQuotes(value, close);
    NoteStartAtQuote(rest, true);
  }

  // ----- the parts of an entry -----

  /** An English value: quoted. A translation: quoted, or `NONE`. */
  function Shown(t: Translation): string {
    TranslationText(Some(t))
  }

  lemma NoteStartAfterShown(t: Translation, rest: string)
    ensures NoteStart(Shown(t) + rest, false, false)
         == Shifted(NoteStart(rest, false, false), |Shown(t)|)
  {
    match t
    case Text(text) => NoteStartAfterQuote(text, rest);
    case Untranslated => NoteStartAfterPlain("NONE", rest);
  }

  /** A shown value starts and ends in visible characters. */
  lemma ShownIsTrimmed(t: Translation)
    ensures |Shown(t)| >= 2 && Trimmed(Shown(t)) && '\n' !in Shown(t)
    ensures Shown(t)[|Shown(t)| - 1] != ';' && Shown(t)[|Shown(t)| - 1] != '\r'
  {
    match t
    case Text(text) =>
      EscapeIsOnePass(text);
      assert Shown(t)[|Shown(t)| - 1] == '"';
    case Untranslated =>
  }

  /** `NONE` is only ever printed at the end of its value text. */
  lemma ValueRoundTrip(t: Translation, rest: string)
    requires t.Untranslated? ==> rest == ""
    ensures Value(Shown(t) + rest) == Ok((t, rest))
  {
    match t
    case Text(text) =>
      QuotedRoundTrip(text, rest);
      assert (Shown(t) + rest)[0] == '"' != UNTRANSLATED[0];
    case Untranslated =>
      assert Shown(t) + rest == UNTRANSLATED;
      assert StripPrefix(UNTRANSLATED, UNTRANSLATED) == Some("");
  }

  lemma TrimStartVisible(head: string, rest: string)
    requires head != "" && !IsWhitespace(head[0])
    ensures TrimStart(head + rest) == head + rest
    ensures TrimStart(" " + head + rest) == head + rest
  {
    assert (" " + head + rest)[1..] == head + rest;
  }

  lemma LastInlineValue(t: Translation, values: seq<Translation>)
    ensures InlineValues(" " + Shown(t), values) == Ok(values + [t])
  {
    ShownIsTrimmed(t);
    TrimStartVisible(Shown(t), "");
    assert Shown(t) + "" == Shown(t);
    assert " " + Shown(t) + "" == " " + Shown(t);
    ValueRoundTrip(t, "");
  }

  lemma ArrowThen(rest: string)
    ensures TrimStart(" =>" + rest) == "=>" + rest
    ensures StripPrefix("=>" + rest, "=>") == Some(rest)
  {
    assert (" =>" + rest)[1..] == "=>" + rest;
    assert ("=>" + rest)[2..] == rest;
  }

  /** Once a value and an arrow are read, reading goes on after the arrow. */
  lemma InlineStep(source: string, values: seq<Translation>, value: Translation, more: string)
    requires Value(TrimStart(source)) == Ok((value, " =>" + more))
    ensures InlineValues(source, values) == InlineValues(more, values + [value])
  {
    hide Value;
    ArrowThen(more);
    hide TrimStart;
  }

  lemma FirstInlineValue(english: string, t: Translation)
    ensures InlineValues(" " + Quote(english) + " => " + Shown(t), []) == Ok([Translation.Text(english), t])
  {
    var e := Translation.Text(english);
    var last := " " + Shown(t);
    var source := " " + Shown(e) + (" =>" + last);
    ShownIsTrimmed(e);
    TrimStartVisible(Shown(e), " =>" + last);
    ValueRoundTrip(e, " =>" + last);
    assert source == " " + Quote(english) + " => " + Shown(t);
    hide InlineValues, Value, TrimStart, Quote;
    InlineStep(source, [], e, last);
    LastInlineValue(t, [e]);
    assert [] + [e] == [e] && [e] + [t] == [e, t];
  }

  lemma BlockValueRoundTrip(t: Translation)
    ensures BlockValue("=> " + Shown(t)) == Ok(t)
  {
    ShownIsTrimmed(t);
    assert ("=> " + Shown(t))[2..] == " " + Shown(t);
    TrimStartVisible(Shown(t), "");
    assert " " + Shown(t) + "" == " " + Shown(t);
    assert Shown(t) + "" == Shown(t);
    ValueRoundTrip(t, "");
  }

  lemma NoteTextRoundTrip(text: string)
    ensures NoteText(" " + Quote(text)) == Ok(text)
  {
    ShownIsTrimmed(Translation.Text(text));
    TrimStartVisible(Quote(text), "");
    assert " " + Quote(text) + "" == " " + Quote(text);
    assert Quote(text) + "" == Quote(text);
    QuotedRoundTrip(text, "");
  }

  function NoteOf(previous: Option<string>): Option<string> {
    match previous
    case Some(text) => Some(" " + Quote(text))
    case None => None
  }

  lemma TrimEndSpace(s: string)
    requires s != "" && !IsWhitespace(s[|s| - 1])
    ensures TrimEnd(s + " ") == s
  {
    assert (s + " ")[..|s|] == s;
  }

  lemma NoteStartsAtMark(q: string)
    ensures NoteStart(" # " + q, false, false) == Some(1)
  {
    assert (" # " + q)[1..] == "# " + q;
  }

  lemma SplitAt(head: string, tail: string)
    requires NoteStart(head + tail, false, false) == Some(|head|) && tail != ""
    ensures NoteSplit(head + tail) == (TrimEnd(head), Some(tail[1..]))
  {
    assert (head + tail)[..|head|] == head;
    assert (head + tail)[|head| + 1..] == tail[1..];
  }

  lemma MarkText(line: string, q: string)
    requires line != "" && Trimmed(line) && q != "" && Trimmed(q)
    ensures line + (" # " + q) == (line + " ") + ("# " + q)
    ensures ("# " + q)[1..] == " " + q
    ensures Trim(line + (" # " + q)) == line + (" # " + q)
  {
    var whole := line + (" # " + q);
    assert whole[0] == line[0] && whole[|whole| - 1] == q[|q| - 1];
    TrimLaw(whole);
  }

  lemma SplitAtMark(line: string, q: string)
    requires line != "" && Trimmed(line) && q != "" && Trimmed(q)
    requires NoteStart(line + (" # " + q), false, false) == Some(|line| + 1)
    ensures NoteSplit(Trim(line + (" # " + q))) == (line, Some(" " + q))
  {
    MarkText(line, q);
    SplitAt(line + " ", "# " + q);
    TrimEndSpace(line);
  }

  /** Splitting a printed line cuts exactly at the printed note. */
  lemma NoteSplitRoundTrip(line: string, previous: Option<string>)
    requires line != "" && Trimmed(line)
    requires NoteStart(line + NoteSuffix(previous), false, false)
          == Shifted(NoteStart(NoteSuffix(previous), false, false), |line|)
    ensures NoteSplit(Trim(line + NoteSuffix(previous))) == (line, NoteOf(previous))
  {
    match previous
    case None =>
      assert line + NoteSuffix(previous) == line;
      TrimLaw(line);
    case Some(text) =>
      ShownIsTrimmed(Translation.Text(text));
      NoteStartsAtMark(Quote(text));
      SplitAtMark(line, Quote(text));
  }

  // ----- whole entries -----

  /** What an entry reads back as: the English catalog keeps one value, the others always carry two. */
  function Normal(englishOnly: bool): Entry -> Entry {
    if englishOnly then EnglishOnly else Bilingual
  }

  function EnglishOnly(e: Entry): Entry {
    Entry(e.id, e.english, None, None)
  }

  function Bilingual(e: Entry): Entry {
    Entry(e.id, e.english, Some(if e.translated.Some? then e.translated.value else Untranslated), e.previous)
  }

  /** The entries whose printed form is legal: only a `NONE` carries a note. */
  predicate Printable(e: Entry, englishOnly: bool) {
    ValidId(e.id) && (englishOnly || e.previous.None? || !HasLiveText(e))
  }

  predicate HasLiveText(e: Entry) {
    e.translated.Some? && e.translated.value.Text?
  }

  lemma IdIsPlain(id: string)
    requires ValidId(id)
    ensures Plain(id) && Trimmed(id) && '=' !in id && '\n' !in id && IsLine(id)
  {
    assert forall c :: c in id ==> ValidIdChar(c);
    assert id[0] in id && id[|id| - 1] in id;
  }

  /** The body of an inline entry: its identifier and its values. */
  function InlineText(id: string, english: string, translated: Option<Translation>): string {
    var first := id + " => " + Quote(english);
    if translated.None? then first else first + " => " + Shown(translated.value)
  }

  lemma InlineTextScans(id: string, english: string, translated: Option<Translation>, rest: string)
    requires ValidId(id)
    ensures var line := InlineText(id, english, translated);
            NoteStart(line + rest, false, false) == Shifted(NoteStart(rest, false, false), |line|)
  {
    hide NoteStart, Quote, Shown;
    IdIsPlain(id);
    var line, head, quoted := InlineText(id, english, translated), id + " => ", Quote(english);
    if translated.None? {
      assert line + rest == head + (quoted + rest);
      NoteStartAfterPlain(head, quoted + rest);
      NoteStartAfterQuote(english, rest);
    } else {
      var value, arrow := Shown(translated.value), " => ";
      assert line + rest == head + (quoted + (arrow + (value + rest)));
      NoteStartAfterPlain(head, quoted + (arrow + (value + rest)));
      NoteStartAfterQuote(english, arrow + (value + rest));
      NoteStartAfterPlain(arrow, value + rest);
      NoteStartAfterShown(translated.value, rest);
    }
  }

  lemma InlineTextIsTrimmed(id: string, english: string, translated: Option<Translation>)
    requires ValidId(id)
    ensures var line := InlineText(id, english, translated); line != "" && Trimmed(line)
    ensures var line := InlineText(id, english, translated); '\n' !in line && line[|line| - 1] != '\r'
  {
    IdIsPlain(id);
    ShownIsTrimmed(Translation.Text(english));
    if translated.Some? {
      ShownIsTrimmed(translated.value);
    }
  }

  /** The lines an entry is printed on. */
  predicate HasLines(lines: seq<string>, index: nat, printed: seq<string>) {
    index + |printed| <= |lines| && lines[index..index + |printed|] == printed
  }

  lemma HasLinesParts(lines: seq<string>, index: nat, printed: seq<string>)
    requires printed != [] && HasLines(lines, index, printed)
    ensures lines[index] == printed[0]
    ensures HasLines(lines, index + 1, printed[1..])
  {
    var piece := lines[index..index + |printed|];
    assert piece[0] == lines[index];
    assert piece[1..] == lines[index + 1..index + |printed|];
  }

  function Values(english: string, translated: Option<Translation>): seq<Translation> {
    [Translation.Text(english)] + if translated.None? then [] else [translated.value]
  }

  /** What follows the first arrow of an inline entry. */
  function InlineTail(english: string, translated: Option<Translation>): string {
    var first := " " + Quote(english);
    if translated.None? then first else first + " => " + Shown(translated.value)
  }

  lemma InlineTailRoundTrip(english: string, translated: Option<Translation>)
    ensures InlineValues(InlineTail(english, translated), []) == Ok(Values(english, translated))
  {
    var e := Translation.Text(english);
    if translated.None? {
      LastInlineValue(e, []);
      assert [] + [e] == Values(english, translated);
    } else {
      FirstInlineValue(english, translated.value);
      assert [e, translated.value] == Values(english, translated);
    }
  }

  lemma InlineTextSplits(id: string, english: string, translated: Option<Translation>)
    requires ValidId(id)
    ensures var line := InlineText(id, english, translated);
            Find(line, "=>") == Some(|id| + 1)
            && line[..|id| + 1] == id + " " && line[|id| + 3..] == InlineTail(english, translated)
  {
    var line, tail := InlineText(id, english, translated), InlineTail(english, translated);
    hide Find, Quote, Shown, ValidId, Plain, Trimmed, IsLine;
    IdIsPlain(id);
    assert line == (id + " ") + "=>" + tail;
    FindAfter(id + " ", "=>", tail);
  }

  lemma ReadInline(lines: seq<string>, index: nat, id: string, english: string,
                   translated: Option<Translation>, previous: Option<string>)
    requires ValidId(id)
    requires index < |lines| && lines[index] == InlineText(id, english, translated) + NoteSuffix(previous)
    ensures var (line, note) := NoteSplit(Trim(lines[index]));
            line != "" && Raw(lines, index, line, note)
                       == Ok(RawEntry(id, Values(english, translated), NoteOf(previous), index + 1))
  {
    InlineTextIsTrimmed(id, english, translated);
    InlineTextScans(id, english, translated, NoteSuffix(previous));
    NoteSplitRoundTrip(InlineText(id, english, translated), previous);
    InlineTextSplits(id, english, translated);
    InlineTailRoundTrip(english, translated);
    IdIsPlain(id);
    TrimSpaced(id);
  }

  lemma TrimSpaced(id: string)
    requires id != "" && Trimmed(id)
    ensures Trim(id + " ") == id
  {
    assert TrimStart(id + " ") == id + " ";
    TrimEndSpace(id);
  }

  /** A line of the block form: a value, and the terminator on the last one. */
  function BlockLine(t: Translation, last: bool): string {
    "=> " + Shown(t) + if last then ";;" else ""
  }

  lemma BlockLineScans(t: Translation, last: bool, rest: string)
    ensures NoteStart(BlockLine(t, last) + rest, false, false)
         == Shifted(NoteStart(rest, false, false), |BlockLine(t, last)|)
  {
    hide NoteStart, Shown;
    var marks, value := if last then ";;" else "", Shown(t);
    assert BlockLine(t, last) + rest == "=> " + (value + (marks + rest));
    NoteStartAfterPlain("=> ", value + (marks + rest));
    NoteStartAfterShown(t, marks + rest);
    NoteStartAfterPlain(marks, rest);
  }

  lemma BlockLineEnds(value: string, last: bool)
    requires value != "" && value[|value| - 1] != ';' && !IsWhitespace(value[|value| - 1])
    ensures var line := value + if last then ";;" else "";
            (EndsWith(line, ";;") <==> last) && (last ==> TrimEnd(TrimEndMarks(line)) == value)
  {
    var line := value + if last then ";;" else "";
    if last {
      assert line[|line| - 2..] == ";;";
      assert line[..|line| - 2] == value;
      assert !EndsWith(value, ";;") by {
        assert |value| >= 2 ==> value[|value| - 2..][1] == value[|value| - 1];
      }
    } else {
      assert |line| >= 2 ==> line[|line| - 2..][1] == value[|value| - 1];
    }
  }

  lemma BlockLineIsTrimmed(t: Translation, last: bool)
    ensures Trimmed(BlockLine(t, last)) && BlockLine(t, last) != ""
  {
    ShownIsTrimmed(t);
  }

  lemma BlockLineRoundTrip(t: Translation, last: bool, previous: Option<string>)
    ensures NoteSplit(Trim(BlockLine(t, last) + NoteSuffix(previous))) == (BlockLine(t, last), NoteOf(previous))
    ensures EndsWith(BlockLine(t, last), ";;") <==> last
    ensures last ==> TrimEnd(TrimEndMarks(BlockLine(t, last))) == "=> " + Shown(t)
  {
    BlockLineScans(t, last, NoteSuffix(previous));
    BlockLineIsTrimmed(t, last);
    NoteSplitRoundTrip(BlockLine(t, last), previous);
    ShownIsTrimmed(t);
    BlockLineEnds("=> " + Shown(t), last);
  }

  /** Reading the value lines of a printed block. */
  lemma ReadBlock(lines: seq<string>, index: nat, start: nat, english: string,
                  translated: Option<Translation>, previous: Option<string>)
    requires translated.None? ==>
               HasLines(lines, index, [BlockLine(Translation.Text(english), true) + NoteSuffix(previous)])
    requires translated.Some? ==>
               HasLines(lines, index, [BlockLine(Translation.Text(english), false),
                                       BlockLine(translated.value, true) + NoteSuffix(previous)])
    ensures Block(lines, index, start, [])
         == Ok((Values(english, translated), NoteOf(previous), index + |Values(english, translated)|))
  {
    var e, values := Translation.Text(english), Values(english, translated);
    if translated.None? {
      assert lines[index..index + 1][0] == lines[index];
      ReadLastBlockLine(lines, index, start, e, previous, []);
      assert [] + [e] == values;
    } else {
      assert lines[index..index + 2][0] == lines[index] && lines[index..index + 2][1] == lines[index + 1];
      calc {
        Block(lines, index, start, []);
        { ReadFirstBlockLine(lines, index, start, e); }
        Block(lines, index + 1, start, [e]);
        { ReadLastBlockLine(lines, index + 1, start, translated.value, previous, [e]); }
        Ok(([e] + [translated.value], NoteOf(previous), index + 2));
        { assert [e] + [translated.value] == values; }
        Ok((values, NoteOf(previous), index + |values|));
      }
    }
  }

  lemma ReadFirstBlockLine(lines: seq<string>, index: nat, start: nat, t: Translation)
    requires index < |lines| && lines[index] == BlockLine(t, false)
    ensures Block(lines, index, start, []) == Block(lines, index + 1, start, [t])
  {
    BlockLineRoundTrip(t, false, None);
    BlockLineIsTrimmed(t, false);
    assert BlockLine(t, false) + NoteSuffix(None) == BlockLine(t, false) == "=> " + Shown(t);
    BlockValueRoundTrip(t);
    assert [] + [t] == [t];
  }

  lemma ReadLastBlockLine(lines: seq<string>, index: nat, start: nat, t: Translation,
                          previous: Option<string>, values: seq<Translation>)
    requires index < |lines| && lines[index] == BlockLine(t, true) + NoteSuffix(previous)
    ensures Block(lines, index, start, values) == Ok((values + [t], NoteOf(previous), index + 1))
  {
    BlockLineRoundTrip(t, true, previous);
    BlockLineIsTrimmed(t, true);
    BlockValueRoundTrip(t);
  }

  lemma BareIdLine(id: string)
    requires ValidId(id)
    ensures NoteSplit(Trim(id)) == (id, None) && Find(id, "=>") == None
  {
    IdIsPlain(id);
    TrimLaw(id);
    NoteStartAfterPlain(id, "");
    assert id + "" == id;
    FindNowhere(id, "=>");
  }

  lemma ReadBlockEntry(lines: seq<string>, index: nat, id: string, english: string,
                       translated: Option<Translation>, previous: Option<string>)
    requires ValidId(id)
    requires index < |lines| && lines[index] == id
    requires translated.None? ==>
               HasLines(lines, index + 1, [BlockLine(Translation.Text(english), true) + NoteSuffix(previous)])
    requires translated.Some? ==>
               HasLines(lines, index + 1, [BlockLine(Translation.Text(english), false),
                                           BlockLine(translated.value, true) + NoteSuffix(previous)])
    ensures var (line, note) := NoteSplit(Trim(lines[index]));
            line != "" && Raw(lines, index, line, note)
                       == Ok(RawEntry(id, Values(english, translated), NoteOf(previous),
                                      index + 1 + |Values(english, translated)|))
  {
    hide NoteSplit, Trim, Find, Block, BlockLine, NoteSuffix;
    BareIdLine(id);
    ReadBlock(lines, index + 1, index + 1, english, translated, previous);
  }

  function EntryValue(e: Entry, englishOnly: bool): Option<Translation> {
    Normal(englishOnly)(e).translated
  }

  function EntryNote(e: Entry, englishOnly: bool): Option<string> {
    Normal(englishOnly)(e).previous
  }

  /** The two shapes an entry is printed in, whatever the mode. */
  lemma RenderedShape(e: Entry, englishOnly: bool)
    ensures var t, note := EntryValue(e, englishOnly), NoteSuffix(EntryNote(e, englishOnly));
            var english := Translation.Text(e.english);
            RenderEntry(e, englishOnly) ==
              if |InlineText(e.id, e.english, t)| <= INLINE_LIMIT then [InlineText(e.id, e.english, t) + note]
              else if t.None? then [e.id, BlockLine(english, true) + note]
              else [e.id, BlockLine(english, false), BlockLine(t.value, true) + note]
  {
    var t := EntryValue(e, englishOnly);
    assert BlockLine(Translation.Text(e.english), false) == "=> " + Quote(e.english);
    assert BlockLine(Translation.Text(e.english), true) == "=> " + Quote(e.english) + ";;";
    if englishOnly {
      assert InlineText(e.id, e.english, t) + NoteSuffix(None) == InlineText(e.id, e.english, t);
      assert BlockLine(Translation.Text(e.english), true) + NoteSuffix(None) == "=> " + Quote(e.english) + ";;";
    } else {
      assert Shown(t.value) == TranslationText(e.translated);
    }
  }

  lemma ReadRenderedRaw(lines: seq<string>, index: nat, e: Entry, englishOnly: bool)
    requires ValidId(e.id)
    requires HasLines(lines, index, RenderEntry(e, englishOnly))
    ensures index < |lines|
    ensures var (line, note) := NoteSplit(Trim(lines[index]));
            line != "" && Raw(lines, index, line, note)
                       == Ok(RawEntry(e.id, Values(e.english, EntryValue(e, englishOnly)),
                                      NoteOf(EntryNote(e, englishOnly)), index + |RenderEntry(e, englishOnly)|))
  {
    var t, previous := EntryValue(e, englishOnly), EntryNote(e, englishOnly);
    var printed := RenderEntry(e, englishOnly);
    RenderedShape(e, englishOnly);
    HasLinesParts(lines, index, printed);
    if |InlineText(e.id, e.english, t)| <= INLINE_LIMIT {
      ReadInline(lines, index, e.id, e.english, t, previous);
    } else {
      ReadBlockEntry(lines, index, e.id, e.english, t, previous);
    }
  }

  /** The checks let a printable entry through unchanged. */
  lemma CheckPrintable(e: Entry, englishOnly: bool, ids: set<string>, next: nat)
    requires Printable(e, englishOnly) && e.id !in ids
    ensures Checked(RawEntry(e.id, Values(e.english, EntryValue(e, englishOnly)),
                             NoteOf(EntryNote(e, englishOnly)), next), ids)
         == Ok(Normal(englishOnly)(e))
  {
    var previous := EntryNote(e, englishOnly);
    if previous.Some? {
      NoteTextRoundTrip(previous.value);
    }
  }

  /** Reading a printed entry gives the entry back, in either shape. */
  lemma ReadRendered(lines: seq<string>, index: nat, e: Entry, englishOnly: bool, ids: set<string>)
    requires Printable(e, englishOnly) && e.id !in ids
    requires HasLines(lines, index, RenderEntry(e, englishOnly))
    ensures index < |lines|
    ensures var (line, note) := NoteSplit(Trim(lines[index]));
            line != "" && EntryAt(lines, index, line, note, ids)
                       == Ok((Normal(englishOnly)(e), index + |RenderEntry(e, englishOnly)|))
  {
    hide RenderEntry, Raw, Checked, NoteSplit, Trim;
    ReadRenderedRaw(lines, index, e, englishOnly);
    CheckPrintable(e, englishOnly, ids, index + |RenderEntry(e, englishOnly)|);
  }

  // ----- whole catalogs -----

  lemma SkipEmpty(lines: seq<string>, index: nat, entries: seq<Entry>)
    requires index < |lines| && NoteSplit(Trim(lines[index])).0 == ""
    ensures EntriesFrom(lines, index, entries) == EntriesFrom(lines, index + 1, entries)
  {
  }

  lemma EmptyLine()
    ensures NoteSplit(Trim("")).0 == ""
  {
  }

  lemma TakeEntry(lines: seq<string>, index: nat, entries: seq<Entry>, entry: Entry, next: nat)
    requires index < |lines|
    requires var (line, note) := NoteSplit(Trim(lines[index]));
             line != "" && EntryAt(lines, index, line, note, Ids(entries)) == Ok((entry, next))
    ensures next <= |lines|
    ensures EntriesFrom(lines, index, entries) == EntriesFrom(lines, next, entries + [entry])
  {
  }

  lemma ReadNextEntry(lines: seq<string>, index: nat, e: Entry, englishOnly: bool, entries: seq<Entry>)
    requires Printable(e, englishOnly) && e.id !in Ids(entries)
    requires HasLines(lines, index, RenderEntry(e, englishOnly))
    ensures EntriesFrom(lines, index, entries)
         == EntriesFrom(lines, index + |RenderEntry(e, englishOnly)|, entries + [Normal(englishOnly)(e)])
  {
    hide EntriesFrom, RenderEntry, EntryAt;
    ReadRendered(lines, index, e, englishOnly, Ids(entries));
    TakeEntry(lines, index, entries, Normal(englishOnly)(e), index + |RenderEntry(e, englishOnly)|);
  }

  /** Reading one printed entry, past the empty line that may come first. */
  lemma ReadNext(lines: seq<string>, index: nat, gap: seq<string>, e: Entry, englishOnly: bool, entries: seq<Entry>)
    requires Printable(e, englishOnly) && e.id !in Ids(entries)
    requires gap == [] || gap == [""]
    requires HasLines(lines, index, gap + RenderEntry(e, englishOnly))
    ensures EntriesFrom(lines, index, entries)
         == EntriesFrom(lines, index + |gap + RenderEntry(e, englishOnly)|, entries + [Normal(englishOnly)(e)])
  {
    hide EntriesFrom, RenderEntry;
    HasLinesSplit(lines, index, gap, RenderEntry(e, englishOnly));
    if gap == [""] {
      assert lines[index] == lines[index..index + 1][0] == "";
      EmptyLine();
      SkipEmpty(lines, index, entries);
    }
    ReadNextEntry(lines, index + |gap|, e, englishOnly, entries);
  }

  lemma HasLinesSplit(lines: seq<string>, index: nat, a: seq<string>, b: seq<string>)
    requires HasLines(lines, index, a + b)
    ensures HasLines(lines, index, a) && HasLines(lines, index + |a|, b)
  {
    var piece := lines[index..index + |a + b|];
    assert piece[..|a|] == lines[index..index + |a|];
    assert piece[|a|..] == lines[index + |a|..index + |a| + |b|];
    assert (a + b)[..|a|] == a && (a + b)[|a|..] == b;
  }

  predicate FreshIds(entries: seq<Entry>, more: seq<Entry>) {
    UniqueIds(more) && forall i :: 0 <= i < |more| ==> more[i].id !in Ids(entries)
  }

  lemma FreshIdsStep(entries: seq<Entry>, more: seq<Entry>, e: Entry)
    requires more != [] && FreshIds(entries, more) && e.id == more[0].id
    ensures FreshIds(entries + [e], more[1..])
  {
    IdsOfAppended(entries, e);
  }

  /** The lines of the first entry of a body. */
  function FirstLines(entries: seq<Entry>, englishOnly: bool, first: bool): seq<string>
    requires entries != []
  {
    (if first then [] else [""]) + RenderEntry(entries[0], englishOnly)
  }

  lemma ReadFirst(lines: seq<string>, index: nat, entries: seq<Entry>, englishOnly: bool,
                  first: bool, read: seq<Entry>)
    requires entries != [] && FreshIds(read, entries) && Printable(entries[0], englishOnly)
    requires HasLines(lines, index, Body(entries, englishOnly, first))
    ensures |Body(entries, englishOnly, first)|
         == |FirstLines(entries, englishOnly, first)| + |Body(entries[1..], englishOnly, false)|
    ensures var next := index + |FirstLines(entries, englishOnly, first)|;
            HasLines(lines, next, Body(entries[1..], englishOnly, false))
            && EntriesFrom(lines, index, read) == EntriesFrom(lines, next, read + [Normal(englishOnly)(entries[0])])
  {
    hide EntriesFrom, RenderEntry;
    HasLinesSplit(lines, index, FirstLines(entries, englishOnly, first), Body(entries[1..], englishOnly, false));
    ReadNext(lines, index, if first then [] else [""], entries[0], englishOnly, read);
  }

  /** Reading a printed body appends its entries, in their printed order. */
  lemma {:induction false} ReadBody(lines: seq<string>, index: nat, entries: seq<Entry>, englishOnly: bool,
                                    first: bool, read: seq<Entry>)
    requires index + |Body(entries, englishOnly, first)| == |lines|
    requires HasLines(lines, index, Body(entries, englishOnly, first))
    requires FreshIds(read, entries)
    requires forall e :: e in entries ==> Printable(e, englishOnly)
    ensures EntriesFrom(lines, index, read) == Ok(read + Map(Normal(englishOnly), entries))
    decreases |entries|
  {
    hide EntriesFrom, FirstLines, FreshIds, HasLines, Printable, Normal, RenderEntry, Body;
    if entries == [] {
      ReadNothing(lines, englishOnly, first, read);
    } else {
      var n, next := Normal(englishOnly)(entries[0]), index + |FirstLines(entries, englishOnly, first)|;
      var rest, mapped := entries[1..], Map(Normal(englishOnly), entries[1..]);
      assert entries[0] in entries;
      NormalKeepsId(entries[0], englishOnly);
      FreshIdsStep(read, entries, n);
      ReadFirst(lines, index, entries, englishOnly, first, read);
      ReadBody(lines, next, rest, englishOnly, false, read + [n]);
      assert read + [n] + mapped == read + Map(Normal(englishOnly), entries);
    }
  }

  lemma NormalKeepsId(e: Entry, englishOnly: bool)
    ensures Normal(englishOnly)(e).id == e.id
  {
  }

  lemma ReadNothing(lines: seq<string>, englishOnly: bool, first: bool, read: seq<Entry>)
    ensures |Body([], englishOnly, first)| == 0
    ensures EntriesFrom(lines, |lines|, read) == Ok(read + Map(Normal(englishOnly), []))
  {
    assert read + [] == read;
  }

  /** A printed line with its note is still one line, trimmed at its end. */
  lemma LineWithNote(line: string, previous: Option<string>)
    requires IsLine(line) && line != ""
    ensures IsLine(line + NoteSuffix(previous))
  {
    if previous.Some? {
      ShownIsTrimmed(Translation.Text(previous.value));
      var q := Quote(previous.value);
      assert (line + (" # " + q))[|line| + 3 + |q| - 1] == q[|q| - 1];
    } else {
      assert line + NoteSuffix(previous) == line;
    }
  }

  lemma BlockLineIsLine(t: Translation, last: bool)
    ensures IsLine(BlockLine(t, last))
  {
    ShownIsTrimmed(t);
  }

  lemma RenderedEntryLines(e: Entry, englishOnly: bool)
    requires Printable(e, englishOnly)
    ensures forall l :: l in RenderEntry(e, englishOnly) ==> IsLine(l)
  {
    var t, note := EntryValue(e, englishOnly), EntryNote(e, englishOnly);
    var inline := InlineText(e.id, e.english, t);
    var english := Translation.Text(e.english);
    var only := BlockLine(english, true);
    RenderedShape(e, englishOnly);
    if |inline| <= INLINE_LIMIT {
      InlineTextIsTrimmed(e.id, e.english, t);
      LineWithNote(inline, note);
      assert RenderEntry(e, englishOnly) == [inline + NoteSuffix(note)];
    } else if t.None? {
      IdIsPlain(e.id);
      BlockLineIsLine(english, true);
      LineWithNote(only, note);
      assert RenderEntry(e, englishOnly) == [e.id, only + NoteSuffix(note)];
    } else {
      IdIsPlain(e.id);
      BlockLineIsLine(english, false);
      BlockLineIsLine(t.value, true);
      LineWithNote(BlockLine(t.value, true), note);
      assert RenderEntry(e, englishOnly)
          == [e.id, BlockLine(english, false), BlockLine(t.value, true) + NoteSuffix(note)];
    }
  }

  lemma {:induction false} BodyLines(entries: seq<Entry>, englishOnly: bool, first: bool)
    requires forall e :: e in entries ==> Printable(e, englishOnly)
    ensures forall l :: l in Body(entries, englishOnly, first) ==> IsLine(l)
  {
    if entries != [] {
      assert entries[0] in entries;
      RenderedEntryLines(entries[0], englishOnly);
      BodyLines(entries[1..], englishOnly, false);
    }
  }

  lemma HeaderComments()
    ensures IsLine("# Translator-friendly catalog") && IsLine("# Use \\n for line breaks")
  {
  }

  lemma EnglishFormatLine()
    ensures IsLine("# Format: id => \"English\"")
  {
  }

  lemma LocaleFormatLine()
    ensures IsLine("# Format: id => \"English\" => \"Translation\"")
  {
  }

  lemma LanguageLine(language: string)
    requires WellFormedLanguage(language)
    ensures IsLine(LANGUAGE_HEADER + " " + language)
  {
  }

  lemma FiveLines(a: string, b: string, c: string, d: string, e: string)
    requires IsLine(a) && IsLine(b) && IsLine(c) && IsLine(d) && IsLine(e)
    ensures forall l :: l in [a, b, c, d, e] ==> IsLine(l)
  {
  }

  lemma HeaderLines(language: string, englishOnly: bool)
    requires WellFormedLanguage(language)
    ensures forall l :: l in Header(language, englishOnly) ==> IsLine(l)
  {
    HeaderComments();
    EnglishFormatLine();
    LocaleFormatLine();
    LanguageLine(language);
    var head := Header(language, englishOnly);
    FiveLines(head[0], head[1], head[2], head[3], head[4]);
    assert head == [head[0], head[1], head[2], head[3], head[4]];
  }

  lemma CommentLine(line: string)
    requires line != "" && line[0] == '#' && !IsWhitespace(line[|line| - 1])
    ensures NoteSplit(Trim(line)).0 == ""
  {
    TrimLaw(line);
    assert line[..0] == "";
  }

  /** Four comments and an empty line hold no entry. */
  lemma SkipComments(lines: seq<string>)
    requires 5 <= |lines| && lines[4] == ""
    requires forall i :: 0 <= i < 4 ==> var l := lines[i]; l != "" && l[0] == '#' && !IsWhitespace(l[|l| - 1])
    ensures EntriesFrom(lines, 0, []) == EntriesFrom(lines, 5, [])
  {
    hide EntriesFrom;
    EmptyLine();
    forall i | 0 <= i < 4 ensures NoteSplit(Trim(lines[i])).0 == "" {
      CommentLine(lines[i]);
    }
    hide NoteSplit, Trim;
    SkipEmpty(lines, 0, []);
    SkipEmpty(lines, 1, []);
    SkipEmpty(lines, 2, []);
    SkipEmpty(lines, 3, []);
    SkipEmpty(lines, 4, []);
  }

  lemma TitleIsNotLanguage()
    ensures var title := "# Translator-friendly catalog"; StripPrefix(Trim(title), LANGUAGE_HEADER).None?
  {
    var title := "# Translator-friendly catalog";
    TrimLaw(title);
    assert title[2] != LANGUAGE_HEADER[2];
  }

  lemma LanguageLineRoundTrip(language: string)
    requires WellFormedLanguage(language)
    ensures var l := LANGUAGE_HEADER + " " + language;
            StripPrefix(Trim(l), LANGUAGE_HEADER) == Some(" " + language)
    ensures Trim(" " + language) == language
  {
    var l := LANGUAGE_HEADER + " " + language;
    TrimLaw(l);
    TrimLaw(language);
    assert l == LANGUAGE_HEADER + (" " + language);
    assert l[|LANGUAGE_HEADER|..] == " " + language;
    assert (" " + language)[1..] == language;
  }

  lemma LanguageOfHeader(lines: seq<string>, language: string)
    requires WellFormedLanguage(language)
    requires 2 <= |lines| && lines[0] == "# Translator-friendly catalog"
    requires lines[1] == LANGUAGE_HEADER + " " + language
    ensures Language(lines) == Some(language)
  {
    TitleIsNotLanguage();
    LanguageLineRoundTrip(language);
    hide Trim, StripPrefix, WellFormedLanguage;
    assert lines[1..][0] == lines[1];
    assert Language(lines[1..]) == Some(language);
  }

  lemma HeaderShape(language: string, englishOnly: bool)
    requires WellFormedLanguage(language)
    ensures var head := Header(language, englishOnly);
            head[4] == ""
            && forall i :: 0 <= i < 4 ==> var l := head[i]; l != "" && l[0] == '#' && !IsWhitespace(l[|l| - 1])
  {
    var head := Header(language, englishOnly);
    assert head[1][|head[1]| - 1] == language[|language| - 1];
    forall i | 0 <= i < 4 ensures var l := head[i]; l != "" && l[0] == '#' && !IsWhitespace(l[|l| - 1]) {
      assert i == 0 || i == 1 || i == 2 || i == 3;
    }
  }

  /** The header names the language and holds no entry. */
  lemma ReadHeader(lines: seq<string>, language: string, englishOnly: bool)
    requires WellFormedLanguage(language)
    requires HasLines(lines, 0, Header(language, englishOnly))
    ensures Language(lines) == Some(language)
    ensures EntriesFrom(lines, 0, []) == EntriesFrom(lines, 5, [])
  {
    HeaderShape(language, englishOnly);
    forall i | 0 <= i < 5 ensures lines[i] == Header(language, englishOnly)[i] {
      assert lines[0..5][i] == lines[i];
    }
    LanguageOfHeader(lines, language);
    hide EntriesFrom, Header, Language, WellFormedLanguage;
    SkipComments(lines);
  }

  predicate PrintableCatalog(c: Catalog, englishOnly: bool) {
    WellFormedLanguage(c.language)
    && UniqueIds(c.entries)
    && forall e :: e in c.entries ==> Printable(e, englishOnly)
  }

  /** What a catalog reads back as: sorted, in the form its mode prints. */
  function ReadBack(c: Catalog, englishOnly: bool): Catalog {
    Catalog(c.language, Map(Normal(englishOnly), SortEntries(c.entries)))
  }

  lemma UniqueIdsAreKeys(entries: seq<Entry>)
    ensures UniqueIds(entries) <==> |Keys(EntryId, entries)| == |entries|
  {
    UniqueIffAllKeys(EntryId, entries);
  }

  /** Reordering keeps identifiers unique, and loses no repetition either. */
  lemma UniqueIdsAfterSort(entries: seq<Entry>)
    ensures UniqueIds(SortEntries(entries)) <==> UniqueIds(entries)
    ensures forall e :: e in SortEntries(entries) <==> e in entries
  {
    var sorted := SortEntries(entries);
    SortLaw(EntryId, entries);
    UniqueIdsAreKeys(entries);
    UniqueIdsAreKeys(sorted);
    assert Keys(EntryId, sorted) == Keys(EntryId, entries) by {
      forall k | k in Keys(EntryId, sorted) ensures k in Keys(EntryId, entries) {
        var i :| 0 <= i < |sorted| && k == EntryId(sorted[i]);
        assert sorted[i] in entries;
        var j :| 0 <= j < |entries| && entries[j] == sorted[i];
      }
      forall k | k in Keys(EntryId, entries) ensures k in Keys(EntryId, sorted) {
        var i :| 0 <= i < |entries| && k == EntryId(entries[i]);
        assert entries[i] in sorted;
        var j :| 0 <= j < |sorted| && sorted[j] == entries[i];
      }
    }
  }

  lemma RoundTripOfPrintable(c: Catalog, englishOnly: bool)
    requires PrintableCatalog(c, englishOnly)
    ensures Parsed(Rendered(c, englishOnly)) == Ok(ReadBack(c, englishOnly))
  {
    var head, entries := Header(c.language, englishOnly), SortEntries(c.entries);
    var body := Body(entries, englishOnly, true);
    UniqueIdsAfterSort(c.entries);
    HeaderLines(c.language, englishOnly);
    BodyLines(entries, englishOnly, true);
    LinesOfJoin(head + body);
    ReadLines(c.language, entries, englishOnly);
  }

  lemma ReadLines(language: string, entries: seq<Entry>, englishOnly: bool)
    requires WellFormedLanguage(language) && UniqueIds(entries)
    requires forall e :: e in entries ==> Printable(e, englishOnly)
    ensures var lines := Header(language, englishOnly) + Body(entries, englishOnly, true);
            Language(lines) == Some(language)
            && EntriesFrom(lines, 0, []) == Ok(Map(Normal(englishOnly), entries))
  {
    var head, body := Header(language, englishOnly), Body(entries, englishOnly, true);
    var lines := head + body;
    assert lines[0..|lines|] == lines;
    HasLinesSplit(lines, 0, head, body);
    ReadHeader(lines, language, englishOnly);
    ReadBody(lines, 5, entries, englishOnly, true, []);
    assert [] + Map(Normal(englishOnly), entries) == Map(Normal(englishOnly), entries);
  }

  /** A catalog that reads back as expected was printable. */
  lemma OnlyPrintableRoundTrips(c: Catalog, englishOnly: bool)
    requires Parsed(Rendered(c, englishOnly)) == Ok(ReadBack(c, englishOnly))
    ensures PrintableCatalog(c, englishOnly)
  {
    var d := ReadBack(c, englishOnly);
    var sorted := SortEntries(c.entries);
    ParsedIsWellFormed(Rendered(c, englishOnly));
    UniqueIdsAfterSort(c.entries);
    forall i, j | 0 <= i < j < |sorted| ensures sorted[i].id != sorted[j].id {
      assert d.entries[i].id != d.entries[j].id;
    }
    hide Parsed, Rendered, SortEntries;
    forall e | e in c.entries ensures Printable(e, englishOnly) {
      assert e in sorted;
      var i :| 0 <= i < |sorted| && sorted[i] == e;
      assert d.entries[i] in d.entries && WellFormedEntry(d.entries[i]);
    }
  }

  /**
   The round trip: printing and reading back returns the language and exactly the
   entries, sorted, if and only if the catalog has a trimmed one-line language,
   distinct valid identifiers and notes on untranslated entries only.
   */
  lemma RoundTrip(c: Catalog, englishOnly: bool)
    ensures Parsed(Rendered(c, englishOnly)) == Ok(ReadBack(c, englishOnly)) <==> PrintableCatalog(c, englishOnly)
  {
    if PrintableCatalog(c, englishOnly) {
      RoundTripOfPrintable(c, englishOnly);
    }
    if Parsed(Rendered(c, englishOnly)) == Ok(ReadBack(c, englishOnly)) {
      OnlyPrintableRoundTrips(c, englishOnly);
    }
  }
}
