/**
 Text as sequences of Unicode scalar values: the pieces of Rust's `str` API the
 catalog tool is built on (`trim`, `lines`, `split_once`, `strip_prefix`,
 ordering), with the few laws the catalog proofs use.
 */
module Text {
  import opened Wrappers

  /** `char::is_whitespace`: the Unicode White_Space property. */
  predicate IsWhitespace(c: char) {
    '\t' <= c <= '\r' || c == ' ' || c == '\U{0085}' || c == '\U{00A0}' || c == '\U{1680}'
    || '\U{2000}' <= c <= '\U{200A}' || c == '\U{2028}' || c == '\U{2029}' || c == '\U{202F}'
    || c == '\U{205F}' || c == '\U{3000}'
  }

  function TrimStart(s: string): string {
    if s != "" && IsWhitespace(s[0]) then TrimStart(s[1..]) else s
  }

  function TrimEnd(s: string): string {
    if s != "" && IsWhitespace(s[|s| - 1]) then TrimEnd(s[..|s| - 1]) else s
  }

  function Trim(s: string): string {
    TrimEnd(TrimStart(s))
  }

  /** Nothing for `trim` to remove. */
  predicate Trimmed(s: string) {
    s == "" || (!IsWhitespace(s[0]) && !IsWhitespace(s[|s| - 1]))
  }

  /** `trim` returns a trimmed piece of its input, and a trimmed input unchanged. */
  lemma TrimLaw(s: string)
    ensures Trimmed(Trim(s))
    ensures Trimmed(s) ==> Trim(s) == s
    ensures forall c :: c in Trim(s) ==> c in s
  {
    TrimStartLaw(s);
    TrimEndLaw(TrimStart(s));
  }

  lemma {:induction false} TrimStartLaw(s: string)
    ensures var t := TrimStart(s); t == "" || !IsWhitespace(t[0])
    ensures forall c :: c in TrimStart(s) ==> c in s
  {
    if s != "" && IsWhitespace(s[0]) {
      TrimStartLaw(s[1..]);
    }
  }

  lemma {:induction false} TrimEndLaw(s: string)
    ensures var t := TrimEnd(s); t <= s && (t == "" || !IsWhitespace(t[|t| - 1]))
  {
    if s != "" && IsWhitespace(s[|s| - 1]) {
      TrimEndLaw(s[..|s| - 1]);
    }
  }

  predicate EndsWith(s: string, suffix: string) {
    |suffix| <= |s| && s[|s| - |suffix|..] == suffix
  }

  function StripPrefix(s: string, prefix: string): Option<string> {
    if prefix <= s then Some(s[|prefix|..]) else None
  }

  /** The offset of the first occurrence of `pattern`. */
  function Find(s: string, pattern: string): (r: Option<nat>)
    ensures r.Some? ==> r.value + |pattern| <= |s| && s[r.value..r.value + |pattern|] == pattern
  {
    if pattern <= s then Some(0)
    else if s == "" then None
    else match Find(s[1..], pattern)
      case Some(i) => Some(i + 1)
      case None => None
  }

  /** A pattern whose first character does not occur in `head` is first found right after it. */
  lemma {:induction false} FindAfter(head: string, pattern: string, tail: string)
    requires pattern != "" && pattern[0] !in head
    ensures Find(head + pattern + tail, pattern) == Some(|head|)
  {
    var s := head + pattern + tail;
    if head == "" {
      assert pattern <= s;
    } else {
      assert s[0] == head[0] != pattern[0];
      assert s[1..] == head[1..] + pattern + tail;
      FindAfter(head[1..], pattern, tail);
    }
  }

  lemma {:induction false} FindNowhere(s: string, pattern: string)
    requires pattern != "" && pattern[0] !in s
    ensures Find(s, pattern) == None
  {
    if s != "" {
      assert s[0] in s;
      FindNowhere(s[1..], pattern);
    }
  }

  /** `str::lines`: pieces between line feeds, each without a trailing carriage return. */
  function Lines(text: string): seq<string>
  {
    if text == "" then []
    else match Find(text, "\n")
      case None => [text]
      case Some(n) => [StripCarriageReturn(text[..n])] + Lines(text[n + 1..])
  }

  function StripCarriageReturn(line: string): string {
    if line != "" && line[|line| - 1] == '\r' then line[..|line| - 1] else line
  }

  function Join(lines: seq<string>, separator: string): string {
    if |lines| == 0 then ""
    else if |lines| == 1 then lines[0]
    else lines[0] + separator + Join(lines[1..], separator)
  }

  /** A line that survives being written between line feeds. */
  predicate IsLine(s: string) {
    '\n' !in s && (s == "" || s[|s| - 1] != '\r')
  }

  /** Joining lines with a final empty one and splitting again gives the same lines back. */
  lemma {:induction false} LinesOfJoin(lines: seq<string>)
    requires forall l :: l in lines ==> IsLine(l)
    ensures Lines(Join(lines + [""], "\n")) == lines
  {
    if lines == [] {
      assert lines + [""] == [""];
    } else {
      var all := lines + [""];
      assert all[1..] == lines[1..] + [""];
      var rest := Join(lines[1..] + [""], "\n");
      var text := Join(all, "\n");
      assert lines[0] in lines;
      assert text == lines[0] + "\n" + rest;
      FindAfter(lines[0], "\n", rest);
      assert text[..|lines[0]|] == lines[0];
      assert text[|lines[0]| + 1..] == rest;
      LinesOfJoin(lines[1..]);
    }
  }

  /** No line of `lines` holds a line feed. */
  lemma {:induction false} LinesHoldNoLineFeed(text: string)
    ensures forall l :: l in Lines(text) ==> '\n' !in l
  {
    if text != "" {
      FirstLineFeed(text);
      match Find(text, "\n")
      case None =>
      case Some(n) =>
        LinesHoldNoLineFeed(text[n + 1..]);
    }
  }

  lemma {:induction false} FirstLineFeed(text: string)
    ensures Find(text, "\n").None? ==> '\n' !in text
    ensures Find(text, "\n").Some? ==> '\n' !in text[..Find(text, "\n").value]
  {
    if text != "" && !("\n" <= text) {
      FirstLineFeed(text[1..]);
      assert text[..1] == [text[0]];
      assert text == [text[0]] + text[1..];
      var r := Find(text, "\n");
      if r.Some? {
        assert text[..r.value] == [text[0]] + text[1..][..r.value - 1];
      }
    }
  }

  // ----- ordering -----

  /** `str::cmp`: code-point order, which is also the byte order of the UTF-8 encodings. */
  predicate LessEq(a: string, b: string) {
    a == "" || (b != "" && (a[0] < b[0] || (a[0] == b[0] && LessEq(a[1..], b[1..]))))
  }

  lemma {:induction false} LessEqTotal(a: string, b: string)
    ensures LessEq(a, b) || LessEq(b, a)
    ensures LessEq(a, b) && LessEq(b, a) ==> a == b
  {
    if a != "" && b != "" && a[0] == b[0] {
      LessEqTotal(a[1..], b[1..]);
      assert a == [a[0]] + a[1..] && b == [b[0]] + b[1..];
    }
  }

  lemma {:induction false} LessEqTransitive(a: string, b: string, c: string)
    requires LessEq(a, b) && LessEq(b, c)
    ensures LessEq(a, c)
  {
    if a != "" && a[0] == b[0] == c[0] {
      LessEqTransitive(a[1..], b[1..], c[1..]);
    }
  }
}
