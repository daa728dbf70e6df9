/**
 The scanner behind `check-ids` (liana-i18n-toolbox/src/main.rs): it finds the
 string literals of a Rust source, skipping comments and raw strings, and says
 which of them are the first argument of a `t!` call.
 */
module RustLexer {
  import opened Wrappers
  import opened Text
  import opened Catalog

  /** `text[start..end]` is the literal's content, `line` the line of its opening quote. */
  datatype Literal = Literal(start: nat, end: nat, line: nat, inTMacro: bool)

  predicate StartsAt(text: string, index: nat, pattern: string) {
    index <= |text| && pattern <= text[index..]
  }

  function Newlines(s: string): nat {
    if s == "" then 0 else Newlines(s[..|s| - 1]) + if s[|s| - 1] == '\n' then 1 else 0
  }

  lemma {:induction false} NewlinesConcat(a: string, b: string)
    ensures Newlines(a + b) == Newlines(a) + Newlines(b)
  {
    if b == "" {
      assert a + b == a;
    } else {
      assert (a + b)[..|a + b| - 1] == a + b[..|b| - 1];
      NewlinesConcat(a, b[..|b| - 1]);
    }
  }

  /** The line feeds of a prefix are those of a shorter prefix and of the piece between. */
  lemma NewlinesUpTo(text: string, i: nat, j: nat)
    requires i <= j <= |text|
    ensures Newlines(text[..j]) == Newlines(text[..i]) + Newlines(text[i..j])
  {
    assert text[..j] == text[..i] + text[i..j];
    NewlinesConcat(text[..i], text[i..j]);
  }

  lemma NewlinesOfEmpty()
    ensures Newlines("") == 0
  {
  }

  lemma NewlinesNext(text: string, i: nat)
    requires i < |text|
    ensures Newlines(text[..i + 1]) == Newlines(text[..i]) + if text[i] == '\n' then 1 else 0
  {
    assert text[..i + 1][..i] == text[..i];
  }

  // ----- block comments -----

  /** The next position the comment scanner looks at: it takes delimiters whole. */
  function CommentStep(s: string, index: nat): (next: nat)
    requires index < |s|
    ensures index < next <= |s|
  {
    if StartsAt(s, index, "/*") || StartsAt(s, index, "*/") then index + 2 else index + 1
  }

  /** What one step does to the nesting depth. */
  function DepthChange(s: string, index: nat): int {
    if StartsAt(s, index, "/*") then 1 else if StartsAt(s, index, "*/") then -1 else 0
  }

  /** Where the scanner stops when it is at `index`, `depth` comments deep. */
  function CommentEnd(s: string, index: nat, depth: int): (end: nat)
    requires index <= |s|
    ensures index <= end <= |s|
    decreases |s| - index
  {
    if index == |s| then index
    else
      var next := CommentStep(s, index);
      var deeper := depth + DepthChange(s, index);
      if StartsAt(s, index, "*/") && deeper == 0 then next else CommentEnd(s, next, deeper)
  }

  method SkipBlockComment(s: string) returns (skipped: nat, newlines: nat)
    ensures skipped == CommentEnd(s, 0, 0) && newlines == Newlines(s[..skipped])
  {
    hide Newlines, CommentEnd;
    NewlinesOfEmpty();
    CommentEndAtEnd(s, 0);
    var depth, index := 0, 0;
    newlines := 0;
    while index < |s|
      invariant index <= |s| && newlines == Newlines(s[..index])
      invariant CommentEnd(s, 0, 0) == CommentEnd(s, index, depth)
    {
      NewlinesNext(s, index);
      CommentEndNext(s, index, depth);
      if StartsAt(s, index, "/*") {
        TwoChars(s, index, "/*");
        NewlinesNext(s, index + 1);
        depth := depth + 1;
        index := index + 2;
      } else if StartsAt(s, index, "*/") {
        TwoChars(s, index, "*/");
        NewlinesNext(s, index + 1);
        depth := depth - 1;
        index := index + 2;
        if depth == 0 {
          break;
        }
      } else {
        if s[index] == '\n' {
          newlines := newlines + 1;
        }
        index := index + 1;
      }
      CommentEndAtEnd(s, depth);
    }
    return index, newlines;
  }

  lemma CommentEndNext(s: string, index: nat, depth: int)
    requires index < |s|
    ensures CommentEnd(s, index, depth)
         == if StartsAt(s, index, "*/") && depth + DepthChange(s, index) == 0 then CommentStep(s, index)
            else CommentEnd(s, CommentStep(s, index), depth + DepthChange(s, index))
  {
    hide StartsAt;
  }

  lemma CommentEndAtEnd(s: string, depth: int)
    ensures CommentEnd(s, |s|, depth) == |s|
  {
  }

  lemma TwoChars(s: string, index: nat, pattern: string)
    requires |pattern| == 2 && StartsAt(s, index, pattern)
    ensures index + 1 < |s| && s[index] == pattern[0] && s[index + 1] == pattern[1]
  {
    assert s[index..][0] == pattern[0] && s[index..][1] == pattern[1];
  }

  /** The positions the comment scanner visits, from the front of the text. */
  ghost predicate IsWalk(s: string, walk: seq<nat>) {
    walk != [] && walk[0] == 0
    && forall k :: 0 <= k < |walk| - 1 ==> walk[k] < |s| && walk[k + 1] == CommentStep(s, walk[k])
  }

  /** The nesting depth before step `k` of a walk. */
  ghost function DepthAt(s: string, walk: seq<nat>, k: nat): int
    requires k < |walk|
  {
    if k == 0 then 0 else DepthAt(s, walk, k - 1) + DepthChange(s, walk[k - 1])
  }

  lemma {:induction false} DepthOfPrefix(s: string, walk: seq<nat>, next: nat, k: nat)
    requires k < |walk|
    ensures DepthAt(s, walk + [next], k) == DepthAt(s, walk, k)
  {
    if k > 0 {
      DepthOfPrefix(s, walk, next, k - 1);
    }
  }

  lemma {:induction false} CommentWalk(s: string, walk: seq<nat>, depth: int) returns (whole: seq<nat>)
    requires IsWalk(s, walk) && walk[|walk| - 1] <= |s|
    requires depth == DepthAt(s, walk, |walk| - 1)
    requires |walk| > 1 ==> forall k :: 0 < k < |walk| ==> DepthAt(s, walk, k) > 0
    requires |walk| == 1 ==> s != "" && StartsAt(s, 0, "/*")
    ensures IsWalk(s, whole) && |whole| > 1
    ensures whole[|whole| - 1] == CommentEnd(s, walk[|walk| - 1], depth)
    ensures forall k :: 0 < k < |whole| - 1 ==> DepthAt(s, whole, k) > 0
    ensures DepthAt(s, whole, |whole| - 1) == 0
            || (whole[|whole| - 1] == |s| && DepthAt(s, whole, |whole| - 1) > 0)
    decreases |s| - walk[|walk| - 1]
  {
    hide StartsAt;
    var last, index := |walk| - 1, walk[|walk| - 1];
    if index == |s| {
      whole := walk;
    } else {
      var next := CommentStep(s, index);
      whole := walk + [next];
      forall k | 0 <= k <= last ensures DepthAt(s, whole, k) == DepthAt(s, walk, k) {
        DepthOfPrefix(s, walk, next, k);
      }
      var deeper := depth + DepthChange(s, index);
      assert DepthAt(s, whole, last + 1) == deeper;
      if !(StartsAt(s, index, "*/") && deeper == 0) {
        whole := CommentWalk(s, whole, deeper);
      }
    }
  }

  /**
   A block comment ends at the first place where its nesting depth returns to zero, and
   swallows the whole text when there is none; the depth is never negative on the way.
   */
  lemma BlockCommentLaw(s: string) returns (walk: seq<nat>)
    requires "/*" <= s
    ensures IsWalk(s, walk) && |walk| > 1 && walk[|walk| - 1] == CommentEnd(s, 0, 0)
    ensures forall k :: 0 < k < |walk| - 1 ==> DepthAt(s, walk, k) > 0
    ensures DepthAt(s, walk, |walk| - 1) == 0
            || (walk[|walk| - 1] == |s| && DepthAt(s, walk, |walk| - 1) > 0)
  {
    assert s[0..] == s;
    walk := CommentWalk(s, [0], 0);
  }

  // ----- raw strings -----

  function CountHashes(s: string): (n: nat)
    ensures n <= |s| && forall i :: 0 <= i < n ==> s[i] == '#'
    ensures n < |s| ==> s[n] != '#'
  {
    if s != "" && s[0] == '#' then 1 + CountHashes(s[1..]) else 0
  }

  /** How many `#` stand between the `r` and the quote, if the text starts with a raw string. */
  function RawStringHashes(s: string): (r: Option<nat>)
    ensures r.Some? ==> 2 + r.value <= |s| && s[0] == 'r' && s[1 + r.value] == '"'
                        && forall i :: 1 <= i <= r.value ==> s[i] == '#'
  {
    if s == "" || s[0] != 'r' then None
    else
      var hashes := CountHashes(s[1..]);
      if 1 + hashes < |s| && s[1 + hashes] == '"' then Some(hashes) else None
  }

  function Hashes(n: nat): (s: string)
    ensures |s| == n && forall i :: 0 <= i < n ==> s[i] == '#'
  {
    if n == 0 then "" else "#" + Hashes(n - 1)
  }

  function Terminator(hashes: nat): string {
    "\"" + Hashes(hashes)
  }

  /** The position right after the first terminator at or after `index`, or the end of the text. */
  function RawEnd(s: string, index: nat, hashes: nat): (end: nat)
    requires index <= |s|
    ensures index <= end <= |s|
    decreases |s| - index
  {
    if index == |s| then |s|
    else if StartsAt(s, index, Terminator(hashes)) then index + 1 + hashes
    else RawEnd(s, index + 1, hashes)
  }

  /** A raw string ends with the first terminator, and swallows the text when there is none. */
  lemma {:induction false} RawEndLaw(s: string, index: nat, hashes: nat)
    requires index <= |s|
    ensures var end := RawEnd(s, index, hashes);
            (end == |s| && forall i :: index <= i < |s| ==> !StartsAt(s, i, Terminator(hashes)))
            || (index + 1 + hashes <= end && StartsAt(s, end - 1 - hashes, Terminator(hashes))
                && forall i :: index <= i < end - 1 - hashes ==> !StartsAt(s, i, Terminator(hashes)))
    decreases |s| - index
  {
    if index < |s| && !StartsAt(s, index, Terminator(hashes)) {
      RawEndLaw(s, index + 1, hashes);
    }
  }

  lemma {:induction false} NoNewlines(s: string)
    requires '\n' !in s
    ensures Newlines(s) == 0
  {
    if s != "" {
      assert s[|s| - 1] in s;
      NoNewlines(s[..|s| - 1]);
    }
  }

  method SkipRawString(s: string, hashes: nat) returns (skipped: nat, newlines: nat)
    requires RawStringHashes(s) == Some(hashes)
    ensures skipped == RawEnd(s, 2 + hashes, hashes) && newlines == Newlines(s[..skipped])
  {
    hide Newlines, RawStringHashes;
    var terminator := Terminator(hashes);
    newlines := 0;
    var index := 2 + hashes;
    NoNewlines(s[..index]);
    while index < |s|
      invariant 2 + hashes <= index <= |s| && newlines == Newlines(s[..index])
      invariant RawEnd(s, 2 + hashes, hashes) == RawEnd(s, index, hashes)
    {
      if StartsAt(s, index, terminator) {
        assert s[index..index + |terminator|] == terminator;
        NoNewlines(terminator);
        NewlinesUpTo(s, index, index + |terminator|);
        return index + |terminator|, newlines;
      }
      NewlinesNext(s, index);
      if s[index] == '\n' {
        newlines := newlines + 1;
      }
      index := index + 1;
    }
    return |s|, newlines;
  }

  // ----- string literals -----

  /** The closing quote of a literal, the end of the text, or one past it after a last backslash. */
  function StringEnd(text: string, index: nat): (end: nat)
    requires index <= |text| + 1
    ensures index <= end <= |text| + 1
    ensures end < |text| ==> text[end] == '"'
    decreases |text| + 1 - index
  {
    if index >= |text| || text[index] == '"' then index
    else StringEnd(text, if text[index] == '\\' then index + 2 else index + 1)
  }

  /** Whether position `i` is escaped in a literal whose content starts at `start`. */
  predicate EscapedIn(text: string, start: nat, i: nat)
    requires start <= i <= |text|
    decreases i
  {
    i > start && text[i - 1] == '\\' && !EscapedIn(text, start, i - 1)
  }

  /** A literal ends at its first quote that no backslash escapes. */
  lemma {:induction false} StringEndLaw(text: string, start: nat, index: nat)
    requires start <= index <= |text| && !EscapedIn(text, start, index)
    requires forall i :: start <= i < index && text[i] == '"' ==> EscapedIn(text, start, i)
    ensures var end := StringEnd(text, index);
            (forall i :: start <= i < end && i < |text| && text[i] == '"' ==> EscapedIn(text, start, i))
            && (end <= |text| ==> !EscapedIn(text, start, end))
            && (end == |text| + 1 ==> EscapedIn(text, start, |text|))
    decreases |text| - index
  {
    if index < |text| && text[index] != '"' {
      if text[index] != '\\' {
        StringEndLaw(text, start, index + 1);
      } else if index + 2 <= |text| {
        assert EscapedIn(text, start, index + 1);
        StringEndLaw(text, start, index + 2);
      }
    }
  }

  // ----- the `t!` macro -----

  /** Up to the blanks, a literal comes right after the opening of a `t!` call. */
  predicate OpensTMacro(before: string, isAlphanumeric: char -> bool) {
    var open := TrimEnd(before);
    EndsWith(open, "(")
    && var call := TrimEnd(open[..|open| - 1]);
       EndsWith(call, "t!")
       && var head := call[..|call| - 2];
          !(head != "" && (isAlphanumeric(head[|head| - 1]) || head[|head| - 1] == '_'))
  }

  // ----- tokens -----

  datatype Kind = LineComment | BlockComment | RawString | Quoted | Other

  datatype Token = Token(kind: Kind, start: nat, end: nat)

  function LineEnd(text: string, index: nat): (end: nat)
    requires index <= |text|
    ensures index <= end <= |text| && (end < |text| ==> text[end] == '\n')
    ensures forall i :: index <= i < end ==> text[i] != '\n'
    decreases |text| - index
  {
    if index == |text| || text[index] == '\n' then index else LineEnd(text, index + 1)
  }

  /** The token at `index`: which kind starts there, and where it stops. */
  function TokenAt(text: string, index: nat): (t: Token)
    requires index < |text|
    ensures t.start == index < t.end <= |text|
  {
    var rest := text[index..];
    if "//" <= rest then Token(LineComment, index, LineEnd(text, index + 1))
    else if "/*" <= rest then
      assert CommentEnd(rest, 0, 0) >= 2 by {
        assert rest[0..] == rest;
      }
      Token(BlockComment, index, index + CommentEnd(rest, 0, 0))
    else if RawStringHashes(rest).Some? then
      var hashes := RawStringHashes(rest).value;
      Token(RawString, index, index + RawEnd(rest, 2 + hashes, hashes))
    else if text[index] == '"' then
      var end := StringEnd(text, index + 1);
      Token(Quoted, index, if end < |text| then end + 1 else |text|)
    else Token(Other, index, index + 1)
  }

  /** The tokens of a text, from `index` on. */
  function Tokens(text: string, index: nat): seq<Token>
    requires index <= |text|
    decreases |text| - index
  {
    if index == |text| then [] else [TokenAt(text, index)] + Tokens(text, TokenAt(text, index).end)
  }

  /** What is reported for a token: a quoted one that does not stop at a dangling backslash. */
  function Reported(text: string, t: Token, isAlphanumeric: char -> bool): seq<Literal>
    requires t.start < |text|
  {
    if t.kind.Quoted? && StringEnd(text, t.start + 1) <= |text| then
      [Literal(t.start + 1, StringEnd(text, t.start + 1), 1 + Newlines(text[..t.start]),
               OpensTMacro(text[..t.start], isAlphanumeric))]
    else []
  }

  /** The literals of a text, from `index` on. */
  function Literals(text: string, index: nat, isAlphanumeric: char -> bool): seq<Literal>
    requires index <= |text|
    decreases |text| - index
  {
    if index == |text| then []
    else
      var t := TokenAt(text, index);
      Reported(text, t, isAlphanumeric) + Literals(text, t.end, isAlphanumeric)
  }

  lemma SplitAtIndex(text: string, index: nat, skipped: nat)
    requires index <= |text| && skipped <= |text| - index
    ensures Newlines(text[..index + skipped]) == Newlines(text[..index]) + Newlines(text[index..][..skipped])
  {
    NewlinesUpTo(text, index, index + skipped);
    assert text[index..][..skipped] == text[index..index + skipped];
  }

  method ScanString(text: string, start: nat) returns (end: nat)
    requires start <= |text|
    ensures end == StringEnd(text, start)
  {
    end := start;
    while end < |text| && text[end] != '"'
      invariant start <= end <= |text| + 1
      invariant StringEnd(text, start) == StringEnd(text, end)
      decreases |text| + 1 - end
    {
      end := end + if text[end] == '\\' then 2 else 1;
    }
  }

  /** One step over anything but a string literal. */
  method SkipToken(text: string, index: nat, line: nat) returns (next: nat, nextLine: nat)
    requires index < |text| && text[index] != '"' && line == 1 + Newlines(text[..index])
    ensures !TokenAt(text, index).kind.Quoted?
    ensures next == TokenAt(text, index).end && nextLine == 1 + Newlines(text[..next])
  {
    hide RawStringHashes, CommentEnd, RawEnd, Newlines, StringEnd, LineEnd, TokenAt;
    TokenAtCases(text, index);
    var rest := text[index..];
    if "//" <= rest {
      LineCommentHasNoNewline(text, index);
      return LineEnd(text, index + 1), line;
    } else if "/*" <= rest {
      var skipped, newlines := SkipBlockComment(rest);
      SplitAtIndex(text, index, skipped);
      return index + skipped, line + newlines;
    } else if RawStringHashes(rest).Some? {
      var skipped, newlines := SkipRawString(rest, RawStringHashes(rest).value);
      SplitAtIndex(text, index, skipped);
      return index + skipped, line + newlines;
    } else {
      NewlinesNext(text, index);
      return index + 1, if text[index] == '\n' then line + 1 else line;
    }
  }

  lemma QuotedTokenAt(text: string, index: nat)
    requires index < |text| && text[index] == '"'
    ensures var end := StringEnd(text, index + 1);
            TokenAt(text, index) == Token(Quoted, index, if end < |text| then end + 1 else |text|)
  {
    TokenAtCases(text, index);
    assert text[index..][0] == '"';
  }

  /** What the rest of the scan adds once `index` is reached. */
  function Rest(text: string, index: nat, isAlphanumeric: char -> bool): seq<Literal> {
    if index <= |text| then Literals(text, index, isAlphanumeric) else []
  }

  lemma RestAfterSkipped(text: string, index: nat, isAlphanumeric: char -> bool)
    requires index < |text| && !TokenAt(text, index).kind.Quoted?
    ensures Rest(text, index, isAlphanumeric) == Rest(text, TokenAt(text, index).end, isAlphanumeric)
  {
    hide TokenAt;
    ReportedCases(text, index, isAlphanumeric);
    LiteralsStep(text, index, isAlphanumeric);
  }

  lemma RestAfterQuoted(text: string, index: nat, isAlphanumeric: char -> bool)
    requires index < |text| && text[index] == '"'
    ensures var end := StringEnd(text, index + 1);
            Rest(text, index, isAlphanumeric) ==
              if end > |text| then []
              else [Literal(index + 1, end, 1 + Newlines(text[..index]), OpensTMacro(text[..index], isAlphanumeric))]
                   + Rest(text, end + 1, isAlphanumeric)
  {
    QuotedTokenAt(text, index);
    ReportedCases(text, index, isAlphanumeric);
    LiteralsStep(text, index, isAlphanumeric);
    LiteralsAtEnd(text, isAlphanumeric);
    hide TokenAt, Literals, StringEnd, Newlines, OpensTMacro, Reported;
  }

  /** The scanner: one pass that keeps the line number as it goes. */
  method StringLiterals(text: string, isAlphanumeric: char -> bool) returns (literals: seq<Literal>)
    ensures literals == Literals(text, 0, isAlphanumeric)
  {
    hide Literals, OpensTMacro, Newlines, StringEnd, TokenAt, Rest;
    literals := [];
    var line, index := 1, 0;
    RestStarts(text, isAlphanumeric);
    while index < |text|
      invariant index <= |text| + 1
      invariant index <= |text| ==> line == 1 + Newlines(text[..index])
      invariant Literals(text, 0, isAlphanumeric) == literals + Rest(text, index, isAlphanumeric)
      decreases |text| + 1 - index
    {
      if text[index] == '"' {
        RestAfterQuoted(text, index, isAlphanumeric);
        var end := ScanString(text, index + 1);
        if end > |text| {
          return;
        }
        literals := literals + [Literal(index + 1, end, line, OpensTMacro(text[..index], isAlphanumeric))];
        QuotedNewlines(text, index, end);
        line := line + Newlines(text[index + 1..end]);
        index := end + 1;
      } else {
        ghost var before := index;
        index, line := SkipToken(text, index, line);
        RestAfterSkipped(text, before, isAlphanumeric);
      }
    }
    RestEnds(text, index, isAlphanumeric);
  }

  lemma RestStarts(text: string, isAlphanumeric: char -> bool)
    ensures [] + Rest(text, 0, isAlphanumeric) == Literals(text, 0, isAlphanumeric)
    ensures Newlines(text[..0]) == 0
  {
  }

  lemma RestEnds(text: string, index: nat, isAlphanumeric: char -> bool)
    requires index >= |text|
    ensures Rest(text, index, isAlphanumeric) == []
  {
  }

  lemma LiteralsStep(text: string, index: nat, isAlphanumeric: char -> bool)
    requires index < |text|
    ensures var t := TokenAt(text, index);
            Literals(text, index, isAlphanumeric)
            == Reported(text, t, isAlphanumeric) + Literals(text, t.end, isAlphanumeric)
  {
    hide TokenAt, Reported;
  }

  lemma LiteralsAtEnd(text: string, isAlphanumeric: char -> bool)
    ensures Literals(text, |text|, isAlphanumeric) == []
  {
  }

  lemma LineCommentHasNoNewline(text: string, index: nat)
    requires index < |text| && "//" <= text[index..]
    ensures Newlines(text[..LineEnd(text, index + 1)]) == Newlines(text[..index])
  {
    var end := LineEnd(text, index + 1);
    assert text[index] == text[index..][0];
    NewlinesUpTo(text, index, end);
    assert '\n' !in text[index..end];
    NoNewlines(text[index..end]);
  }

  lemma QuotedNewlines(text: string, index: nat, end: nat)
    requires index < |text| && text[index] == '"' && index + 1 <= end <= |text| && (end < |text| ==> text[end] == '"')
    ensures end < |text| ==> Newlines(text[..end + 1]) == Newlines(text[..index]) + Newlines(text[index + 1..end])
  {
    NewlinesNext(text, index);
    NewlinesUpTo(text, index + 1, end);
    if end < |text| {
      NewlinesNext(text, end);
    }
  }

  lemma TokenAtCases(text: string, index: nat)
    requires index < |text|
    ensures var rest, t := text[index..], TokenAt(text, index);
            t == if "//" <= rest then Token(LineComment, index, LineEnd(text, index + 1))
                 else if "/*" <= rest then Token(BlockComment, index, index + CommentEnd(rest, 0, 0))
                 else if RawStringHashes(rest).Some? then
                   Token(RawString, index,
                         index + RawEnd(rest, 2 + RawStringHashes(rest).value, RawStringHashes(rest).value))
                 else if text[index] == '"' then
                   Token(Quoted, index,
                         if StringEnd(text, index + 1) < |text| then StringEnd(text, index + 1) + 1 else |text|)
                 else Token(Other, index, index + 1)
  {
  }

  lemma ReportedCases(text: string, index: nat, isAlphanumeric: char -> bool)
    requires index < |text|
    ensures var t := TokenAt(text, index);
            Reported(text, t, isAlphanumeric)
            == if t.kind.Quoted? && StringEnd(text, index + 1) <= |text| then
                 [Literal(index + 1, StringEnd(text, index + 1), 1 + Newlines(text[..index]),
                          OpensTMacro(text[..index], isAlphanumeric))]
               else []
  {
    hide TokenAt, StringEnd, Newlines, OpensTMacro;
  }

  // ----- what the literals are -----

  /** Tokens follow one another without gap or overlap, from `index` to the end of the text. */
  predicate Tiles(text: string, tokens: seq<Token>, index: nat)
    requires index <= |text|
    decreases |tokens|
  {
    if tokens == [] then index == |text|
    else tokens[0].start == index && index < tokens[0].end <= |text| && Tiles(text, tokens[1..], tokens[0].end)
  }

  lemma {:induction false} TokensTile(text: string, index: nat)
    requires index <= |text|
    ensures Tiles(text, Tokens(text, index), index)
    decreases |text| - index
  {
    if index < |text| {
      TokensTile(text, TokenAt(text, index).end);
    }
  }

  /** A literal as the source promises it. */
  ghost predicate GoodLiteral(text: string, l: Literal, isAlphanumeric: char -> bool) {
    1 <= l.start <= l.end <= |text|
    && text[l.start - 1] == '"'
    && (l.end < |text| ==> text[l.end] == '"')
    && (forall i :: l.start <= i < l.end && text[i] == '"' ==> EscapedIn(text, l.start, i))
    && !EscapedIn(text, l.start, l.end)
    && l.line == 1 + Newlines(text[..l.start - 1])
    && l.inTMacro == OpensTMacro(text[..l.start - 1], isAlphanumeric)
  }

  lemma ReportedLaw(text: string, index: nat, isAlphanumeric: char -> bool)
    requires index < |text|
    ensures var t := TokenAt(text, index); var r := Reported(text, t, isAlphanumeric);
            |r| <= 1 && (|r| == 1 ==> GoodLiteral(text, r[0], isAlphanumeric) && r[0].start == index + 1
                                      && (r[0].end + 1 == t.end || t.end == |text|))
  {
    TokenAtCases(text, index);
    ReportedCases(text, index, isAlphanumeric);
    hide TokenAt, Reported, OpensTMacro, Newlines, RawStringHashes, CommentEnd;
    if TokenAt(text, index).kind.Quoted? {
      StringEndLaw(text, index + 1, index + 1);
    }
  }

  /** Good literals, each after `index`, each ending before the next one's opening quote. */
  ghost predicate GoodLiterals(text: string, ls: seq<Literal>, index: nat, isAlphanumeric: char -> bool) {
    (forall k :: 0 <= k < |ls| ==> GoodLiteral(text, ls[k], isAlphanumeric) && index < ls[k].start)
    && forall j, k :: 0 <= j < k < |ls| ==> ls[j].end + 1 < ls[k].start
  }

  lemma GoodLiteralsPrepend(text: string, l: Literal, ls: seq<Literal>, index: nat, next: nat,
                            isAlphanumeric: char -> bool)
    requires GoodLiterals(text, ls, next, isAlphanumeric) && GoodLiteral(text, l, isAlphanumeric)
    requires index < l.start && index < next && (l.end + 1 <= next || ls == [])
    ensures GoodLiterals(text, [l] + ls, index, isAlphanumeric)
  {
    hide GoodLiteral;
  }

  /**
   On every text, each reported literal is in bounds, starts after a quote, ends at its
   first unescaped quote (or with the text), carries the line of its opening quote, and
   ends before the next one's opening quote.
   */
  lemma {:induction false} LiteralsLaw(text: string, index: nat, isAlphanumeric: char -> bool)
    requires index <= |text|
    ensures GoodLiterals(text, Literals(text, index, isAlphanumeric), index, isAlphanumeric)
    decreases |text| - index
  {
    hide TokenAt, GoodLiteral, Reported;
    if index < |text| {
      var t := TokenAt(text, index);
      LiteralsLaw(text, t.end, isAlphanumeric);
      ReportedLaw(text, index, isAlphanumeric);
      LiteralsAtEnd(text, isAlphanumeric);
      var head, tail := Reported(text, t, isAlphanumeric), Literals(text, t.end, isAlphanumeric);
      assert Literals(text, index, isAlphanumeric) == head + tail;
      if head == [] {
        assert head + tail == tail;
      } else {
        assert head == [head[0]];
        GoodLiteralsPrepend(text, head[0], tail, index, t.end, isAlphanumeric);
      }
    }
  }

  /** The literals are those of the quoted tokens: nothing inside a comment or raw string is reported. */
  function ReportedOf(text: string, tokens: seq<Token>, isAlphanumeric: char -> bool): seq<Literal>
    requires forall t :: t in tokens ==> t.start < |text|
  {
    if tokens == [] then []
    else Reported(text, tokens[0], isAlphanumeric) + ReportedOf(text, tokens[1..], isAlphanumeric)
  }

  lemma {:induction false} LiteralsAreQuotedTokens(text: string, index: nat, isAlphanumeric: char -> bool)
    requires index <= |text|
    ensures forall t :: t in Tokens(text, index) ==> t.start < |text| && t == TokenAt(text, t.start)
    ensures Literals(text, index, isAlphanumeric) == ReportedOf(text, Tokens(text, index), isAlphanumeric)
    decreases |text| - index
  {
    if index < |text| {
      LiteralsAreQuotedTokens(text, TokenAt(text, index).end, isAlphanumeric);
    }
  }

  // ----- check-ids -----

  /** The content of a literal. */
  function Content(text: string, l: Literal): string {
    if l.start <= l.end <= |text| then text[l.start..l.end] else ""
  }

  /** The texts the literals of a source spell. */
  function Spelled(text: string, ls: seq<Literal>): set<string> {
    set l | l in ls :: Content(text, l)
  }

  /** Some literal of the sources spells `id`. */
  predicate Referenced(sources: seq<string>, id: string, isAlphanumeric: char -> bool) {
    exists k :: 0 <= k < |sources| && id in Spelled(sources[k], Literals(sources[k], 0, isAlphanumeric))
  }

  predicate KnownCall(text: string, l: Literal, ids: set<string>) {
    l.inTMacro ==> ValidId(Content(text, l)) && Content(text, l) in ids
  }

  /** Every identifier a source passes to `t!` is valid and in the catalog. */
  predicate CallsKnown(text: string, ids: set<string>, isAlphanumeric: char -> bool) {
    forall l :: l in Literals(text, 0, isAlphanumeric) ==> KnownCall(text, l, ids)
  }

  /** `check-ids`: calls and catalog agree, over all the sources. */
  method CheckIds(catalog: Catalog, sources: seq<string>, isAlphanumeric: char -> bool) returns (passed: bool)
    ensures passed <==>
            (forall k :: 0 <= k < |sources| ==> CallsKnown(sources[k], Ids(catalog.entries), isAlphanumeric))
            && forall id :: id in Ids(catalog.entries) ==> Referenced(sources, id, isAlphanumeric)
  {
    hide Literals, CallsKnown, Spelled, Ids;
    var ids, referenced := Ids(catalog.entries), {};
    passed := true;
    for k := 0 to |sources|
      invariant passed <==> forall j :: 0 <= j < k ==> CallsKnown(sources[j], ids, isAlphanumeric)
      invariant forall id :: id in referenced <==>
                  exists j :: 0 <= j < k && id in Spelled(sources[j], Literals(sources[j], 0, isAlphanumeric))
    {
      var literals := StringLiterals(sources[k], isAlphanumeric);
      var known := CheckCalls(sources[k], literals, ids, isAlphanumeric);
      passed := passed && known;
      referenced := referenced + Spelled(sources[k], literals);
    }
    passed := passed && ids <= referenced;
  }

  method CheckCalls(text: string, literals: seq<Literal>, ids: set<string>, isAlphanumeric: char -> bool)
    returns (known: bool)
    requires literals == Literals(text, 0, isAlphanumeric)
    ensures known <==> CallsKnown(text, ids, isAlphanumeric)
  {
    hide Literals;
    known := true;
    for i := 0 to |literals|
      invariant known <==> forall l :: l in literals[..i] ==> KnownCall(text, l, ids)
    {
      assert literals[..i + 1] == literals[..i] + [literals[i]];
      known := known && KnownCall(text, literals[i], ids);
    }
    assert literals[..|literals|] == literals;
  }
}
