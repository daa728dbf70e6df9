/**
 What the scanner of `check-ids` (liana-i18n-toolbox/src/main.rs, `string_literals`) makes of
 Rust sources. Besides comments and strings, Rust has words, in which no string begins, and
 character literals, which may hold a quote (The Rust Reference, sections "Identifiers" and
 "Character literals"). The scanner knows neither.
 */
module RustTokens {
  import opened Wrappers
  import opened RustLexer

  // ----- Rust's own tokens -----

  /** The characters of identifiers, keywords and numbers. */
  predicate LegalWords(inWord: char -> bool) {
    inWord('r') && inWord('b') && inWord('c') && !inWord('"') && !inWord('#') && !inWord('/') && !inWord('\'')
  }

  function WordEnd(text: string, index: nat, inWord: char -> bool): (end: nat)
    requires index <= |text|
    ensures index <= end <= |text| && forall i :: index <= i < end ==> inWord(text[i])
    ensures end < |text| ==> !inWord(text[end])
    decreases |text| - index
  {
    if index == |text| || !inWord(text[index]) then index else WordEnd(text, index + 1, inWord)
  }

  predicate IsHex(c: char) {
    '0' <= c <= '9' || 'a' <= c <= 'f' || 'A' <= c <= 'F' || c == '_'
  }

  function HexEnd(text: string, index: nat): (end: nat)
    requires index <= |text|
    ensures index <= end <= |text| && forall i :: index <= i < end ==> IsHex(text[i])
    decreases |text| - index
  {
    if index == |text| || !IsHex(text[index]) then index else HexEnd(text, index + 1)
  }

  /** The end of an escape whose backslash is at `index`: one character, two hex digits, or hex digits in braces. */
  function EscapeEnd(text: string, index: nat): (r: Option<nat>)
    requires index < |text|
    ensures r.Some? ==> index + 2 <= r.value <= |text|
  {
    if index + 1 == |text| then None
    else if text[index + 1] in "nrt\\0'\"" then Some(index + 2)
    else if text[index + 1] == 'x' then
      if index + 3 < |text| && IsHex(text[index + 2]) && IsHex(text[index + 3]) then Some(index + 4) else None
    else if text[index + 1] == 'u' && index + 2 < |text| && text[index + 2] == '{' then
      var end := HexEnd(text, index + 3);
      if end < |text| && text[end] == '}' then Some(end + 1) else None
    else None
  }

  /** Where a character literal that starts at `index` ends; a lifetime is none. */
  function CharacterEnd(text: string, index: nat): (r: Option<nat>)
    requires index < |text|
    ensures r.Some? ==> index + 3 <= r.value <= |text| && text[index] == text[r.value - 1] == '\''
  {
    if text[index] != '\'' || index + 1 == |text| || text[index + 1] in "'\n\r\t" then None
    else
      var end := if text[index + 1] == '\\' then EscapeEnd(text, index + 1) else Some(index + 2);
      if end.Some? && end.value < |text| && text[end.value] == '\'' then Some(end.value + 1) else None
  }

  /** Comments, strings and single other characters as the scanner sees them, and what it does not see. */
  datatype RustToken = Plain(token: Token) | Character(start: nat, end: nat) | Word(start: nat, end: nat)

  function EndOf(t: RustToken): nat {
    match t
    case Plain(token) => token.end
    case Character(_, end) => end
    case Word(_, end) => end
  }

  /** A word is taken whole; of the word before a raw byte or C string only its prefix letter is one. */
  function RustTokenAt(text: string, index: nat, inWord: char -> bool): (t: RustToken)
    requires index < |text|
    ensures index < EndOf(t) <= |text| && (t.Character? ==> t.start == index)
  {
    if !TokenAt(text, index).kind.Other? then Plain(TokenAt(text, index))
    else if CharacterEnd(text, index).Some? then Character(index, CharacterEnd(text, index).value)
    else if inWord(text[index]) then
      var end := WordEnd(text, index, inWord);
      if text[index] in "bc" && end == index + 2 && RawStringHashes(text[index + 1..]).Some? then Word(index, index + 1)
      else Word(index, end)
    else Plain(Token(Other, index, index + 1))
  }

  function LiteralsOf(text: string, t: RustToken, isAlphanumeric: char -> bool): seq<Literal>
    requires t.Plain? ==> t.token.start < |text|
  {
    if t.Plain? then Reported(text, t.token, isAlphanumeric) else []
  }

  /** The string literals of a text by Rust's rules, from `index` on. */
  function RustLiterals(text: string, index: nat, inWord: char -> bool, isAlphanumeric: char -> bool): seq<Literal>
    requires index <= |text|
    decreases |text| - index
  {
    if index == |text| then []
    else
      var t := RustTokenAt(text, index, inWord);
      LiteralsOf(text, t, isAlphanumeric) + RustLiterals(text, EndOf(t), inWord, isAlphanumeric)
  }

  // ----- what the scanner misreads -----

  /** A character literal that holds a quote, or a word that runs into what looks like a raw string. */
  predicate Misread(text: string, t: RustToken)
    requires EndOf(t) <= |text| && (t.Word? ==> t.end > 0) && (t.Character? ==> t.start <= t.end)
  {
    match t
    case Plain(_) => false
    case Character(start, end) => '"' in text[start..end]
    case Word(_, end) => RawStringHashes(text[end - 1..]).Some?
  }

  predicate NoneMisread(text: string, index: nat, inWord: char -> bool)
    requires index <= |text|
    decreases |text| - index
  {
    index == |text|
    || (!Misread(text, RustTokenAt(text, index, inWord))
        && NoneMisread(text, EndOf(RustTokenAt(text, index, inWord)), inWord))
  }

  predicate EndsInBackslash(text: string) {
    text != "" && text[|text| - 1] == '\\'
  }

  // ----- steps of both -----

  /** Where neither a comment nor a string starts the scanner moves on by one character. */
  lemma OtherAt(text: string, i: nat)
    requires i < |text| && text[i] != '"' && RawStringHashes(text[i..]).None?
    requires text[i] == '/' ==> i + 1 < |text| && text[i + 1] == '\''
    ensures TokenAt(text, i) == Token(Other, i, i + 1)
  {
    TokenAtCases(text, i);
    var rest := text[i..];
    assert |rest| > 1 ==> rest[1] == text[i + 1];
    hide RawStringHashes, CommentEnd;
  }

  lemma NoRawString(text: string, i: nat)
    requires i < |text|
    requires text[i] != 'r' || (i + 1 < |text| && text[i + 1] != '#' && text[i + 1] != '"')
    ensures RawStringHashes(text[i..]).None?
  {
    var rest := text[i..];
    assert text[i] == 'r' ==> rest[1..][0] == text[i + 1];
  }

  ghost predicate OthersFrom(text: string, i: nat, j: nat)
    requires j <= |text|
  {
    forall k :: i <= k < j ==> TokenAt(text, k) == Token(Other, k, k + 1)
  }

  lemma {:induction false} SkipOthers(text: string, i: nat, j: nat, isAlphanumeric: char -> bool)
    requires i <= j <= |text| && OthersFrom(text, i, j)
    ensures Literals(text, i, isAlphanumeric) == Literals(text, j, isAlphanumeric)
    decreases j - i
  {
    if i < j {
      LiteralsStep(text, i, isAlphanumeric);
      ReportedCases(text, i, isAlphanumeric);
      SkipOthers(text, i + 1, j, isAlphanumeric);
      hide Literals, TokenAt;
      assert [] + Literals(text, i + 1, isAlphanumeric) == Literals(text, i + 1, isAlphanumeric);
    }
  }

  lemma RustStep(text: string, index: nat, inWord: char -> bool, isAlphanumeric: char -> bool)
    requires index < |text|
    ensures var t := RustTokenAt(text, index, inWord);
            (t.Plain? ==> t.token.start < |text|)
            && RustLiterals(text, index, inWord, isAlphanumeric)
               == LiteralsOf(text, t, isAlphanumeric) + RustLiterals(text, EndOf(t), inWord, isAlphanumeric)
            && (!t.Plain? ==> RustLiterals(text, index, inWord, isAlphanumeric)
                              == RustLiterals(text, EndOf(t), inWord, isAlphanumeric))
  {
    var t := RustTokenAt(text, index, inWord);
    hide RustTokenAt, Reported;
    assert [] + RustLiterals(text, EndOf(t), inWord, isAlphanumeric)
           == RustLiterals(text, EndOf(t), inWord, isAlphanumeric);
  }

  /** Literals start after the position one looks from. */
  lemma {:induction false} RustStarts(text: string, index: nat, inWord: char -> bool, isAlphanumeric: char -> bool)
    requires index <= |text|
    ensures forall l :: l in RustLiterals(text, index, inWord, isAlphanumeric) ==> l.start > index
    decreases |text| - index
  {
    if index < |text| {
      RustStep(text, index, inWord, isAlphanumeric);
      var t := RustTokenAt(text, index, inWord);
      RustStarts(text, EndOf(t), inWord, isAlphanumeric);
      PlainReported(text, index, inWord, isAlphanumeric);
      hide RustTokenAt, RustLiterals, LiteralsOf;
    }
  }

  lemma PlainReported(text: string, index: nat, inWord: char -> bool, isAlphanumeric: char -> bool)
    requires index < |text|
    ensures var t := RustTokenAt(text, index, inWord);
            (t.Plain? ==> t.token == TokenAt(text, index) && t.token.start < |text|)
            && forall l :: l in LiteralsOf(text, t, isAlphanumeric) ==> l.start == index + 1
  {
    TokenAtCases(text, index);
    ReportedCases(text, index, isAlphanumeric);
    hide Reported, CommentEnd, RawStringHashes, CharacterEnd, StringEnd, OpensTMacro, Newlines;
  }

  lemma ScannerStarts(text: string, index: nat, isAlphanumeric: char -> bool)
    requires index <= |text|
    ensures forall l :: l in Literals(text, index, isAlphanumeric) ==> l.start > index
  {
    LiteralsLaw(text, index, isAlphanumeric);
    hide Literals, GoodLiteral;
  }

  /** A quote that either of the two comes to opens a literal. */
  lemma OpensLiteral(text: string, q: nat, isAlphanumeric: char -> bool)
    requires q < |text| && text[q] == '"' && !EndsInBackslash(text)
    ensures TokenAt(text, q).kind.Quoted?
    ensures exists l :: l in Reported(text, TokenAt(text, q), isAlphanumeric) && l.start == q + 1
  {
    TokenAtCases(text, q);
    ReportedCases(text, q, isAlphanumeric);
    StringEndLaw(text, q + 1, q + 1);
    NoEscapeAtEnd(text, q + 1);
    NoRawString(text, q);
    var rest := text[q..];
    assert rest[0] == '"';
    var r := Reported(text, TokenAt(text, q), isAlphanumeric);
    hide Reported, StringEnd, Newlines, OpensTMacro, CommentEnd, RawStringHashes;
    assert r[0] in r;
  }

  lemma NoEscapeAtEnd(text: string, start: nat)
    requires start <= |text| && !EndsInBackslash(text)
    ensures !EscapedIn(text, start, |text|)
  {
  }

  // ----- words -----

  lemma WordIsSkipped(text: string, index: nat, end: nat, inWord: char -> bool)
    requires LegalWords(inWord) && index < end <= |text|
    requires forall i :: index <= i < end ==> inWord(text[i])
    ensures OthersFrom(text, index, end - 1)
    ensures RawStringHashes(text[end - 1..]).None? ==> OthersFrom(text, index, end)
  {
    hide TokenAt, RawStringHashes;
    forall k | index <= k < end - 1 ensures TokenAt(text, k) == Token(Other, k, k + 1) {
      assert inWord(text[k]) && inWord(text[k + 1]);
      NoRawString(text, k);
      OtherAt(text, k);
    }
    if RawStringHashes(text[end - 1..]).None? {
      assert inWord(text[end - 1]);
      OtherAt(text, end - 1);
    }
  }

  lemma {:induction false} SkipHashes(text: string, i: nat, q: nat, inWord: char -> bool, isAlphanumeric: char -> bool)
    requires LegalWords(inWord) && i <= q <= |text| && forall k :: i <= k < q ==> text[k] == '#'
    ensures RustLiterals(text, i, inWord, isAlphanumeric) == RustLiterals(text, q, inWord, isAlphanumeric)
    decreases q - i
  {
    if i < q {
      RustStep(text, i, inWord, isAlphanumeric);
      NoRawString(text, i);
      OtherAt(text, i);
      ReportedCases(text, i, isAlphanumeric);
      SkipHashes(text, i + 1, q, inWord, isAlphanumeric);
      hide RustLiterals, RawStringHashes, TokenAt, Reported;
      assert [] + RustLiterals(text, i + 1, inWord, isAlphanumeric)
             == RustLiterals(text, i + 1, inWord, isAlphanumeric);
    }
  }

  /** A word that runs into a quote: Rust finds a literal there, and the scanner skips it as raw. */
  lemma MisreadWord(text: string, index: nat, inWord: char -> bool, isAlphanumeric: char -> bool)
    requires LegalWords(inWord) && index < |text| && !EndsInBackslash(text)
    requires var t := RustTokenAt(text, index, inWord); t.Word? && Misread(text, t)
    ensures Literals(text, index, isAlphanumeric) != RustLiterals(text, index, inWord, isAlphanumeric)
  {
    var end := EndOf(RustTokenAt(text, index, inWord));
    WordShape(text, index, inWord);
    hide RustLiterals, Literals, TokenAt, Reported, RawStringHashes, EndsInBackslash, CharacterEnd;
    hide RustTokenAt, LiteralsOf;
    ScannerSkipsRaw(text, index, end, inWord, isAlphanumeric);
    RustStep(text, index, inWord, isAlphanumeric);
    var l := RustReadsOn(text, end, inWord, isAlphanumeric);
    assert l in RustLiterals(text, index, inWord, isAlphanumeric);
    assert l !in Literals(text, index, isAlphanumeric);
  }

  /** Where the quote is that a word runs into. */
  function QuoteAfter(text: string, end: nat): (q: nat)
    requires 0 < end <= |text| && RawStringHashes(text[end - 1..]).Some?
  {
    end + RawStringHashes(text[end - 1..]).value
  }

  lemma ScannerSkipsRaw(text: string, index: nat, end: nat, inWord: char -> bool, isAlphanumeric: char -> bool)
    requires LegalWords(inWord) && index < end <= |text| && forall i :: index <= i < end ==> inWord(text[i])
    requires RawStringHashes(text[end - 1..]).Some?
    ensures forall l :: l in Literals(text, index, isAlphanumeric) ==> l.start > QuoteAfter(text, end) + 1
  {
    hide Literals, TokenAt, RawStringHashes, LegalWords;
    WordIsSkipped(text, index, end, inWord);
    SkipOthers(text, index, end - 1, isAlphanumeric);
    RawIsSkipped(text, end - 1, RawStringHashes(text[end - 1..]).value, isAlphanumeric);
  }

  lemma RustReadsOn(text: string, end: nat, inWord: char -> bool, isAlphanumeric: char -> bool) returns (l: Literal)
    requires LegalWords(inWord) && 0 < end <= |text| && !EndsInBackslash(text)
    requires RawStringHashes(text[end - 1..]).Some?
    ensures l in RustLiterals(text, end, inWord, isAlphanumeric) && l.start == QuoteAfter(text, end) + 1
  {
    hide RustLiterals, Literals, TokenAt, RawStringHashes, LegalWords, EndsInBackslash;
    var q := QuoteAfter(text, end);
    RawIsSkipped(text, end - 1, q - end, isAlphanumeric);
    SkipHashes(text, end, q, inWord, isAlphanumeric);
    l := RustHasLiteral(text, q, inWord, isAlphanumeric);
  }

  lemma RustHasLiteral(text: string, q: nat, inWord: char -> bool, isAlphanumeric: char -> bool) returns (l: Literal)
    requires q < |text| && text[q] == '"' && !EndsInBackslash(text)
    ensures l in RustLiterals(text, q, inWord, isAlphanumeric) && l.start == q + 1
  {
    OpensLiteral(text, q, isAlphanumeric);
    QuoteIsPlain(text, q, inWord);
    RustStep(text, q, inWord, isAlphanumeric);
    hide RustLiterals, TokenAt, Reported, EndsInBackslash, RustTokenAt;
    l :| l in Reported(text, TokenAt(text, q), isAlphanumeric) && l.start == q + 1;
  }

  lemma QuoteIsPlain(text: string, q: nat, inWord: char -> bool)
    requires q < |text| && TokenAt(text, q).kind.Quoted?
    ensures RustTokenAt(text, q, inWord) == Plain(TokenAt(text, q))
  {
  }

  lemma WordShape(text: string, index: nat, inWord: char -> bool)
    requires index < |text| && RustTokenAt(text, index, inWord).Word?
    ensures var end := EndOf(RustTokenAt(text, index, inWord));
            index < end && forall i :: index <= i < end ==> inWord(text[i])
  {
    hide TokenAt, RawStringHashes, CharacterEnd;
  }

  lemma RawIsSkipped(text: string, i: nat, hashes: nat, isAlphanumeric: char -> bool)
    requires i < |text| && RawStringHashes(text[i..]) == Some(hashes)
    ensures i + 1 + hashes < |text| && text[i + 1 + hashes] == '"' && forall k :: i < k <= i + hashes ==> text[k] == '#'
    ensures forall l :: l in Literals(text, i, isAlphanumeric) ==> l.start > i + 2 + hashes
  {
    var rest := text[i..];
    assert text[i + 1 + hashes] == rest[1 + hashes];
    assert forall k :: i < k <= i + hashes ==> text[k] == rest[k - i];
    assert rest[0] == 'r';
    TokenAtCases(text, i);
    LiteralsStep(text, i, isAlphanumeric);
    ReportedCases(text, i, isAlphanumeric);
    ScannerStarts(text, TokenAt(text, i).end, isAlphanumeric);
    hide Literals, RawStringHashes, TokenAt;
  }

  // ----- character literals -----

  lemma CharacterShape(text: string, index: nat)
    requires index < |text| && CharacterEnd(text, index).Some?
    ensures var end := CharacterEnd(text, index).value;
            (forall k :: index <= k < end && (text[k] == '/' || text[k] == 'r') ==> k + 1 < end && text[k + 1] == '\'')
            && ('"' in text[index..end] ==> text[end - 2] == '"' && forall k :: index <= k < end - 2 ==> text[k] != '"')
  {
  }

  lemma CharacterIsSkipped(text: string, index: nat, end: nat, to: nat)
    requires index < |text| && CharacterEnd(text, index) == Some(end) && index <= to <= end
    requires forall k :: index <= k < to ==> text[k] != '"'
    ensures OthersFrom(text, index, to)
  {
    CharacterShape(text, index);
    hide TokenAt, RawStringHashes, CharacterEnd;
    forall k | index <= k < to ensures TokenAt(text, k) == Token(Other, k, k + 1) {
      NoRawString(text, k);
      OtherAt(text, k);
    }
  }

  /** A character literal with a quote: the scanner opens a literal inside it, and Rust does not. */
  lemma MisreadCharacter(text: string, index: nat, inWord: char -> bool, isAlphanumeric: char -> bool)
    requires index < |text| && !EndsInBackslash(text)
    requires var t := RustTokenAt(text, index, inWord); t.Character? && Misread(text, t)
    ensures Literals(text, index, isAlphanumeric) != RustLiterals(text, index, inWord, isAlphanumeric)
  {
    var end := EndOf(RustTokenAt(text, index, inWord));
    var q := end - 2;
    RustStep(text, index, inWord, isAlphanumeric);
    RustStarts(text, end, inWord, isAlphanumeric);
    CharacterShape(text, index);
    CharacterIsSkipped(text, index, end, q);
    SkipOthers(text, index, q, isAlphanumeric);
    OpensLiteral(text, q, isAlphanumeric);
    LiteralsStep(text, q, isAlphanumeric);
    hide RustLiterals, Literals, TokenAt, Reported, CharacterEnd, RawStringHashes, EndsInBackslash;
    var l :| l in Reported(text, TokenAt(text, q), isAlphanumeric) && l.start == q + 1;
    assert l in Literals(text, index, isAlphanumeric);
    assert l !in RustLiterals(text, index, inWord, isAlphanumeric);
  }

  // ----- when the scanner finds Rust's literals -----

  /** Over a token that is not misread both move on alike. */
  lemma ReadAlike(text: string, index: nat, inWord: char -> bool, isAlphanumeric: char -> bool)
    requires LegalWords(inWord) && index < |text| && !Misread(text, RustTokenAt(text, index, inWord))
    ensures var t := RustTokenAt(text, index, inWord);
            (t.Plain? ==> t.token.start < |text|)
            && Literals(text, index, isAlphanumeric)
               == LiteralsOf(text, t, isAlphanumeric) + Literals(text, EndOf(t), isAlphanumeric)
  {
    var t := RustTokenAt(text, index, inWord);
    PlainReported(text, index, inWord, isAlphanumeric);
    match t
    case Plain(_) =>
      LiteralsStep(text, index, isAlphanumeric);
      hide Literals, RustTokenAt, TokenAt, Reported;
    case Word(_, end) =>
      WordReadAlike(text, index, inWord, isAlphanumeric);
      hide Literals, RustTokenAt, TokenAt;
      assert [] + Literals(text, end, isAlphanumeric) == Literals(text, end, isAlphanumeric);
    case Character(_, end) =>
      CharacterReadAlike(text, index, inWord, isAlphanumeric);
      hide Literals, RustTokenAt, TokenAt;
      assert [] + Literals(text, end, isAlphanumeric) == Literals(text, end, isAlphanumeric);
  }

  lemma WordReadAlike(text: string, index: nat, inWord: char -> bool, isAlphanumeric: char -> bool)
    requires LegalWords(inWord) && index < |text| && !Misread(text, RustTokenAt(text, index, inWord))
    requires RustTokenAt(text, index, inWord).Word?
    ensures Literals(text, index, isAlphanumeric)
         == Literals(text, EndOf(RustTokenAt(text, index, inWord)), isAlphanumeric)
  {
    var end := EndOf(RustTokenAt(text, index, inWord));
    WordShape(text, index, inWord);
    hide RustTokenAt, Literals, TokenAt, RawStringHashes, LegalWords;
    WordIsSkipped(text, index, end, inWord);
    SkipOthers(text, index, end, isAlphanumeric);
  }

  lemma CharacterReadAlike(text: string, index: nat, inWord: char -> bool, isAlphanumeric: char -> bool)
    requires index < |text| && !Misread(text, RustTokenAt(text, index, inWord))
    requires RustTokenAt(text, index, inWord).Character?
    ensures Literals(text, index, isAlphanumeric)
         == Literals(text, EndOf(RustTokenAt(text, index, inWord)), isAlphanumeric)
  {
    var end := EndOf(RustTokenAt(text, index, inWord));
    CharacterIs(text, index, inWord);
    hide RustTokenAt, Literals, TokenAt, CharacterEnd;
    assert forall k :: index <= k < end ==> text[k] == text[index..end][k - index];
    CharacterIsSkipped(text, index, end, end);
    SkipOthers(text, index, end, isAlphanumeric);
  }

  lemma CharacterIs(text: string, index: nat, inWord: char -> bool)
    requires index < |text| && RustTokenAt(text, index, inWord).Character?
    ensures CharacterEnd(text, index) == Some(EndOf(RustTokenAt(text, index, inWord)))
  {
    hide TokenAt, CharacterEnd, RawStringHashes;
  }

  lemma SameHead<T>(head: seq<T>, a: seq<T>, b: seq<T>)
    ensures head + a == head + b <==> a == b
  {
    if head + a == head + b {
      assert a == (head + a)[|head|..] == (head + b)[|head|..] == b;
    }
  }

  /**
   For a source that does not end in a backslash, the scanner finds exactly the string literals
   Rust has, if and only if no character literal holds a quote and no word runs into what looks
   like a raw string.
   */
  lemma {:induction false} LiteralsAreRusts(text: string, index: nat, inWord: char -> bool,
                                            isAlphanumeric: char -> bool)
    requires LegalWords(inWord) && index <= |text| && !EndsInBackslash(text)
    ensures Literals(text, index, isAlphanumeric) == RustLiterals(text, index, inWord, isAlphanumeric)
       <==> NoneMisread(text, index, inWord)
    decreases |text| - index
  {
    hide RustTokenAt, LegalWords, EndsInBackslash, Misread, LiteralsOf;
    if index < |text| {
      var t := RustTokenAt(text, index, inWord);
      if Misread(text, t) {
        NotPlain(text, t);
        if t.Word? {
          MisreadWord(text, index, inWord, isAlphanumeric);
        } else {
          MisreadCharacter(text, index, inWord, isAlphanumeric);
        }
      } else {
        LiteralsAreRusts(text, EndOf(t), inWord, isAlphanumeric);
        ReadAlike(text, index, inWord, isAlphanumeric);
        RustStep(text, index, inWord, isAlphanumeric);
        SameHead(LiteralsOf(text, t, isAlphanumeric), Literals(text, EndOf(t), isAlphanumeric),
                 RustLiterals(text, EndOf(t), inWord, isAlphanumeric));
      }
    }
  }

  lemma NotPlain(text: string, t: RustToken)
    requires EndOf(t) <= |text| && (t.Word? ==> t.end > 0) && (t.Character? ==> t.start <= t.end) && Misread(text, t)
    ensures t.Word? || t.Character?
  {
  }

  // ----- a source of the scanner's own -----

  /** A comparison with a byte that is a quote, as the scanner's own source has it. */
  const QUOTE_BYTE := "b'\"' "

  /** Rust has no string there; the scanner takes everything after the quote for one. */
  lemma QuoteByteIsMisread(inWord: char -> bool, isAlphanumeric: char -> bool)
    requires LegalWords(inWord)
    ensures !NoneMisread(QUOTE_BYTE, 0, inWord)
    ensures RustLiterals(QUOTE_BYTE, 0, inWord, isAlphanumeric) == [] && Literals(QUOTE_BYTE, 0, isAlphanumeric) != []
  {
    var text := QUOTE_BYTE;
    QuoteByteTokens(inWord);
    RustStep(text, 0, inWord, isAlphanumeric);
    RustStep(text, 1, inWord, isAlphanumeric);
    RustStep(text, 4, inWord, isAlphanumeric);
    LiteralsAreRusts(text, 0, inWord, isAlphanumeric);
    ReportedCases(text, 4, isAlphanumeric);
    assert RustLiterals(text, 5, inWord, isAlphanumeric) == [] by {
      assert |text| == 5;
    }
    hide RustTokenAt, Literals, RustLiterals, LegalWords, Reported;
    assert !EndsInBackslash(text);
  }

  lemma QuoteByteTokens(inWord: char -> bool)
    requires LegalWords(inWord)
    ensures var text := QUOTE_BYTE;
            |text| == 5 && RustTokenAt(text, 0, inWord) == Word(0, 1) && RustTokenAt(text, 1, inWord) == Character(1, 4)
            && EndOf(RustTokenAt(text, 4, inWord)) == 5 && TokenAt(text, 4).kind.Other?
            && PlainIsTokenAt(text, 4, inWord)
            && !Misread(text, Word(0, 1)) && Misread(text, Character(1, 4))
  {
    var text := QUOTE_BYTE;
    forall i | i == 0 || i == 1 || i == 4 ensures TokenAt(text, i) == Token(Other, i, i + 1) {
      NoRawString(text, i);
      OtherAt(text, i);
    }
    NoRawString(text, 0);
    assert text[0..] == text;
    assert WordEnd(text, 0, inWord) == 1;
    assert inWord(text[4]) ==> WordEnd(text, 4, inWord) == 5;
    hide TokenAt, RawStringHashes;
    assert text[1..4][1] == '"';
  }

  predicate PlainIsTokenAt(text: string, index: nat, inWord: char -> bool)
    requires index < |text|
  {
    RustTokenAt(text, index, inWord).Plain? ==> RustTokenAt(text, index, inWord).token == TokenAt(text, index)
  }
}
