/**
 Names of the files that hold a mnemonic (liana/src/signer.rs): printing, parsing, and which
 names read back.
 */
module MnemonicFileName {
  import opened Wrappers
  import opened Text

  type Fingerprint = f: nat | f < 0x1_0000_0000

  type Timestamp = t: int | -0x8000_0000_0000_0000 <= t < 0x8000_0000_0000_0000

  /** The descriptor info is its checksum and a timestamp. */
  datatype FileName = FileName(fingerprint: Fingerprint, descriptorInfo: Option<(string, Timestamp)>)

  datatype NameError = InvalidFormat | InvalidFingerprint | InvalidTimestamp

  const PREFIX := "mnemonic-"
  const SUFFIX := ".txt"

  // ----- numbers -----

  function Digit(n: nat): char
    requires n < 16
  {
    "0123456789abcdef"[n]
  }

  function DigitValue(c: char): (r: Option<nat>)
    ensures r.Some? ==> r.value < 16
  {
    if '0' <= c <= '9' then Some(c as int - '0' as int)
    else if 'a' <= c <= 'f' then Some(c as int - 'a' as int + 10)
    else if 'A' <= c <= 'F' then Some(c as int - 'A' as int + 10)
    else None
  }

  /** The last `width` hexadecimal digits of a number. */
  function Hex(n: nat, width: nat): (s: string)
    ensures |s| == width && '-' !in s
  {
    if width == 0 then "" else Hex(n / 16, width - 1) + [Digit(n % 16)]
  }

  function Pow(base: nat, n: nat): nat {
    if n == 0 then 1 else base * Pow(base, n - 1)
  }

  /** The value of a run of digits, `None` if one is not a digit of the base. */
  function ParseDigits(s: string, base: nat): Option<nat> {
    if s == "" then Some(0)
    else
      match (ParseDigits(s[..|s| - 1], base), DigitValue(s[|s| - 1]))
      case (Some(v), Some(d)) =>
        if d < base then Some(v * base + d) else None
      case (_, _) => None
  }

  lemma {:induction false} ParseDigitsBound(s: string, base: nat)
    ensures ParseDigits(s, base).Some? ==> ParseDigits(s, base).value < Pow(base, |s|)
  {
    if s != "" && ParseDigits(s, base).Some? {
      ParseDigitsBound(s[..|s| - 1], base);
      var v, d := ParseDigits(s[..|s| - 1], base).value, DigitValue(s[|s| - 1]).value;
      hide ParseDigits, Pow;
      PowStep(v, d, base, |s|);
    }
  }

  lemma PowStep(v: nat, d: nat, base: nat, n: nat)
    requires n > 0 && v < Pow(base, n - 1) && d < base
    ensures v * base + d < Pow(base, n)
  {
    assert (v + 1) * base <= Pow(base, n - 1) * base;
  }

  /** Eight hexadecimal digits, of either case. */
  function ParseFingerprint(s: string): Option<Fingerprint> {
    if |s| != 8 then None
    else
      assert Pow(16, 8) == 0x1_0000_0000 by { assert Pow(16, 4) == 0x1_0000; }
      ParseDigitsBound(s, 16);
      ParseDigits(s, 16)
  }

  function Decimal(n: nat): (s: string)
    ensures s != "" && '-' !in s && '+' !in s
  {
    if n < 10 then [Digit(n)] else Decimal(n / 10) + [Digit(n % 10)]
  }

  function Magnitude(t: int): nat {
    if t < 0 then -t else t
  }

  function PrintTimestamp(t: Timestamp): string {
    (if t < 0 then "-" else "") + Decimal(Magnitude(t))
  }

  /** `str::parse::<i64>`: an optional sign, then at least one digit, no overflow. */
  function ParseTimestamp(s: string): Option<Timestamp> {
    var negative := s != "" && s[0] == '-';
    var digits := if negative || (s != "" && s[0] == '+') then s[1..] else s;
    if digits == "" then None
    else match ParseDigits(digits, 10)
      case None => None
      case Some(v) =>
        var t: int := if negative then 0 - v else v;
        if -0x8000_0000_0000_0000 <= t < 0x8000_0000_0000_0000 then Some(t) else None
  }

  // ----- names -----

  function Content(name: FileName): string {
    Hex(name.fingerprint, 8)
    + match name.descriptorInfo
      case None => ""
      case Some(info) => "-" + info.0 + "-" + PrintTimestamp(info.1)
  }

  function Print(name: FileName): string {
    PREFIX + Content(name) + SUFFIX
  }

  /** `str::split` on a character. */
  function Split(s: string, separator: char): (parts: seq<string>)
    ensures parts != []
  {
    match Find(s, [separator])
    case None => [s]
    case Some(i) => [s[..i]] + Split(s[i + 1..], separator)
  }

  function ParseContent(content: string): Result<FileName, NameError> {
    var parts := Split(content, '-');
    match |parts|
    case 1 =>
      (match ParseFingerprint(parts[0])
       case None => Err(InvalidFingerprint)
       case Some(f) => Ok(FileName(f, None)))
    case 3 =>
      (match ParseFingerprint(parts[0])
       case None => Err(InvalidFingerprint)
       case Some(f) =>
         match ParseTimestamp(parts[2])
         case None => Err(InvalidTimestamp)
         case Some(t) => Ok(FileName(f, Some((parts[1], t)))))
    case _ => Err(InvalidFormat)
  }

  function Parse(s: string): Result<FileName, NameError> {
    if !(PREFIX <= s) || !EndsWith(s, SUFFIX) then Err(InvalidFormat)
    else
      PrefixAndSuffixApart(s);
      ParseContent(s[|PREFIX|..|s| - |SUFFIX|])
  }

  /** The prefix and the suffix never share a character, so that both can be stripped. */
  lemma PrefixAndSuffixApart(s: string)
    requires PREFIX <= s && EndsWith(s, SUFFIX)
    ensures |PREFIX| + |SUFFIX| <= |s|
  {
    var dot := |s| - |SUFFIX|;
    assert s[dot] == s[dot..][0] == SUFFIX[0];
    assert forall i :: 0 <= i < |PREFIX| ==> s[i] == PREFIX[i] != SUFFIX[0];
  }

  // ----- splitting -----

  function Dashes(s: string): nat {
    if s == "" then 0 else (if s[0] == '-' then 1 else 0) + Dashes(s[1..])
  }

  lemma {:induction false} DashesOfSum(a: string, b: string)
    ensures Dashes(a + b) == Dashes(a) + Dashes(b)
  {
    if a == "" {
      assert a + b == b;
    } else {
      assert (a + b)[1..] == a[1..] + b;
      DashesOfSum(a[1..], b);
    }
  }

  lemma {:induction false} DashesLaw(s: string)
    ensures Dashes(s) == 0 <==> '-' !in s
  {
    if s != "" {
      DashesLaw(s[1..]);
      assert s == [s[0]] + s[1..];
    }
  }

  /** As many parts as dashes and one more, and no dash in any of them. */
  lemma {:induction false} SplitLaw(s: string)
    ensures |Split(s, '-')| == Dashes(s) + 1
    ensures forall p :: p in Split(s, '-') ==> '-' !in p
  {
    hide Dashes, Find;
    match Find(s, "-")
    case None =>
      FirstDash(s);
      DashesLaw(s);
    case Some(i) =>
      FirstDash(s);
      DashesLaw(s[..i]);
      SplitLaw(s[i + 1..]);
      assert s == s[..i] + ("-" + s[i + 1..]);
      DashesOfSum(s[..i], "-" + s[i + 1..]);
      DashesOfSum("-", s[i + 1..]);
      OneDash();
  }

  lemma OneDash()
    ensures Dashes("-") == 1
  {
  }

  lemma {:induction false} FirstDash(s: string)
    ensures Find(s, "-").None? ==> '-' !in s
    ensures Find(s, "-").Some? ==> '-' !in s[..Find(s, "-").value]
  {
    if s != "" && !("-" <= s) {
      FirstDash(s[1..]);
      assert s == [s[0]] + s[1..];
      var r := Find(s, "-");
      if r.Some? {
        assert s[..r.value] == [s[0]] + s[1..][..r.value - 1];
      }
    }
  }

  lemma SplitAtDash(head: string, tail: string)
    requires '-' !in head
    ensures Split(head + "-" + tail, '-') == [head] + Split(tail, '-')
  {
    FindAfter(head, "-", tail);
    assert (head + "-" + tail)[..|head|] == head;
    assert (head + "-" + tail)[|head| + 1..] == tail;
  }

  // ----- numbers read back -----

  lemma DigitReadsBack(n: nat)
    requires n < 16
    ensures DigitValue(Digit(n)) == Some(n)
  {
  }

  lemma {:induction false} HexReadsBack(n: nat, width: nat)
    requires n < Pow(16, width)
    ensures ParseDigits(Hex(n, width), 16) == Some(n)
  {
    if width > 0 {
      assert n / 16 < Pow(16, width - 1);
      HexReadsBack(n / 16, width - 1);
      DigitReadsBack(n % 16);
      hide Digit, DigitValue, Pow;
      var s := Hex(n, width);
      assert s[..|s| - 1] == Hex(n / 16, width - 1);
    }
  }

  lemma {:induction false} DecimalReadsBack(n: nat)
    ensures ParseDigits(Decimal(n), 10) == Some(n)
  {
    var s := Decimal(n);
    if n >= 10 {
      DecimalReadsBack(n / 10);
      DigitReadsBack(n % 10);
      hide Digit, DigitValue, Pow;
      assert s[..|s| - 1] == Decimal(n / 10);
    } else {
      assert s[..|s| - 1] == "";
    }
  }

  lemma TimestampReadsBack(t: Timestamp)
    ensures ParseTimestamp(PrintTimestamp(t)) == Some(t)
  {
    var digits := Decimal(Magnitude(t));
    DecimalReadsBack(Magnitude(t));
    hide ParseDigits, Decimal;
    var s := PrintTimestamp(t);
    assert t < 0 ==> s[1..] == digits;
    assert t >= 0 ==> s == digits && s[0] in digits;
  }

  lemma FingerprintReadsBack(f: Fingerprint)
    ensures ParseFingerprint(Hex(f, 8)) == Some(f)
  {
    assert Pow(16, 8) == 0x1_0000_0000 by { assert Pow(16, 4) == 0x1_0000; }
    HexReadsBack(f, 8);
  }

  /** Without a dash there is no minus sign. */
  lemma DashlessTimestamp(s: string)
    requires '-' !in s && ParseTimestamp(s).Some?
    ensures ParseTimestamp(s).value >= 0
  {
  }

  // ----- names read back -----

  /** No dash but those the format puts there. */
  predicate ReadsBack(name: FileName) {
    name.descriptorInfo.Some? ==> '-' !in name.descriptorInfo.value.0 && name.descriptorInfo.value.1 >= 0
  }

  lemma ParseOfPrint(name: FileName)
    ensures Parse(Print(name)) == ParseContent(Content(name))
  {
    var s := Print(name);
    assert PREFIX <= s && EndsWith(s, SUFFIX);
    assert s[|PREFIX|..|s| - |SUFFIX|] == Content(name);
  }

  lemma DashesOfContent(name: FileName)
    ensures name.descriptorInfo.None? ==> Dashes(Content(name)) == 0
    ensures name.descriptorInfo.Some? ==>
              Dashes(Content(name))
              == 2 + Dashes(name.descriptorInfo.value.0) + if name.descriptorInfo.value.1 < 0 then 1 else 0
  {
    var hex := Hex(name.fingerprint, 8);
    DashesLaw(hex);
    hide Hex, PrintTimestamp, Dashes;
    match name.descriptorInfo
    case None =>
      assert Content(name) == hex;
    case Some(info) =>
      DashesOfTimestamp(info.1);
      ContentParts(name);
      DashesOfThree(hex, info.0, PrintTimestamp(info.1));
  }

  lemma ContentParts(name: FileName)
    requires name.descriptorInfo.Some?
    ensures var info := name.descriptorInfo.value;
            Content(name) == Hex(name.fingerprint, 8) + "-" + (info.0 + "-" + PrintTimestamp(info.1))
  {
  }

  lemma DashesOfTimestamp(t: Timestamp)
    ensures Dashes(PrintTimestamp(t)) == if t < 0 then 1 else 0
  {
    DashesLaw(Decimal(Magnitude(t)));
    DashesOfSum(if t < 0 then "-" else "", Decimal(Magnitude(t)));
  }

  lemma DashesOfThree(a: string, b: string, c: string)
    ensures Dashes(a + "-" + (b + "-" + c)) == Dashes(a) + Dashes(b) + Dashes(c) + 2
  {
    DashesOfSum(a + "-", b + "-" + c);
    DashesOfSum(a, "-");
    DashesOfSum(b + "-", c);
    DashesOfSum(b, "-");
  }

  /**
   A printed name reads back exactly when its checksum has no dash and its timestamp is not
   negative; any other is refused as malformed, never misread.
   */
  lemma PrintedNameReadsBack(name: FileName)
    ensures Parse(Print(name)) == if ReadsBack(name) then Ok(name) else Err(InvalidFormat)
  {
    hide Hex, PrintTimestamp, ParseTimestamp, ParseFingerprint, Dashes, Parse, Print;
    ParseOfPrint(name);
    DashesOfContent(name);
    SplitLaw(Content(name));
    FingerprintReadsBack(name.fingerprint);
    match name.descriptorInfo
    case None =>
      assert Content(name) == Hex(name.fingerprint, 8);
      FindNowhere(Content(name), "-");
    case Some(info) =>
      DashesLaw(info.0);
      if ReadsBack(name) {
        ContentSplits(name);
        TimestampReadsBack(info.1);
      }
  }

  lemma ContentSplits(name: FileName)
    requires ReadsBack(name) && name.descriptorInfo.Some?
    ensures var info := name.descriptorInfo.value;
            Split(Content(name), '-') == [Hex(name.fingerprint, 8), info.0, PrintTimestamp(info.1)]
  {
    var hex, info := Hex(name.fingerprint, 8), name.descriptorInfo.value;
    var time := PrintTimestamp(info.1);
    DashesOfTimestamp(info.1);
    DashesLaw(time);
    hide Hex, PrintTimestamp;
    ContentParts(name);
    SplitAtDash(hex, info.0 + "-" + time);
    SplitAtDash(info.0, time);
    FindNowhere(time, "-");
  }

  /** Every accepted name prints to one that reads back the same. */
  lemma ParsedNameReadsBack(s: string)
    requires Parse(s).Ok?
    ensures ReadsBack(Parse(s).value)
    ensures Parse(Print(Parse(s).value)) == Parse(s)
  {
    PrefixAndSuffixApart(s);
    var content := s[|PREFIX|..|s| - |SUFFIX|];
    SplitLaw(content);
    var parts := Split(content, '-');
    if |parts| == 3 {
      assert parts[1] in parts && parts[2] in parts;
      DashlessTimestamp(parts[2]);
    }
    PrintedNameReadsBack(Parse(s).value);
  }

  /** The two forms are told apart by their dashes, printed or accepted. */
  lemma FormsNeverConfused(name: FileName, s: string)
    ensures name.descriptorInfo.None? <==> Dashes(Print(name)) == 1
    ensures name.descriptorInfo.Some? <==> Dashes(Print(name)) >= 3
    ensures Parse(s).Ok? ==> Dashes(s) == if Parse(s).value.descriptorInfo.None? then 1 else 3
  {
    DashesOfContent(name);
    DashesOfPadded(Content(name));
    if Parse(s).Ok? {
      PrefixAndSuffixApart(s);
      var content := s[|PREFIX|..|s| - |SUFFIX|];
      assert s == PREFIX + content + SUFFIX;
      DashesOfPadded(content);
      SplitLaw(content);
    }
  }

  lemma DashesOfPadded(content: string)
    ensures Dashes(PREFIX + content + SUFFIX) == 1 + Dashes(content)
  {
    DashesLaw("mnemonic");
    DashesOfSum("mnemonic", "-");
    assert PREFIX == "mnemonic" + "-";
    DashesLaw(SUFFIX);
    DashesOfSum(PREFIX + content, SUFFIX);
    DashesOfSum(PREFIX, content);
  }

  /** Different readable names have different files. */
  lemma PrintIsInjective(a: FileName, b: FileName)
    requires ReadsBack(a) && Print(a) == Print(b)
    ensures a == b
  {
    PrintedNameReadsBack(a);
    PrintedNameReadsBack(b);
  }
}
