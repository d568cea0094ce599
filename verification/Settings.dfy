/** What the settings of a device mean: numbers, names without regard to case, and whole files. */
module Settings {
  import opened Configuration
  import opened ConfigurationTheorems
  import opened IniGrammar
  import opened IniMeaning
  import Splitting

  // ---------- numbers ----------

  const DIGITS := "0123456789"

  /** A number as it is written. */
  function Decimal(n: nat): string {
    (if n < 10 then [] else Decimal(n / 10)) + [DIGITS[n % 10]]
  }

  ghost predicate NoDigitFirst(s: string) {
    s == [] || s[0] !in DIGITS
  }

  lemma DigitIs(d: nat, rest: string, acc: nat)
    requires d < 10
    ensures Digits([DIGITS[d]] + rest, acc) == Digits(rest, 10 * acc + d)
  {
    assert ([DIGITS[d]] + rest)[1..] == rest;
    assert DIGITS[d] == '0' + (d as char);
  }

  lemma {:induction false} DigitsOfDecimal(n: nat, rest: string)
    ensures Digits(Decimal(n) + rest, 0) == Digits(rest, n)
  {
    hide Digits;
    var last := [DIGITS[n % 10]];
    if n < 10 {
      assert Decimal(n) + rest == last + rest;
      DigitIs(n, rest, 0);
    } else {
      assert Decimal(n) + rest == Decimal(n / 10) + (last + rest);
      DigitsOfDecimal(n / 10, last + rest);
      DigitIs(n % 10, rest, n / 10);
    }
  }

  lemma {:induction false} ZerosCountNothing(zeros: string, rest: string)
    requires forall i :: 0 <= i < |zeros| ==> zeros[i] == '0'
    ensures Digits(zeros + rest, 0) == Digits(rest, 0)
  {
    if zeros == [] {
      assert zeros + rest == rest;
    } else {
      assert zeros + rest == [DIGITS[0]] + (zeros[1..] + rest);
      DigitIs(0, zeros[1..] + rest, 0);
      ZerosCountNothing(zeros[1..], rest);
    }
  }

  lemma DigitsAre(c: char)
    ensures c in DIGITS <==> '0' <= c <= '9'
  {
    if '0' <= c <= '9' {
      var d := (c - '0') as int;
      assert c == DIGITS[d];
    }
  }

  lemma NoDigits(rest: string, acc: nat)
    requires NoDigitFirst(rest)
    ensures Digits(rest, acc) == acc
  {
    if rest != [] {
      DigitsAre(rest[0]);
    }
  }

  /** A number, as atoi takes it: blanks, a sign, leading zeros, digits, and something else or nothing. */
  function NumberText(lead: string, sign: string, zeros: string, n: nat, rest: string): string {
    lead + (sign + (zeros + (Decimal(n) + rest)))
  }

  lemma FirstDigit(n: nat)
    ensures Decimal(n) != [] && Decimal(n)[0] in DIGITS
  {
  }

  lemma DigitsNoSign(c: char)
    requires c in DIGITS
    ensures c !in BLANKS && c != '-' && c != '+'
  {
  }

  function Signed(sign: string, n: int): int {
    if sign == "-" then -n else n
  }

  lemma AtoiSkips(lead: string, sign: string, rest: string)
    requires Blank(lead) && sign in {"", "+", "-"}
    requires sign == "" ==> rest == [] || (rest[0] !in BLANKS && rest[0] != '+' && rest[0] != '-')
    ensures Atoi(lead + (sign + rest)) == Signed(sign, Digits(rest, 0))
  {
    hide Lskip, Digits;
    if sign == "" {
      assert sign + rest == rest;
      SkipsBlanks(lead, rest);
    } else {
      assert sign + rest == [sign[0]] + rest && ([sign[0]] + rest)[1..] == rest;
      SkipsBlanks(lead, sign + rest);
    }
  }

  /** atoi undoes writing a number. */
  lemma AtoiOfNumber(lead: string, sign: string, zeros: string, n: nat, rest: string)
    requires Blank(lead) && sign in {"", "+", "-"} && NoDigitFirst(rest)
    requires forall i :: 0 <= i < |zeros| ==> zeros[i] == '0'
    ensures Atoi(NumberText(lead, sign, zeros, n, rest)) == Signed(sign, n)
  {
    hide Atoi, Digits, Decimal, Blank, NoDigitFirst;
    var digits := zeros + (Decimal(n) + rest);
    NumberStarts(zeros, n, rest);
    AtoiSkips(lead, sign, digits);
    ZerosCountNothing(zeros, Decimal(n) + rest);
    DigitsOfDecimal(n, rest);
    NoDigits(rest, n);
  }

  lemma NumberStarts(zeros: string, n: nat, rest: string)
    requires forall i :: 0 <= i < |zeros| ==> zeros[i] == '0'
    ensures var digits := zeros + (Decimal(n) + rest);
            digits[0] !in BLANKS && digits[0] != '+' && digits[0] != '-'
  {
    hide Decimal;
    FirstDigit(n);
    if zeros == [] {
      DigitsNoSign(Decimal(n)[0]);
    }
  }

  /** A text that does not go on with a digit after its blanks and one sign is 0. */
  lemma AtoiOfNone(lead: string, sign: string, rest: string)
    requires Blank(lead) && sign in {"", "+", "-"} && NoDigitFirst(rest)
    requires sign == "" ==> rest == [] || (rest[0] !in BLANKS && rest[0] != '+' && rest[0] != '-')
    ensures Atoi(lead + (sign + rest)) == 0
  {
    hide Atoi, Digits, Blank, NoDigitFirst;
    AtoiSkips(lead, sign, rest);
    NoDigits(rest, 0);
  }

  // ---------- names ----------

  /** Two letters are the same but for case. */
  predicate OtherCase(a: char, b: char) {
    || ('A' <= a <= 'Z' && b as int == a as int + 32)
    || ('A' <= b <= 'Z' && a as int == b as int + 32)
  }

  /** Names of settings are compared without regard to the case of their letters, and to nothing else. */
  lemma CaseDoesNotCount(a: string, b: string)
    ensures SameIgnoringCase(a, b) <==>
              |a| == |b| && forall i :: 0 <= i < |a| ==> a[i] == b[i] || OtherCase(a[i], b[i])
  {
    forall i | 0 <= i < |a| && i < |b|
      ensures Lower(a[i]) == Lower(b[i]) <==> a[i] == b[i] || OtherCase(a[i], b[i])
    {
      OneLetter(a[i], b[i]);
    }
  }

  lemma OneLetter(a: char, b: char)
    ensures Lower(a) == Lower(b) <==> a == b || OtherCase(a, b)
  {
  }

  // ---------- the baudrate of a device ----------

  predicate SetsBaudrate(c: Call, section: string) {
    c.section == section && SameIgnoringCase(c.name, "baudrate")
  }

  lemma {:induction false} LastBaudrate(cs: seq<Call>, section: string, i: nat)
    requires i < |cs| && SetsBaudrate(cs[i], section)
    requires forall j :: i < j < |cs| ==> !SetsBaudrate(cs[j], section)
    ensures AskedBaudrate(cs, section) == Atoi(cs[i].value)
  {
    if i < |cs| - 1 {
      LastBaudrate(cs[..|cs| - 1], section, i);
    }
  }

  lemma {:induction false} NoBaudrate(cs: seq<Call>, section: string)
    requires forall j :: 0 <= j < |cs| ==> !SetsBaudrate(cs[j], section)
    ensures AskedBaudrate(cs, section) == 9600
  {
    if cs != [] {
      NoBaudrate(cs[..|cs| - 1], section);
    }
  }

  lemma {:induction false} SectionsAre(cs: seq<Call>)
    ensures |Sections(cs)| == |cs| && forall i :: 0 <= i < |cs| ==> Sections(cs)[i] == cs[i].section
  {
    if cs != [] {
      SectionsAre(cs[..|cs| - 1]);
    }
  }

  lemma MasterDescribed(cs: seq<Call>, section: string, i: nat)
    requires AllFit(cs) && i < |cs| && cs[i].section == section
    ensures var ms := HandleAll([], cs);
            && (exists k :: 0 <= k < |ms| && ms[k].name == section)
            && forall k :: 0 <= k < |ms| && ms[k].name == section ==> ms[k].baudrate == AskedBaudrate(cs, section)
  {
    hide HandleAll, AskedBaudrate, Newest, Sections, Asked, AskedToWrite, AllFit;
    CallsBuild(cs);
    SectionsAre(cs);
    NewestHolds(Sections(cs));
    var ms := HandleAll([], cs);
    assert section == Sections(cs)[i];
    assert section in MasterNames(ms);
    var k :| 0 <= k < |ms| && MasterNames(ms)[k] == section;
    assert ms[k].name == section;
  }

  /** Every section is a master, and its baudrate is the number that its last baudrate setting writes. */
  lemma BaudrateBuilt(cs: seq<Call>, section: string, i: nat, lead: string, sign: string, zeros: string, n: nat,
                      rest: string)
    requires AllFit(cs) && i < |cs| && SetsBaudrate(cs[i], section)
    requires forall j :: i < j < |cs| ==> !SetsBaudrate(cs[j], section)
    requires cs[i].value == NumberText(lead, sign, zeros, n, rest)
    requires Blank(lead) && sign in {"", "+", "-"} && NoDigitFirst(rest)
    requires forall j :: 0 <= j < |zeros| ==> zeros[j] == '0'
    ensures var ms := HandleAll([], cs);
            && (exists k :: 0 <= k < |ms| && ms[k].name == section)
            && forall k :: 0 <= k < |ms| && ms[k].name == section ==> ms[k].baudrate == Signed(sign, n)
  {
    hide HandleAll, AskedBaudrate, NumberText, Atoi, AllFit;
    MasterDescribed(cs, section, i);
    AtoiOfNumber(lead, sign, zeros, n, rest);
    LastBaudrate(cs, section, i);
  }

  /** Without such a setting it is 9600. */
  lemma BaudrateDefault(cs: seq<Call>, section: string, i: nat)
    requires AllFit(cs) && i < |cs| && cs[i].section == section
    requires forall j :: 0 <= j < |cs| ==> !SetsBaudrate(cs[j], section)
    ensures var ms := HandleAll([], cs);
            && (exists k :: 0 <= k < |ms| && ms[k].name == section)
            && forall k :: 0 <= k < |ms| && ms[k].name == section ==> ms[k].baudrate == 9600
  {
    hide HandleAll, AskedBaudrate, AllFit;
    MasterDescribed(cs, section, i);
    NoBaudrate(cs, section);
  }

  // ---------- what the handler answers ----------

  /** Some word makes, with the name of the device, a name that does not fit in 4096 bytes. */
  ghost predicate TooLong(device: string, words: seq<string>) {
    exists i :: 0 <= i < |words| && |device| + 1 + |words[i]| >= 4096
  }

  lemma {:induction false} TokensFit(vs: seq<VirtualEntry>, device: string, words: seq<string>)
    ensures AddTokens(vs, device, words).None? <==> TooLong(device, words)
  {
    if words != [] {
      var less := words[..|words| - 1];
      TokensFit(vs, device, less);
      assert TooLong(device, less) ==> TooLong(device, words) by {
        if i :| 0 <= i < |less| && |device| + 1 + |less[i]| >= 4096 {
          assert words[i] == less[i];
        }
      }
    }
  }

  /** A setting is rejected exactly if it is none of the three, and ends the process exactly if a name does not fit. */
  lemma VerdictExactly(ms: Masters, c: Call)
    ensures var verdict := Handle(ms, c).1;
            && (verdict.Rejected? <==>
                 !SameIgnoringCase(c.name, "baudrate") && !SameIgnoringCase(c.name, "virtuals")
                 && !SameIgnoringCase(c.name, "writer"))
            && (verdict.Exited? <==>
                 || (SameIgnoringCase(c.name, "virtuals") && TooLong(c.section, Tokens(c.value)))
                 || (SameIgnoringCase(c.name, "writer") && |c.section| + 1 + |c.value| >= 4096))
  {
    hide SameIgnoringCase, AddTokens, Tokens, TooLong;
    KeysDiffer(c.name);
    TokensFit(EnsureMaster(ms, c.section)[Target(ms, c.section)].virtuals, c.section, Tokens(c.value));
  }

  // ---------- the file of one device ----------

  function Setting(name: string, value: string): string {
    name + "=" + value + "\n"
  }

  /** A section with the three settings, one to a line. */
  function DeviceLines(device: string, baudrate: nat, gaps: seq<string>, words: seq<string>, writer: string)
    : seq<string>
    requires |gaps| == |words| + 1
  {
    [SectionText(device, "\n"), Setting("baudrate", Decimal(baudrate)),
     Setting("virtuals", Splitting.Spaced(gaps, words)), Setting("writer", writer)]
  }

  function DeviceCalls(device: string, baudrate: nat, gaps: seq<string>, words: seq<string>, writer: string): seq<Call>
    requires |gaps| == |words| + 1
  {
    [Call(device, "baudrate", Decimal(baudrate)), Call(device, "virtuals", Splitting.Spaced(gaps, words)),
     Call(device, "writer", writer)]
  }

  ghost predicate DeviceForm(device: string, gaps: seq<string>, words: seq<string>, writer: string) {
    && PlainSection(device) && |device| < 50 && PlainValue(writer)
    && |gaps| == |words| + 1 && PlainValue(Splitting.Spaced(gaps, words))
    && (forall i :: 0 <= i < |gaps| ==> Splitting.Blank(gaps[i]))
    && (forall i :: 0 <= i < |words| ==> Splitting.Word(words[i]))
    && (forall i, j :: 0 <= i < j < |words| ==> words[i] != words[j])
  }

  lemma KeysArePlain()
    ensures PlainName("baudrate") && PlainName("virtuals") && PlainName("writer")
  {
    LettersArePlain("baudrate");
    LettersArePlain("virtuals");
    LettersArePlain("writer");
  }

  lemma LettersArePlain(name: string)
    requires forall i :: 0 <= i < |name| ==> 'a' <= name[i] <= 'z'
    ensures PlainName(name)
  {
  }

  /** An unindented line with a name and a value. */
  lemma SimplePair(lines: seq<string>, section: string, name: string, value: string, accept: nat -> bool)
    requires lines != [] && PlainName(name) && PlainValue(value)
    requires Parse(lines, accept).context.section == section
    ensures var p := Parse(lines + [Setting(name, value)], accept);
            && p.calls == Parse(lines, accept).calls + [Call(section, name, value)] && p.context.section == section
  {
    hide Parse, ParseLine, PlainName, PlainValue;
    var c := Parse(lines, accept).context;
    var t := Written([], name, [], '=', [], value, "\n", []);
    PairMeans(c, t);
    assert PairText(t) == Setting(name, value);
    OneMoreLine(lines, Setting(name, value), accept);
  }

  lemma DecimalIsPlain(n: nat)
    ensures PlainValue(Decimal(n))
  {
    DecimalIsDigits(n);
    forall i | 0 <= i < |Decimal(n)| ensures Decimal(n)[i] !in BLANKS && Decimal(n)[i] != ';' {
      DigitsNoSign(Decimal(n)[i]);
      DigitsAre(Decimal(n)[i]);
    }
  }

  lemma {:induction false} DecimalIsDigits(n: nat)
    ensures forall i :: 0 <= i < |Decimal(n)| ==> Decimal(n)[i] in DIGITS
  {
    if n >= 10 {
      DecimalIsDigits(n / 10);
    }
  }

  lemma DeviceParsed(device: string, baudrate: nat, gaps: seq<string>, words: seq<string>, writer: string,
                     accept: nat -> bool)
    requires DeviceForm(device, gaps, words, writer)
    ensures Parse(DeviceLines(device, baudrate, gaps, words, writer), accept).calls
              == DeviceCalls(device, baudrate, gaps, words, writer)
  {
    hide Parse, Decimal, PlainName, PlainValue, PlainSection, SectionText, Setting;
    var lines := DeviceLines(device, baudrate, gaps, words, writer);
    KeysArePlain();
    DecimalIsPlain(baudrate);
    SectionParsed([], device, "\n", accept);
    NothingParsed(accept);
    assert [] + [lines[0]] == lines[..1];
    SimplePair(lines[..1], device, "baudrate", Decimal(baudrate), accept);
    assert lines[..1] + [lines[1]] == lines[..2];
    SimplePair(lines[..2], device, "virtuals", Splitting.Spaced(gaps, words), accept);
    assert lines[..2] + [lines[2]] == lines[..3];
    SimplePair(lines[..3], device, "writer", writer, accept);
    assert lines[..3] + [lines[3]] == lines;
  }

  lemma NothingParsed(accept: nat -> bool)
    ensures Parse([], accept).calls == []
  {
  }

  lemma {:induction false} NewestReverses(ss: seq<string>)
    requires forall i, j :: 0 <= i < j < |ss| ==> ss[i] != ss[j]
    ensures |Newest(ss)| == |ss| && forall i :: 0 <= i < |ss| ==> Newest(ss)[i] == ss[|ss| - 1 - i]
  {
    if ss != [] {
      var less := ss[..|ss| - 1];
      NewestReverses(less);
      NewestHolds(less);
    }
  }

  lemma DeviceAsks(device: string, baudrate: nat, gaps: seq<string>, words: seq<string>, writer: string)
    requires DeviceForm(device, gaps, words, writer)
    ensures var cs := DeviceCalls(device, baudrate, gaps, words, writer);
            && Newest(Sections(cs)) == [device] && AskedBaudrate(cs, device) == baudrate
            && Asked(cs, device) == Named(device, words)
            && forall v :: v in words ==> (AskedToWrite(cs, device, device + "." + v) <==> v == writer)
  {
    hide Atoi, Tokens, Decimal, Newest, Sections, Asked, AskedBaudrate, AskedToWrite, SameIgnoringCase, Named,
         PlainValue, PlainSection;
    var cs := DeviceCalls(device, baudrate, gaps, words, writer);
    KeysOf();
    DeviceSections(cs, device);
    Splitting.TokensOfSpaced(gaps, words);
    DeviceAsked(cs, device, words);
    PlainNumber(baudrate);
    AtoiOfNumber("", "", "", baudrate, "");
    LastBaudrate(cs, device, 0);
    DeviceWrites(cs, device, words, writer);
  }

  lemma PlainNumber(n: nat)
    ensures NumberText("", "", "", n, "") == Decimal(n)
  {
    hide Decimal;
  }

  lemma KeysOf()
    ensures SameIgnoringCase("baudrate", "baudrate") && SameIgnoringCase("virtuals", "virtuals")
    ensures SameIgnoringCase("writer", "writer")
    ensures !SameIgnoringCase("baudrate", "virtuals") && !SameIgnoringCase("baudrate", "writer")
    ensures !SameIgnoringCase("virtuals", "baudrate") && !SameIgnoringCase("virtuals", "writer")
    ensures !SameIgnoringCase("writer", "baudrate") && !SameIgnoringCase("writer", "virtuals")
  {
    KeysDiffer("baudrate");
    KeysDiffer("virtuals");
    KeysDiffer("writer");
  }

  lemma DeviceSections(cs: seq<Call>, device: string)
    requires |cs| == 3 && forall i :: 0 <= i < 3 ==> cs[i].section == device
    ensures Newest(Sections(cs)) == [device]
  {
    SectionsAre(cs);
    var ss := Sections(cs);
    assert ss == [device, device, device];
    assert ss[..1] == [device] && ss[..2] == [device, device] && ss[..2][..1] == [device] && ss[..1][..0] == [];
    assert Newest(ss[..1]) == [device];
    assert Newest(ss[..2]) == [device];
  }

  lemma DeviceAsked(cs: seq<Call>, device: string, words: seq<string>)
    requires |cs| == 3 && forall i :: 0 <= i < 3 ==> cs[i].section == device
    requires cs[0].name == "baudrate" && cs[1].name == "virtuals" && cs[2].name == "writer"
    requires Tokens(cs[1].value) == words
    ensures Asked(cs[..1], device) == [] && Asked(cs[..2], device) == Asked(cs, device) == Named(device, words)
    ensures Asked(cs[..0], device) == []
  {
    hide SameIgnoringCase, Tokens;
    KeysOf();
    assert cs[..1] == cs[..0] + [cs[0]] && cs[..2] == cs[..1] + [cs[1]] && cs == cs[..2] + [cs[2]];
    AskedExtends(cs[..0], cs[0], device);
    AskedExtends(cs[..1], cs[1], device);
    AskedExtends(cs[..2], cs[2], device);
  }

  lemma DeviceWrites(cs: seq<Call>, device: string, words: seq<string>, writer: string)
    requires |cs| == 3 && forall i :: 0 <= i < 3 ==> cs[i].section == device
    requires cs[0].name == "baudrate" && cs[1].name == "virtuals" && cs[2].name == "writer" && cs[2].value == writer
    requires Tokens(cs[1].value) == words
    ensures forall v :: v in words ==> (AskedToWrite(cs, device, device + "." + v) <==> v == writer)
  {
    hide SameIgnoringCase, Tokens, Asked;
    KeysOf();
    DeviceAsked(cs, device, words);
    forall v | v in words ensures AskedToWrite(cs, device, device + "." + v) <==> v == writer {
      var name := device + "." + v;
      assert name in Named(device, words) by {
        var k :| 0 <= k < |words| && words[k] == v;
        assert Named(device, words)[k] == name;
      }
      assert name[|device| + 1..] == v && (device + "." + writer)[|device| + 1..] == writer;
      assert cs[2].section == device && name in Asked(cs[..2], device);
    }
  }

  /**
   From the lines of a file to the lists: the device is a master with the baudrate written, and its virtuals are the
   words of the virtuals setting under the name device.word, the last one first, of which the writer is the one named.
   */
  lemma DeviceBuilt(device: string, baudrate: nat, gaps: seq<string>, words: seq<string>, writer: string,
                    accept: nat -> bool)
    requires DeviceForm(device, gaps, words, writer)
    requires forall k :: 0 <= k < 4 ==> |DeviceLines(device, baudrate, gaps, words, writer)[k]| < INI_MAX_LINE
    ensures var ms := HandleAll([], Parse(DeviceLines(device, baudrate, gaps, words, writer), accept).calls);
            && |ms| == 1 && ms[0].name == device && ms[0].baudrate == baudrate && |ms[0].virtuals| == |words|
            && forall i :: 0 <= i < |words| ==>
                 var v := ms[0].virtuals[|words| - 1 - i];
                 v.name == device + "." + words[i] && (v.writer <==> words[i] == writer)
  {
    hide Parse, HandleAll, Sections, Newest, Asked, AskedToWrite, AskedBaudrate, DeviceCalls, PlainValue, PlainSection;
    var lines := DeviceLines(device, baudrate, gaps, words, writer);
    LoadedAsAsked(lines, accept);
    DeviceParsed(device, baudrate, gaps, words, writer, accept);
    DeviceAsks(device, baudrate, gaps, words, writer);
    NamesReversed(device, gaps, words, writer);
    var cs := DeviceCalls(device, baudrate, gaps, words, writer);
    var ms := HandleAll([], cs);
    assert |MasterNames(ms)| == 1 && MasterNames(ms)[0] == device;
    var vs := ms[0].virtuals;
    assert |VirtualNames(vs)| == |words|;
    forall i | 0 <= i < |words|
      ensures vs[|words| - 1 - i].name == device + "." + words[i]
      ensures vs[|words| - 1 - i].writer <==> words[i] == writer
    {
      assert VirtualNames(vs)[|words| - 1 - i] == Named(device, words)[i];
      assert words[i] in words;
    }
  }

  lemma NamesReversed(device: string, gaps: seq<string>, words: seq<string>, writer: string)
    requires DeviceForm(device, gaps, words, writer)
    ensures var names, ss := Newest(Named(device, words)), Named(device, words);
            && |names| == |ss| == |words|
            && forall i :: 0 <= i < |words| ==> ss[i] == device + "." + words[i] && names[|words| - 1 - i] == ss[i]
  {
    hide Newest;
    var ss := Named(device, words);
    forall i, j | 0 <= i < j < |ss| ensures ss[i] != ss[j] {
      assert ss[i][|device| + 1..] == words[i] && ss[j][|device| + 1..] == words[j];
    }
    NewestReverses(ss);
  }
}
