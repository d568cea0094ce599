/** What the lines of a configuration file mean, told in terms of their characters alone. */
module IniMeaning {
  import opened IniGrammar
  import opened IniRoundTrip
  import opened Options

  const BLANKS: string := [' ', '\t', '\n', '\U{b}', '\U{c}', '\r']

  /** What the parser takes for white space. */
  lemma SpacesAre(c: char)
    ensures IsSpace(c) <==> c in BLANKS
  {
  }

  ghost predicate Blank(s: string) {
    forall i :: 0 <= i < |s| ==> s[i] in BLANKS
  }

  ghost predicate Trimmed(s: string) {
    s != [] ==> s[0] !in BLANKS && s[|s| - 1] !in BLANKS
  }

  /** No semicolon after a blank, which would start a comment. */
  ghost predicate NoComment(s: string) {
    forall i :: 0 < i < |s| && s[i] == ';' ==> s[i - 1] !in BLANKS
  }

  ghost predicate PlainName(s: string) {
    && Trimmed(s) && NoComment(s) && (s != [] ==> s[0] !in ";#[")
    && forall i :: 0 <= i < |s| ==> s[i] != '=' && s[i] != ':'
  }

  ghost predicate PlainValue(s: string) {
    Trimmed(s) && NoComment(s)
  }

  ghost predicate PlainSection(s: string) {
    NoComment(s) && ']' !in s
  }

  /** What follows a value: blanks, or blanks and a comment. */
  ghost predicate Tail(value: string, gap: string, comment: string) {
    Blank(gap) && (comment != [] ==> gap != [] && value != [] && comment[0] == ';')
  }

  function Cut(s: string, n: nat): string {
    if |s| <= n then s else s[..n]
  }

  // ---------- one line ----------

  lemma StripsAfter(a: string, b: string)
    requires Rstrip(b) != []
    ensures Rstrip(a + b) == a + Rstrip(b)
  {
    hide Rstrip, IsSpace;
    var t := a + Rstrip(b);
    assert (a + b)[..|t|] == t by {
      assert b[..|Rstrip(b)|] == Rstrip(b);
    }
    forall i | |t| <= i < |a + b| ensures IsSpace((a + b)[i]) {
      assert (a + b)[i] == b[i - |a|];
    }
    StripsTo(a + b, t);
  }

  lemma StripsBlanks(a: string, gap: string)
    requires Trimmed(a) && Blank(gap)
    ensures Rstrip(a + gap) == a
  {
    hide Rstrip;
    forall c: char ensures IsSpace(c) <==> c in BLANKS {
      SpacesAre(c);
    }
    forall i | |a| <= i < |a + gap| ensures IsSpace((a + gap)[i]) {
      assert (a + gap)[i] == gap[i - |a|];
    }
    assert (a + gap)[..|a|] == a;
    StripsTo(a + gap, a);
  }

  lemma SkipsBlanks(gap: string, a: string)
    requires Blank(gap) && (a != [] ==> a[0] !in BLANKS)
    ensures Lskip(gap + a) == a
  {
    hide Lskip;
    forall c: char ensures IsSpace(c) <==> c in BLANKS {
      SpacesAre(c);
    }
    assert forall i :: 0 <= i < |gap| ==> (gap + a)[i] == gap[i];
    SkipsTo(gap + a, |gap|);
    assert (gap + a)[|gap|..] == a;
  }

  lemma StopIs(s: string, chars: string, i: nat)
    requires i < |s|
    ensures StopsAt(s, chars, i) <==> s[i] in chars || (i > 0 && s[i - 1] in BLANKS && s[i] == ';')
  {
    if i > 0 {
      SpacesAre(s[i - 1]);
    }
  }

  ghost predicate Ends(s: string, chars: string, i: nat)
    requires i < |s|
  {
    s[i] in chars || (i > 0 && s[i - 1] in BLANKS && s[i] == ';')
  }

  /** The first of the characters, or of the semicolons after a blank, is what a search finds. */
  lemma FindsFirst(s: string, chars: string, n: nat)
    requires n <= |s| && (n < |s| ==> Ends(s, chars, n)) && forall j :: 0 <= j < n ==> !Ends(s, chars, j)
    ensures Find(s, chars) == n
  {
    hide StopsAt, Find;
    forall j | 0 <= j < n ensures !StopsAt(s, chars, j) {
      assert !Ends(s, chars, j);
      StopIs(s, chars, j);
    }
    if n < |s| {
      StopIs(s, chars, n);
    }
    FindIs(s, chars, n);
  }

  /** The value is what stands between the blanks, without the comment. */
  lemma ValueMeans(before: string, value: string, gap: string, comment: string)
    requires Blank(before) && PlainValue(value) && Tail(value, gap, comment)
    ensures ValueOf(Rstrip(before + value + gap + comment)) == value
    ensures value == [] ==> Rstrip(before + value + gap + comment) == []
  {
    hide Rstrip, Lskip, ValueOf, Trimmed, NoComment;
    if value == [] {
      assert before + value + gap + comment == [] + (before + gap);
      EmptyValue(before + gap);
    } else if comment == [] {
      assert before + value + gap + comment == before + (value + gap);
      PlainIsTrimmed(value);
      StripsBlanks(value, gap);
      StripsAfter(before, value + gap);
      ValueFound(before, value, [], []);
      assert value + [] + [] == value;
    } else {
      CommentStays(comment);
      assert before + value + gap + comment == (before + (value + gap)) + comment;
      StripsAfter(before + (value + gap), comment);
      assert before + (value + gap) + Rstrip(comment) == before + (value + gap + Rstrip(comment));
      ValueFound(before, value, gap, Rstrip(comment));
    }
  }

  lemma PlainIsTrimmed(value: string)
    requires PlainValue(value)
    ensures Trimmed(value)
  {
  }

  lemma EmptyValue(gap: string)
    requires Blank(gap)
    ensures Rstrip([] + gap) == [] && ValueOf([]) == []
  {
    StripsBlanks([], gap);
    FindIs([], [], 0);
  }

  lemma CommentStays(comment: string)
    requires comment != [] && comment[0] == ';'
    ensures Rstrip(comment) != [] && Rstrip(comment)[0] == ';'
  {
    hide Rstrip;
    assert !IsSpace(comment[0]);
  }

  lemma ValueFound(before: string, value: string, gap: string, comment: string)
    requires Blank(before) && PlainValue(value) && value != []
    requires (gap == [] && comment == []) || (Blank(gap) && gap != [] && comment != [] && comment[0] == ';')
    ensures ValueOf(before + (value + gap + comment)) == value
  {
    hide Rstrip, Lskip, Find, StopsAt;
    var s, n := value + gap + comment, |value + gap|;
    SkipsBlanks(before, s);
    forall j | 0 <= j < n ensures !Ends(s, [], j) {
      if j < |value| {
        assert s[j] == value[j] && (j > 0 ==> s[j - 1] == value[j - 1]);
      } else {
        assert s[j] == gap[j - |value|];
      }
    }
    if comment != [] {
      assert s[n] == comment[0] && s[n - 1] == gap[|gap| - 1];
    }
    FindsFirst(s, [], n);
    assert s[..n] == value + gap;
    StripsBlanks(value, gap);
  }

  /** A line with a name and a value, the blanks around them, and a comment. */
  datatype Written = Written(lead: string, name: string, w1: string, mark: char, w2: string, value: string,
                             gap: string, comment: string)

  function PairText(t: Written): string {
    t.lead + (t.name + t.w1 + [t.mark] + (t.w2 + t.value + t.gap + t.comment))
  }

  lemma NameMeans(name: string, w1: string, mark: char, rest: string)
    requires PlainName(name) && Blank(w1) && mark in "=:" && (name == [] ==> w1 == [])
    ensures var body := name + w1 + [mark] + rest;
            && PairOf(body) == Some((name, ValueOf(rest)))
            && body[0] !in BLANKS && body[0] !in ";#["
  {
    hide Rstrip, ValueOf, Find, StopsAt;
    var body, n := name + w1 + [mark] + rest, |name + w1|;
    forall j | 0 <= j < n ensures !Ends(body, "=:", j) {
      if j < |name| {
        assert body[j] == name[j] && (j > 0 ==> body[j - 1] == name[j - 1]);
      } else {
        assert body[j] == w1[j - |name|];
      }
    }
    assert body[n] == mark;
    FindsFirst(body, "=:", n);
    assert body[..n] == name + w1 && body[n + 1..] == rest;
    StripsBlanks(name, w1);
    FirstOf(name, w1, mark, rest);
  }

  lemma FirstOf(name: string, w1: string, mark: char, rest: string)
    requires PlainName(name) && Blank(w1) && mark in "=:" && (name == [] ==> w1 == [])
    ensures var body := name + w1 + [mark] + rest; body[0] !in BLANKS && body[0] !in ";#["
  {
  }

  lemma StripsTail(front: string, rest: string)
    requires front != [] && front[|front| - 1] !in BLANKS
    ensures Rstrip(front + rest) == front + Rstrip(rest)
  {
    hide Rstrip, IsSpace;
    SpacesAre(front[|front| - 1]);
    if Rstrip(rest) == [] {
      forall i | |front| <= i < |front + rest| ensures IsSpace((front + rest)[i]) {
        assert (front + rest)[i] == rest[i - |front|];
      }
      assert (front + rest)[..|front|] == front;
      StripsTo(front + rest, front);
      assert front + [] == front;
    } else {
      StripsAfter(front, rest);
    }
  }

  ghost predicate PairForm(t: Written) {
    && Blank(t.lead) && Blank(t.w1) && Blank(t.w2) && t.mark in "=:" && PlainName(t.name) && PlainValue(t.value)
    && (t.name == [] ==> t.w1 == []) && Tail(t.value, t.gap, t.comment)
  }

  /**
   A line with an equals sign or a colon is the pair of what stands before it and after it, without blanks and without a
   comment, unless it is indented and there is a value to continue.
   */
  lemma PairMeans(c: Context, t: Written)
    requires PairForm(t) && (c.prevName == [] || t.lead == [])
    ensures ParseLine(c, PairText(t), 0) == Pair(Call(c.section, t.name, t.value))
  {
    hide Rstrip, Lskip, PairOf, SectionOf, ValueOf, PlainName, PlainValue, Blank, Tail;
    var rest := t.w2 + t.value + t.gap + t.comment;
    var body := t.name + t.w1 + [t.mark] + Rstrip(rest);
    PairStrips(t, rest);
    NameMeans(t.name, t.w1, t.mark, Rstrip(rest));
    SkipsBlanks(t.lead, body);
    ValueMeans(t.w2, t.value, t.gap, t.comment);
    BodyMeans(c, body, t.lead != []);
  }

  lemma PairStrips(t: Written, rest: string)
    requires t.mark in "=:" && rest == t.w2 + t.value + t.gap + t.comment
    ensures Rstrip(PairText(t)) == t.lead + (t.name + t.w1 + [t.mark] + Rstrip(rest))
  {
    hide Rstrip;
    var front := t.lead + (t.name + t.w1 + [t.mark]);
    assert PairText(t) == front + rest;
    assert t.mark !in BLANKS;
    StripsTail(front, rest);
    assert front + Rstrip(rest) == t.lead + (t.name + t.w1 + [t.mark] + Rstrip(rest));
  }

  lemma BodyMeans(c: Context, body: string, indented: bool)
    requires body != [] && body[0] !in ";#[" && PairOf(body).Some? && !(indented && c.prevName != [])
    ensures ParseBody(c, body, indented) == Pair(Call(c.section, PairOf(body).value.0, PairOf(body).value.1))
  {
    hide PairOf, SectionOf;
  }

  function SectionText(name: string, rest: string): string {
    "[" + name + "]" + rest
  }

  /** The name of a section is what stands in the brackets, cut to 49 characters; what follows does not count. */
  lemma SectionMeans(c: Context, name: string, rest: string)
    requires PlainSection(name)
    ensures ParseLine(c, SectionText(name, rest), 0) == Section(Cut(name, 49))
  {
    hide Rstrip, Lskip, PairOf, SectionOf, PlainSection;
    var front := "[" + name + "]";
    StripsTail(front, rest);
    var body := front + Rstrip(rest);
    SkipsBlanks([], body);
    assert [] + body == body;
    SectionOfMeans(name, Rstrip(rest));
  }

  lemma SectionOfMeans(name: string, rest: string)
    requires PlainSection(name)
    ensures SectionOf("[" + name + "]" + rest) == Some(Cut(name, 49))
  {
    hide Find, StopsAt;
    var body, n := "[" + name + "]" + rest, |name|;
    var inner := body[1..];
    assert inner == name + "]" + rest;
    forall j | 0 <= j < n ensures !Ends(inner, "]", j) {
      assert inner[j] == name[j] && (j > 0 ==> inner[j - 1] == name[j - 1]);
    }
    assert inner[n] == ']';
    FindsFirst(inner, "]", n);
    assert inner[..n] == name;
  }

  /** An indented line continues the value before it, comments included. */
  lemma ContinuationMeans(c: Context, lead: string, text: string, trail: string)
    requires c.prevName != [] && Blank(lead) && lead != [] && Blank(trail)
    requires Trimmed(text) && text != [] && text[0] !in ";#"
    ensures ParseLine(c, lead + text + trail, 0) == Continue(Call(c.section, c.prevName, text))
  {
    hide Rstrip, Lskip, PairOf, SectionOf;
    assert lead + text + trail == lead + (text + trail);
    StripsBlanks(text, trail);
    StripsAfter(lead, text + trail);
    SkipsBlanks(lead, text);
  }

  /** A blank line, and one whose first character is a semicolon or a number sign, mean nothing. */
  lemma CommentMeans(c: Context, lead: string, rest: string, skipped: nat)
    requires Blank(lead) && (rest == [] || rest[0] in ";#")
    ensures ParseLine(c, lead + rest, skipped) == Nothing
  {
    hide Rstrip, Lskip, PairOf, SectionOf;
    if rest == [] {
      assert lead + rest == [] + lead;
      StripsBlanks([], lead);
      SkipsBlanks([], []);
      assert [] + [] == rest;
    } else {
      assert rest[0] !in BLANKS;
      assert lead + rest == lead + [rest[0]] + rest[1..];
      StripsTail(lead + [rest[0]], rest[1..]);
      var body := [rest[0]] + Rstrip(rest[1..]);
      assert lead + [rest[0]] + Rstrip(rest[1..]) == lead + body;
      SkipsBlanks(lead, body);
    }
  }

  /** A line that is none of these and has neither an equals sign nor a colon is an error. */
  lemma NoMarkMeans(c: Context, text: string, trail: string)
    requires Trimmed(text) && text != [] && text[0] !in ";#[" && Blank(trail)
    requires forall i :: 0 <= i < |text| ==> text[i] !in "=:"
    ensures ParseLine(c, text + trail, 0) == Malformed
  {
    hide Rstrip, Lskip, SectionOf;
    StripsBlanks(text, trail);
    SkipsBlanks([], text);
    assert [] + text == text;
  }

  /** And so is a section line without its closing bracket. */
  lemma UnclosedMeans(c: Context, text: string)
    requires ']' !in text
    ensures ParseLine(c, "[" + text, 0) == Malformed
  {
    hide Rstrip, Lskip, PairOf;
    StripsTail("[", text);
    var body := "[" + Rstrip(text);
    SkipsBlanks([], body);
    assert [] + body == body && body[1..] == Rstrip(text);
  }

  // ---------- files ----------

  lemma OneMoreLine(lines: seq<string>, line: string, accept: nat -> bool)
    requires lines != [] || !(BOM <= line)
    ensures var p := Parse(lines, accept);
            Parse(lines + [line], accept) == Advance(p, ParseLine(p.context, line, 0), |lines| + 1, accept)
  {
    hide ParseLine, Advance;
    assert (lines + [line])[..|lines|] == lines;
  }

  lemma SectionParsed(lines: seq<string>, name: string, rest: string, accept: nat -> bool)
    requires PlainSection(name)
    ensures var p := Parse(lines + [SectionText(name, rest)], accept);
            && p.context == Context(Cut(name, 49), []) && p.calls == Parse(lines, accept).calls
            && p.error == Parse(lines, accept).error
  {
    hide ParseLine, Parse;
    assert SectionText(name, rest)[0] == '[';
    SectionMeans(Parse(lines, accept).context, name, rest);
    OneMoreLine(lines, SectionText(name, rest), accept);
  }

  /**
   After a section line every line with a name and a value is a call about that section, even an indented one: the
   section has forgotten the name before it.
   */
  lemma PairAfterSection(lines: seq<string>, section: string, rest: string, t: Written, accept: nat -> bool)
    requires PlainSection(section) && PairForm(t)
    ensures var p, q := Parse(lines, accept), Parse(lines + [SectionText(section, rest), PairText(t)], accept);
            && q.calls == p.calls + [Call(Cut(section, 49), t.name, t.value)]
            && q.context == Context(Cut(section, 49), Cut(t.name, 49))
            && q.error == if p.error != 0 then p.error else if accept(|p.calls|) then 0 else |lines| + 2
  {
    hide ParseLine, Parse, PairText, SectionText, PairForm;
    var first, second := SectionText(section, rest), PairText(t);
    SectionParsed(lines, section, rest, accept);
    PairMeans(Context(Cut(section, 49), []), t);
    OneMoreLine(lines + [first], second, accept);
    assert lines + [first] + [second] == lines + [first, second];
  }

  /** A further line of a value. */
  datatype More = More(lead: string, text: string, trail: string)

  ghost predicate MoreForm(m: More) {
    && Blank(m.lead) && m.lead != [] && Blank(m.trail)
    && Trimmed(m.text) && m.text != [] && m.text[0] !in ";#"
  }

  function MoreTexts(more: seq<More>): seq<string> {
    seq(|more|, i requires 0 <= i < |more| => more[i].lead + more[i].text + more[i].trail)
  }

  function Continued(section: string, name: string, more: seq<More>): seq<Call> {
    seq(|more|, i requires 0 <= i < |more| => Call(section, name, more[i].text))
  }

  lemma {:induction false} MoreContinues(lines: seq<string>, more: seq<More>, accept: nat -> bool)
    requires lines != [] && Parse(lines, accept).context.prevName != []
    requires forall i :: 0 <= i < |more| ==> MoreForm(more[i])
    ensures var p, q := Parse(lines, accept), Parse(lines + MoreTexts(more), accept);
            && q.context == p.context && q.calls == p.calls + Continued(p.context.section, p.context.prevName, more)
  {
    hide Parse, ParseLine;
    var p := Parse(lines, accept);
    if more == [] {
      assert lines + MoreTexts(more) == lines;
      assert p.calls + Continued(p.context.section, p.context.prevName, more) == p.calls;
    } else {
      var less, m := more[..|more| - 1], more[|more| - 1];
      MoreContinues(lines, less, accept);
      ContinuationMeans(p.context, m.lead, m.text, m.trail);
      OneMoreLine(lines + MoreTexts(less), m.lead + m.text + m.trail, accept);
      assert lines + MoreTexts(less) + [m.lead + m.text + m.trail] == lines + MoreTexts(more);
      assert Continued(p.context.section, p.context.prevName, more)
          == Continued(p.context.section, p.context.prevName, less)
             + [Call(p.context.section, p.context.prevName, m.text)];
    }
  }

  /** Indented lines after a line with a name and a value continue that name, cut to 49 characters. */
  lemma MoreAfterPair(lines: seq<string>, section: string, rest: string, t: Written, more: seq<More>,
                      accept: nat -> bool)
    requires PlainSection(section) && PairForm(t) && t.name != []
    requires forall i :: 0 <= i < |more| ==> MoreForm(more[i])
    ensures Parse(lines + [SectionText(section, rest), PairText(t)] + MoreTexts(more), accept).calls
              == Parse(lines, accept).calls + [Call(Cut(section, 49), t.name, t.value)]
                 + Continued(Cut(section, 49), Cut(t.name, 49), more)
  {
    hide Parse, PairText, SectionText, PairForm, MoreForm;
    PairAfterSection(lines, section, rest, t, accept);
    MoreContinues(lines + [SectionText(section, rest), PairText(t)], more, accept);
  }

  /** A line that is an error makes no call, and its number is the result unless there was an error before. */
  lemma ErrorParsed(lines: seq<string>, line: string, accept: nat -> bool)
    requires lines != [] || !(BOM <= line)
    requires || (exists text, trail :: line == text + trail && Trimmed(text) && text != [] && text[0] !in ";#["
                   && Blank(trail) && forall i :: 0 <= i < |text| ==> text[i] !in "=:")
             || (line != [] && line[0] == '[' && ']' !in line)
    ensures var p, q := Parse(lines, accept), Parse(lines + [line], accept);
            q.calls == p.calls && q.context == p.context && q.error == if p.error == 0 then |lines| + 1 else p.error
  {
    hide Parse, ParseLine;
    OneMoreLine(lines, line, accept);
    var c := Parse(lines, accept).context;
    if line[0] == '[' && ']' !in line {
      assert line == "[" + line[1..];
      UnclosedMeans(c, line[1..]);
    } else {
      var text, trail :| line == text + trail && Trimmed(text) && text != [] && text[0] !in ";#["
        && Blank(trail) && forall i :: 0 <= i < |text| ==> text[i] !in "=:";
      NoMarkMeans(c, text, trail);
    }
  }

  // ---------- lines that do not count ----------

  lemma {:induction false} ParseSplits(a: seq<string>, b: seq<string>, accept: nat -> bool)
    requires a != []
    ensures Parse(a + b, accept) == ParseFrom(Parse(a, accept), |a|, b, accept)
  {
    hide ParseLine, Advance, Parse;
    if b == [] {
      assert a + b == a;
    } else {
      var less, last := b[..|b| - 1], b[|b| - 1];
      ParseSplits(a, less, accept);
      OneMoreLine(a + less, last, accept);
      assert a + less + [last] == a + b;
    }
  }

  /** Where the lines stand in the file decides nothing but the number of the error. */
  lemma {:induction false} NumbersMove(p: Progress, n: nat, lines: seq<string>, accept: nat -> bool)
    ensures var q, r := ParseFrom(p, n, lines, accept), ParseFrom(p, n + 1, lines, accept);
            && r.calls == q.calls && r.context == q.context
            && (p.error != 0 ==> q.error == r.error == p.error)
            && (p.error == 0 ==> (q.error == r.error == 0) || (q.error > n && r.error == q.error + 1))
  {
    if lines != [] {
      hide ParseLine, NextContext;
      NumbersMove(p, n, lines[..|lines| - 1], accept);
    }
  }

  lemma {:induction false} ErrorBounded(lines: seq<string>, accept: nat -> bool)
    ensures Parse(lines, accept).error <= |lines|
  {
    if lines != [] {
      hide ParseLineAt, NextContext;
      ErrorBounded(lines[..|lines| - 1], accept);
    }
  }

  /** Leaving out a blank line or a comment, wherever it stands, changes no call, and no result but by the line less. */
  lemma CommentsDoNotCount(a: seq<string>, lead: string, rest: string, b: seq<string>, accept: nat -> bool)
    requires a != [] && Blank(lead) && (rest == [] || rest[0] in ";#")
    ensures var p, q := Parse(a + b, accept), Parse(a + [lead + rest] + b, accept);
            && q.calls == p.calls && q.context == p.context
            && q.error == if p.error <= |a| then p.error else p.error + 1
  {
    hide Parse, ParseFrom, ParseLine;
    CommentMeans(Parse(a, accept).context, lead, rest, 0);
    OneMoreLine(a, lead + rest, accept);
    ParseSplits(a, b, accept);
    ParseSplits(a + [lead + rest], b, accept);
    NumbersMove(Parse(a, accept), |a|, b, accept);
    ErrorBounded(a, accept);
  }

  /** A byte order mark before the first line does not count. */
  lemma MarkDoesNotCount(line: string, b: seq<string>, accept: nat -> bool)
    requires !(['\U{EF}', '\U{BB}', '\U{BF}'] <= line)
    ensures Parse([['\U{EF}', '\U{BB}', '\U{BF}'] + line] + b, accept) == Parse([line] + b, accept)
  {
    hide ParseFrom, Rstrip, Lskip, SectionOf, PairOf, Advance;
    var marked := ['\U{EF}', '\U{BB}', '\U{BF}'] + line;
    assert marked[3..] == line;
    assert [marked][..0] == [line][..0];
    assert Parse([marked], accept) == Parse([line], accept);
    ParseSplits([marked], b, accept);
    ParseSplits([line], b, accept);
  }
}
