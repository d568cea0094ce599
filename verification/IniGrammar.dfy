/**
 The line grammar of src/ini.c, with multi-line values, a byte order mark and inline comments enabled, as pure
 functions on strings. A string here is what stands before the terminating NUL.
 */
module IniGrammar {
  import opened Options

  const INI_MAX_LINE: nat := 200
  const MAX_SECTION: nat := 50
  const MAX_NAME: nat := 50

  predicate IsSpace(c: char) {
    c == ' ' || '\t' <= c <= '\r'
  }

  function Rstrip(s: string): (r: string)
    ensures r <= s
    ensures r != [] ==> !IsSpace(r[|r| - 1])
    ensures forall i :: |r| <= i < |s| ==> IsSpace(s[i])
  {
    if s != [] && IsSpace(s[|s| - 1]) then Rstrip(s[..|s| - 1]) else s
  }

  function Lskip(s: string): (r: string)
    ensures |r| <= |s| && s[|s| - |r|..] == r
    ensures r != [] ==> !IsSpace(r[0])
    ensures forall i :: 0 <= i < |s| - |r| ==> IsSpace(s[i])
  {
    if s != [] && IsSpace(s[0]) then Lskip(s[1..]) else s
  }

  /** A search stops at one of chars, or at a semicolon after white space. */
  predicate StopsAt(s: string, chars: string, i: nat)
    requires i < |s|
  {
    s[i] in chars || (i > 0 && IsSpace(s[i - 1]) && s[i] == ';')
  }

  /** The first stop at or after from, or the end. */
  function FindFrom(s: string, chars: string, from: nat): (i: nat)
    requires from <= |s|
    ensures from <= i <= |s|
    ensures i < |s| ==> StopsAt(s, chars, i)
    ensures forall j :: from <= j < i ==> !StopsAt(s, chars, j)
    decreases |s| - from
  {
    if from == |s| || StopsAt(s, chars, from) then from else FindFrom(s, chars, from + 1)
  }

  function Find(s: string, chars: string): (i: nat)
    ensures i <= |s|
  {
    FindFrom(s, chars, 0)
  }

  function Truncate(s: string, n: nat): string {
    if |s| > n then s[..n] else s
  }

  datatype Call = Call(section: string, name: string, value: string)

  /** The current section, and the name a continuation line belongs to. */
  datatype Context = Context(section: string, prevName: string)

  datatype Outcome =
    | Nothing
    | Malformed
    | Section(name: string)
    | Continue(call: Call)
    | Pair(call: Call)

  /** The name of a section line that starts with a bracket, if the bracket is closed. */
  function SectionOf(body: string): Option<string>
    requires body != []
  {
    var rest := body[1..];
    var end := Find(rest, "]");
    if end < |rest| && rest[end] == ']' then Some(Truncate(rest[..end], MAX_SECTION - 1)) else None
  }

  /** The value after a delimiter, without white space around it or an inline comment. */
  function ValueOf(rest: string): string {
    var value := Lskip(rest);
    Rstrip(value[..Find(value, [])])
  }

  /** The name and value of a line with a delimiter. */
  function PairOf(body: string): Option<(string, string)> {
    var end := Find(body, "=:");
    if end < |body| && body[end] in "=:" then Some((Rstrip(body[..end]), ValueOf(body[end + 1..]))) else None
  }

  /** What a stripped line means; an indented one can continue the value of the name before it. */
  function ParseBody(c: Context, body: string, indented: bool): Outcome {
    if body == [] || body[0] in ";#" then Nothing
    else if c.prevName != [] && indented then Continue(Call(c.section, c.prevName, body))
    else if body[0] == '[' then
      match SectionOf(body)
      case Some(name) => Section(name)
      case None => Malformed
    else
      match PairOf(body)
      case Some(pair) => Pair(Call(c.section, pair.0, pair.1))
      case None => Malformed
  }

  /** What a line means, given how many characters before it were skipped as a byte order mark. */
  function ParseLine(c: Context, text: string, skipped: nat): Outcome {
    var stripped := Rstrip(text);
    var body := Lskip(stripped);
    ParseBody(c, body, skipped + |stripped| - |body| > 0)
  }

  function NextContext(c: Context, o: Outcome): Context {
    match o
    case Section(name) => Context(name, [])
    case Pair(call) => c.(prevName := Truncate(call.name, MAX_NAME - 1))
    case _ => c
  }

  const BOM := ['\U{EF}', '\U{BB}', '\U{BF}']

  function ParseLineAt(c: Context, line: string, lineno: nat): Outcome {
    if lineno == 1 && BOM <= line then ParseLine(c, line[3..], 3) else ParseLine(c, line, 0)
  }

  datatype Progress = Progress(context: Context, calls: seq<Call>, error: nat)

  /** accept says whether the handler takes its i-th call. */
  function Advance(p: Progress, o: Outcome, lineno: nat, accept: nat -> bool): Progress {
    var bad := o.Malformed? || ((o.Continue? || o.Pair?) && !accept(|p.calls|));
    Progress(NextContext(p.context, o),
             if o.Continue? || o.Pair? then p.calls + [o.call] else p.calls,
             if bad && p.error == 0 then lineno else p.error)
  }

  /** The functional parser over a sequence of lines. */
  function Parse(lines: seq<string>, accept: nat -> bool): Progress {
    if lines == [] then Progress(Context([], []), [], 0)
    else
      var p := Parse(lines[..|lines| - 1], accept);
      Advance(p, ParseLineAt(p.context, lines[|lines| - 1], |lines|), |lines|, accept)
  }

  /** Line k, counted from 0, is malformed or its handler call is rejected. */
  predicate Bad(lines: seq<string>, accept: nat -> bool, k: nat)
    requires k < |lines|
  {
    var p := Parse(lines[..k], accept);
    var o := ParseLineAt(p.context, lines[k], k + 1);
    o.Malformed? || ((o.Continue? || o.Pair?) && !accept(|p.calls|))
  }

  lemma {:induction false} BadInPrefix(lines: seq<string>, accept: nat -> bool, k: nat)
    requires k < |lines| - 1
    ensures Bad(lines[..|lines| - 1], accept, k) <==> Bad(lines, accept, k)
  {
    assert lines[..|lines| - 1][..k] == lines[..k];
  }

  lemma LastStep(lines: seq<string>, accept: nat -> bool)
    requires lines != []
    ensures var e := Parse(lines[..|lines| - 1], accept).error;
            Parse(lines, accept).error
            == if e != 0 then e else if Bad(lines, accept, |lines| - 1) then |lines| else 0
  {
  }

  /** The result is the number of the first bad line, or 0 if there is none. */
  lemma {:induction false} ErrorIsFirstBad(lines: seq<string>, accept: nat -> bool)
    ensures var e := Parse(lines, accept).error;
            && e <= |lines|
            && (e == 0 <==> forall k :: 0 <= k < |lines| ==> !Bad(lines, accept, k))
            && (e > 0 ==> Bad(lines, accept, e - 1) && forall k :: 0 <= k < e - 1 ==> !Bad(lines, accept, k))
  {
    hide Bad, ParseLineAt, Advance;
    if lines != [] {
      hide Parse;
      var prefix := lines[..|lines| - 1];
      ErrorIsFirstBad(prefix, accept);
      LastStep(lines, accept);
      forall k | 0 <= k < |prefix| ensures Bad(prefix, accept, k) <==> Bad(lines, accept, k) {
        BadInPrefix(lines, accept, k);
      }
    }
  }

  /** Parsing goes on after errors: the calls made do not depend on what the handler answers. */
  lemma {:induction false} CallsIgnoreAnswers(lines: seq<string>, a: nat -> bool, b: nat -> bool)
    ensures Parse(lines, a).calls == Parse(lines, b).calls && Parse(lines, a).context == Parse(lines, b).context
  {
    if lines != [] {
      CallsIgnoreAnswers(lines[..|lines| - 1], a, b);
    }
  }

  // ---------- which names and values a file can hold ----------

  predicate Stripped(s: string) {
    s != [] ==> !IsSpace(s[0]) && !IsSpace(s[|s| - 1])
  }

  predicate NoStops(s: string, chars: string) {
    forall i :: 0 <= i < |s| ==> !StopsAt(s, chars, i)
  }

  predicate NormalName(s: string) {
    Stripped(s) && NoStops(s, "=:") && (s != [] ==> s[0] !in ";#[")
  }

  predicate NormalValue(s: string) {
    Stripped(s) && NoStops(s, [])
  }

  predicate NormalContinuation(s: string) {
    s != [] && Stripped(s) && s[0] !in ";#"
  }

  predicate NormalSection(s: string) {
    |s| < MAX_SECTION && NoStops(s, "]")
  }

  lemma StripsTo(s: string, t: string)
    requires |t| <= |s| && s[..|t|] == t && (t != [] ==> !IsSpace(t[|t| - 1]))
    requires forall i :: |t| <= i < |s| ==> IsSpace(s[i])
    ensures Rstrip(s) == t
  {
  }

  lemma {:induction false} SkipsTo(s: string, k: nat)
    requires k <= |s| && (k < |s| ==> !IsSpace(s[k])) && forall i :: 0 <= i < k ==> IsSpace(s[i])
    ensures Lskip(s) == s[k..]
  {
  }

  lemma FindIs(s: string, chars: string, n: nat)
    requires n <= |s| && (n < |s| ==> StopsAt(s, chars, n)) && forall j :: 0 <= j < n ==> !StopsAt(s, chars, j)
    ensures Find(s, chars) == n
  {
  }

  lemma SkipsNone(s: string)
    requires s == [] || !IsSpace(s[0])
    ensures Lskip(s) == s
  {
  }

  /** A line break after a text that ends in no white space is all that is stripped from its end. */
  lemma LineBreakStripped(body: string)
    requires body != [] && !IsSpace(body[|body| - 1])
    ensures Rstrip(body + "\n") == body
  {
  }

  lemma ValueOfNormal(value: string)
    requires NormalValue(value)
    ensures ValueOf(value) == value
  {
    hide StopsAt, Rstrip;
    SkipsNone(value);
    FindIs(value, [], |value|);
    assert value[..|value|] == value;
    StripsTo(value, value);
  }

  lemma PairOfPrinted(name: string, value: string)
    requires NormalName(name) && NormalValue(value)
    ensures PairOf(name + "=" + value) == Some((name, value))
  {
    hide Rstrip, ValueOf, IsSpace;
    var body := name + "=" + value;
    forall j | 0 <= j < |name| ensures !StopsAt(body, "=:", j) {
      assert body[j] == name[j] && (j > 0 ==> body[j - 1] == name[j - 1]);
      assert !StopsAt(name, "=:", j);
    }
    assert body[|name|] == '=';
    FindIs(body, "=:", |name|);
    assert body[..|name|] == name && body[|name| + 1..] == value;
    StripsTo(name, name);
    ValueOfNormal(value);
  }

  /** The name=value line of a normal pair means exactly that pair, in any context. */
  lemma PairLine(c: Context, name: string, value: string)
    requires NormalName(name) && NormalValue(value)
    ensures ParseLine(c, name + "=" + value + "\n", 0) == Pair(Call(c.section, name, value))
  {
    hide PairOf, SectionOf, Rstrip, Lskip, NormalValue, NoStops;
    var body := name + "=" + value;
    NormalEnds(name, value);
    LineBreakStripped(body);
    assert body + "\n" == name + "=" + value + "\n";
    SkipsNone(body);
    PairOfPrinted(name, value);
  }

  lemma NormalEnds(name: string, value: string)
    requires NormalName(name) && NormalValue(value)
    ensures var body := name + "=" + value;
            && !IsSpace(body[0]) && !IsSpace(body[|body| - 1]) && body[0] !in ";#["
  {
  }

  lemma ValuesAreNormal(rest: string)
    ensures NormalValue(ValueOf(rest))
  {
    hide Rstrip, Lskip;
    var skipped := Lskip(rest);
    var cut := Find(skipped, []);
    var value := Rstrip(skipped[..cut]);
    forall i | 0 <= i < |value| ensures !StopsAt(value, [], i) {
      assert !StopsAt(skipped, [], i);
      assert value[i] == skipped[i] && (i > 0 ==> value[i - 1] == skipped[i - 1]);
    }
    assert value != [] ==> value[0] == skipped[0];
  }

  lemma NamesAreNormal(body: string, end: nat)
    requires end == Find(body, "=:") && (body != [] ==> !IsSpace(body[0]) && body[0] !in ";#[")
    ensures end <= |body| && NormalName(Rstrip(body[..end]))
  {
    hide Rstrip;
    var name := Rstrip(body[..end]);
    forall i | 0 <= i < |name| ensures !StopsAt(name, "=:", i) {
      assert !StopsAt(body, "=:", i);
      assert name[i] == body[i] && (i > 0 ==> name[i - 1] == body[i - 1]);
    }
    assert name != [] ==> name[0] == body[0];
  }

  lemma PairOfIsNormal(body: string)
    ensures PairOf(body).Some? && (body != [] ==> !IsSpace(body[0]) && body[0] !in ";#[") ==>
              NormalName(PairOf(body).value.0) && NormalValue(PairOf(body).value.1)
  {
    hide Rstrip, ValueOf, Find, NormalName, NormalValue;
    if PairOf(body).Some? && (body != [] ==> !IsSpace(body[0]) && body[0] !in ";#[") {
      var end := Find(body, "=:");
      NamesAreNormal(body, end);
      ValuesAreNormal(body[end + 1..]);
    }
  }

  /** Whatever a name=value line says, the pair it means is normal. */
  lemma PairsAreNormal(c: Context, text: string, skipped: nat)
    requires ParseLine(c, text, skipped).Pair?
    ensures NormalName(ParseLine(c, text, skipped).call.name)
    ensures NormalValue(ParseLine(c, text, skipped).call.value)
  {
    hide Rstrip, Lskip, PairOf, SectionOf, NormalName, NormalValue;
    PairOfIsNormal(Lskip(Rstrip(text)));
  }

  /** The pairs that some line means are exactly the normal ones. */
  lemma PairsExactlyNormal(section: string, name: string, value: string)
    ensures (exists c: Context, text: string :: ParseLine(c, text, 0) == Pair(Call(section, name, value)))
            <==> NormalName(name) && NormalValue(value)
  {
    hide ParseLine, NormalName, NormalValue;
    if NormalName(name) && NormalValue(value) {
      PairLine(Context(section, []), name, value);
    }
    forall c: Context, text: string | ParseLine(c, text, 0) == Pair(Call(section, name, value))
      ensures NormalName(name) && NormalValue(value)
    {
      PairsAreNormal(c, text, 0);
    }
  }

  lemma SectionOfPrinted(name: string)
    ensures SectionOf("[" + name + "]") == Some(name) <==> NormalSection(name)
  {
    hide IsSpace;
    var rest := name + "]";
    assert ("[" + name + "]")[1..] == rest;
    var end := Find(rest, "]");
    forall j | 0 <= j < |name| ensures StopsAt(rest, "]", j) <==> StopsAt(name, "]", j) {
      assert rest[j] == name[j] && (j > 0 ==> rest[j - 1] == name[j - 1]);
    }
    assert rest[|name|] == ']' && StopsAt(rest, "]", |name|);
    if NormalSection(name) {
      FindIs(rest, "]", |name|);
      assert rest[..|name|] == name;
    } else {
      assert |rest[..end]| == end && end <= |name|;
    }
  }

  /** A section line means its section exactly when the name is normal. */
  lemma SectionLine(c: Context, name: string)
    ensures ParseLine(c, "[" + name + "]\n", 0) == Section(name) <==> NormalSection(name)
  {
    hide PairOf, SectionOf, Rstrip, Lskip, NormalSection;
    var body := "[" + name + "]";
    LineBreakStripped(body);
    assert body + "\n" == "[" + name + "]\n";
    SkipsNone(body);
    SectionOfPrinted(name);
  }

  /** An indented line continues the previous name exactly when there is one and the text is normal. */
  lemma ContinuationLine(c: Context, s: string)
    ensures ParseLine(c, " " + s + "\n", 0) == Continue(Call(c.section, c.prevName, s))
            <==> c.prevName != [] && NormalContinuation(s)
  {
    hide PairOf, SectionOf, Rstrip;
    var text := " " + s + "\n";
    if NormalContinuation(s) {
      LineBreakStripped(" " + s);
      assert " " + s + "\n" == text;
      assert (" " + s)[1..] == s;
      SkipsNone(s);
    } else {
      hide Lskip;
      var body := Lskip(Rstrip(text));
      assert |Rstrip(text)| <= |text|;
    }
  }
}
