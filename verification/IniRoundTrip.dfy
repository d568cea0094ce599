/** Printing a configuration and parsing it again (src/ini.c), from the text of the file on. */
module IniRoundTrip {
  import opened IniGrammar

  /** A name, its value, and the further values on continuation lines. */
  datatype Entry = Entry(name: string, value: string, more: seq<string>)

  datatype Block = Block(section: string, entries: seq<Entry>)

  // ---------- the canonical printer ----------

  function MoreLines(more: seq<string>): seq<string> {
    if more == [] then [] else MoreLines(more[..|more| - 1]) + [" " + more[|more| - 1] + "\n"]
  }

  function EntryLines(e: Entry): seq<string> {
    [e.name + "=" + e.value + "\n"] + MoreLines(e.more)
  }

  function EntriesLines(es: seq<Entry>): seq<string> {
    if es == [] then [] else EntriesLines(es[..|es| - 1]) + EntryLines(es[|es| - 1])
  }

  function BlockLines(b: Block): seq<string> {
    ["[" + b.section + "]\n"] + EntriesLines(b.entries)
  }

  function Lines(doc: seq<Block>): seq<string> {
    if doc == [] then [] else Lines(doc[..|doc| - 1]) + BlockLines(doc[|doc| - 1])
  }

  // ---------- the handler calls a configuration stands for ----------

  function MoreCalls(section: string, name: string, more: seq<string>): seq<Call> {
    if more == [] then []
    else MoreCalls(section, name, more[..|more| - 1]) + [Call(section, name, more[|more| - 1])]
  }

  function EntryCalls(section: string, e: Entry): seq<Call> {
    [Call(section, e.name, e.value)] + MoreCalls(section, e.name, e.more)
  }

  function EntriesCalls(section: string, es: seq<Entry>): seq<Call> {
    if es == [] then [] else EntriesCalls(section, es[..|es| - 1]) + EntryCalls(section, es[|es| - 1])
  }

  function Calls(doc: seq<Block>): seq<Call> {
    if doc == [] then []
    else Calls(doc[..|doc| - 1]) + EntriesCalls(doc[|doc| - 1].section, doc[|doc| - 1].entries)
  }

  // ---------- what can be printed ----------

  /** A name that continuation lines can refer to: it is remembered whole. */
  predicate Printable(e: Entry) {
    && NormalName(e.name) && NormalValue(e.value)
    && (e.more != [] ==> e.name != [] && |e.name| < MAX_NAME)
    && (forall i :: 0 <= i < |e.more| ==> NormalContinuation(e.more[i]))
  }

  predicate PrintableBlock(b: Block) {
    NormalSection(b.section) && forall i :: 0 <= i < |b.entries| ==> Printable(b.entries[i])
  }

  predicate PrintableDoc(doc: seq<Block>) {
    forall i :: 0 <= i < |doc| ==> PrintableBlock(doc[i])
  }

  // ---------- parsing a continuation of the input ----------

  /** Parsing on from p, which has read n lines, without a byte order mark. */
  function ParseFrom(p: Progress, n: nat, lines: seq<string>, accept: nat -> bool): Progress {
    if lines == [] then p
    else
      var q := ParseFrom(p, n, lines[..|lines| - 1], accept);
      Advance(q, ParseLine(q.context, lines[|lines| - 1], 0), n + |lines|, accept)
  }

  lemma {:induction false} ParseFromSplits(p: Progress, n: nat, a: seq<string>, b: seq<string>, accept: nat -> bool)
    ensures ParseFrom(p, n, a + b, accept) == ParseFrom(ParseFrom(p, n, a, accept), n + |a|, b, accept)
  {
    if b == [] {
      assert a + b == a;
    } else {
      ParseFromSplits(p, n, a, b[..|b| - 1], accept);
      assert (a + b)[..|a + b| - 1] == a + b[..|b| - 1];
    }
  }

  lemma {:induction false} ParseIsParseFrom(lines: seq<string>, accept: nat -> bool)
    requires lines != [] ==> !(BOM <= lines[0])
    ensures Parse(lines, accept) == ParseFrom(Progress(Context([], []), [], 0), 0, lines, accept)
  {
    if lines != [] {
      var prefix := lines[..|lines| - 1];
      assert prefix != [] ==> prefix[0] == lines[0];
      ParseIsParseFrom(prefix, accept);
    }
  }

  /** q is p after the given calls were made and accepted, in the given context. */
  ghost predicate Made(p: Progress, q: Progress, context: Context, calls: seq<Call>, accept: nat -> bool) {
    && q.context == context && q.calls == p.calls + calls
    && ((forall i :: |p.calls| <= i < |p.calls| + |calls| ==> accept(i)) ==> q.error == p.error)
  }

  lemma MadeNone(p: Progress, accept: nat -> bool)
    ensures Made(p, p, p.context, [], accept)
  {
  }

  lemma MadeThen(p: Progress, q: Progress, r: Progress, c: Context, d: Context, a: seq<Call>, b: seq<Call>,
                 accept: nat -> bool)
    requires Made(p, q, c, a, accept) && Made(q, r, d, b, accept)
    ensures Made(p, r, d, a + b, accept)
  {
  }

  lemma {:induction false} MoreParsed(p: Progress, n: nat, more: seq<string>, accept: nat -> bool)
    requires p.context.prevName != [] && forall i :: 0 <= i < |more| ==> NormalContinuation(more[i])
    ensures Made(p, ParseFrom(p, n, MoreLines(more), accept), p.context,
                 MoreCalls(p.context.section, p.context.prevName, more), accept)
    ensures |MoreLines(more)| == |more| == |MoreCalls(p.context.section, p.context.prevName, more)|
  {
    hide Made, ParseLine;
    if more == [] {
      MadeNone(p, accept);
    } else {
      hide ParseFrom;
      var less := more[..|more| - 1];
      MoreParsed(p, n, less, accept);
      var q := ParseFrom(p, n, MoreLines(less), accept);
      var line := " " + more[|more| - 1] + "\n";
      SameContext(p, q, p.context, MoreCalls(p.context.section, p.context.prevName, less), accept);
      ContinuationLine(p.context, more[|more| - 1]);
      One(q, n + |less|, line, accept);
      OneMade(q, Continue(Call(p.context.section, p.context.prevName, more[|more| - 1])), n + |less| + 1, accept);
      ParseFromSplits(p, n, MoreLines(less), [line], accept);
      MadeThen(p, q, ParseFrom(p, n, MoreLines(more), accept), p.context, p.context,
               MoreCalls(p.context.section, p.context.prevName, less),
               [Call(p.context.section, p.context.prevName, more[|more| - 1])], accept);
    }
  }

  lemma SameContext(p: Progress, q: Progress, c: Context, calls: seq<Call>, accept: nat -> bool)
    requires Made(p, q, c, calls, accept)
    ensures q.context == c
  {
  }

  lemma OneMade(p: Progress, o: Outcome, lineno: nat, accept: nat -> bool)
    requires !o.Malformed?
    ensures Made(p, Advance(p, o, lineno, accept), NextContext(p.context, o),
                 if o.Continue? || o.Pair? then [o.call] else [], accept)
  {
  }

  lemma EntryParsed(p: Progress, n: nat, e: Entry, accept: nat -> bool)
    requires Printable(e)
    ensures Made(p, ParseFrom(p, n, EntryLines(e), accept), Context(p.context.section, Truncate(e.name, MAX_NAME - 1)),
                 EntryCalls(p.context.section, e), accept)
  {
    hide ParseLine, NormalName, NormalValue, NormalContinuation;
    var line := [e.name + "=" + e.value + "\n"];
    PairLine(p.context, e.name, e.value);
    One(p, n, line[0], accept);
    var q := ParseFrom(p, n, line, accept);
    ParseFromSplits(p, n, line, MoreLines(e.more), accept);
    if e.more != [] {
      MoreParsed(q, n + 1, e.more, accept);
    } else {
      assert MoreLines(e.more) == [] && MoreCalls(p.context.section, e.name, e.more) == [];
    }
  }

  lemma One(p: Progress, n: nat, line: string, accept: nat -> bool)
    ensures ParseFrom(p, n, [line], accept) == Advance(p, ParseLine(p.context, line, 0), n + 1, accept)
  {
  }

  lemma {:induction false} EntriesParsed(p: Progress, n: nat, es: seq<Entry>, accept: nat -> bool)
    requires forall i :: 0 <= i < |es| ==> Printable(es[i])
    ensures exists prev :: Made(p, ParseFrom(p, n, EntriesLines(es), accept), Context(p.context.section, prev),
                                EntriesCalls(p.context.section, es), accept)
  {
    hide Printable, EntryLines, EntryCalls, Made, ParseFrom;
    if es == [] {
      EmptyParsed(p, n, accept);
      MadeNone(p, accept);
      assert Made(p, p, Context(p.context.section, p.context.prevName), [], accept);
    } else {
      var less, e := es[..|es| - 1], es[|es| - 1];
      var section := p.context.section;
      EntriesParsed(p, n, less, accept);
      ParseFromSplits(p, n, EntriesLines(less), EntryLines(e), accept);
      var q := ParseFrom(p, n, EntriesLines(less), accept);
      var prev :| Made(p, q, Context(section, prev), EntriesCalls(section, less), accept);
      SameContext(p, q, Context(section, prev), EntriesCalls(section, less), accept);
      EntryParsed(q, n + |EntriesLines(less)|, e, accept);
      MadeThen(p, q, ParseFrom(p, n, EntriesLines(es), accept), Context(section, prev),
               Context(section, Truncate(e.name, MAX_NAME - 1)), EntriesCalls(section, less),
               EntryCalls(section, e), accept);
    }
  }

  lemma EmptyParsed(p: Progress, n: nat, accept: nat -> bool)
    ensures ParseFrom(p, n, [], accept) == p
  {
  }

  lemma BlockParsed(p: Progress, n: nat, b: Block, accept: nat -> bool)
    requires PrintableBlock(b)
    ensures exists prev :: Made(p, ParseFrom(p, n, BlockLines(b), accept), Context(b.section, prev),
                                EntriesCalls(b.section, b.entries), accept)
  {
    hide Printable, ParseLine, NormalSection, EntriesLines, EntriesCalls;
    var line := "[" + b.section + "]\n";
    SectionLine(p.context, b.section);
    One(p, n, line, accept);
    ParseFromSplits(p, n, [line], EntriesLines(b.entries), accept);
    EntriesParsed(ParseFrom(p, n, [line], accept), n + 1, b.entries, accept);
  }

  lemma {:induction false} DocParsed(p: Progress, n: nat, doc: seq<Block>, accept: nat -> bool)
    requires PrintableDoc(doc)
    ensures exists c :: Made(p, ParseFrom(p, n, Lines(doc), accept), c, Calls(doc), accept)
  {
    hide PrintableBlock, BlockLines, EntriesCalls, Made, ParseFrom;
    if doc == [] {
      EmptyParsed(p, n, accept);
      MadeNone(p, accept);
      assert Lines(doc) == [] && Calls(doc) == [];
      assert Made(p, ParseFrom(p, n, Lines(doc), accept), p.context, Calls(doc), accept);
    } else {
      var less, b := doc[..|doc| - 1], doc[|doc| - 1];
      DocParsed(p, n, less, accept);
      ParseFromSplits(p, n, Lines(less), BlockLines(b), accept);
      var q := ParseFrom(p, n, Lines(less), accept);
      var c :| Made(p, q, c, Calls(less), accept);
      BlockParsed(q, n + |Lines(less)|, b, accept);
      var r := ParseFrom(p, n, Lines(doc), accept);
      var prev :| Made(q, r, Context(b.section, prev), EntriesCalls(b.section, b.entries), accept);
      MadeThen(p, q, r, c, Context(b.section, prev), Calls(less), EntriesCalls(b.section, b.entries), accept);
      assert Calls(doc) == Calls(less) + EntriesCalls(b.section, b.entries);
      assert Made(p, r, Context(b.section, prev), Calls(doc), accept);
    }
  }

  /**
   Parsing the printed lines of a configuration makes exactly the calls it stands for, and gives 0 when the handler
   accepts each of them.
   */
  lemma RoundTripLines(doc: seq<Block>, accept: nat -> bool)
    requires PrintableDoc(doc)
    ensures Parse(Lines(doc), accept).calls == Calls(doc)
    ensures (forall i :: 0 <= i < |Calls(doc)| ==> accept(i)) ==> Parse(Lines(doc), accept).error == 0
  {
    var start := Progress(Context([], []), [], 0);
    StartsWithBracket(doc);
    ParseIsParseFrom(Lines(doc), accept);
    DocParsed(start, 0, doc, accept);
    assert [] + Calls(doc) == Calls(doc);
  }

  lemma {:induction false} StartsWithBracket(doc: seq<Block>)
    ensures Lines(doc) != [] ==> Lines(doc)[0] != [] && Lines(doc)[0][0] == '['
  {
    if doc != [] {
      StartsWithBracket(doc[..|doc| - 1]);
      if |doc| == 1 {
        assert Lines(doc[..0]) == [];
      }
    }
  }

  // ---------- from the text of the file ----------

  function Concat(lines: seq<string>): string {
    if lines == [] then [] else lines[0] + Concat(lines[1..])
  }

  /** The characters fgets takes: up to a line break, at most INI_MAX_LINE - 1. */
  function LineLength(text: string, from: nat): (n: nat)
    requires from <= |text| && from < INI_MAX_LINE
    ensures from <= n <= |text| && n < INI_MAX_LINE
    ensures from < |text| && from < INI_MAX_LINE - 1 ==> from < n
    decreases |text| - from
  {
    if from == |text| || from == INI_MAX_LINE - 1 then from
    else if text[from] == '\n' then from + 1
    else LineLength(text, from + 1)
  }

  /** The lines that repeated calls of fgets deliver. */
  function Fgets(text: string): seq<string>
    decreases |text|
  {
    if text == [] then []
    else
      var n := LineLength(text, 0);
      [text[..n]] + Fgets(text[n..])
  }

  lemma {:induction false} LineLengthStops(text: string, from: nat)
    requires from <= |text| && from < INI_MAX_LINE
    ensures var n := LineLength(text, from);
            && (forall i :: from <= i < n - 1 ==> text[i] != '\n')
            && (n == |text| || n == 199 || (n > from && text[n - 1] == '\n'))
    decreases |text| - from
  {
    if from < |text| && from < INI_MAX_LINE - 1 && text[from] != '\n' {
      LineLengthStops(text, from + 1);
    }
  }

  /** Every piece but the last is a whole line, or 199 characters of one. */
  ghost predicate Pieces(lines: seq<string>) {
    forall k :: 0 <= k < |lines| ==>
      && 0 < |lines[k]| <= 199
      && (forall i :: 0 <= i < |lines[k]| - 1 ==> lines[k][i] != '\n')
      && (k == |lines| - 1 || |lines[k]| == 199 || lines[k][|lines[k]| - 1] == '\n')
  }

  /** Nothing of a text is lost, whatever the length of its lines: the pieces make it up, and end where lines end. */
  lemma {:induction false} FgetsLosesNothing(text: string)
    ensures Concat(Fgets(text)) == text && Pieces(Fgets(text))
    decreases |text|
  {
    hide LineLength, Pieces, Fgets, Concat;
    FgetsUnfolds(text);
    if text != [] {
      var n := LineLength(text, 0);
      LineLengthStops(text, 0);
      FgetsLosesNothing(text[n..]);
      FgetsUnfolds(text[n..]);
      PiecesNext(text[..n], Fgets(text[n..]));
      ConcatNext(text[..n], Fgets(text[n..]));
      assert text[..n] + text[n..] == text;
    } else {
      NoPieces();
    }
  }

  lemma FgetsUnfolds(text: string)
    ensures text == [] ==> Fgets(text) == []
    ensures text != [] ==>
              var n := LineLength(text, 0); Fgets(text) == [text[..n]] + Fgets(text[n..])
  {
    hide LineLength;
  }

  lemma ConcatNext(line: string, rest: seq<string>)
    ensures Concat([line] + rest) == line + Concat(rest)
  {
    assert ([line] + rest)[1..] == rest;
  }

  lemma NoPieces()
    ensures Concat([]) == [] && Pieces([])
  {
  }

  lemma PiecesNext(line: string, rest: seq<string>)
    requires Pieces(rest) && 0 < |line| <= 199 && forall i :: 0 <= i < |line| - 1 ==> line[i] != '\n'
    requires rest == [] || |line| == 199 || line[|line| - 1] == '\n'
    ensures Pieces([line] + rest)
  {
    var all := [line] + rest;
    forall k | 0 <= k < |all| ensures all[k] == if k == 0 then line else rest[k - 1] {
    }
  }

  /** A line as fgets delivers it whole. */
  predicate IsLine(s: string) {
    && 0 < |s| < INI_MAX_LINE && s[|s| - 1] == '\n'
    && forall i :: 0 <= i < |s| - 1 ==> s[i] != '\n'
  }

  lemma {:induction false} LineLengthIs(line: string, rest: string, from: nat)
    requires IsLine(line) && from < |line|
    ensures LineLength(line + rest, from) == |line|
    decreases |line| - from
  {
    var text := line + rest;
    assert text[from] == line[from];
    if text[from] != '\n' {
      LineLengthIs(line, rest, from + 1);
    }
  }

  lemma {:induction false} FgetsSplits(lines: seq<string>)
    requires forall i :: 0 <= i < |lines| ==> IsLine(lines[i])
    ensures Fgets(Concat(lines)) == lines
  {
    if lines != [] {
      FgetsSplits(lines[1..]);
      LineLengthIs(lines[0], Concat(lines[1..]), 0);
      var text := Concat(lines);
      assert text[..|lines[0]|] == lines[0] && text[|lines[0]|..] == Concat(lines[1..]);
    }
  }

  /**
   Round trip: reading back the text of a printed configuration, all of whose lines fit the line buffer and hold no
   inner line break, makes exactly the calls it stands for, and gives 0 when the handler accepts each of them.
   */
  lemma RoundTrip(doc: seq<Block>, accept: nat -> bool)
    requires PrintableDoc(doc) && forall i :: 0 <= i < |Lines(doc)| ==> IsLine(Lines(doc)[i])
    ensures var p := Parse(Fgets(Concat(Lines(doc))), accept);
            && p.calls == Calls(doc)
            && ((forall i :: 0 <= i < |Calls(doc)| ==> accept(i)) ==> p.error == 0)
  {
    FgetsSplits(Lines(doc));
    RoundTripLines(doc, accept);
  }
}
