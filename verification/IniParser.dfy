/** The parser of src/ini.c as it works in place on its line buffer, proved against the grammar. */
module IniParser {
  import opened Options
  import opened IniGrammar

  const NUL := '\0'

  /** The place of the first NUL, or the length. */
  function Len(q: seq<char>): (n: nat)
    ensures n <= |q|
    ensures n < |q| ==> q[n] == NUL
    ensures forall i :: 0 <= i < n ==> q[i] != NUL
  {
    if q == [] || q[0] == NUL then 0 else 1 + Len(q[1..])
  }

  /** The C string that starts a sequence of characters. */
  function CStr(q: seq<char>): string {
    q[..Len(q)]
  }

  predicate Terminated(q: seq<char>) {
    Len(q) < |q|
  }

  lemma LenIs(q: seq<char>, n: nat)
    requires n < |q| && q[n] == NUL && forall i :: 0 <= i < n ==> q[i] != NUL
    ensures Len(q) == n && Terminated(q) && CStr(q) == q[..n]
  {
  }

  lemma CStrLen(q: seq<char>)
    ensures |CStr(q)| == Len(q) && CStr(q) <= q
  {
  }

  /** A string that starts later in the same C string. */
  lemma Suffix(q: seq<char>, k: nat)
    requires Terminated(q) && k <= Len(q)
    ensures Terminated(q[k..]) && CStr(q[k..]) == CStr(q)[k..] && Len(q[k..]) == Len(q) - k
  {
  }

  /** strlen. */
  method Strlen(a: array<char>, s: nat) returns (n: nat)
    requires s <= a.Length && Terminated(a[s..])
    ensures n == Len(a[s..])
  {
    n := 0;
    while a[s + n] != NUL
      invariant n <= Len(a[s..])
      decreases Len(a[s..]) - n
    {
      assert a[s + n] == a[s..][n];
      n := n + 1;
    }
    assert a[s + n] == a[s..][n];
  }

  /** rstrip: NULs are written over the white space at the end of the string at s, and nowhere else. */
  method RstripInPlace(a: array<char>, s: nat)
    requires s <= a.Length && Terminated(a[s..])
    modifies a
    ensures Terminated(a[s..]) && CStr(a[s..]) == Rstrip(CStr(old(a[s..])))
    ensures Len(a[s..]) <= Len(old(a[s..]))
    ensures forall i :: 0 <= i < a.Length && !(s + Len(a[s..]) <= i < s + Len(old(a[s..]))) ==> a[i] == old(a[i])
  {
    hide Len, Rstrip, IsSpace;
    ghost var text := CStr(a[s..]);
    ghost var before := a[..];
    var n := Strlen(a, s);
    var p := s + n;
    while p > s && IsSpace(a[p - 1])
      invariant s <= p <= s + n < a.Length && a[p] == NUL
      invariant forall i :: 0 <= i < a.Length && !(p <= i < s + n) ==> a[i] == before[i]
      invariant forall i :: p - s <= i < n ==> IsSpace(text[i])
    {
      assert text[p - 1 - s] == before[p - 1];
      p := p - 1;
      a[p] := NUL;
    }
    assert forall i :: s <= i < p ==> a[i] == before[i] == text[i - s];
    LenIs(a[s..], p - s);
    assert a[s..][..p - s] == text[..p - s];
    StripsTo(text, text[..p - s]);
  }

  /** lskip. */
  method LskipFrom(a: array<char>, s: nat) returns (p: nat)
    requires s <= a.Length && Terminated(a[s..])
    ensures s <= p <= s + Len(a[s..]) && Terminated(a[p..]) && CStr(a[p..]) == Lskip(CStr(a[s..]))
    ensures p - s == |CStr(a[s..])| - |Lskip(CStr(a[s..]))|
  {
    hide Len, CStr, Lskip, IsSpace;
    ghost var text := CStr(a[s..]);
    CStrLen(a[s..]);
    p := s;
    while a[p] != NUL && IsSpace(a[p])
      invariant s <= p <= s + |text| && p < a.Length
      invariant forall i :: 0 <= i < p - s ==> IsSpace(text[i])
      decreases |text| - (p - s)
    {
      assert a[p] == a[s..][p - s];
      p := p + 1;
    }
    assert a[p] == a[s..][p - s];
    SkipsTo(text, p - s);
    Suffix(a[s..], p - s);
    assert a[s..][p - s..] == a[p..];
  }

  /** find_chars_or_comment; no chars stands for NULL. */
  method FindCharsOrComment(a: array<char>, s: nat, chars: string) returns (p: nat)
    requires s <= a.Length && Terminated(a[s..])
    ensures s <= p == s + Find(CStr(a[s..]), chars) && Find(CStr(a[s..]), chars) <= Len(a[s..])
  {
    ghost var text := CStr(a[s..]);
    p := s;
    var wasSpace := false;
    while a[p] != NUL && a[p] !in chars && !(wasSpace && a[p] == ';')
      invariant s <= p <= s + |text| && p < a.Length
      invariant wasSpace <==> p > s && IsSpace(text[p - s - 1])
      invariant forall j :: 0 <= j < p - s ==> !StopsAt(text, chars, j)
      decreases |text| - (p - s)
    {
      assert a[p] == a[s..][p - s];
      wasSpace := IsSpace(a[p]);
      p := p + 1;
      assert a[p] == a[s..][p - s];
    }
    assert a[p] == a[s..][p - s];
    FindIs(text, chars, p - s);
  }

  /** strncpy0: the copy is cut at one less than the room there is. */
  method Strncpy0(dest: array<char>, a: array<char>, s: nat)
    requires dest != a && dest.Length > 0 && s <= a.Length && Terminated(a[s..])
    modifies dest
    ensures Terminated(dest[..]) && CStr(dest[..]) == Truncate(CStr(a[s..]), dest.Length - 1)
  {
    ghost var text := CStr(a[s..]);
    var n := Strlen(a, s);
    for i := 0 to dest.Length
      invariant forall j :: 0 <= j < i ==> dest[j] == if j < n then text[j] else NUL
    {
      dest[i] := if i < n then a[s + i] else NUL;
      assert i < n ==> a[s + i] == a[s..][i];
    }
    dest[dest.Length - 1] := NUL;
    ghost var k := if n < dest.Length - 1 then n else dest.Length - 1;
    LenIs(dest[..], k);
    assert dest[..][..k] == text[..k];
  }

  /** The C string at s depends on the characters up to its NUL only. */
  lemma SameString(q: seq<char>, q': seq<char>)
    requires Terminated(q) && |q| <= |q'| && forall i :: 0 <= i <= Len(q) ==> q'[i] == q[i]
    ensures Terminated(q') && CStr(q') == CStr(q)
  {
  }

  /** Writing a NUL inside a C string cuts it in two. */
  lemma CutAt(q: seq<char>, q': seq<char>, k: nat)
    requires Terminated(q) && k < Len(q) && q' == q[k := NUL]
    ensures Terminated(q') && CStr(q') == CStr(q)[..k]
    ensures Terminated(q'[k + 1..]) && CStr(q'[k + 1..]) == CStr(q)[k + 1..]
  {
    LenIs(q', k);
    Suffix(q, k + 1);
    assert q'[k + 1..] == q[k + 1..];
  }

  /** Ends the C string at s before p; what followed p is a C string of its own. */
  method Cut(a: array<char>, s: nat, p: nat)
    requires s <= p < a.Length && Terminated(a[s..]) && p - s < Len(a[s..])
    modifies a
    ensures Terminated(a[s..]) && Len(a[s..]) == p - s && CStr(a[s..]) == CStr(old(a[s..]))[..p - s]
    ensures Terminated(a[p + 1..]) && CStr(a[p + 1..]) == CStr(old(a[s..]))[p - s + 1..]
    ensures forall i :: 0 <= i < a.Length && i != p ==> a[i] == old(a[i])
  {
    hide Len, CStr;
    ghost var before := a[s..];
    a[p] := NUL;
    assert a[s..] == before[p - s := NUL];
    CutAt(before, a[s..], p - s);
    LenIs(a[s..], p - s);
    assert a[p + 1..] == a[s..][p - s + 1..];
  }

  /** Within a C string only its end is a NUL. */
  lemma NulEnds(q: seq<char>, k: nat)
    requires Terminated(q) && k <= Len(q)
    ensures q[k] == NUL <==> k == Len(q)
    ensures q[k] == NUL ==> CStr(q)[..k] == CStr(q)
  {
  }

  /** The value part of a pair: white space is skipped, an inline comment cut off, and the end stripped. */
  method ValueInPlace(a: array<char>, s: nat) returns (value: nat)
    requires s <= a.Length && Terminated(a[s..])
    modifies a
    ensures s <= value <= a.Length && Terminated(a[value..]) && CStr(a[value..]) == ValueOf(CStr(old(a[s..])))
    ensures forall i :: 0 <= i < s ==> a[i] == old(a[i])
  {
    hide Len, CStr, Lskip, Rstrip, Find, FindFrom, IsSpace, StopsAt;
    ghost var source := CStr(a[s..]);
    value := LskipFrom(a, s);
    CStrLen(a[value..]);
    ghost var text := CStr(a[value..]);
    ghost var before := a[value..];
    var end := FindCharsOrComment(a, value, []);
    ghost var kept := text[..end - value];
    assert ValueOf(source) == Rstrip(kept);
    assert a[end] == before[end - value];
    NulEnds(before, end - value);
    if a[end] != NUL {
      Cut(a, value, end);
    }
    assert CStr(a[value..]) == kept;
    RstripInPlace(a, value);
  }

  lemma PairIs(text: string, end: nat)
    requires end == Find(text, "=:")
    ensures end <= |text|
    ensures PairOf(text) == if end < |text| && (text[end] == '=' || text[end] == ':')
                            then Some((Rstrip(text[..end]), ValueOf(text[end + 1..]))) else None
  {
    hide Rstrip, ValueOf, Find;
  }

  /** Cuts a pair at its delimiter, and strips the name and the value in place. */
  method SplitPair(a: array<char>, start: nat, end: nat) returns (value: nat)
    requires start <= end < a.Length && Terminated(a[start..]) && end - start < Len(a[start..])
    modifies a
    ensures value <= a.Length && Terminated(a[start..]) && Terminated(a[value..])
    ensures CStr(a[start..]) == Rstrip(CStr(old(a[start..]))[..end - start])
    ensures CStr(a[value..]) == ValueOf(CStr(old(a[start..]))[end - start + 1..])
  {
    hide Len, CStr, Rstrip, ValueOf;
    CStrLen(a[start..]);
    Cut(a, start, end);
    ghost var tail := a[end + 1..];
    RstripInPlace(a, start);
    assert a[end + 1..] == tail;
    ghost var name := a[start..];
    value := ValueInPlace(a, end + 1);
    SameString(name, a[start..]);
  }

  /** A name=value line: the name ends up at start and is remembered, the value at the index returned. */
  method PairInPlace(a: array<char>, start: nat, prevName: array<char>) returns (r: Option<nat>)
    requires a != prevName && start <= a.Length && Terminated(a[start..]) && prevName.Length > 0
    modifies a, prevName
    ensures match PairOf(CStr(old(a[start..])))
            case None => r == None && prevName[..] == old(prevName[..])
            case Some(pair) =>
              && r.Some? && r.value <= a.Length
              && Terminated(a[start..]) && CStr(a[start..]) == pair.0
              && Terminated(a[r.value..]) && CStr(a[r.value..]) == pair.1
              && Terminated(prevName[..]) && CStr(prevName[..]) == Truncate(pair.0, prevName.Length - 1)
  {
    hide Len, CStr, Rstrip, PairOf, ValueOf, Find, FindFrom, IsSpace, StopsAt, Truncate;
    CStrLen(a[start..]);
    ghost var text := CStr(a[start..]);
    ghost var before := a[start..];
    var end := FindCharsOrComment(a, start, "=:");
    NulEnds(before, end - start);
    assert a[end] == before[end - start];
    PairIs(text, end - start);
    if a[end] != '=' && a[end] != ':' {
      return None;
    }
    var value := SplitPair(a, start, end);
    Strncpy0(prevName, a, start);
    return Some(value);
  }

  /** A section line: the section name ends up one place after start. */
  method SectionInPlace(a: array<char>, start: nat, section: array<char>) returns (closed: bool)
    requires a != section && start < a.Length && Terminated(a[start..]) && Len(a[start..]) > 0
    requires section.Length == MAX_SECTION
    modifies a, section
    ensures match SectionOf(CStr(old(a[start..])))
            case None => !closed && section[..] == old(section[..])
            case Some(name) => closed && Terminated(section[..]) && CStr(section[..]) == name
  {
    Suffix(a[start..], 1);
    assert a[start..][1..] == a[start + 1..];
    ghost var before := a[start + 1..];
    var end := FindCharsOrComment(a, start + 1, "]");
    assert a[end] == before[end - start - 1];
    if a[end] != ']' {
      return false;
    }
    Cut(a, start + 1, end);
    Strncpy0(section, a, start + 1);
    return true;
  }

  /** What the stripped line that starts at body makes of the section and the remembered name. */
  method DispatchBody(line: array<char>, body: nat, section: array<char>, prevName: array<char>, ghost c: Context)
    returns (o: Outcome)
    requires line != section && line != prevName && section != prevName
    requires section.Length == MAX_SECTION && prevName.Length == MAX_NAME
    requires body < line.Length && Terminated(line[body..]) && Holds(section[..], prevName[..], c)
    modifies line, section, prevName
    ensures o == ParseBody(c, CStr(old(line[body..])), body > 0)
    ensures Holds(section[..], prevName[..], NextContext(c, o))
  {
    hide Len, CStr, SectionOf, PairOf, Truncate;
    CStrLen(line[body..]);
    FirstChar(line[body..]);
    FirstChar(prevName[..]);
    if line[body] == ';' || line[body] == '#' {
      o := Nothing;
    } else if prevName[0] != NUL && line[body] != NUL && body > 0 {
      o := Continue(Call(CStr(section[..]), CStr(prevName[..]), CStr(line[body..])));
    } else if line[body] == '[' {
      var closed := SectionInPlace(line, body, section);
      if closed {
        prevName[0] := NUL;
        FirstChar(prevName[..]);
        o := Section(CStr(section[..]));
      } else {
        o := Malformed;
      }
    } else if line[body] != NUL {
      var value := PairInPlace(line, body, prevName);
      if value.Some? {
        o := Pair(Call(CStr(section[..]), CStr(line[body..]), CStr(line[value.value..])));
      } else {
        o := Malformed;
      }
    } else {
      o := Nothing;
    }
  }

  /** What one line in the buffer, from start on, makes of the section and the remembered name. */
  method ParseBuffer(line: array<char>, start: nat, section: array<char>, prevName: array<char>, ghost c: Context)
    returns (o: Outcome)
    requires line != section && line != prevName && section != prevName
    requires section.Length == MAX_SECTION && prevName.Length == MAX_NAME
    requires start <= line.Length && Terminated(line[start..]) && Holds(section[..], prevName[..], c)
    modifies line, section, prevName
    ensures o == ParseLine(c, CStr(old(line[start..])), start)
    ensures Holds(section[..], prevName[..], NextContext(c, o))
  {
    hide *;
    ghost var text := CStr(line[start..]);
    RstripInPlace(line, start);
    var body := LskipFrom(line, start);
    NotEmpty(line[body..]);
    ParseLineIs(c, text, start, body);
    o := DispatchBody(line, body, section, prevName, c);
  }

  lemma NotEmpty(q: seq<char>)
    requires Terminated(q)
    ensures |q| > 0
  {
  }

  lemma ParseLineIs(c: Context, text: string, start: nat, body: nat)
    requires body - start == |Rstrip(text)| - |Lskip(Rstrip(text))|
    ensures ParseLine(c, text, start) == ParseBody(c, Lskip(Rstrip(text)), body > 0)
  {
    hide Rstrip, Lskip, ParseBody;
  }

  /** The two buffers hold the context, each with its NUL inside its bounds. */
  ghost predicate Holds(section: seq<char>, prevName: seq<char>, c: Context) {
    && Terminated(section) && CStr(section) == c.section
    && Terminated(prevName) && CStr(prevName) == c.prevName
  }

  lemma FirstChar(q: seq<char>)
    requires q != []
    ensures q[0] == NUL ==> Terminated(q)
    ensures CStr(q) == [] <==> q[0] == NUL
    ensures q[0] != NUL ==> CStr(q)[0] == q[0]
  {
  }

  /** What a line buffer can hold before its NUL. */
  type Line = s: string | |s| < INI_MAX_LINE witness []

  /** The C strings of the lines read. */
  function Texts(lines: seq<Line>): seq<string> {
    seq(|lines|, i requires 0 <= i < |lines| => CStr(lines[i]))
  }

  /** The reader: fills the buffer with a line and a NUL. */
  method ReadLine(line: array<char>, text: Line)
    requires line.Length == INI_MAX_LINE
    modifies line
    ensures Terminated(line[..]) && CStr(line[..]) == CStr(text)
  {
    for i := 0 to |text|
      invariant forall j :: 0 <= j < i ==> line[j] == text[j]
    {
      line[i] := text[i];
    }
    line[|text|] := NUL;
    LenIs(line[..], Len(text));
    assert line[..][..Len(text)] == text[..Len(text)];
  }

  /** Skips a byte order mark at the start of the first line. */
  method SkipBom(line: array<char>, lineno: nat) returns (start: nat)
    requires line.Length == INI_MAX_LINE && Terminated(line[..])
    ensures start == (if lineno == 1 && BOM <= CStr(line[..]) then 3 else 0)
    ensures Terminated(line[start..]) && CStr(line[start..]) == CStr(line[..])[start..]
  {
    ghost var q := line[..];
    start := 0;
    if lineno == 1 && line[0] == '\U{EF}' && line[1] == '\U{BB}' && line[2] == '\U{BF}' {
      assert q[0] == line[0] && q[1] == line[1] && q[2] == line[2];
      start := 3;
    }
    BomIffPrefix(q);
    Suffix(q, start);
    assert line[start..] == q[start..];
  }

  lemma BomIffPrefix(q: seq<char>)
    requires Terminated(q) && |q| == INI_MAX_LINE
    ensures BOM <= CStr(q) <==> q[0] == '\U{EF}' && q[1] == '\U{BB}' && q[2] == '\U{BF}'
    ensures BOM <= CStr(q) ==> 3 <= Len(q)
  {
    hide Len;
    var n := Len(q);
    assert n < |q| && q[n] == NUL;
    assert q[0] != NUL && q[1] != NUL && q[2] != NUL ==> n >= 3;
    assert n >= 3 ==> (BOM <= q[..n] <==> q[0] == BOM[0] && q[1] == BOM[1] && q[2] == BOM[2]);
  }

  /** One iteration of the loop of ini_parse_stream, up to the handler call. */
  method ParseNext(line: array<char>, section: array<char>, prevName: array<char>, text: Line, lineno: nat,
                   ghost c: Context)
    returns (o: Outcome)
    requires line != section && line != prevName && section != prevName
    requires line.Length == INI_MAX_LINE && section.Length == MAX_SECTION && prevName.Length == MAX_NAME
    requires Holds(section[..], prevName[..], c)
    modifies line, section, prevName
    ensures o == ParseLineAt(c, CStr(text), lineno)
    ensures Holds(section[..], prevName[..], NextContext(c, o))
  {
    hide Len, CStr, ParseLine, Holds, NextContext;
    ReadLine(line, text);
    var start := SkipBom(line, lineno);
    o := ParseBuffer(line, start, section, prevName, c);
  }

  /** The buffers of ini_parse_stream before its first line. */
  method NewBuffers() returns (line: array<char>, section: array<char>, prevName: array<char>)
    ensures fresh(line) && fresh(section) && fresh(prevName)
    ensures line != section && line != prevName && section != prevName
    ensures line.Length == INI_MAX_LINE && section.Length == MAX_SECTION && prevName.Length == MAX_NAME
    ensures Holds(section[..], prevName[..], Context([], []))
  {
    line := new char[INI_MAX_LINE](_ => NUL);
    section := new char[MAX_SECTION](_ => NUL);
    prevName := new char[MAX_NAME](_ => NUL);
    FirstChar(section[..]);
    FirstChar(prevName[..]);
  }

  lemma TextsAt(lines: seq<Line>, k: nat)
    requires k < |lines|
    ensures |Texts(lines)| == |lines| && Texts(lines)[k] == CStr(lines[k])
    ensures Texts(lines)[..k + 1][..k] == Texts(lines)[..k] && Texts(lines)[..k + 1][k] == CStr(lines[k])
  {
  }

  /**
   ini_parse_stream on arbitrary bounded lines: the handler calls and the result are those of the functional parser,
   with every write inside the three buffers.
   */
  method ParseStream(lines: seq<Line>, accept: nat -> bool) returns (error: nat, calls: seq<Call>)
    ensures calls == Parse(Texts(lines), accept).calls && error == Parse(Texts(lines), accept).error
  {
    hide Len, CStr, ParseLineAt, Holds, NextContext, Texts;
    var line, section, prevName := NewBuffers();
    error, calls := 0, [];
    var lineno := 0;
    assert |Texts(lines)| == |lines| by { TextsLength(lines); }
    while lineno < |lines|
      invariant lineno <= |lines| && |Texts(lines)| == |lines|
      invariant var p := Parse(Texts(lines)[..lineno], accept);
                p.error == error && p.calls == calls && Holds(section[..], prevName[..], p.context)
      invariant fresh(line) && fresh(section) && fresh(prevName)
    {
      ghost var p := Parse(Texts(lines)[..lineno], accept);
      TextsAt(lines, lineno);
      var text := lines[lineno];
      lineno := lineno + 1;
      var o := ParseNext(line, section, prevName, text, lineno, p.context);
      if o.Continue? || o.Pair? {
        var accepted := accept(|calls|);
        calls := calls + [o.call];
        if !accepted && error == 0 {
          error := lineno;
        }
      } else if o.Malformed? && error == 0 {
        error := lineno;
      }
    }
    assert Texts(lines)[..lineno] == Texts(lines);
  }

  lemma TextsLength(lines: seq<Line>)
    ensures |Texts(lines)| == |lines| && forall k :: 0 <= k < |lines| ==> |Texts(lines)[k]| < INI_MAX_LINE
  {
    forall k | 0 <= k < |lines| ensures |Texts(lines)[k]| < INI_MAX_LINE {
      CStrLen(lines[k]);
    }
  }
}
