/**
 What the serial configuration handler of src/config.c builds, as values: the masters in list order, each with its
 virtuals in list order.
 */
module Configuration {
  import opened Options
  import opened IniGrammar

  const PATH_MAX: nat := 4096

  datatype VirtualEntry = VirtualEntry(name: string, writer: bool)

  datatype MasterEntry = MasterEntry(name: string, baudrate: int, virtuals: seq<VirtualEntry>)

  type Masters = seq<MasterEntry>

  /** What the handler answers: 1, 0, or the end of the process. */
  datatype Verdict = Accepted | Rejected | Exited

  // ---------- strings ----------

  function Lower(c: char): char {
    if 'A' <= c <= 'Z' then c - 'A' + 'a' else c
  }

  /** strcasecmp gives 0. */
  predicate SameIgnoringCase(a: string, b: string) {
    |a| == |b| && forall i :: 0 <= i < |a| ==> Lower(a[i]) == Lower(b[i])
  }

  function Digits(s: string, acc: nat): nat {
    if s == [] || !('0' <= s[0] <= '9') then acc else Digits(s[1..], 10 * acc + (s[0] - '0') as int)
  }

  /** atoi, on unbounded integers. */
  function Atoi(s: string): int {
    var t := Lskip(s);
    if t != [] && t[0] == '-' then 0 - Digits(t[1..], 0)
    else if t != [] && t[0] == '+' then Digits(t[1..], 0)
    else Digits(t, 0)
  }

  /** The length of the run of characters before the next space. */
  function RunLength(s: string, i: nat): (n: nat)
    requires i <= |s|
    ensures i <= n <= |s| && (n < |s| ==> s[n] == ' ') && forall j :: i <= j < n ==> s[j] != ' '
    decreases |s| - i
  {
    if i == |s| || s[i] == ' ' then i else RunLength(s, i + 1)
  }

  /** The pieces that strtok finds between spaces. */
  function Tokens(s: string): seq<string>
    decreases |s|
  {
    if s == [] then []
    else if s[0] == ' ' then Tokens(s[1..])
    else
      var n := RunLength(s, 0);
      [s[..n]] + Tokens(s[n..])
  }

  // ---------- one call ----------

  /** serialVirtualName with a buffer of PATH_MAX bytes. */
  function VirtualName(device: string, suffix: string): Option<string> {
    var name := device + "." + suffix;
    if |name| < PATH_MAX then Some(name) else None
  }

  /** The name serialCreateNode stores. */
  function Stored(name: string): string {
    Truncate(name, PATH_MAX - 1)
  }

  function MasterIndex(ms: Masters, name: string): (i: nat)
    ensures i <= |ms|
    ensures i < |ms| ==> ms[i].name == name
    ensures forall j :: 0 <= j < i ==> ms[j].name != name
  {
    if ms == [] || ms[0].name == name then 0 else 1 + MasterIndex(ms[1..], name)
  }

  function VirtualIndex(vs: seq<VirtualEntry>, name: string): (i: nat)
    ensures i <= |vs|
    ensures i < |vs| ==> vs[i].name == name
    ensures forall j :: 0 <= j < i ==> vs[j].name != name
  {
    if vs == [] || vs[0].name == name then 0 else 1 + VirtualIndex(vs[1..], name)
  }

  function EnsureMaster(ms: Masters, section: string): Masters {
    if MasterIndex(ms, section) < |ms| then ms else [MasterEntry(Stored(section), 9600, [])] + ms
  }

  /** The place of the master a call is about, once it is there. */
  function Target(ms: Masters, section: string): (i: nat)
    ensures i < |EnsureMaster(ms, section)|
  {
    if MasterIndex(ms, section) < |ms| then MasterIndex(ms, section) else 0
  }

  function AddVirtual(vs: seq<VirtualEntry>, name: string): seq<VirtualEntry> {
    if VirtualIndex(vs, name) < |vs| then vs else [VirtualEntry(Stored(name), false)] + vs
  }

  /** Adds the virtuals of some tokens; None when a name does not fit. */
  function AddTokens(vs: seq<VirtualEntry>, section: string, tokens: seq<string>): Option<seq<VirtualEntry>> {
    if tokens == [] then Some(vs)
    else
      match AddTokens(vs, section, tokens[..|tokens| - 1])
      case None => None
      case Some(vs1) =>
        match VirtualName(section, tokens[|tokens| - 1])
        case None => None
        case Some(name) => Some(AddVirtual(vs1, name))
  }

  function FlagWriter(vs: seq<VirtualEntry>, name: string): seq<VirtualEntry> {
    var i := VirtualIndex(vs, name);
    if i < |vs| then vs[i := vs[i].(writer := true)] else vs
  }

  /** _serialConfigHandler: the masters after a call, and what it answers. */
  function Handle(ms: Masters, c: Call): (Masters, Verdict) {
    var ms1 := EnsureMaster(ms, c.section);
    var i := Target(ms, c.section);
    var m := ms1[i];
    if SameIgnoringCase(c.name, "baudrate") then (ms1[i := m.(baudrate := Atoi(c.value))], Accepted)
    else if SameIgnoringCase(c.name, "virtuals") then
      match AddTokens(m.virtuals, c.section, Tokens(c.value))
      case None => (ms1, Exited)
      case Some(vs) => (ms1[i := m.(virtuals := vs)], Accepted)
    else if SameIgnoringCase(c.name, "writer") then
      match VirtualName(c.section, c.value)
      case None => (ms1, Exited)
      case Some(name) => (ms1[i := m.(virtuals := FlagWriter(m.virtuals, name))], Accepted)
    else (ms1, Rejected)
  }

  /** The masters after a sequence of calls. */
  function HandleAll(ms: Masters, cs: seq<Call>): Masters {
    if cs == [] then ms else Handle(HandleAll(ms, cs[..|cs| - 1]), cs[|cs| - 1]).0
  }

  /** Calls whose names fit the buffers, as the parser makes them. */
  predicate Fits(c: Call) {
    |c.section| + 1 + |c.value| < PATH_MAX
  }

  predicate AllFit(cs: seq<Call>) {
    forall i :: 0 <= i < |cs| ==> Fits(cs[i])
  }

  // ---------- the independent description ----------

  /** The different strings of a sequence, the one that came in last first. */
  function Newest(ss: seq<string>): seq<string> {
    if ss == [] then []
    else
      var d := Newest(ss[..|ss| - 1]);
      if ss[|ss| - 1] in d then d else [ss[|ss| - 1]] + d
  }

  function Sections(cs: seq<Call>): seq<string> {
    if cs == [] then [] else Sections(cs[..|cs| - 1]) + [cs[|cs| - 1].section]
  }

  function Named(section: string, tokens: seq<string>): seq<string> {
    seq(|tokens|, i requires 0 <= i < |tokens| => section + "." + tokens[i])
  }

  /** The names that the virtuals settings of a section ask for, in order. */
  function Asked(cs: seq<Call>, section: string): seq<string> {
    if cs == [] then []
    else
      var c := cs[|cs| - 1];
      Asked(cs[..|cs| - 1], section)
      + if c.section == section && SameIgnoringCase(c.name, "virtuals") then Named(section, Tokens(c.value)) else []
  }

  /** Some writer setting names a virtual that an earlier virtuals setting asked for. */
  ghost predicate AskedToWrite(cs: seq<Call>, section: string, name: string) {
    exists i :: 0 <= i < |cs|
      && cs[i].section == section && SameIgnoringCase(cs[i].name, "writer")
      && name == section + "." + cs[i].value
      && name in Asked(cs[..i], section)
  }

  /** The last baudrate setting of a section. */
  function AskedBaudrate(cs: seq<Call>, section: string): int {
    if cs == [] then 9600
    else
      var c := cs[|cs| - 1];
      if c.section == section && SameIgnoringCase(c.name, "baudrate") then Atoi(c.value)
      else AskedBaudrate(cs[..|cs| - 1], section)
  }

  function MasterNames(ms: Masters): seq<string> {
    seq(|ms|, i requires 0 <= i < |ms| => ms[i].name)
  }

  function VirtualNames(vs: seq<VirtualEntry>): seq<string> {
    seq(|vs|, i requires 0 <= i < |vs| => vs[i].name)
  }

  ghost predicate Described(m: MasterEntry, cs: seq<Call>) {
    && m.baudrate == AskedBaudrate(cs, m.name)
    && VirtualNames(m.virtuals) == Newest(Asked(cs, m.name))
    && forall j :: 0 <= j < |m.virtuals| ==> (m.virtuals[j].writer <==> AskedToWrite(cs, m.name, m.virtuals[j].name))
  }
}
