/** What any sequence of configuration calls leaves in the lists. */
module ConfigurationTheorems {
  import opened IniGrammar
  import opened Configuration

  // ---------- sequences of different strings ----------

  lemma {:induction false} NewestHolds(ss: seq<string>)
    ensures forall x :: x in Newest(ss) <==> x in ss
    ensures forall i, j :: 0 <= i < j < |Newest(ss)| ==> Newest(ss)[i] != Newest(ss)[j]
  {
    if ss != [] {
      var prefix, last := ss[..|ss| - 1], ss[|ss| - 1];
      NewestHolds(prefix);
      assert ss == prefix + [last];
    }
  }

  lemma NewestAdd(ss: seq<string>, x: string)
    ensures Newest(ss + [x]) == if x in ss then Newest(ss) else [x] + Newest(ss)
  {
    NewestHolds(ss);
    assert (ss + [x])[..|ss|] == ss;
  }

  /** Strings that are already there change nothing. */
  lemma {:induction false} NewestAbsorbs(a: seq<string>, b: seq<string>)
    requires forall x :: x in b ==> x in a
    ensures Newest(a + b) == Newest(a)
  {
    if b == [] {
      assert a + b == a;
    } else {
      var b' := b[..|b| - 1];
      NewestAbsorbs(a, b');
      assert a + b == (a + b') + [b[|b| - 1]];
      NewestAdd(a + b', b[|b| - 1]);
    }
  }

  // ---------- keys and names ----------

  lemma KeysDiffer(name: string)
    ensures !(SameIgnoringCase(name, "baudrate") && SameIgnoringCase(name, "virtuals"))
    ensures !(SameIgnoringCase(name, "baudrate") && SameIgnoringCase(name, "writer"))
    ensures !(SameIgnoringCase(name, "virtuals") && SameIgnoringCase(name, "writer"))
  {
    if |name| == 8 {
      assert Lower("baudrate"[0]) != Lower("virtuals"[0]);
    }
  }

  lemma {:induction false} TokensAreShort(s: string)
    ensures forall i :: 0 <= i < |Tokens(s)| ==> |Tokens(s)[i]| <= |s|
    decreases |s|
  {
    if s != [] {
      if s[0] == ' ' {
        TokensAreShort(s[1..]);
      } else {
        TokensAreShort(s[RunLength(s, 0)..]);
      }
    }
  }

  lemma VirtualIndexIn(vs: seq<VirtualEntry>, name: string)
    ensures VirtualIndex(vs, name) < |vs| <==> name in VirtualNames(vs)
  {
    if VirtualIndex(vs, name) < |vs| {
      assert VirtualNames(vs)[VirtualIndex(vs, name)] == name;
    }
  }

  // ---------- the virtuals of one master ----------

  /** Adding virtuals keeps what there is with its flags, and new ones carry none. */
  ghost predicate Extends(vs: seq<VirtualEntry>, vs': seq<VirtualEntry>) {
    && (forall x :: x in VirtualNames(vs) ==> x in VirtualNames(vs'))
    && (forall j :: 0 <= j < |vs'| ==> vs'[j] in vs || (vs'[j].name !in VirtualNames(vs) && !vs'[j].writer))
  }

  lemma OneAdded(vs: seq<VirtualEntry>, vs1: seq<VirtualEntry>, name: string)
    requires Extends(vs, vs1) && |name| < PATH_MAX
    ensures var vs' := AddVirtual(vs1, name);
            && VirtualNames(vs')
               == (if name in VirtualNames(vs1) then VirtualNames(vs1) else [name] + VirtualNames(vs1))
            && Extends(vs, vs')
  {
    hide VirtualIndex, VirtualNames;
    VirtualIndexIn(vs1, name);
    NamesCons(VirtualEntry(name, false), vs1);
    if name !in VirtualNames(vs1) {
      var vs' := AddVirtual(vs1, name);
      forall j | 0 <= j < |vs'|
        ensures vs'[j] in vs || (vs'[j].name !in VirtualNames(vs) && !vs'[j].writer)
      {
        assert j > 0 ==> vs'[j] == vs1[j - 1];
      }
    }
  }

  lemma NamesCons(v: VirtualEntry, vs: seq<VirtualEntry>)
    ensures VirtualNames([v] + vs) == [v.name] + VirtualNames(vs)
  {
  }

  lemma NoneAdded(vs: seq<VirtualEntry>)
    ensures Extends(vs, vs)
  {
  }

  lemma {:induction false} TokensAdded(vs: seq<VirtualEntry>, asked: seq<string>, section: string, tokens: seq<string>)
    requires VirtualNames(vs) == Newest(asked)
    requires forall i :: 0 <= i < |tokens| ==> |section| + 1 + |tokens[i]| < PATH_MAX
    ensures AddTokens(vs, section, tokens).Some?
    ensures var vs' := AddTokens(vs, section, tokens).value;
            VirtualNames(vs') == Newest(asked + Named(section, tokens)) && Extends(vs, vs')
  {
    hide Newest, VirtualIndex, AddVirtual, Extends, VirtualNames;
    if tokens == [] {
      assert asked + Named(section, tokens) == asked;
      NoneAdded(vs);
    } else {
      var less, token := tokens[..|tokens| - 1], tokens[|tokens| - 1];
      TokensAdded(vs, asked, section, less);
      var vs1 := AddTokens(vs, section, less).value;
      var all := asked + Named(section, less);
      assert asked + Named(section, tokens) == all + [section + "." + token];
      NewestAdd(all, section + "." + token);
      NewestHolds(all);
      OneAdded(vs, vs1, section + "." + token);
    }
  }

  // ---------- one call, master by master ----------

  lemma AskedExtends(cs: seq<Call>, c: Call, section: string)
    ensures Asked(cs + [c], section) == Asked(cs, section)
              + if c.section == section && SameIgnoringCase(c.name, "virtuals")
                then Named(section, Tokens(c.value)) else []
    ensures AskedBaudrate(cs + [c], section)
              == if c.section == section && SameIgnoringCase(c.name, "baudrate") then Atoi(c.value)
                 else AskedBaudrate(cs, section)
  {
  }

  lemma {:induction false} AskedGrows(cs: seq<Call>, k: nat, section: string, name: string)
    requires k <= |cs| && name in Asked(cs[..k], section)
    ensures name in Asked(cs, section)
    decreases |cs|
  {
    if k < |cs| {
      AskedGrows(cs[..|cs| - 1], k, section, name) by {
        assert cs[..|cs| - 1][..k] == cs[..k];
      }
    } else {
      assert cs[..k] == cs;
    }
  }

  lemma WriterExtends(cs: seq<Call>, c: Call, section: string, name: string)
    ensures AskedToWrite(cs + [c], section, name) <==>
              || AskedToWrite(cs, section, name)
              || (c.section == section && SameIgnoringCase(c.name, "writer") && name == section + "." + c.value
                  && name in Asked(cs, section))
  {
    hide Asked, SameIgnoringCase;
    var all := cs + [c];
    assert forall i :: 0 <= i <= |cs| ==> all[..i] == cs[..i];
    assert cs[..|cs|] == cs;
    if c.section == section && SameIgnoringCase(c.name, "writer") && name == section + "." + c.value
       && name in Asked(cs, section) {
      assert all[|cs|] == c && name in Asked(all[..|cs|], section);
    }
    if i :| 0 <= i < |cs| && cs[i].section == section && SameIgnoringCase(cs[i].name, "writer")
            && name == section + "." + cs[i].value && name in Asked(cs[..i], section) {
      assert all[i] == cs[i] && name in Asked(all[..i], section);
    }
  }

  /** Only virtuals that were asked for are asked to write. */
  lemma WritersWereAsked(cs: seq<Call>, section: string, name: string)
    requires AskedToWrite(cs, section, name)
    ensures name in Asked(cs, section)
  {
    var i :| 0 <= i < |cs| && cs[i].section == section && SameIgnoringCase(cs[i].name, "writer")
             && name == section + "." + cs[i].value && name in Asked(cs[..i], section);
    AskedGrows(cs, i, section, name);
  }

  /** A call about another section does not change the description of a master. */
  lemma OthersStayDescribed(m: MasterEntry, cs: seq<Call>, c: Call)
    requires Described(m, cs) && c.section != m.name
    ensures Described(m, cs + [c])
  {
    hide Asked, AskedBaudrate, Newest, AskedToWrite;
    AskedExtends(cs, c, m.name);
    assert Asked(cs, m.name) + [] == Asked(cs, m.name);
    forall j | 0 <= j < |m.virtuals|
      ensures m.virtuals[j].writer <==> AskedToWrite(cs + [c], m.name, m.virtuals[j].name)
    {
      WriterExtends(cs, c, m.name, m.virtuals[j].name);
    }
  }

  lemma {:induction false} NewMasterDescribed(cs: seq<Call>, section: string)
    requires section !in Sections(cs)
    ensures Asked(cs, section) == [] && AskedBaudrate(cs, section) == 9600
    ensures Described(MasterEntry(section, 9600, []), cs)
  {
    if cs != [] {
      var prefix := cs[..|cs| - 1];
      assert Sections(cs)[|prefix|] == cs[|prefix|].section by { SectionsLength(prefix); }
      assert forall x :: x in Sections(prefix) ==> x in Sections(cs);
      NewMasterDescribed(prefix, section);
    }
  }

  lemma {:induction false} SectionsLength(cs: seq<Call>)
    ensures |Sections(cs)| == |cs|
  {
    if cs != [] {
      SectionsLength(cs[..|cs| - 1]);
    }
  }

  /** The master a call is about, after the call. */
  function Changed(m: MasterEntry, c: Call): MasterEntry {
    if SameIgnoringCase(c.name, "baudrate") then m.(baudrate := Atoi(c.value))
    else if SameIgnoringCase(c.name, "virtuals") then
      match AddTokens(m.virtuals, c.section, Tokens(c.value))
      case None => m
      case Some(vs) => m.(virtuals := vs)
    else if SameIgnoringCase(c.name, "writer") then
      match VirtualName(c.section, c.value)
      case None => m
      case Some(name) => m.(virtuals := FlagWriter(m.virtuals, name))
    else m
  }

  lemma HandleChanges(ms: Masters, c: Call)
    ensures var i := Target(ms, c.section);
            Handle(ms, c).0 == EnsureMaster(ms, c.section)[i := Changed(EnsureMaster(ms, c.section)[i], c)]
  {
  }

  lemma VirtualsDescribed(m: MasterEntry, cs: seq<Call>, c: Call)
    requires Described(m, cs) && c.section == m.name && Fits(c) && SameIgnoringCase(c.name, "virtuals")
    ensures Described(Changed(m, c), cs + [c])
  {
    hide Asked, AskedBaudrate, Newest, AskedToWrite, AddTokens, Tokens, SameIgnoringCase;
    KeysDiffer(c.name);
    AskedExtends(cs, c, m.name);
    TokensAreShort(c.value);
    TokensAdded(m.virtuals, Asked(cs, m.name), m.name, Tokens(c.value));
    var vs := Changed(m, c).virtuals;
    NewestHolds(Asked(cs, m.name));
    forall j | 0 <= j < |vs| ensures vs[j].writer <==> AskedToWrite(cs + [c], m.name, vs[j].name) {
      FlagKept(m, cs, vs, j);
      var name := vs[j].name;
      WriterExtends(cs, c, m.name, name);
      assert AskedToWrite(cs + [c], m.name, name) <==> AskedToWrite(cs, m.name, name);
    }
  }

  lemma FlagKept(m: MasterEntry, cs: seq<Call>, vs: seq<VirtualEntry>, j: nat)
    requires Described(m, cs) && Extends(m.virtuals, vs) && j < |vs|
    ensures vs[j].writer <==> AskedToWrite(cs, m.name, vs[j].name)
  {
    hide Asked, AskedBaudrate, Newest, AskedToWrite;
    NewestHolds(Asked(cs, m.name));
    if vs[j] in m.virtuals {
      var k :| 0 <= k < |m.virtuals| && m.virtuals[k] == vs[j];
      assert m.virtuals[k].writer <==> AskedToWrite(cs, m.name, m.virtuals[k].name);
    } else if AskedToWrite(cs, m.name, vs[j].name) {
      WritersWereAsked(cs, m.name, vs[j].name);
    }
  }

  lemma WriterDescribed(m: MasterEntry, cs: seq<Call>, c: Call)
    requires Described(m, cs) && c.section == m.name && Fits(c) && SameIgnoringCase(c.name, "writer")
    ensures Described(Changed(m, c), cs + [c])
  {
    hide Asked, AskedBaudrate, Newest, AskedToWrite, AddTokens, Tokens, SameIgnoringCase, VirtualIndex;
    KeysDiffer(c.name);
    AskedExtends(cs, c, m.name);
    assert Asked(cs, m.name) + [] == Asked(cs, m.name);
    var name := c.section + "." + c.value;
    var vs := Changed(m, c).virtuals;
    VirtualIndexIn(m.virtuals, name);
    NewestHolds(Asked(cs, m.name));
    var names, i := VirtualNames(m.virtuals), VirtualIndex(m.virtuals, name);
    assert VirtualNames(vs) == names;
    forall j | 0 <= j < |vs| ensures vs[j].writer <==> AskedToWrite(cs + [c], m.name, vs[j].name) {
      WriterExtends(cs, c, m.name, vs[j].name);
      assert vs[j].name == m.virtuals[j].name == names[j];
      assert m.virtuals[j].writer <==> AskedToWrite(cs, m.name, m.virtuals[j].name);
      assert names[j] == name <==> i == j by {
        assert i < |names| ==> names[i] == name;
        assert names[j] == name ==> name in names;
      }
    }
  }

  lemma ChangedDescribed(m: MasterEntry, cs: seq<Call>, c: Call)
    requires Described(m, cs) && c.section == m.name && Fits(c)
    ensures Described(Changed(m, c), cs + [c]) && Changed(m, c).name == m.name
  {
    if SameIgnoringCase(c.name, "virtuals") {
      VirtualsDescribed(m, cs, c);
    } else if SameIgnoringCase(c.name, "writer") {
      WriterDescribed(m, cs, c);
    } else {
      hide Asked, AskedBaudrate, Newest, AskedToWrite, AddTokens, Tokens, SameIgnoringCase;
      AskedExtends(cs, c, m.name);
      assert Asked(cs, m.name) + [] == Asked(cs, m.name);
      forall j | 0 <= j < |m.virtuals|
        ensures m.virtuals[j].writer <==> AskedToWrite(cs + [c], m.name, m.virtuals[j].name)
      {
        WriterExtends(cs, c, m.name, m.virtuals[j].name);
      }
    }
  }

  // ---------- whole files ----------

  /** The lists are exactly what a sequence of calls asks for. */
  ghost predicate Built(ms: Masters, cs: seq<Call>) {
    && MasterNames(ms) == Newest(Sections(cs))
    && forall i :: 0 <= i < |ms| ==> Described(ms[i], cs)
  }

  lemma MasterIndexIn(ms: Masters, name: string)
    ensures MasterIndex(ms, name) < |ms| <==> name in MasterNames(ms)
  {
    if MasterIndex(ms, name) < |ms| {
      assert MasterNames(ms)[MasterIndex(ms, name)] == name;
    }
  }

  lemma EnsuredBuilt(ms: Masters, cs: seq<Call>, c: Call)
    requires Built(ms, cs) && Fits(c)
    ensures var ms1 := EnsureMaster(ms, c.section);
            && MasterNames(ms1) == Newest(Sections(cs + [c]))
            && (forall i :: 0 <= i < |ms1| ==> Described(ms1[i], cs))
            && ms1[Target(ms, c.section)].name == c.section
  {
    hide Described, Newest, MasterIndex, Sections, Asked, AskedBaudrate;
    SectionsExtend(cs, c);
    NewestAdd(Sections(cs), c.section);
    NewestHolds(Sections(cs));
    MasterIndexIn(ms, c.section);
    if c.section !in Sections(cs) {
      NewMasterDescribed(cs, c.section);
      assert Stored(c.section) == c.section;
      assert MasterNames(EnsureMaster(ms, c.section)) == [c.section] + MasterNames(ms);
    }
  }

  lemma HandleBuilt(ms: Masters, cs: seq<Call>, c: Call)
    requires Built(ms, cs) && Fits(c)
    ensures Built(Handle(ms, c).0, cs + [c])
  {
    hide Described, Newest, Handle, EnsureMaster, Changed;
    EnsuredBuilt(ms, cs, c);
    HandleChanges(ms, c);
    var ms1, i := EnsureMaster(ms, c.section), Target(ms, c.section);
    var ms2 := Handle(ms, c).0;
    ChangedDescribed(ms1[i], cs, c);
    assert MasterNames(ms2) == MasterNames(ms1);
    NewestHolds(Sections(cs + [c]));
    forall j | 0 <= j < |ms2| ensures Described(ms2[j], cs + [c]) {
      if j != i {
        assert MasterNames(ms1)[j] != MasterNames(ms1)[i];
        OthersStayDescribed(ms1[j], cs, c);
      }
    }
  }

  /**
   After any sequence of calls the masters are the different sections, newest first; the virtuals of each are, under
   the name device.suffix, the different tokens its virtuals settings named, newest first; a virtual is a writer
   exactly when a writer setting named it after a virtuals setting had; the baudrate is the last one set.
   */
  lemma {:induction false} CallsBuild(cs: seq<Call>)
    requires AllFit(cs)
    ensures Built(HandleAll([], cs), cs)
  {
    hide Handle, Described;
    if cs == [] {
      assert MasterNames([]) == Newest(Sections([]));
    } else {
      var prefix, c := cs[..|cs| - 1], cs[|cs| - 1];
      CallsBuild(prefix);
      HandleBuilt(HandleAll([], prefix), prefix, c);
      assert prefix + [c] == cs;
    }
  }

  lemma SectionsExtend(cs: seq<Call>, c: Call)
    ensures Sections(cs + [c]) == Sections(cs) + [c.section]
  {
  }

  lemma {:induction false} AskedConcat(a: seq<Call>, b: seq<Call>, section: string)
    ensures Asked(a + b, section) == Asked(a, section) + Asked(b, section)
    ensures Sections(a + b) == Sections(a) + Sections(b)
  {
    hide Asked, Sections, Tokens, Named, SameIgnoringCase;
    if b == [] {
      assert a + b == a;
      NothingAsked(section);
      assert Asked(a, section) + [] == Asked(a, section) && Sections(a) + [] == Sections(a);
    } else {
      var b', c := b[..|b| - 1], b[|b| - 1];
      AskedConcat(a, b', section);
      assert b == b' + [c] && a + b == a + b' + [c];
      AskedExtends(b', c, section);
      AskedExtends(a + b', c, section);
      SectionsExtend(b', c);
      SectionsExtend(a + b', c);
    }
  }

  lemma NothingAsked(section: string)
    ensures Asked([], section) == [] && Sections([]) == []
  {
  }

  /** Loading the same configuration again adds no master and no virtual. */
  lemma ReplayAddsNothing(cs: seq<Call>)
    requires AllFit(cs)
    ensures var once, twice := HandleAll([], cs), HandleAll([], cs + cs);
            && |once| == |twice|
            && forall i :: 0 <= i < |once| ==>
                 once[i].name == twice[i].name && VirtualNames(once[i].virtuals) == VirtualNames(twice[i].virtuals)
  {
    hide Newest, Asked, Sections, AskedBaudrate, AskedToWrite, HandleAll;
    CallsBuild(cs);
    CallsBuild(cs + cs);
    var once, twice := HandleAll([], cs), HandleAll([], cs + cs);
    AskedConcat(cs, cs, []);
    NewestAbsorbs(Sections(cs), Sections(cs));
    assert |MasterNames(once)| == |once| && |MasterNames(twice)| == |twice|;
    forall i | 0 <= i < |once|
      ensures once[i].name == twice[i].name && VirtualNames(once[i].virtuals) == VirtualNames(twice[i].virtuals)
    {
      assert once[i].name == MasterNames(once)[i] == MasterNames(twice)[i] == twice[i].name;
      AskedConcat(cs, cs, once[i].name);
      NewestAbsorbs(Asked(cs, once[i].name), Asked(cs, once[i].name));
    }
  }

  /** Call i is a writer setting that names the given virtual. */
  predicate NamesWriter(cs: seq<Call>, i: nat, section: string, name: string)
    requires i < |cs|
  {
    cs[i].section == section && SameIgnoringCase(cs[i].name, "writer") && name == section + "." + cs[i].value
  }

  /** If call i is a writer setting for a virtual the file asks for somewhere, some such setting comes after that. */
  ghost predicate HeardAt(cs: seq<Call>, i: nat)
    requires i < |cs|
  {
    var section, name := cs[i].section, cs[i].section + "." + cs[i].value;
    SameIgnoringCase(cs[i].name, "writer") && name in Asked(cs, section) ==> AskedToWrite(cs, section, name)
  }

  ghost predicate Heard(cs: seq<Call>) {
    forall i :: 0 <= i < |cs| ==> HeardAt(cs, i)
  }

  /** The second time, a setting comes after all that is asked for. */
  lemma AskedBefore(cs: seq<Call>, i: nat, section: string, name: string)
    requires i < |cs|
    ensures (cs + cs)[i] == cs[i] && (cs + cs)[..i] == cs[..i] && (cs + cs)[|cs| + i] == cs[i]
    ensures name in Asked((cs + cs)[..|cs| + i], section) <==> name in Asked(cs, section)
  {
    hide Asked;
    assert (cs + cs)[..|cs| + i] == cs + cs[..i];
    AskedConcat(cs, cs[..i], section);
    if name in Asked(cs[..i], section) {
      AskedGrows(cs, i, section, name);
    }
  }

  lemma NamedTwice(cs: seq<Call>, i: nat, section: string, name: string)
    requires i < |cs|
    ensures NamesWriter(cs + cs, i, section, name) <==> NamesWriter(cs, i, section, name)
    ensures NamesWriter(cs + cs, |cs| + i, section, name) <==> NamesWriter(cs, i, section, name)
  {
    hide SameIgnoringCase;
    assert (cs + cs)[i] == cs[i] && (cs + cs)[|cs| + i] == cs[i];
  }

  lemma AskedByName(cs: seq<Call>, section: string, name: string)
    ensures AskedToWrite(cs, section, name)
        <==> exists i :: 0 <= i < |cs| && NamesWriter(cs, i, section, name) && name in Asked(cs[..i], section)
  {
    hide Asked, SameIgnoringCase;
  }

  lemma WriterReplayed(cs: seq<Call>, section: string, name: string)
    ensures AskedToWrite(cs + cs, section, name) <==>
              || AskedToWrite(cs, section, name)
              || (name in Asked(cs, section) && exists i :: 0 <= i < |cs| && NamesWriter(cs, i, section, name))
  {
    hide Asked, NamesWriter, AskedToWrite;
    var all := cs + cs;
    AskedByName(cs, section, name);
    AskedByName(all, section, name);
    if i :| 0 <= i < |cs| && NamesWriter(cs, i, section, name) && name in Asked(cs[..i], section) {
      AskedBefore(cs, i, section, name);
      NamedTwice(cs, i, section, name);
      assert name in Asked(all[..i], section);
    }
    if i :| 0 <= i < |cs| && NamesWriter(cs, i, section, name) && name in Asked(cs, section) {
      AskedBefore(cs, i, section, name);
      NamedTwice(cs, i, section, name);
      assert NamesWriter(all, |cs| + i, section, name);
    }
    if i :| 0 <= i < |all| && NamesWriter(all, i, section, name) && name in Asked(all[..i], section) {
      var k := if i < |cs| then i else i - |cs|;
      AskedBefore(cs, k, section, name);
      NamedTwice(cs, k, section, name);
      assert NamesWriter(cs, k, section, name);
    }
  }

  lemma {:induction false} BaudrateConcat(a: seq<Call>, b: seq<Call>, section: string)
    ensures AskedBaudrate(a + b, section)
              == if exists i :: 0 <= i < |b| && b[i].section == section && SameIgnoringCase(b[i].name, "baudrate")
                 then AskedBaudrate(b, section) else AskedBaudrate(a, section)
  {
    hide SameIgnoringCase, Atoi, AskedBaudrate, Asked;
    if b == [] {
      assert a + b == a;
    } else {
      var b', c := b[..|b| - 1], b[|b| - 1];
      BaudrateConcat(a, b', section);
      assert b == b' + [c] && a + b == a + b' + [c];
      AskedExtends(b', c, section);
      AskedExtends(a + b', c, section);
      assert forall i :: 0 <= i < |b'| ==> b'[i] == b[i];
    }
  }

  /** Without a setting for it, a section has the default. */
  lemma BaudrateReplayed(cs: seq<Call>, section: string)
    ensures AskedBaudrate(cs + cs, section) == AskedBaudrate(cs, section)
  {
    BaudrateConcat(cs, cs, section);
  }

  lemma SectionsHold(cs: seq<Call>, i: nat)
    requires i < |cs|
    ensures cs[i].section in Sections(cs)
  {
    if i < |cs| - 1 {
      SectionsHold(cs[..|cs| - 1], i);
    }
  }

  /** What a replay does to one master. */
  lemma MasterReplayed(cs: seq<Call>, m: MasterEntry, m': MasterEntry)
    requires Described(m, cs) && Described(m', cs + cs) && m.name == m'.name
    requires VirtualNames(m.virtuals) == VirtualNames(m'.virtuals)
    ensures (forall i :: 0 <= i < |cs| && cs[i].section == m.name ==> HeardAt(cs, i)) ==> m == m'
    ensures m == m' ==> forall i :: 0 <= i < |cs| && cs[i].section == m.name ==> HeardAt(cs, i)
  {
    hide Asked, AskedBaudrate, Newest, AskedToWrite, SameIgnoringCase;
    BaudrateReplayed(cs, m.name);
    NewestHolds(Asked(cs, m.name));
    var names := VirtualNames(m.virtuals);
    forall j | 0 <= j < |names|
      ensures m.virtuals[j].name == names[j] == m'.virtuals[j].name
      ensures m.virtuals[j].writer ==> m'.virtuals[j].writer
      ensures (forall i :: 0 <= i < |cs| && cs[i].section == m.name ==> HeardAt(cs, i)) ==>
                m.virtuals[j] == m'.virtuals[j]
    {
      assert names[j] == VirtualNames(m'.virtuals)[j];
      WriterReplayed(cs, m.name, names[j]);
      assert m.virtuals[j].writer <==> AskedToWrite(cs, m.name, m.virtuals[j].name);
      assert m'.virtuals[j].writer <==> AskedToWrite(cs + cs, m.name, m'.virtuals[j].name);
    }
    assert |m.virtuals| == |names| == |m'.virtuals|;
    assert (forall j :: 0 <= j < |names| ==> m.virtuals[j] == m'.virtuals[j]) ==> m.virtuals == m'.virtuals;
    if m == m' {
      forall i | 0 <= i < |cs| && cs[i].section == m.name ensures HeardAt(cs, i) {
        var name := m.name + "." + cs[i].value;
        if SameIgnoringCase(cs[i].name, "writer") && name in Asked(cs, m.name) {
          assert name in names;
          var j :| 0 <= j < |names| && names[j] == name;
          WriterReplayed(cs, m.name, name);
          assert NamesWriter(cs, i, m.name, name);
          assert m.virtuals[j].writer <==> AskedToWrite(cs, m.name, m.virtuals[j].name);
          assert m'.virtuals[j].writer <==> AskedToWrite(cs + cs, m.name, m'.virtuals[j].name);
        }
      }
    }
  }

  /**
   Loading a configuration twice leaves exactly the lists of loading it once if and only if every writer setting that
   names a virtual of the file is heard the first time.
   */
  lemma ReplayExact(cs: seq<Call>)
    requires AllFit(cs)
    ensures HandleAll([], cs + cs) == HandleAll([], cs) <==> Heard(cs)
  {
    hide Newest, Asked, Sections, AskedBaudrate, AskedToWrite, HandleAll, Described, SameIgnoringCase;
    CallsBuild(cs);
    CallsBuild(cs + cs);
    ReplayAddsNothing(cs);
    var once, twice := HandleAll([], cs), HandleAll([], cs + cs);
    forall k | 0 <= k < |once|
      ensures Heard(cs) ==> once[k] == twice[k]
    {
      MasterReplayed(cs, once[k], twice[k]);
    }
    if once == twice {
      forall i | 0 <= i < |cs| ensures HeardAt(cs, i) {
        SectionsHold(cs, i);
        NewestHolds(Sections(cs));
        var k :| 0 <= k < |once| && MasterNames(once)[k] == cs[i].section;
        MasterReplayed(cs, once[k], twice[k]);
      }
    }
  }

  /** A writer setting before the virtuals setting, in a file that asks for no virtual earlier, is not heard. */
  lemma EarlyWriterUnheard(w: Call, v: Call)
    requires w.section == v.section && SameIgnoringCase(w.name, "writer") && SameIgnoringCase(v.name, "virtuals")
    requires w.value in Tokens(v.value)
    ensures !Heard([w, v])
  {
    hide SameIgnoringCase, Tokens;
    KeysDiffer(w.name);
    KeysDiffer(v.name);
    var cs, section, name := [w, v], w.section, w.section + "." + w.value;
    assert cs == [] + [w] + [v] && cs[..0] == [] && cs[..1] == [] + [w];
    AskedExtends([], w, section);
    AskedExtends([] + [w], v, section);
    var k :| 0 <= k < |Tokens(v.value)| && Tokens(v.value)[k] == w.value;
    assert Named(section, Tokens(v.value))[k] == name;
    assert cs[0] == w && name in Asked(cs, section);
    assert !AskedToWrite(cs, section, name);
    assert !HeardAt(cs, 0);
  }

  /** A writer setting that comes before its virtuals setting takes effect only the second time. */
  lemma ReplayCanFlagWriter()
    ensures var cs := [Call("d", "writer", "a"), Call("d", "virtuals", "a")];
            && AllFit(cs)
            && HandleAll([], cs + cs) != HandleAll([], cs)
  {
    hide HandleAll, Heard;
    var w, v := Call("d", "writer", "a"), Call("d", "virtuals", "a");
    assert "a"[1..] == "" && RunLength("a", 0) == 1 && "a"[..1] == "a";
    assert Tokens("a") == ["a"];
    EarlyWriterUnheard(w, v);
    ReplayExact([w, v]);
  }

  // ---------- from the lines of the file ----------

  lemma {:induction false} ParsedCallsFit(lines: seq<string>, accept: nat -> bool)
    requires forall k :: 0 <= k < |lines| ==> |lines[k]| < INI_MAX_LINE
    ensures AllFit(Parse(lines, accept).calls)
    ensures |Parse(lines, accept).context.section| < MAX_SECTION
  {
    hide ParseLineAt;
    if lines != [] {
      ParsedCallsFit(lines[..|lines| - 1], accept);
      OutcomeFits(Parse(lines[..|lines| - 1], accept).context, lines[|lines| - 1], |lines|);
    }
  }

  lemma OutcomeFits(c: Context, line: string, lineno: nat)
    requires |c.section| < MAX_SECTION && |line| < INI_MAX_LINE
    ensures var o := ParseLineAt(c, line, lineno);
            && |NextContext(c, o).section| < MAX_SECTION
            && (o.Continue? || o.Pair? ==> Fits(o.call))
  {
    hide Rstrip, Lskip, PairOf, SectionOf;
    var text := if lineno == 1 && BOM <= line then line[3..] else line;
    PiecesAreShort(Lskip(Rstrip(text)));
  }

  lemma PiecesAreShort(body: string)
    ensures body != [] && SectionOf(body).Some? ==> |SectionOf(body).value| < MAX_SECTION
    ensures PairOf(body).Some? ==> |PairOf(body).value.1| <= |body|
  {
  }

  /** Loading any file: the masters are what its handler calls ask for, and the handler never ends the process. */
  lemma LoadedAsAsked(lines: seq<string>, accept: nat -> bool)
    requires forall k :: 0 <= k < |lines| ==> |lines[k]| < INI_MAX_LINE
    ensures var cs := Parse(lines, accept).calls;
            && Built(HandleAll([], cs), cs)
            && forall k :: 0 <= k < |cs| ==> !Handle(HandleAll([], cs[..k]), cs[k]).1.Exited?
  {
    hide Parse;
    ParsedCallsFit(lines, accept);
    var cs := Parse(lines, accept).calls;
    CallsBuild(cs);
    forall k | 0 <= k < |cs| ensures !Handle(HandleAll([], cs[..k]), cs[k]).1.Exited? {
      CallsBuild(cs[..k]);
      NeverExits(HandleAll([], cs[..k]), cs[..k], cs[k]);
    }
  }

  lemma NeverExits(ms: Masters, cs: seq<Call>, c: Call)
    requires Built(ms, cs) && Fits(c)
    ensures !Handle(ms, c).1.Exited?
  {
    hide Newest, Asked, AskedBaudrate, AskedToWrite, EnsureMaster, Tokens, AddTokens;
    EnsuredBuilt(ms, cs, c);
    var m := EnsureMaster(ms, c.section)[Target(ms, c.section)];
    TokensAreShort(c.value);
    TokensAdded(m.virtuals, Asked(cs, m.name), c.section, Tokens(c.value));
  }
}
