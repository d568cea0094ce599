/** What strtok(…, " ") makes of a setting: the space-separated words, whatever the spaces between them. */
module Splitting {
  import opened Configuration

  ghost predicate Word(t: string) {
    t != [] && ' ' !in t
  }

  ghost predicate Blank(s: string) {
    forall i :: 0 <= i < |s| ==> s[i] == ' '
  }

  /** No token is empty or holds a space. */
  lemma {:induction false} TokensAreWords(s: string)
    ensures forall i :: 0 <= i < |Tokens(s)| ==> Word(Tokens(s)[i])
    decreases |s|
  {
    if s != [] {
      if s[0] == ' ' {
        TokensAreWords(s[1..]);
      } else {
        TokensAreWords(s[RunLength(s, 0)..]);
      }
    }
  }

  lemma RunLengthIs(s: string, n: nat)
    requires n <= |s| && ' ' !in s[..n] && (n < |s| ==> s[n] == ' ')
    ensures RunLength(s, 0) == n
  {
    assert forall i :: 0 <= i < n ==> s[i] == s[..n][i];
  }

  /** A word followed by a space is the first token, and the rest is split by itself. */
  lemma WordThenSpace(t: string, s: string)
    requires Word(t)
    ensures Tokens(t + " " + s) == [t] + Tokens(s)
  {
    var all := t + " " + s;
    assert all[..|t|] == t;
    RunLengthIs(all, |t|);
    assert all[|t|..] == " " + s && (" " + s)[1..] == s;
  }

  /** A word alone is one token, whatever other characters it holds; a comma does not separate. */
  lemma OneWord(t: string)
    requires Word(t)
    ensures Tokens(t) == [t]
  {
    assert t[..|t|] == t && t[|t|..] == [];
    RunLengthIs(t, |t|);
  }

  /** A space separates: what stands before it and after it is split independently. */
  lemma {:induction false} SpaceSeparates(a: string, b: string)
    ensures Tokens(a + " " + b) == Tokens(a) + Tokens(b)
    decreases |a|
  {
    var all := a + " " + b;
    if a == [] {
      assert all == " " + b && all[1..] == b;
    } else if a[0] == ' ' {
      SpaceSeparates(a[1..], b);
      assert all[1..] == a[1..] + " " + b;
    } else {
      var n := RunLength(a, 0);
      RunLengthIs(all, n) by {
        assert all[..n] == a[..n];
      }
      assert all[n..] == a[n..] + " " + b;
      SpaceSeparates(a[n..], b);
    }
  }

  /** Words with at least one space between any two, and gaps of further spaces before, between and after them. */
  function Spaced(gaps: seq<string>, words: seq<string>): string
    requires |gaps| == |words| + 1
  {
    if words == [] then gaps[0]
    else if |words| == 1 then gaps[0] + (words[0] + gaps[1])
    else gaps[0] + (words[0] + " " + Spaced(gaps[1..], words[1..]))
  }

  lemma {:induction false} BlanksSkipped(gap: string, s: string)
    requires Blank(gap)
    ensures Tokens(gap + s) == Tokens(s)
  {
    if gap == [] {
      assert gap + s == s;
    } else {
      BlanksSkipped(gap[1..], s);
      assert (gap + s)[1..] == gap[1..] + s;
    }
  }

  lemma OnlyBlanks(gap: string)
    requires Blank(gap)
    ensures Tokens(gap) == []
  {
    BlanksSkipped(gap, []);
    assert gap + [] == gap;
  }

  lemma LastWord(t: string, gap: string)
    requires Word(t) && Blank(gap)
    ensures Tokens(t + gap) == [t]
  {
    if gap == [] {
      assert t + gap == t;
      OneWord(t);
    } else {
      assert t + gap == t + " " + gap[1..];
      WordThenSpace(t, gap[1..]);
      OnlyBlanks(gap[1..]);
    }
  }

  /** Splitting undoes joining: any words, joined by any positive number of spaces, are the tokens, in order. */
  lemma {:induction false} TokensOfSpaced(gaps: seq<string>, words: seq<string>)
    requires |gaps| == |words| + 1
    requires forall i :: 0 <= i < |gaps| ==> Blank(gaps[i])
    requires forall i :: 0 <= i < |words| ==> Word(words[i])
    ensures Tokens(Spaced(gaps, words)) == words
  {
    if words == [] {
      OnlyBlanks(gaps[0]);
    } else if |words| == 1 {
      BlanksSkipped(gaps[0], words[0] + gaps[1]);
      LastWord(words[0], gaps[1]);
    } else {
      var rest := Spaced(gaps[1..], words[1..]);
      TokensOfSpaced(gaps[1..], words[1..]);
      BlanksSkipped(gaps[0], words[0] + " " + rest);
      WordThenSpace(words[0], rest);
      assert [words[0]] + words[1..] == words;
    }
  }

  /** The repository's own example with a comma asks for one virtual. */
  lemma CommaIsNoSeparator()
    ensures Tokens("app1,app2") == ["app1,app2"]
    ensures Tokens("app1 app2") == ["app1", "app2"]
  {
    OneWord("app1,app2");
    WordThenSpace("app1", "app2");
    OneWord("app2");
    assert "app1" + " " + "app2" == "app1 app2";
  }
}
