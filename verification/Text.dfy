/** The little of string handling that decisions hang on, as far as ASCII goes. */
module Text {
  import opened Common

  predicate IsSpace(c: char) {
    c in {' ', '\t', '\n', '\r'}
  }

  /** Whitespace removed at both ends. */
  function Strip(s: string): (r: string)
    ensures |r| <= |s|
    decreases |s|
  {
    if s == "" then ""
    else if IsSpace(s[0]) then Strip(s[1..])
    else if IsSpace(s[|s| - 1]) then Strip(s[..|s| - 1])
    else s
  }

  /** Everything before i and from j on is space. */
  ghost predicate SpaceAround(s: string, i: nat, j: nat) {
    i <= j <= |s| && forall k :: 0 <= k < i || j <= k < |s| ==> IsSpace(s[k])
  }

  lemma {:induction false} SpaceInFront(s: string, i: nat, j: nat)
    requires s != "" && IsSpace(s[0]) && SpaceAround(s[1..], i, j)
    ensures SpaceAround(s, i + 1, j + 1) && s[1..][i..j] == s[i + 1..j + 1]
  {
    var rest := s[1..];
    forall k | 0 <= k < i + 1 || j + 1 <= k < |s| ensures IsSpace(s[k]) {
      assert k > 0 ==> s[k] == rest[k - 1];
    }
  }

  /** Stripping takes off the space at both ends, all of it and nothing else. */
  lemma {:induction false} StripTrims(s: string) returns (i: nat, j: nat)
    ensures SpaceAround(s, i, j) && Strip(s) == s[i..j]
    ensures i < j ==> !IsSpace(s[i]) && !IsSpace(s[j - 1])
    decreases |s|
  {
    if s == "" {
      i, j := 0, 0;
    } else if IsSpace(s[0]) {
      var a, b := StripTrims(s[1..]);
      SpaceInFront(s, a, b);
      i, j := a + 1, b + 1;
    } else if IsSpace(s[|s| - 1]) {
      i, j := StripTrims(s[..|s| - 1]);
      assert s[..|s| - 1][i..j] == s[i..j];
    } else {
      i, j := 0, |s|;
    }
  }

  function OrEmpty(s: Option<string>): string {
    if s.Some? then s.value else ""
  }

  function Lower(s: string): (r: string)
    ensures |r| == |s|
    ensures forall i :: 0 <= i < |s| ==> r[i] == if 'A' <= s[i] <= 'Z' then s[i] - 'A' + 'a' else s[i]
  {
    if s == "" then ""
    else
      var c := s[|s| - 1];
      Lower(s[..|s| - 1]) + [if 'A' <= c <= 'Z' then c - 'A' + 'a' else c]
  }

  /** The maximal runs of non-space characters, in lower case, whatever their order. */
  function Words(s: string, word: string): multiset<string> {
    if s == "" then (if word == "" then multiset{} else multiset{Lower(word)})
    else if IsSpace(s[0]) then (if word == "" then multiset{} else multiset{Lower(word)}) + Words(s[1..], "")
    else Words(s[1..], word + [s[0]])
  }

  predicate IsWord(s: string) {
    s != "" && forall i :: 0 <= i < |s| ==> !IsSpace(s[i])
  }

  lemma {:induction false} WordsOfWord(s: string, word: string)
    requires forall i :: 0 <= i < |s| ==> !IsSpace(s[i])
    ensures Words(s, word) == if word + s == "" then multiset{} else multiset{Lower(word + s)}
  {
    if s == "" {
      assert word + s == word;
    } else {
      WordsOfWord(s[1..], word + [s[0]]);
      MoveOne(word, s);
    }
  }

  lemma MoveOne(word: string, s: string)
    requires s != ""
    ensures word + [s[0]] + s[1..] == word + s
  {
  }

  lemma {:induction false} WordsApart(s: string, t: string, word: string)
    ensures Words(s + " " + t, word) == Words(s, word) + Words(t, "")
  {
    var whole := s + " " + t;
    if s == "" {
      assert whole[0] == ' ' && whole[1..] == t;
    } else {
      assert whole[0] == s[0] && whole[1..] == s[1..] + " " + t;
      WordsApart(s[1..], t, if IsSpace(s[0]) then "" else word + [s[0]]);
    }
  }

  /** Joining words and splitting again gives the words back, in lower case and in whatever order. */
  lemma {:induction false} WordsOfJoin(parts: seq<string>)
    requires forall p :: p in parts ==> IsWord(p)
    ensures Words(Join(parts), "") == multiset(Map(parts, Lower))
  {
    if |parts| == 1 {
      OneWord(parts[0]);
      assert Map(parts, Lower) == [Lower(parts[0])];
    } else if |parts| > 1 {
      var n := |parts| - 1;
      WordsOfJoin(parts[..n]);
      WordsApart(Join(parts[..n]), parts[n], "");
      OneWord(parts[n]);
      LastApart(parts);
      MapSnoc(parts[..n], parts[n], Lower);
    }
  }

  lemma {:induction false} OneWord(p: string)
    requires IsWord(p)
    ensures Words(p, "") == multiset{Lower(p)}
  {
    WordsOfWord(p, "");
    assert "" + p == p;
  }

  function Join(parts: seq<string>): string {
    if parts == [] then ""
    else if |parts| == 1 then parts[0]
    else Join(parts[..|parts| - 1]) + " " + parts[|parts| - 1]
  }
}
