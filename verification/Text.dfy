/** White space as the program's regular expressions and `trim` see it. */
module Text {
  /** `\s`: white space and line terminators of ECMAScript. */
  predicate IsSpace(c: char) {
    var n := c as int;
    || 9 <= n <= 13 || n == 32 || n == 0xA0 || n == 0x1680 || 0x2000 <= n <= 0x200A
    || n == 0x2028 || n == 0x2029 || n == 0x202F || n == 0x205F || n == 0x3000 || n == 0xFEFF
  }

  /** The twenty-five characters that ECMAScript takes for white space or the end of a line. */
  lemma SpacesAre(c: char)
    ensures IsSpace(c) <==> c as int in {
      0x09, 0x0A, 0x0B, 0x0C, 0x0D, 0x20, 0xA0, 0x1680, 0x2000, 0x2001, 0x2002, 0x2003, 0x2004, 0x2005, 0x2006,
      0x2007, 0x2008, 0x2009, 0x200A, 0x2028, 0x2029, 0x202F, 0x205F, 0x3000, 0xFEFF}
  {}

  function TrimStart(s: string): (r: string)
    ensures |r| <= |s|
    ensures r != "" ==> !IsSpace(r[0])
  {
    if s != "" && IsSpace(s[0]) then TrimStart(s[1..]) else s
  }

  function TrimEnd(s: string): (r: string)
    ensures |r| <= |s|
    ensures r != "" ==> !IsSpace(r[|r| - 1]) && r[0] == s[0]
  {
    if s != "" && IsSpace(s[|s| - 1]) then TrimEnd(s[..|s| - 1]) else s
  }

  function Trim(s: string): (r: string)
    ensures |r| <= |s|
    ensures r != "" ==> !IsSpace(r[0]) && !IsSpace(r[|r| - 1])
  {
    TrimEnd(TrimStart(s))
  }

  /** `replace(/\s+/g, ' ')`: the last of each run of white space becomes a blank, the others go. */
  function Collapse(s: string): (r: string)
    ensures s != "" ==> r != ""
  {
    if s == "" then ""
    else if |s| > 1 && IsSpace(s[0]) && IsSpace(s[1]) then Collapse(s[1..])
    else [if IsSpace(s[0]) then ' ' else s[0]] + Collapse(s[1..])
  }

  function Normalize(s: string): string {
    Trim(Collapse(s))
  }

  // ---------------------------------------------------------------- trimming

  predicate IsBlank(s: string) {
    forall i | 0 <= i < |s| :: IsSpace(s[i])
  }

  lemma {:induction false} TrimStartDrops(before: string, s: string)
    requires IsBlank(before) && s != "" && !IsSpace(s[0])
    ensures TrimStart(before + s) == s
  {
    if before == "" {
      assert before + s == s;
    } else {
      assert (before + s)[1..] == before[1..] + s;
      TrimStartDrops(before[1..], s);
    }
  }

  lemma {:induction false} TrimEndDrops(s: string, after: string)
    requires IsBlank(after) && s != "" && !IsSpace(s[|s| - 1])
    ensures TrimEnd(s + after) == s
  {
    if after == "" {
      assert s + after == s;
    } else {
      assert (s + after)[..|s + after| - 1] == s + after[..|after| - 1];
      TrimEndDrops(s, after[..|after| - 1]);
    }
  }

  lemma TrimDropsBlanks(before: string, s: string, after: string)
    requires IsBlank(before) && IsBlank(after)
    requires s != "" && !IsSpace(s[0]) && !IsSpace(s[|s| - 1])
    ensures Trim(before + s + after) == s
  {
    assert before + s + after == before + (s + after);
    TrimStartDrops(before, s + after);
    TrimEndDrops(s, after);
  }

  lemma TrimNotBlank(s: string)
    requires s != "" && !IsSpace(s[0])
    ensures Trim(s) != ""
  {
    TrimEndKeeps(s);
  }

  lemma {:induction false} TrimEndKeeps(s: string)
    requires s != "" && !IsSpace(s[0])
    ensures TrimEnd(s) != ""
  {
    if IsSpace(s[|s| - 1]) { TrimEndKeeps(s[..|s| - 1]); }
  }

  /** A text is what trimming leaves of it, between two pieces of white space. */
  lemma TrimSplits(s: string) returns (before: string, after: string)
    ensures IsBlank(before) && IsBlank(after) && s == before + Trim(s) + after
  {
    var middle := TrimStart(s);
    before, after := s[..|s| - |middle|], middle[|TrimEnd(middle)|..];
    StartIsBlank(s);
    EndIsBlank(middle);
    CutTwice(s, |s| - |middle|, |TrimEnd(middle)|);
  }

  lemma CutTwice(s: string, i: nat, j: nat)
    requires i + j <= |s|
    ensures s == s[..i] + s[i..][..j] + s[i..][j..]
  {
    assert s[i..] == s[i..][..j] + s[i..][j..];
  }

  lemma {:induction false} StartIsBlank(s: string)
    ensures IsBlank(s[..|s| - |TrimStart(s)|]) && s[|s| - |TrimStart(s)|..] == TrimStart(s)
  {
    if s != "" && IsSpace(s[0]) {
      StartIsBlank(s[1..]);
      assert s[..|s| - |TrimStart(s)|][1..] == s[1..][..|s| - 1 - |TrimStart(s)|];
      assert s[|s| - |TrimStart(s)|..] == s[1..][|s| - 1 - |TrimStart(s)|..];
    }
  }

  lemma {:induction false} EndIsBlank(s: string)
    ensures IsBlank(s[|TrimEnd(s)|..]) && s[..|TrimEnd(s)|] == TrimEnd(s)
  {
    if s != "" && IsSpace(s[|s| - 1]) {
      var front := s[..|s| - 1];
      EndIsBlank(front);
      assert s[..|TrimEnd(s)|] == front[..|TrimEnd(s)|];
      assert s[|TrimEnd(s)|..] == front[|TrimEnd(s)|..] + [s[|s| - 1]];
    }
  }

  // ---------------------------------------------------------------- collapsing white space

  /** Where two texts may be collapsed apart: not in the middle of a run of white space. */
  predicate Apart(u: string, v: string) {
    u == "" || v == "" || !IsSpace(u[|u| - 1]) || !IsSpace(v[0])
  }

  lemma {:induction false} CollapseOfSum(u: string, v: string)
    requires Apart(u, v)
    ensures Collapse(u + v) == Collapse(u) + Collapse(v)
  {
    if u == "" {
      assert u + v == v;
    } else {
      assert (u + v)[1..] == u[1..] + v;
      CollapseOfSum(u[1..], v);
    }
  }

  lemma {:induction false} CollapseOfBlank(s: string)
    requires IsBlank(s) && s != ""
    ensures Collapse(s) == " "
  {
    if |s| > 1 { CollapseOfBlank(s[1..]); } else { assert s[1..] == ""; }
  }

  /** A text with no white space at its ends. */
  predicate IsTrim(s: string) {
    s != "" && !IsSpace(s[0]) && !IsSpace(s[|s| - 1])
  }

  lemma {:induction false} CollapseKeepsLast(s: string)
    requires s != "" && !IsSpace(s[|s| - 1])
    ensures Collapse(s) != "" && Collapse(s)[|Collapse(s)| - 1] == s[|s| - 1]
  {
    if |s| > 1 { CollapseKeepsLast(s[1..]); } else { assert s[1..] == ""; }
  }

  lemma CollapseIsTrim(s: string)
    requires IsTrim(s)
    ensures IsTrim(Collapse(s))
  {
    CollapseKeepsLast(s);
  }

  lemma CollapseAround(before: string, core: string, after: string)
    requires IsTrim(core)
    ensures Collapse(before + core + after) == Collapse(before) + Collapse(core) + Collapse(after)
  {
    CollapseOfSum(before + core, after);
    CollapseOfSum(before, core);
  }

  lemma CollapsedIsBlank(s: string)
    requires IsBlank(s)
    ensures IsBlank(Collapse(s))
  {
    if s != "" { CollapseOfBlank(s); }
  }

  /** Normalizing trims first and collapses inside. */
  lemma NormalizeIsCollapse(s: string)
    ensures Trim(s) == "" ==> Normalize(s) == "" && IsBlank(s)
    ensures Trim(s) != "" ==> Normalize(s) == Collapse(Trim(s))
  {
    var before, after := TrimSplits(s);
    var core := Trim(s);
    if core == "" {
      assert s == before + after;
      CollapsedIsBlank(s);
      TrimOfBlank(Collapse(s));
    } else {
      CollapseAround(before, core, after);
      CollapseIsTrim(core);
      CollapsedIsBlank(before);
      CollapsedIsBlank(after);
      TrimDropsBlanks(Collapse(before), Collapse(core), Collapse(after));
    }
  }

  lemma {:induction false} TrimOfBlank(s: string)
    requires IsBlank(s)
    ensures Trim(s) == ""
  {
    if s != "" { TrimOfBlank(s[1..]); }
  }

  // ---------------------------------------------------------------- words

  /** The runs of characters between white space. */
  function Words(s: string): (words: seq<string>)
    ensures s != "" && !IsSpace(s[0]) ==> words != []
  {
    if s == "" then []
    else if IsSpace(s[0]) then Words(s[1..])
    else if |s| == 1 || IsSpace(s[1]) then [[s[0]]] + Words(s[1..])
    else [[s[0]] + Words(s[1..])[0]] + Words(s[1..])[1..]
  }

  function JoinWords(words: seq<string>): string {
    if words == [] then "" else if |words| == 1 then words[0] else words[0] + " " + JoinWords(words[1..])
  }

  lemma LongerWord(c: char, words: seq<string>)
    requires words != []
    ensures JoinWords([[c] + words[0]] + words[1..]) == [c] + JoinWords(words)
  {
    var longer := [[c] + words[0]] + words[1..];
    assert longer[1..] == words[1..];
    if |words| > 1 { assert [c] + (words[0] + " " + JoinWords(words[1..])) == ([c] + words[0]) + " " + JoinWords(words[1..]); }
  }

  lemma OneMoreWord(word: string, words: seq<string>)
    requires words != []
    ensures JoinWords([word] + words) == word + " " + JoinWords(words)
  {
    assert ([word] + words)[1..] == words;
  }

  lemma {:induction false} WordsOfBlank(s: string)
    requires IsBlank(s)
    ensures Words(s) == []
  {
    if s != "" { WordsOfBlank(s[1..]); }
  }

  lemma {:induction false} SomeWord(s: string)
    requires s != "" && !IsSpace(s[|s| - 1])
    ensures Words(s) != []
  {
    if IsSpace(s[0]) { SomeWord(s[1..]); }
  }

  lemma {:induction false} CollapseIsWords(s: string)
    requires s != "" && !IsSpace(s[|s| - 1])
    ensures Collapse(s) == (if IsSpace(s[0]) then " " else "") + JoinWords(Words(s))
  {
    if |s| == 1 {
      assert s[1..] == "";
    } else {
      CollapseIsWords(s[1..]);
      CollapseStep(s);
    }
  }

  lemma CollapseStep(s: string)
    requires |s| > 1 && !IsSpace(s[|s| - 1])
    requires Collapse(s[1..]) == (if IsSpace(s[1]) then " " else "") + JoinWords(Words(s[1..]))
    ensures Collapse(s) == (if IsSpace(s[0]) then " " else "") + JoinWords(Words(s))
  {
    var rest := s[1..];
    SomeWord(rest);
    if !IsSpace(s[0]) {
      if IsSpace(s[1]) { OneMoreWord([s[0]], Words(rest)); } else { LongerWord(s[0], Words(rest)); }
    }
  }

  lemma {:induction false} WordsSkipBlanks(before: string, s: string)
    requires IsBlank(before)
    ensures Words(before + s) == Words(s)
  {
    if before == "" {
      assert before + s == s;
    } else {
      assert (before + s)[1..] == before[1..] + s;
      WordsSkipBlanks(before[1..], s);
    }
  }

  lemma {:induction false} WordsEndBeforeBlanks(s: string, after: string)
    requires IsBlank(after)
    ensures Words(s + after) == Words(s)
  {
    if s == "" {
      assert s + after == after;
      WordsOfBlank(after);
    } else {
      assert (s + after)[1..] == s[1..] + after;
      WordsEndBeforeBlanks(s[1..], after);
    }
  }

  /**
   Normalizing a text leaves its words with one blank between them: nothing else of the white space, and all of the
   words.
   */
  lemma NormalizedIsWords(s: string)
    ensures Normalize(s) == JoinWords(Words(s))
  {
    var before, after := TrimSplits(s);
    var core := Trim(s);
    NormalizeIsCollapse(s);
    WordsEndBeforeBlanks(before + core, after);
    WordsSkipBlanks(before, core);
    if core != "" { CollapseIsWords(core); }
  }

  // ---------------------------------------------------------------- texts inside texts

  predicate StandsAt(text: string, at: nat, part: string) {
    at + |part| <= |text| && text[at..at + |part|] == part
  }

  /** `text.includes(part)` */
  predicate Contains(text: string, part: string) {
    exists at | 0 <= at <= |text| :: StandsAt(text, at, part)
  }

  lemma ContainsMiddle(before: string, part: string, after: string)
    ensures Contains(before + part + after, part)
  {
    assert StandsAt(before + part + after, |before|, part);
  }

  lemma {:induction false} TrimStartKeeps(before: string, core: string) returns (rest: string)
    requires core != "" && !IsSpace(core[0])
    ensures TrimStart(before + core) == rest + core
  {
    if before != "" && IsSpace(before[0]) {
      assert (before + core)[1..] == before[1..] + core;
      rest := TrimStartKeeps(before[1..], core);
    } else {
      rest := before;
    }
  }

  lemma {:induction false} TrimEndKeepsFront(core: string, after: string) returns (rest: string)
    requires core != "" && !IsSpace(core[|core| - 1])
    ensures TrimEnd(core + after) == core + rest
  {
    if after != "" && IsSpace(after[|after| - 1]) {
      assert (core + after)[..|core + after| - 1] == core + after[..|after| - 1];
      rest := TrimEndKeepsFront(core, after[..|after| - 1]);
    } else {
      rest := after;
    }
  }

  lemma TrimContains(before: string, core: string, after: string)
    requires IsTrim(core)
    ensures Contains(Trim(before + core + after), core)
  {
    assert before + core + after == before + (core + after);
    var front := TrimStartKeeps(before, core + after);
    assert front + (core + after) == (front + core) + after;
    var back := TrimEndKeepsFront(front + core, after);
    ContainsMiddle(front, core, back);
  }

  /** Whatever stands in a text stands in it after both are normalized. */
  lemma NormalizedContains(before: string, part: string, after: string)
    ensures Contains(Normalize(before + part + after), Normalize(part))
  {
    NormalizeIsCollapse(part);
    if Trim(part) == "" {
      assert StandsAt(Normalize(before + part + after), 0, "");
    } else {
      var pre, post := TrimSplits(part);
      var core := Trim(part);
      assert before + part + after == (before + pre) + core + (post + after);
      CollapseAround(before + pre, core, post + after);
      CollapseIsTrim(core);
      TrimContains(Collapse(before + pre), Collapse(core), Collapse(post + after));
    }
  }
}
