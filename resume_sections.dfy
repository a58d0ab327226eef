/** The section locator and the three span extractors of `ResumeParser`:
    `extractSummary`, `extractEducation` and `extractSkills`. A section
    starts just after the first line whose lower-cased text contains one of
    its keywords (a substring test, so "experienced" mentions
    "experience"), and ends at the first later line that mentions a stop
    keyword, or at the end of the input. */
module ResumeSections {
  import opened Text
  import opened ResumeLines

  const SummaryKeywords: seq<string> := ["summary", "objective", "profile", "about"]
  const SummaryStops: seq<string> := ["experience", "education", "skills", "work"]
  /** Lines a summary keeps when no stop keyword follows its header. */
  const SummaryFallback: nat := 5
  const EducationKeywords: seq<string> := ["education", "academic", "degree", "university", "college"]
  const EducationStops: seq<string> := ["skills", "experience"]
  const SkillsKeywords: seq<string> := ["skills", "competencies", "technologies", "tools"]
  /** The character class `[,;|•-]` skills are split on. */
  const SkillDelimiters: set<char> := {',', ';', '|', '\U{2022}', '-'}

  function Min(a: int, b: int): int { if a <= b then a else b }

  /** `keywords.some(keyword => text.includes(keyword))`. */
  predicate ContainsSome(text: string, keywords: seq<string>)
    decreases |keywords|
  {
    keywords != [] && (Contains(text, keywords[0]) || ContainsSome(text, keywords[1..]))
  }

  /** `ContainsSome` holds exactly when one of the keywords occurs. */
  lemma {:induction false} ContainsSomeMeans(text: string, keywords: seq<string>)
    ensures ContainsSome(text, keywords) <==> exists k :: 0 <= k < |keywords| && Contains(text, keywords[k])
    decreases |keywords|
  {
    if keywords != [] {
      ContainsSomeMeans(text, keywords[1..]);
      assert forall k :: 1 <= k < |keywords| ==> keywords[k] == keywords[1..][k - 1];
    }
  }

  /** The lower-cased line contains one of the keywords. */
  predicate Mentions(line: string, keywords: seq<string>) {
    ContainsSome(ToLower(line), keywords)
  }

  /** The first index at or after `from` whose line passes `p`, or -1. */
  function FirstFrom(lines: seq<string>, from: nat, p: string -> bool): (r: int)
    requires from <= |lines|
    ensures r == -1 || from <= r < |lines|
    ensures r == -1 <==> forall j :: from <= j < |lines| ==> !p(lines[j])
    ensures r != -1 ==> p(lines[r]) && forall j :: from <= j < r ==> !p(lines[j])
    decreases |lines| - from
  {
    if from == |lines| then -1
    else if p(lines[from]) then from
    else FirstFrom(lines, from + 1, p)
  }

  /** The section locator: the index just after the first header line, or
      -1 when there is none. */
  function HeaderStart(lines: seq<string>, isHeader: string -> bool): (r: int)
    ensures r == -1 <==> forall i :: 0 <= i < |lines| ==> !isHeader(lines[i])
    ensures r != -1 ==> 1 <= r <= |lines| && isHeader(lines[r - 1])
    ensures r != -1 ==> forall i :: 0 <= i < r - 1 ==> !isHeader(lines[i])
  {
    var k := FirstFrom(lines, 0, isHeader);
    if k == -1 then -1 else k + 1
  }

  /** The end of a section that starts at `start`: the first stop line from
      `start` on, or the end of the input. */
  function SectionEnd(lines: seq<string>, start: nat, isStop: string -> bool): (r: nat)
    requires start <= |lines|
    ensures start <= r <= |lines|
    ensures forall j :: start <= j < r ==> !isStop(lines[j])
    ensures r < |lines| ==> isStop(lines[r])
  {
    var k := FirstFrom(lines, start, isStop);
    if k == -1 then |lines| else k
  }

  /** The end of a section is the one index with no stop line before it
      and a stop line, or the end of the input, at it. */
  lemma SectionEndIs(lines: seq<string>, start: nat, isStop: string -> bool, e: nat)
    requires start <= e <= |lines|
    requires forall j :: start <= j < e ==> !isStop(lines[j])
    requires e < |lines| ==> isStop(lines[e])
    ensures SectionEnd(lines, start, isStop) == e
  {
  }

  /** The loop every extractor opens with:
      `for (...) { if (keywords.some(...)) { start = i + 1; break; } }`. */
  method LocateSection(lines: seq<string>, isHeader: string -> bool) returns (start: int)
    ensures start == HeaderStart(lines, isHeader)
  {
    start := -1;
    for i := 0 to |lines|
      invariant start == -1
      invariant forall j :: 0 <= j < i ==> !isHeader(lines[j])
    {
      if isHeader(lines[i]) {
        start := i + 1;
        break;
      }
    }
  }

  /** A forward search from `from` that stops at the first line passing `p`
      (`for (...) { if (...) { end = i; break; } }`). */
  method FindFirst(lines: seq<string>, from: nat, p: string -> bool) returns (k: int)
    requires from <= |lines|
    ensures k == FirstFrom(lines, from, p)
  {
    k := -1;
    var i := from;
    while i < |lines|
      invariant from <= i <= |lines|
      invariant forall j :: from <= j < i ==> !p(lines[j])
    {
      if p(lines[i]) {
        k := i;
        break;
      }
      i := i + 1;
    }
  }

  /** The span loop of `extractEducation`: every non-empty line from
      `start` until the first stop line. */
  method CollectSection(lines: seq<string>, start: nat, isStop: string -> bool) returns (kept: seq<string>)
    requires start <= |lines|
    ensures kept == DropEmpty(lines[start..SectionEnd(lines, start, isStop)])
  {
    kept := [];
    var i := start;
    while i < |lines|
      invariant start <= i <= |lines|
      invariant forall j :: start <= j < i ==> !isStop(lines[j])
      invariant kept == DropEmpty(lines[start..i])
    {
      var line := lines[i];
      if isStop(line) {
        break;
      }
      SliceSnoc(lines, start, i);
      DropEmptyAppend(lines[start..i], [line]);
      if |line| > 0 {
        kept := kept + [line];
      }
      i := i + 1;
    }
    SectionEndIs(lines, start, isStop, i);
  }

  // ---------------------------------------------------------------- summary

  predicate IsSummaryHeader(line: string) {
    Mentions(line, SummaryKeywords)
  }

  /** The summary's stop test, including its `lines[i] === ''` disjunct. */
  predicate IsSummaryStop(line: string) {
    Mentions(line, SummaryStops) || line == ""
  }

  /** Where the summary span ends: the first stop line, or, when there is
      none, `min(start + 5, lines.length)`. */
  function SummaryEnd(lines: seq<string>, start: nat): (r: nat)
    requires start <= |lines|
    ensures start <= r <= |lines|
    ensures forall i :: start <= i < r ==> !IsSummaryStop(lines[i])
    ensures r == |lines| || r == start + SummaryFallback || IsSummaryStop(lines[r])
  {
    var stop := FirstFrom(lines, start, IsSummaryStop);
    if stop == -1 then Min(start + SummaryFallback, |lines|) else stop
  }

  /** The summary `extractSummary` returns: the space-join of its span, or
      "" without a summary header. */
  function SummaryOf(lines: seq<string>): (r: string)
    ensures HeaderStart(lines, IsSummaryHeader) == -1 ==> r == ""
  {
    var start := HeaderStart(lines, IsSummaryHeader);
    if start == -1 then ""
    else Join(lines[start..SummaryEnd(lines, start)], " ")
  }

  method ExtractSummary(lines: seq<string>) returns (summary: string)
    ensures summary == SummaryOf(lines)
  {
    var summaryStart := LocateSection(lines, IsSummaryHeader);
    if summaryStart > -1 {
      var summaryEnd := FindFirst(lines, summaryStart, IsSummaryStop);
      if summaryEnd == -1 {
        summaryEnd := Min(summaryStart + SummaryFallback, |lines|);
      }
      summary := Join(lines[summaryStart..summaryEnd], " ");
    } else {
      summary := "";
    }
  }

  /** On normalised lines the `lines[i] === ''` test never fires: the stop
      test is the keyword test alone. */
  lemma SummaryBlankTestIsDead(lines: seq<string>, i: nat)
    requires Normalised(lines) && i < |lines|
    ensures IsSummaryStop(lines[i]) <==> Mentions(lines[i], SummaryStops)
  {
  }

  /** With a later stop line, the summary is every line strictly between the
      header and the first stop line, however many there are. */
  lemma SummaryUpToStop(lines: seq<string>, h: nat, e: nat)
    requires Normalised(lines)
    requires h < e < |lines|
    requires Mentions(lines[h], SummaryKeywords)
    requires forall i :: 0 <= i < h ==> !Mentions(lines[i], SummaryKeywords)
    requires Mentions(lines[e], SummaryStops)
    requires forall i :: h < i < e ==> !Mentions(lines[i], SummaryStops)
    ensures SummaryOf(lines) == Join(lines[h + 1..e], " ")
  {
    assert IsSummaryHeader(lines[h]);
    assert HeaderStart(lines, IsSummaryHeader) == h + 1;
    assert IsSummaryStop(lines[e]);
    assert forall i :: h < i < e ==> !IsSummaryStop(lines[i]);
    assert FirstFrom(lines, h + 1, IsSummaryStop) == e;
  }

  /** Without a later stop line, the summary is at most the five lines
      after the header. */
  lemma SummaryFallbackWindow(lines: seq<string>, h: nat)
    requires Normalised(lines)
    requires h < |lines|
    requires Mentions(lines[h], SummaryKeywords)
    requires forall i :: 0 <= i < h ==> !Mentions(lines[i], SummaryKeywords)
    requires forall i :: h < i < |lines| ==> !Mentions(lines[i], SummaryStops)
    ensures SummaryOf(lines) == Join(lines[h + 1..Min(h + 1 + SummaryFallback, |lines|)], " ")
  {
    assert IsSummaryHeader(lines[h]);
    assert HeaderStart(lines, IsSummaryHeader) == h + 1;
    assert forall i :: h < i < |lines| ==> !IsSummaryStop(lines[i]);
    assert FirstFrom(lines, h + 1, IsSummaryStop) == -1;
  }

  // -------------------------------------------------------------- education

  predicate IsEducationHeader(line: string) {
    Mentions(line, EducationKeywords)
  }

  predicate IsEducationStop(line: string) {
    Mentions(line, EducationStops)
  }

  /** The education `extractEducation` returns: the non-empty lines of its span. */
  function EducationOf(lines: seq<string>): (r: seq<string>)
    ensures HeaderStart(lines, IsEducationHeader) == -1 ==> r == []
  {
    var start := HeaderStart(lines, IsEducationHeader);
    if start == -1 then []
    else DropEmpty(lines[start..SectionEnd(lines, start, IsEducationStop)])
  }

  method ExtractEducation(lines: seq<string>) returns (education: seq<string>)
    ensures education == EducationOf(lines)
  {
    education := [];
    var educationStart := LocateSection(lines, IsEducationHeader);
    if educationStart > -1 {
      education := CollectSection(lines, educationStart, IsEducationStop);
    }
  }

  /** On normalised lines the education section is exactly the lines after
      its header up to (excluding) the first stop line, verbatim and in order. */
  lemma EducationVerbatim(lines: seq<string>, h: nat, e: nat)
    requires Normalised(lines)
    requires h < e <= |lines|
    requires Mentions(lines[h], EducationKeywords)
    requires forall i :: 0 <= i < h ==> !Mentions(lines[i], EducationKeywords)
    requires e < |lines| ==> Mentions(lines[e], EducationStops)
    requires forall i :: h < i < e ==> !Mentions(lines[i], EducationStops)
    ensures EducationOf(lines) == lines[h + 1..e]
  {
    assert IsEducationHeader(lines[h]);
    assert HeaderStart(lines, IsEducationHeader) == h + 1;
    assert forall i :: h < i < e ==> !IsEducationStop(lines[i]);
    assert e < |lines| ==> IsEducationStop(lines[e]);
    assert SectionEnd(lines, h + 1, IsEducationStop) == e;
    DropEmptyNone(lines[h + 1..e]);
  }

  // ----------------------------------------------------------------- skills

  /** What a skill looks like: non-empty, trimmed, and holding no delimiter. */
  predicate IsSkillToken(t: string) {
    t != "" && IsTrimmed(t) && forall c :: c in t ==> c !in SkillDelimiters
  }

  /** `line.split(/[,;|•-]/).map(skill => skill.trim()).filter(skill => skill)`. */
  function Tokens(line: string): (r: seq<string>)
    ensures |r| <= |DelimitersIn(line, SkillDelimiters)| + 1
    ensures forall i :: 0 <= i < |r| ==> r[i] != ""
    ensures line == "" ==> r == []
  {
    DropEmpty(TrimAll(SplitAny(line, SkillDelimiters)))
  }

  /** Every token of a line is a skill: trimmed, non-empty, delimiter-free. */
  lemma TokensAreSkills(line: string)
    ensures forall i :: 0 <= i < |Tokens(line)| ==> IsSkillToken(Tokens(line)[i])
  {
    var pieces := SplitAny(line, SkillDelimiters);
    SplitAnyPiecesClean(line, SkillDelimiters);
    var trimmed := TrimAll(pieces);
    var r := DropEmpty(trimmed);
    DropEmptyKeeps(trimmed);
    forall i | 0 <= i < |r| ensures IsSkillToken(r[i]) {
      assert r[i] in trimmed;
      var j :| 0 <= j < |trimmed| && trimmed[j] == r[i];
      TrimKeepsCharacters(pieces[j]);
    }
  }

  /** Within a line: a line made of delimiter-free pieces with delimiters
      between them gives the pieces trimmed, the empty ones dropped, in
      their order and with duplicates kept. */
  lemma TokensOfPieces(ps: seq<string>, ds: seq<char>)
    requires |ps| == |ds| + 1
    requires forall i, c :: 0 <= i < |ps| && c in ps[i] ==> c !in SkillDelimiters
    requires forall i :: 0 <= i < |ds| ==> ds[i] in SkillDelimiters
    ensures Tokens(Rejoin(ps, ds)) == DropEmpty(TrimAll(ps))
  {
    SplitRejoin(ps, ds, SkillDelimiters);
  }

  /** The pieces of the example line below, trimmed. */
  lemma ExamplePiecesTrimmed(ps: seq<string>)
    requires ps == ["Python", " Go", " Rust", "C++"]
    ensures TrimAll(ps) == ["Python", "Go", "Rust", "C++"]
  {
    assert ps[1][1..] == "Go" && ps[2][1..] == "Rust";
    TrimTrimmed("Python");
    TrimTrimmed("Go");
    TrimTrimmed("Rust");
    TrimTrimmed("C++");
  }

  /** No piece of the example line below holds a delimiter. */
  lemma ExamplePiecesClean(ps: seq<string>)
    requires ps == ["Python", " Go", " Rust", "C++"]
    ensures forall i, c :: 0 <= i < |ps| && c in ps[i] ==> c !in SkillDelimiters
  {
    forall i, c | 0 <= i < |ps| && c in ps[i] ensures c !in SkillDelimiters {
      var k :| 0 <= k < |ps[i]| && ps[i][k] == c;
    }
  }

  /** A skills line as it appears in a resume. */
  lemma TokensExample()
    ensures Tokens("Python, Go; Rust|C++") == ["Python", "Go", "Rust", "C++"]
  {
    var ps := ["Python", " Go", " Rust", "C++"];
    var ds := [',', ';', '|'];
    assert Rejoin(ps, ds) == "Python, Go; Rust|C++";
    ExamplePiecesTrimmed(ps);
    DropEmptyNone(TrimAll(ps));
    ExamplePiecesClean(ps);
    TokensOfPieces(ps, ds);
  }

  predicate IsSkillsHeader(line: string) {
    Mentions(line, SkillsKeywords)
  }

  /** The tokens of every non-empty line of `ls`, line after line, duplicates kept. */
  function TokensOfLines(ls: seq<string>): seq<string>
    decreases |ls|
  {
    if ls == [] then []
    else
      var last := ls[|ls| - 1];
      TokensOfLines(ls[..|ls| - 1]) + (if |last| > 0 then Tokens(last) else [])
  }

  /** The skills `extractSkills` returns: the tokens of every line after
      the header, to the end of the input (there is no stop keyword). */
  function SkillsOf(lines: seq<string>): (r: seq<string>)
    ensures HeaderStart(lines, IsSkillsHeader) == -1 ==> r == []
  {
    var start := HeaderStart(lines, IsSkillsHeader);
    if start == -1 then [] else TokensOfLines(lines[start..])
  }

  /** The token loop of `extractSkills`: `skills.push(...lineSkills)` for
      every non-empty line. */
  method CollectTokens(ls: seq<string>) returns (skills: seq<string>)
    ensures skills == TokensOfLines(ls)
  {
    skills := [];
    for i := 0 to |ls|
      invariant skills == TokensOfLines(ls[..i])
    {
      var line := ls[i];
      assert ls[..i + 1][..i] == ls[..i];
      if |line| > 0 {
        var lineSkills := Tokens(line);
        skills := skills + lineSkills;
      }
    }
    assert ls[..|ls|] == ls;
  }

  method ExtractSkills(lines: seq<string>) returns (skills: seq<string>)
    ensures skills == SkillsOf(lines)
  {
    skills := [];
    var skillsStart := LocateSection(lines, IsSkillsHeader);
    if skillsStart > -1 {
      skills := CollectTokens(lines[skillsStart..]);
    }
  }

  /** Every token taken from a run of lines is a skill. */
  lemma {:induction false} TokensOfLinesAreSkills(ls: seq<string>)
    ensures forall i :: 0 <= i < |TokensOfLines(ls)| ==> IsSkillToken(TokensOfLines(ls)[i])
    decreases |ls|
  {
    if ls != [] {
      TokensOfLinesAreSkills(ls[..|ls| - 1]);
      TokensAreSkills(ls[|ls| - 1]);
    }
  }

  /** Every skill `extractSkills` returns is trimmed, non-empty and holds
      none of `, ; | • -`. */
  lemma SkillsAreTokens(lines: seq<string>)
    ensures forall i :: 0 <= i < |SkillsOf(lines)| ==> IsSkillToken(SkillsOf(lines)[i])
  {
    var start := HeaderStart(lines, IsSkillsHeader);
    if start != -1 {
      TokensOfLinesAreSkills(lines[start..]);
    }
  }

  /** One unfolding of `TokensOfLines` at its last line. */
  lemma TokensOfLinesSnoc(ls: seq<string>, last: string)
    ensures TokensOfLines(ls + [last]) ==
      TokensOfLines(ls) + (if |last| > 0 then Tokens(last) else [])
  {
    assert (ls + [last])[..|ls|] == ls;
  }

  /** The skills of a section are the skills of its lines, in line order:
      the section's tokens come from every line after the header. */
  lemma {:induction false} TokensOfLinesAppend(a: seq<string>, b: seq<string>)
    ensures TokensOfLines(a + b) == TokensOfLines(a) + TokensOfLines(b)
    decreases |b|
  {
    if b == [] {
      assert a + b == a;
    } else {
      var b', last := b[..|b| - 1], b[|b| - 1];
      SnocSplit(a, b);
      TokensOfLinesSnoc(a + b', last);
      TokensOfLinesSnoc(b', last);
      TokensOfLinesAppend(a, b');
      SeqAssoc(TokensOfLines(a), TokensOfLines(b'), if |last| > 0 then Tokens(last) else []);
    }
  }

  /** `b` and `a + b` both end with the last element of `b`. */
  lemma SnocSplit<T>(a: seq<T>, b: seq<T>)
    requires b != []
    ensures b == b[..|b| - 1] + [b[|b| - 1]]
    ensures a + b == (a + b[..|b| - 1]) + [b[|b| - 1]]
  {
  }

}
