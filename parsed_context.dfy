/** A parsed resume always reads back from its context: every value the
    parser produces is taken from a normalised line, so none holds a line
    break and the context's line layout is never broken. */
module ParsedContext {
  import opened Wrappers
  import opened Text
  import opened ResumeLines
  import opened ResumeSections
  import opened ResumeExperience
  import opened ResumeContact
  import opened ResumeParser
  import opened ChatContext
  import opened ContextReading

  /** A part of a one-line text is one line. */
  lemma ContainsNoBreak(s: string, t: string)
    requires Contains(s, t) && NoBreak(s)
    ensures NoBreak(t)
  {
    var k := ContainsWitness(s, t);
    assert forall c :: c in s[k..k + |t|] ==> c in s;
  }

  lemma SliceNoBreak(lines: seq<string>, i: nat, j: nat)
    requires AllNoBreak(lines) && i <= j <= |lines|
    ensures AllNoBreak(lines[i..j])
  {
    assert forall k :: 0 <= k < j - i ==> lines[i..j][k] == lines[i + k];
  }

  lemma DropEmptyNoBreak(xs: seq<string>)
    requires AllNoBreak(xs)
    ensures AllNoBreak(DropEmpty(xs))
  {
    DropEmptyKeeps(xs);
    var r := DropEmpty(xs);
    forall i | 0 <= i < |r| ensures NoBreak(r[i]) {
      assert r[i] in xs;
    }
  }

  lemma TokensNoBreak(line: string)
    requires NoBreak(line)
    ensures AllNoBreak(Tokens(line))
  {
    var pieces := SplitAny(line, SkillDelimiters);
    SplitAnyKeepsCharacters(line, SkillDelimiters);
    var trimmed := TrimAll(pieces);
    forall i | 0 <= i < |trimmed| ensures NoBreak(trimmed[i]) {
      TrimKeepsCharacters(pieces[i]);
    }
    DropEmptyNoBreak(trimmed);
  }

  lemma {:induction false} TokensOfLinesNoBreak(ls: seq<string>)
    requires AllNoBreak(ls)
    ensures AllNoBreak(TokensOfLines(ls))
    decreases |ls|
  {
    if ls != [] {
      var last := ls[|ls| - 1];
      SliceNoBreak(ls, 0, |ls| - 1);
      TokensOfLinesNoBreak(ls[..|ls| - 1]);
      TokensNoBreak(last);
    }
  }

  /** Every entry the accumulator holds is made of lines of its span. */
  predicate EntriesNoBreak(es: seq<Entry>) {
    forall i :: 0 <= i < |es| ==> NoBreak(es[i].title) && AllNoBreak(es[i].description)
  }

  predicate ScanNoBreak(s: Scan) {
    EntriesNoBreak(s.done) && (s.AccumulatingEntry? ==> NoBreak(s.current.title) && AllNoBreak(s.current.description))
  }

  lemma {:induction false} ScannedNoBreak(span: seq<string>)
    requires AllNoBreak(span)
    ensures ScanNoBreak(Scanned(span))
    ensures EntriesNoBreak(Flush(Scanned(span)))
    decreases |span|
  {
    if span != [] {
      SliceNoBreak(span, 0, |span| - 1);
      ScannedNoBreak(span[..|span| - 1]);
      assert NoBreak(span[|span| - 1]);
    }
  }

  lemma ContactNoBreak(lines: seq<string>, email: Matcher, phone: Matcher)
    requires AllNoBreak(lines) && Sound(email)
    ensures NoBreak(ContactOf(lines, email, phone).name) && NoBreak(ContactOf(lines, email, phone).email)
  {
    var w := Window(lines);
    SliceNoBreak(lines, 0, |w|);
    NameIsFirstCandidate(w, email, phone);
    MatchFromLine(w, email);
    var found := LastMatchIn(w, email);
    if found != "" {
      var i :| 0 <= i < |w| && Contains(w[i], found);
      ContainsNoBreak(w[i], found);
    }
  }

  lemma SummaryNoBreak(lines: seq<string>)
    requires AllNoBreak(lines)
    ensures NoBreak(SummaryOf(lines))
  {
    var h := HeaderStart(lines, IsSummaryHeader);
    if h != -1 {
      SliceNoBreak(lines, h, SummaryEnd(lines, h));
      JoinNoBreak(lines[h..SummaryEnd(lines, h)], " ");
    }
  }

  lemma EducationNoBreak(lines: seq<string>)
    requires AllNoBreak(lines)
    ensures AllNoBreak(EducationOf(lines))
  {
    var h := HeaderStart(lines, IsEducationHeader);
    if h != -1 {
      SliceNoBreak(lines, h, SectionEnd(lines, h, IsEducationStop));
      DropEmptyNoBreak(lines[h..SectionEnd(lines, h, IsEducationStop)]);
    }
  }

  lemma SkillsNoBreak(lines: seq<string>)
    requires AllNoBreak(lines)
    ensures AllNoBreak(SkillsOf(lines))
  {
    var h := HeaderStart(lines, IsSkillsHeader);
    if h != -1 {
      SliceNoBreak(lines, h, |lines|);
      TokensOfLinesNoBreak(lines[h..]);
    }
  }

  lemma ExperienceNoBreak(lines: seq<string>)
    requires AllNoBreak(lines)
    ensures EntriesNoBreak(ExperienceOf(lines))
  {
    var h := HeaderStart(lines, IsExperienceHeader);
    if h != -1 {
      SliceNoBreak(lines, h, SectionEnd(lines, h, IsExperienceStop));
      ScannedNoBreak(lines[h..SectionEnd(lines, h, IsExperienceStop)]);
    }
  }

  /** With an email matcher that returns a part of its line, every value of
      a parsed resume fits on one line. The phone is never written to the
      context, so its matcher may return anything. */
  lemma ParsedResumeOneLine(text: string, fileName: string, parsedAt: string, email: Matcher, phone: Matcher)
    requires Sound(email)
    ensures OneLine(StructureResumeData(text, fileName, parsedAt, email, phone).sections)
  {
    var lines := Normalise(text);
    assert AllNoBreak(lines);
    ContactNoBreak(lines, email, phone);
    SummaryNoBreak(lines);
    EducationNoBreak(lines);
    SkillsNoBreak(lines);
    ExperienceNoBreak(lines);
  }

  /** The context of any parsed resume reads back to what it says. */
  lemma ParsedContextRoundTrip(text: string, fileName: string, parsedAt: string, email: Matcher, phone: Matcher)
    requires Sound(email)
    ensures var record := StructureResumeData(text, fileName, parsedAt, email, phone);
      ReadContext(ResumeContext(Some(record))) == Some(DigestOf(record.sections))
  {
    ParsedResumeOneLine(text, fileName, parsedAt, email, phone);
    ContextRoundTrip(Some(StructureResumeData(text, fileName, parsedAt, email, phone)));
  }

}
