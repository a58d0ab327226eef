/** `ResumeParser.structureResumeData` and the error shape of `parseDocx`:
    the raw text is normalised once and every extractor reads the same
    lines. The clock reading (`parsedAt`) and the two regular expressions
    are parameters. */
module ResumeParser {
  import opened Wrappers
  import opened Text
  import opened ResumeLines
  import opened ResumeSections
  import opened ResumeExperience
  import opened ResumeContact

  datatype Sections = Sections(
    contact: Contact,
    summary: string,
    experience: seq<Entry>,
    education: seq<string>,
    skills: seq<string>)

  /** The parsed resume `structureResumeData` returns. */
  datatype ResumeRecord = ResumeRecord(
    fileName: string,
    parsedAt: string,
    rawText: string,
    sections: Sections)

  /** The five sections, each from the same normalised lines. */
  function SectionsOf(lines: seq<string>, email: Matcher, phone: Matcher): (r: Sections)
    ensures r.contact.location == ""
    ensures forall e :: e in r.experience ==> WellFormed(e)
    ensures forall i :: 0 <= i < |r.skills| ==> IsSkillToken(r.skills[i])
  {
    ExperienceGrouping(lines);
    SkillsAreTokens(lines);
    Sections(ContactOf(lines, email, phone), SummaryOf(lines), ExperienceOf(lines),
      EducationOf(lines), SkillsOf(lines))
  }

  /** `structureResumeData(text, fileName)`, with the ISO timestamp passed in:
      the record keeps the file name and the raw text as given, and its
      sections are those of the normalised lines. */
  function StructureResumeData(text: string, fileName: string, parsedAt: string,
                               email: Matcher, phone: Matcher): (r: ResumeRecord)
    ensures r.fileName == fileName && r.parsedAt == parsedAt && r.rawText == text
    ensures r.sections.contact.location == ""
  {
    ResumeRecord(fileName, parsedAt, text, SectionsOf(Normalise(text), email, phone))
  }

  const ParseFailurePrefix: string := "Failed to parse resume: "

  /** `parseDocx`: `extracted` is what the DOCX text extraction produced
      and `saveError` the error of writing the JSON copy, if any. Any error
      is rethrown with the message prefixed, and a successful parse is the
      record of the extracted text. */
  function ParseDocx(extracted: Result<string, string>, saveError: Option<string>,
                     fileName: string, parsedAt: string,
                     email: Matcher, phone: Matcher): (r: Result<ResumeRecord, string>)
    ensures extracted.Failure? ==> r == Failure(ParseFailurePrefix + extracted.error)
    ensures extracted.Success? && saveError.Some? ==> r == Failure(ParseFailurePrefix + saveError.value)
    ensures extracted.Success? && saveError.None? ==>
      r == Success(StructureResumeData(extracted.value, fileName, parsedAt, email, phone))
    ensures r.Failure? ==> StartsWith(r.error, ParseFailurePrefix)
  {
    match extracted
    case Failure(e) => Failure(ParseFailurePrefix + e)
    case Success(rawText) =>
      var parsedResume := StructureResumeData(rawText, fileName, parsedAt, email, phone);
      match saveError
      case Some(e) => Failure(ParseFailurePrefix + e)
      case None => Success(parsedResume)
  }

  // ------------------------------------------------------------ properties

  /** An empty document parses to empty sections. */
  lemma EmptyResume(fileName: string, parsedAt: string, email: Matcher, phone: Matcher)
    ensures StructureResumeData("", fileName, parsedAt, email, phone).sections ==
      Sections(Contact("", "", "", ""), "", [], [], [])
  {
    NormaliseEmpty();
    assert Window([]) == [];
  }

  /** The sections depend on the text only through its normalised lines:
      blank lines and indentation change nothing, and neither do the file
      name or the time of parsing. */
  lemma SectionsIgnoreLayout(a: string, b: string, fileName: string, fileName': string,
                             parsedAt: string, parsedAt': string, email: Matcher, phone: Matcher)
    requires Normalise(a) == Normalise(b)
    ensures StructureResumeData(a, fileName, parsedAt, email, phone).sections ==
      StructureResumeData(b, fileName', parsedAt', email, phone).sections
  {
  }

  /** An empty line between two parts of a document changes no section. */
  lemma BlankLineIgnored(a: string, b: string)
    ensures Normalise(a + "\n\n" + b) == Normalise(a + "\n" + b)
  {
    NormaliseConcat(a, "\n" + b);
    NormaliseConcat("", b);
    NormaliseEmpty();
    assert "" + "\n" + b == "\n" + b;
    assert "\n" + "\n" == "\n\n";
    SeqAssoc(a, "\n", "\n");
    SeqAssoc(a + "\n", "\n", b);
    NormaliseConcat(a, b);
  }

}
