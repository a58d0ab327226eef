/** `ChatService.createResumeContext` and `ChatService.createSystemPrompt`:
    the parsed resume is written out as a fixed line layout, which is then
    placed after a fixed preamble. The layout is a serialisation: a reader
    that knows the line labels recovers every field from the text. */
module ChatContext {
  import opened Wrappers
  import opened Text
  import opened ResumeExperience
  import opened ResumeContact
  import opened ResumeParser

  // --------------------------------------------------------- line numbers

  predicate IsDigit(c: char) {
    '0' <= c <= '9'
  }

  /** `${n}` for a natural number: its decimal digits. */
  function NatToString(n: nat): (r: string)
    ensures r != [] && forall i :: 0 <= i < |r| ==> IsDigit(r[i])
    decreases n
  {
    if n < 10 then ["0123456789"[n]]
    else NatToString(n / 10) + ["0123456789"[n % 10]]
  }

  /** The number a string of decimal digits stands for. */
  function DigitsValue(s: string): nat
    requires forall i :: 0 <= i < |s| ==> IsDigit(s[i])
    decreases |s|
  {
    if s == [] then 0
    else
      assert IsDigit(s[|s| - 1]);
      DigitsValue(s[..|s| - 1]) * 10 + (s[|s| - 1] as int - '0' as int)
  }

  /** Reading the digits back gives the number. */
  lemma {:induction false} NatToStringValue(n: nat)
    ensures DigitsValue(NatToString(n)) == n
    decreases n
  {
    var r := NatToString(n);
    if n >= 10 {
      NatToStringValue(n / 10);
      assert r[..|r| - 1] == NatToString(n / 10);
    }
  }

  // ---------------------------------------------------------------- layout

  const ContextHeader: string := "Resume Information:"
  const NameLabel: string := "Name: "
  const EmailLabel: string := "Email: "
  const SummaryLabel: string := "Summary: "
  const ExperienceHeading: string := "Experience:"
  const EducationLabel: string := "Education: "
  const SkillsLabel: string := "Skills: "
  /** The indentation of an entry's description line. */
  const DetailsIndent: string := "   "

  /** The line of a single-valued field, present only when it is non-empty. */
  function FieldLine(tag: string, value: string): seq<string> {
    if value != "" then [tag + value] else []
  }

  /** The line of a list field (`join(", ")`), present only when the list is non-empty. */
  function ListLine(tag: string, items: seq<string>): seq<string> {
    if |items| > 0 then [tag + Join(items, ", ")] else []
  }

  /** The lines of entry number `number`: `n. title`, then the description
      joined by spaces and indented, when it has any line. */
  function EntryLines(e: Entry, number: nat): seq<string> {
    [NatToString(number) + ". " + e.title]
      + (if |e.description| > 0 then [DetailsIndent + Join(e.description, " ")] else [])
  }

  /** The lines of `es`, numbered from `first` on. */
  function EntriesLines(es: seq<Entry>, first: nat): seq<string>
    decreases |es|
  {
    if es == [] then [] else EntryLines(es[0], first) + EntriesLines(es[1..], first + 1)
  }

  lemma {:induction false} EntriesLinesSnoc(es: seq<Entry>, e: Entry, first: nat)
    ensures EntriesLines(es + [e], first) == EntriesLines(es, first) + EntryLines(e, first + |es|)
    decreases |es|
  {
    if es == [] {
      assert [e][1..] == [];
    } else {
      assert (es + [e])[1..] == es[1..] + [e];
      EntriesLinesSnoc(es[1..], e, first + 1);
    }
  }

  function ExperienceBlock(es: seq<Entry>): seq<string> {
    if |es| > 0 then [ExperienceHeading] + EntriesLines(es, 1) else []
  }

  /** The lines `createResumeContext` writes after its header, in order. */
  function ContextLines(s: Sections): (r: seq<string>)
    ensures r == [] <==>
      s.contact.name == "" && s.contact.email == "" && s.summary == ""
      && s.experience == [] && s.education == [] && s.skills == []
  {
    FieldLine(NameLabel, s.contact.name)
      + FieldLine(EmailLabel, s.contact.email)
      + FieldLine(SummaryLabel, s.summary)
      + ExperienceBlock(s.experience)
      + ListLine(EducationLabel, s.education)
      + ListLine(SkillsLabel, s.skills)
  }

  /** Lines written out, each followed by `\n`. */
  function Render(ls: seq<string>): (r: string)
    ensures ls != [] ==> |r| > 0 && r[|r| - 1] == '\n'
    decreases |ls|
  {
    if ls == [] then "" else ls[0] + "\n" + Render(ls[1..])
  }

  lemma {:induction false} RenderAppend(a: seq<string>, b: seq<string>)
    ensures Render(a + b) == Render(a) + Render(b)
    decreases |a|
  {
    if a == [] {
      assert a + b == b;
    } else {
      assert (a + b)[1..] == a[1..] + b;
      RenderAppend(a[1..], b);
    }
  }

  /** The text `createResumeContext` returns: `""` for a missing resume,
      otherwise the header line and the lines of the sections. */
  function ResumeContext(resumeData: Option<ResumeRecord>): (r: string)
    ensures resumeData.None? <==> r == ""
    ensures resumeData.Some? ==> StartsWith(r, ContextHeader + "\n")
  {
    match resumeData
    case None => ""
    case Some(record) =>
      var ls := [ContextHeader] + ContextLines(record.sections);
      assert Render(ls) == ContextHeader + "\n" + Render(ls[1..]);
      Render(ls)
  }

  lemma RenderSnoc(ls: seq<string>, line: string)
    ensures Render(ls + [line]) == Render(ls) + line + "\n"
  {
    RenderAppend(ls, [line]);
    assert [line][1..] == [];
    assert Render([line]) == line + "\n" + "";
    assert line + "\n" + "" == line + "\n";
    SeqAssoc(Render(ls), line, "\n");
  }

  /** `createResumeContext`: the context is built by appending line after
      line. */
  method CreateResumeContext(resumeData: Option<ResumeRecord>) returns (context: string)
    ensures context == ResumeContext(resumeData)
  {
    if resumeData.None? {
      return "";
    }
    var sections := resumeData.value.sections;
    context := ContextHeader + "\n";
    RenderSnoc([], ContextHeader);
    // What has been written is the header line followed by `shown`.
    ghost var shown: seq<string> := [];
    context := AppendField(context, [ContextHeader] + shown, NameLabel, sections.contact.name);
    SeqAssoc([ContextHeader], shown, FieldLine(NameLabel, sections.contact.name));
    shown := shown + FieldLine(NameLabel, sections.contact.name);
    context := AppendField(context, [ContextHeader] + shown, EmailLabel, sections.contact.email);
    SeqAssoc([ContextHeader], shown, FieldLine(EmailLabel, sections.contact.email));
    shown := shown + FieldLine(EmailLabel, sections.contact.email);
    context := AppendField(context, [ContextHeader] + shown, SummaryLabel, sections.summary);
    SeqAssoc([ContextHeader], shown, FieldLine(SummaryLabel, sections.summary));
    shown := shown + FieldLine(SummaryLabel, sections.summary);
    context := AppendExperience(context, [ContextHeader] + shown, sections.experience);
    SeqAssoc([ContextHeader], shown, ExperienceBlock(sections.experience));
    shown := shown + ExperienceBlock(sections.experience);
    context := AppendList(context, [ContextHeader] + shown, EducationLabel, sections.education);
    SeqAssoc([ContextHeader], shown, ListLine(EducationLabel, sections.education));
    shown := shown + ListLine(EducationLabel, sections.education);
    context := AppendList(context, [ContextHeader] + shown, SkillsLabel, sections.skills);
    SeqAssoc([ContextHeader], shown, ListLine(SkillsLabel, sections.skills));
    shown := shown + ListLine(SkillsLabel, sections.skills);
  }

  /** `if (value) context += `${tag}${value}\n``. */
  method AppendField(context: string, ghost written: seq<string>, tag: string, value: string)
    returns (context': string)
    requires context == Render(written)
    ensures context' == Render(written + FieldLine(tag, value))
  {
    context' := context;
    if value != "" {
      RenderSnoc(written, tag + value);
      context' := context + tag + value + "\n";
    } else {
      assert written + FieldLine(tag, value) == written;
    }
  }

  /** `if (items && items.length > 0) context += `${tag}${items.join(", ")}\n``. */
  method AppendList(context: string, ghost written: seq<string>, tag: string, items: seq<string>)
    returns (context': string)
    requires context == Render(written)
    ensures context' == Render(written + ListLine(tag, items))
  {
    context' := context;
    if |items| > 0 {
      RenderSnoc(written, tag + Join(items, ", "));
      context' := context + tag + Join(items, ", ") + "\n";
    } else {
      assert written + ListLine(tag, items) == written;
    }
  }

  /** The experience block of `createResumeContext`: the heading, then one
      numbered line per entry, in order, and a description line for an entry
      that has a description. */
  method AppendExperience(context: string, ghost written: seq<string>, experience: seq<Entry>)
    returns (context': string)
    requires context == Render(written)
    ensures context' == Render(written + ExperienceBlock(experience))
  {
    context' := context;
    if |experience| > 0 {
      RenderSnoc(written, ExperienceHeading);
      context' := context' + ExperienceHeading + "\n";
      ghost var heading := written + [ExperienceHeading];
      assert heading + EntriesLines(experience[..0], 1) == heading;
      for index := 0 to |experience|
        invariant context' == Render(heading + EntriesLines(experience[..index], 1))
      {
        var exp := experience[index];
        EntriesLinesSnoc(experience[..index], exp, 1);
        assert experience[..index + 1] == experience[..index] + [exp];
        ghost var before := heading + EntriesLines(experience[..index], 1);
        context' := AppendEntry(context', before, exp, index + 1);
        SeqAssoc(heading, EntriesLines(experience[..index], 1), EntryLines(exp, index + 1));
        assert before + EntryLines(exp, index + 1) == heading + EntriesLines(experience[..index + 1], 1);
      }
      assert experience[..|experience|] == experience;
      SeqAssoc(written, [ExperienceHeading], EntriesLines(experience, 1));
    } else {
      assert written + ExperienceBlock(experience) == written;
    }
  }

  /** The body of the `forEach`: entry number `number` and, when it has a
      description, its indented description line. */
  method AppendEntry(context: string, ghost written: seq<string>, exp: Entry, number: nat)
    returns (context': string)
    requires context == Render(written)
    ensures context' == Render(written + EntryLines(exp, number))
  {
    var titleLine := NatToString(number) + ". " + exp.title;
    RenderSnoc(written, titleLine);
    context' := context + titleLine + "\n";
    if |exp.description| > 0 {
      var detailsLine := DetailsIndent + Join(exp.description, " ");
      RenderSnoc(written + [titleLine], detailsLine);
      context' := context' + detailsLine + "\n";
      assert written + EntryLines(exp, number) == written + [titleLine] + [detailsLine];
    } else {
      assert written + EntryLines(exp, number) == written + [titleLine];
    }
  }

  // --------------------------------------------------------- system prompt

  /** The three sentences of the prompt's preamble, in order. */
  const RoleSentence: string := "You are a helpful assistant that answers questions about a resume. "
  const ConciseSentence: string :=
    "Provide concise, direct answers based only on the resume information provided. "
  const MissingSentence: string := "If information is not in the resume, say so clearly.\n\n"

  const Preamble: string := RoleSentence + ConciseSentence + MissingSentence

  /** The prompt `createSystemPrompt` returns: always the preamble, then
      the context under its own heading when there is a context. */
  function SystemPrompt(resumeContext: string): (r: string)
    ensures StartsWith(r, Preamble)
    ensures r == Preamble <==> resumeContext == ""
    ensures resumeContext != "" ==> r[|Preamble|..] == ContextHeader + "\n" + resumeContext
  {
    Preamble + (if resumeContext != "" then ContextHeader + "\n" + resumeContext else "")
  }

  method CreateSystemPrompt(resumeContext: string) returns (systemPrompt: string)
    ensures systemPrompt == SystemPrompt(resumeContext)
  {
    systemPrompt := RoleSentence;
    systemPrompt := systemPrompt + ConciseSentence;
    systemPrompt := systemPrompt + MissingSentence;
    if resumeContext != "" {
      systemPrompt := systemPrompt + ContextHeader + "\n" + resumeContext;
      SeqAssoc(Preamble, ContextHeader, "\n");
      SeqAssoc(Preamble, ContextHeader + "\n", resumeContext);
    } else {
      assert Preamble + "" == Preamble;
    }
  }

  /** With a resume, the prompt carries the context heading twice: once
      from `createSystemPrompt` and once from `createResumeContext`, whose
      text starts with it. */
  lemma PromptRepeatsHeading(resumeContext: string)
    requires StartsWith(resumeContext, ContextHeader + "\n")
    ensures StartsWith(SystemPrompt(resumeContext), Preamble + ContextHeader + "\n" + ContextHeader + "\n")
  {
    var head := Preamble + ContextHeader + "\n";
    StartsWithExtend(head, resumeContext, ContextHeader + "\n");
    SeqAssoc(Preamble, ContextHeader, "\n");
    SeqAssoc(Preamble, ContextHeader + "\n", resumeContext);
    SeqAssoc(head, ContextHeader, "\n");
  }

  lemma StartsWithExtend(p: string, s: string, t: string)
    requires StartsWith(s, t)
    ensures StartsWith(p + s, p + t)
  {
    assert (p + s)[..|p + t|] == p + s[..|t|];
  }

}
