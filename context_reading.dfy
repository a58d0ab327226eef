/** Reading a resume context back. Every line `createResumeContext` writes
    is told apart by how it starts, so a reader that walks the layout in
    order recovers each field: the layout is a serialisation. The joined
    lists come back joined, since `join` itself cannot be undone. */
module ContextReading {
  import opened Wrappers
  import opened Text
  import opened ResumeExperience
  import opened ResumeContact
  import opened ResumeParser
  import opened ChatContext

  datatype EntryDigest = EntryDigest(title: string, details: Option<string>)

  /** What a resume context says about a resume. */
  datatype Digest = Digest(
    name: string,
    email: string,
    summary: string,
    experience: seq<EntryDigest>,
    education: Option<string>,
    skills: Option<string>)

  function JoinedIfAny(items: seq<string>, sep: string): Option<string> {
    if |items| > 0 then Some(Join(items, sep)) else None
  }

  function EntryDigests(es: seq<Entry>): (r: seq<EntryDigest>)
    ensures |r| == |es|
    decreases |es|
  {
    if es == [] then []
    else [EntryDigest(es[0].title, JoinedIfAny(es[0].description, " "))] + EntryDigests(es[1..])
  }

  /** What the context of `s` should say. */
  function DigestOf(s: Sections): Digest {
    Digest(s.contact.name, s.contact.email, s.summary, EntryDigests(s.experience),
      JoinedIfAny(s.education, ", "), JoinedIfAny(s.skills, ", "))
  }

  // ---------------------------------------------------------------- reader

  predicate Opens(ls: seq<string>, tag: string) {
    ls != [] && StartsWith(ls[0], tag)
  }

  /** The value of a single-valued field line, `""` when the line is absent. */
  function TakeField(ls: seq<string>, tag: string): (string, seq<string>) {
    if Opens(ls, tag) then (ls[0][|tag|..], ls[1..]) else ("", ls)
  }

  /** The value of a list line, `None` when the line is absent. */
  function TakeList(ls: seq<string>, tag: string): (Option<string>, seq<string>) {
    if Opens(ls, tag) then (Some(ls[0][|tag|..]), ls[1..]) else (None, ls)
  }

  /** Entry number `number`: its title line and, when the next line is
      indented, its description line. */
  function TakeEntry(ls: seq<string>, number: nat): (r: Option<(EntryDigest, seq<string>)>)
    ensures r.Some? ==> |r.value.1| < |ls|
  {
    var prefix := NatToString(number) + ". ";
    if !Opens(ls, prefix) then None
    else
      var title := ls[0][|prefix|..];
      if Opens(ls[1..], DetailsIndent) then Some((EntryDigest(title, Some(ls[1][|DetailsIndent|..])), ls[2..]))
      else Some((EntryDigest(title, None), ls[1..]))
  }

  /** The entries numbered from `number` on. */
  function TakeEntries(ls: seq<string>, number: nat): (seq<EntryDigest>, seq<string>)
    decreases |ls|
  {
    match TakeEntry(ls, number)
    case None => ([], ls)
    case Some((entry, rest)) =>
      var (more, rest') := TakeEntries(rest, number + 1);
      ([entry] + more, rest')
  }

  function TakeExperience(ls: seq<string>): (seq<EntryDigest>, seq<string>) {
    if ls != [] && ls[0] == ExperienceHeading then TakeEntries(ls[1..], 1) else ([], ls)
  }

  /** The fields of the lines after the header, in layout order; the lines
      must end with the empty piece that follows the last `\n`. */
  function ReadLines(ls: seq<string>): Option<Digest> {
    var (name, ls1) := TakeField(ls, NameLabel);
    var (email, ls2) := TakeField(ls1, EmailLabel);
    var (summary, ls3) := TakeField(ls2, SummaryLabel);
    var (experience, ls4) := TakeExperience(ls3);
    var (education, ls5) := TakeList(ls4, EducationLabel);
    var (skills, ls6) := TakeList(ls5, SkillsLabel);
    if ls6 == [""] then Some(Digest(name, email, summary, experience, education, skills)) else None
  }

  /** Reads a resume context: `None` unless it starts with the header line. */
  function ReadContext(text: string): Option<Digest> {
    var ls := SplitAny(text, {'\n'});
    if ls[0] == ContextHeader then ReadLines(ls[1..]) else None
  }

  // ------------------------------------------------------------ round trip

  /** The first two characters of a line, which tell the line kinds apart. */
  function Key(l: string): (char, char)
    requires |l| >= 2
  {
    (l[0], l[1])
  }

  /** The first line of `ls` is empty or has one of `keys`. */
  predicate HeadIn(ls: seq<string>, keys: set<(char, char)>) {
    ls != [] && (ls[0] == "" || (|ls[0]| >= 2 && Key(ls[0]) in keys))
  }

  /** A line that starts with `tag` has the key of `tag`. */
  lemma NotOpens(ls: seq<string>, tag: string, keys: set<(char, char)>)
    requires |tag| >= 2 && HeadIn(ls, keys) && Key(tag) !in keys
    ensures !Opens(ls, tag)
  {
  }

  /** A field line in front of `rest` adds its key to the possible heads. */
  lemma FieldHead(tag: string, v: string, rest: seq<string>, keys: set<(char, char)>)
    requires |tag| >= 2 && HeadIn(rest, keys)
    ensures HeadIn(FieldLine(tag, v) + rest, keys + {Key(tag)})
  {
    if v != "" {
      var l := tag + v;
      assert (FieldLine(tag, v) + rest)[0] == l;
      assert l[0] == tag[0] && l[1] == tag[1];
    }
  }

  /** A list line in front of `rest` adds its key to the possible heads. */
  lemma ListHead(tag: string, items: seq<string>, rest: seq<string>, keys: set<(char, char)>)
    requires |tag| >= 2 && HeadIn(rest, keys)
    ensures HeadIn(ListLine(tag, items) + rest, keys + {Key(tag)})
  {
    if |items| > 0 {
      var l := tag + Join(items, ", ");
      assert (ListLine(tag, items) + rest)[0] == l;
      assert l[0] == tag[0] && l[1] == tag[1];
    }
  }

  lemma TakeFieldRoundTrip(tag: string, v: string, rest: seq<string>, keys: set<(char, char)>)
    requires |tag| >= 2 && HeadIn(rest, keys) && Key(tag) !in keys
    ensures TakeField(FieldLine(tag, v) + rest, tag) == (v, rest)
  {
    if v != "" {
      var ls := FieldLine(tag, v) + rest;
      assert ls[0] == tag + v && ls[1..] == rest;
      assert (tag + v)[..|tag|] == tag;
      assert (tag + v)[|tag|..] == v;
    } else {
      assert FieldLine(tag, v) + rest == rest;
      NotOpens(rest, tag, keys);
    }
  }

  lemma TakeListRoundTrip(tag: string, items: seq<string>, rest: seq<string>, keys: set<(char, char)>)
    requires |tag| >= 2 && HeadIn(rest, keys) && Key(tag) !in keys
    ensures TakeList(ListLine(tag, items) + rest, tag) == (JoinedIfAny(items, ", "), rest)
  {
    if |items| > 0 {
      var v := Join(items, ", ");
      var ls := ListLine(tag, items) + rest;
      assert ls[0] == tag + v && ls[1..] == rest;
      assert (tag + v)[..|tag|] == tag;
      assert (tag + v)[|tag|..] == v;
    } else {
      assert ListLine(tag, items) + rest == rest;
      NotOpens(rest, tag, keys);
    }
  }

  /** A line the entry reader stops at: neither a title nor a description. */
  predicate EndsEntries(ls: seq<string>) {
    ls != [] && (ls[0] == "" || (ls[0][0] != ' ' && !IsDigit(ls[0][0])))
  }

  /** No title line opens `ls`: its first character is not a digit. */
  lemma NoTitle(ls: seq<string>, number: nat)
    requires EndsEntries(ls)
    ensures !Opens(ls, NatToString(number) + ". ")
  {
  }

  /** Reading one entry: its title line and, when it has a description, its
      description line, up to a line that is not a description. */
  lemma TakeEntryStep(e: Entry, number: nat, next: seq<string>)
    requires next != [] && (next[0] == "" || next[0][0] != ' ')
    ensures TakeEntry(EntryLines(e, number) + next, number) ==
      Some((EntryDigest(e.title, JoinedIfAny(e.description, " ")), next))
  {
    var prefix := NatToString(number) + ". ";
    var titleLine := prefix + e.title;
    var ls := EntryLines(e, number) + next;
    assert titleLine[..|prefix|] == prefix;
    assert titleLine[|prefix|..] == e.title;
    assert Opens(ls, prefix);
    if |e.description| > 0 {
      var detailsLine := DetailsIndent + Join(e.description, " ");
      assert ls == [titleLine, detailsLine] + next;
      assert detailsLine[..|DetailsIndent|] == DetailsIndent;
      assert detailsLine[|DetailsIndent|..] == Join(e.description, " ");
      assert ls[1..][0] == detailsLine;
      assert ls[2..] == next;
    } else {
      assert ls == [titleLine] + next;
      assert ls[1..] == next;
      assert !Opens(next, DetailsIndent);
    }
  }

  /** Reading the entries numbered from `number` on gives back their
      titles and joined descriptions, and stops at `tail`. */
  lemma {:induction false} TakeEntriesRoundTrip(es: seq<Entry>, number: nat, tail: seq<string>)
    requires EndsEntries(tail)
    ensures TakeEntries(EntriesLines(es, number) + tail, number) == (EntryDigests(es), tail)
    decreases |es|
  {
    if es == [] {
      assert EntriesLines(es, number) + tail == tail;
      NoTitle(tail, number);
      assert TakeEntry(tail, number) == None;
    } else {
      var rest := es[1..];
      var next := EntriesLines(rest, number + 1) + tail;
      TakeEntriesRoundTrip(rest, number + 1, tail);
      NoDetailsAhead(rest, number + 1, tail);
      TakeEntryStep(es[0], number, next);
      EntriesLinesCons(es, number, tail);
      TakeEntriesCons(EntryLines(es[0], number) + next, number,
        EntryDigest(es[0].title, JoinedIfAny(es[0].description, " ")), next);
      EntryDigestsCons(es);
    }
  }

  lemma TakeEntriesCons(ls: seq<string>, number: nat, d: EntryDigest, rest: seq<string>)
    requires TakeEntry(ls, number) == Some((d, rest))
    ensures TakeEntries(ls, number) ==
      ([d] + TakeEntries(rest, number + 1).0, TakeEntries(rest, number + 1).1)
  {
  }

  lemma EntriesLinesCons(es: seq<Entry>, number: nat, tail: seq<string>)
    requires es != []
    ensures EntriesLines(es, number) + tail ==
      EntryLines(es[0], number) + (EntriesLines(es[1..], number + 1) + tail)
  {
  }

  lemma EntryDigestsCons(es: seq<Entry>)
    requires es != []
    ensures EntryDigests(es) ==
      [EntryDigest(es[0].title, JoinedIfAny(es[0].description, " "))] + EntryDigests(es[1..])
  {
  }

  /** After an entry's lines comes another title or the end of the block,
      never a description line. */
  lemma NoDetailsAhead(es: seq<Entry>, number: nat, tail: seq<string>)
    requires EndsEntries(tail)
    ensures var next := EntriesLines(es, number) + tail;
      next != [] && (next[0] == "" || next[0][0] != ' ')
  {
    if es != [] {
      var l := NatToString(number) + ". " + es[0].title;
      assert (EntriesLines(es, number) + tail)[0] == l;
      assert IsDigit(l[0]);
    } else {
      assert EntriesLines(es, number) + tail == tail;
    }
  }

  /** `ReadLines` in terms of its six stages. */
  lemma ReadLinesStages(ls0: seq<string>, ls1: seq<string>, ls2: seq<string>, ls3: seq<string>,
                        ls4: seq<string>, ls5: seq<string>, d: Digest)
    requires TakeField(ls0, NameLabel) == (d.name, ls1)
    requires TakeField(ls1, EmailLabel) == (d.email, ls2)
    requires TakeField(ls2, SummaryLabel) == (d.summary, ls3)
    requires TakeExperience(ls3) == (d.experience, ls4)
    requires TakeList(ls4, EducationLabel) == (d.education, ls5)
    requires TakeList(ls5, SkillsLabel) == (d.skills, [""])
    ensures ReadLines(ls0) == Some(d)
  {
  }

  /** The last two stages: the education and skills lines, then the empty
      piece after the last `\n`. */
  lemma ListsRoundTrip(s: Sections)
    ensures var s5 := ListLine(SkillsLabel, s.skills) + [""];
      && TakeList(s5, SkillsLabel) == (JoinedIfAny(s.skills, ", "), [""])
      && TakeList(ListLine(EducationLabel, s.education) + s5, EducationLabel) == (JoinedIfAny(s.education, ", "), s5)
      && HeadIn(ListLine(EducationLabel, s.education) + s5, {Key(SkillsLabel), Key(EducationLabel)})
      && EndsEntries(ListLine(EducationLabel, s.education) + s5)
      && (ListLine(EducationLabel, s.education) + s5)[0] != ExperienceHeading
  {
    var sk, ed := Key(SkillsLabel), Key(EducationLabel);
    assert sk == ('S', 'k') && ed == ('E', 'd');
    var s6: seq<string> := [""];
    var s5 := ListLine(SkillsLabel, s.skills) + s6;
    assert HeadIn(s6, {});
    TakeListRoundTrip(SkillsLabel, s.skills, s6, {});
    ListHead(SkillsLabel, s.skills, s6, {});
    TakeListRoundTrip(EducationLabel, s.education, s5, {sk});
    ListHead(EducationLabel, s.education, s5, {sk});
    var s4 := ListLine(EducationLabel, s.education) + s5;
    if s4[0] != "" {
      assert s4[0][0] == 'S' || s4[0][0] == 'E';
      assert s4[0][1] == 'k' || s4[0][1] == 'd';
    }
  }

  /** The experience stage, in front of a line that ends the entries and
      is not the experience heading. */
  lemma ExperienceRoundTrip(es: seq<Entry>, s4: seq<string>)
    requires EndsEntries(s4) && s4[0] != ExperienceHeading
    ensures TakeExperience(ExperienceBlock(es) + s4) == (EntryDigests(es), s4)
  {
    if |es| > 0 {
      TakeExperienceBlock(es, s4);
      TakeEntriesRoundTrip(es, 1, s4);
    } else {
      assert ExperienceBlock(es) + s4 == s4;
    }
  }

  /** A non-empty block is read by the entry reader, from entry 1. */
  lemma TakeExperienceBlock(es: seq<Entry>, rest: seq<string>)
    requires |es| > 0
    ensures TakeExperience(ExperienceBlock(es) + rest) == TakeEntries(EntriesLines(es, 1) + rest, 1)
  {
    var block := ExperienceBlock(es) + rest;
    var entries := EntriesLines(es, 1) + rest;
    assert block == [ExperienceHeading] + entries;
    assert block[1..] == entries;
  }

  /** The experience block in front of `rest` adds the heading's key to the
      possible heads. */
  lemma ExperienceHead(es: seq<Entry>, rest: seq<string>, keys: set<(char, char)>)
    requires HeadIn(rest, keys)
    ensures HeadIn(ExperienceBlock(es) + rest, keys + {Key(ExperienceHeading)})
  {
    if |es| > 0 {
      assert (ExperienceBlock(es) + rest)[0] == ExperienceHeading;
    } else {
      assert ExperienceBlock(es) + rest == rest;
    }
  }

  /** `ContextLines(s) + [""]`, regrouped from the back. */
  lemma ContextLinesGrouped(s: Sections)
    ensures ContextLines(s) + [""] ==
      FieldLine(NameLabel, s.contact.name) + (FieldLine(EmailLabel, s.contact.email)
        + (FieldLine(SummaryLabel, s.summary) + (ExperienceBlock(s.experience)
        + (ListLine(EducationLabel, s.education) + (ListLine(SkillsLabel, s.skills) + [""])))))
  {
    Regroup(FieldLine(NameLabel, s.contact.name), FieldLine(EmailLabel, s.contact.email),
      FieldLine(SummaryLabel, s.summary), ExperienceBlock(s.experience),
      ListLine(EducationLabel, s.education), ListLine(SkillsLabel, s.skills), [""]);
  }

  lemma Regroup<T>(a: seq<T>, b: seq<T>, c: seq<T>, d: seq<T>, e: seq<T>, f: seq<T>, g: seq<T>)
    ensures a + b + c + d + e + f + g == a + (b + (c + (d + (e + (f + g)))))
  {
  }

  /** Reading the lines `createResumeContext` writes gives back what they
      say, whatever the resume holds. */
  lemma ReadLinesRoundTrip(s: Sections)
    ensures ReadLines(ContextLines(s) + [""]) == Some(DigestOf(s))
  {
    var sk, ed, ex, su, em := Key(SkillsLabel), Key(EducationLabel), Key(ExperienceHeading), Key(SummaryLabel), Key(EmailLabel);
    assert sk == ('S', 'k') && ed == ('E', 'd') && ex == ('E', 'x') && su == ('S', 'u') && em == ('E', 'm');
    assert Key(NameLabel) == ('N', 'a');
    var s6: seq<string> := [""];
    var s5 := ListLine(SkillsLabel, s.skills) + s6;
    var s4 := ListLine(EducationLabel, s.education) + s5;
    var s3 := ExperienceBlock(s.experience) + s4;
    var s2 := FieldLine(SummaryLabel, s.summary) + s3;
    var s1 := FieldLine(EmailLabel, s.contact.email) + s2;
    var s0 := FieldLine(NameLabel, s.contact.name) + s1;
    ContextLinesGrouped(s);
    ListsRoundTrip(s);
    ExperienceRoundTrip(s.experience, s4);
    ExperienceHead(s.experience, s4, {sk, ed});
    TakeFieldRoundTrip(SummaryLabel, s.summary, s3, {sk, ed, ex});
    FieldHead(SummaryLabel, s.summary, s3, {sk, ed, ex});
    TakeFieldRoundTrip(EmailLabel, s.contact.email, s2, {sk, ed, ex, su});
    FieldHead(EmailLabel, s.contact.email, s2, {sk, ed, ex, su});
    TakeFieldRoundTrip(NameLabel, s.contact.name, s1, {sk, ed, ex, su, em});
    ReadLinesStages(s0, s1, s2, s3, s4, s5, DigestOf(s));
  }

  // ------------------------------------------------------- text round trip

  predicate NoBreak(x: string) {
    '\n' !in x
  }

  predicate AllNoBreak(xs: seq<string>) {
    forall i :: 0 <= i < |xs| ==> NoBreak(xs[i])
  }

  /** Every value the context writes fits on one line. */
  predicate OneLine(s: Sections) {
    && NoBreak(s.contact.name) && NoBreak(s.contact.email) && NoBreak(s.summary)
    && AllNoBreak(s.education) && AllNoBreak(s.skills)
    && forall i :: 0 <= i < |s.experience| ==>
         NoBreak(s.experience[i].title) && AllNoBreak(s.experience[i].description)
  }

  lemma {:induction false} JoinNoBreak(parts: seq<string>, sep: string)
    requires AllNoBreak(parts) && NoBreak(sep)
    ensures NoBreak(Join(parts, sep))
    decreases |parts|
  {
    if |parts| > 1 {
      JoinNoBreak(parts[1..], sep);
      assert NoBreak(parts[0]);
    }
  }

  lemma {:induction false} EntriesLinesNoBreak(es: seq<Entry>, first: nat)
    requires forall i :: 0 <= i < |es| ==> NoBreak(es[i].title) && AllNoBreak(es[i].description)
    ensures AllNoBreak(EntriesLines(es, first))
    decreases |es|
  {
    if es != [] {
      EntriesLinesNoBreak(es[1..], first + 1);
      var e := es[0];
      JoinNoBreak(e.description, " ");
      assert forall c :: c in NatToString(first) ==> IsDigit(c);
      assert AllNoBreak(EntryLines(e, first));
    }
  }

  lemma AllNoBreakAppend(a: seq<string>, b: seq<string>)
    requires AllNoBreak(a) && AllNoBreak(b)
    ensures AllNoBreak(a + b)
  {
    assert forall i :: |a| <= i < |a + b| ==> (a + b)[i] == b[i - |a|];
  }

  lemma FieldLineNoBreak(tag: string, value: string)
    requires NoBreak(tag) && NoBreak(value)
    ensures AllNoBreak(FieldLine(tag, value))
  {
  }

  lemma ListLineNoBreak(tag: string, items: seq<string>)
    requires NoBreak(tag) && AllNoBreak(items)
    ensures AllNoBreak(ListLine(tag, items))
  {
    JoinNoBreak(items, ", ");
  }

  /** The fixed parts of the layout are single lines. */
  lemma LabelsNoBreak()
    ensures NoBreak(ContextHeader) && NoBreak(NameLabel) && NoBreak(EmailLabel) && NoBreak(SummaryLabel)
    ensures NoBreak(ExperienceHeading) && NoBreak(EducationLabel) && NoBreak(SkillsLabel)
  {
  }

  /** No line of the context of a one-line resume holds a line break. */
  lemma ContextLinesNoBreak(s: Sections)
    requires OneLine(s)
    ensures AllNoBreak([ContextHeader] + ContextLines(s))
  {
    LabelsNoBreak();
    var name := FieldLine(NameLabel, s.contact.name);
    var email := FieldLine(EmailLabel, s.contact.email);
    var summary := FieldLine(SummaryLabel, s.summary);
    var experience := ExperienceBlock(s.experience);
    var education := ListLine(EducationLabel, s.education);
    var skills := ListLine(SkillsLabel, s.skills);
    FieldLineNoBreak(NameLabel, s.contact.name);
    FieldLineNoBreak(EmailLabel, s.contact.email);
    FieldLineNoBreak(SummaryLabel, s.summary);
    EntriesLinesNoBreak(s.experience, 1);
    AllNoBreakAppend([ExperienceHeading], EntriesLines(s.experience, 1));
    ListLineNoBreak(EducationLabel, s.education);
    ListLineNoBreak(SkillsLabel, s.skills);
    AllNoBreakAppend(name, email);
    AllNoBreakAppend(name + email, summary);
    AllNoBreakAppend(name + email + summary, experience);
    AllNoBreakAppend(name + email + summary + experience, education);
    AllNoBreakAppend(name + email + summary + experience + education, skills);
    AllNoBreakAppend([ContextHeader], ContextLines(s));
  }

  /** Splitting rendered lines on `\n` gives the lines back, and then the
      empty piece after the last `\n`. */
  lemma {:induction false} RenderSplit(ls: seq<string>)
    requires AllNoBreak(ls)
    ensures SplitAny(Render(ls), {'\n'}) == ls + [""]
    decreases |ls|
  {
    if ls != [] {
      RenderSplit(ls[1..]);
      assert forall c :: c in ls[0] ==> c !in {'\n'};
      SplitAnyAfterPiece(ls[0], '\n', Render(ls[1..]), {'\n'});
      assert ls[0] + "\n" + Render(ls[1..]) == ls[0] + ['\n'] + Render(ls[1..]);
      assert ls + [""] == [ls[0]] + (ls[1..] + [""]);
    }
  }

  /** Reading the context back: no resume gives no context and nothing to
      read, and a resume whose values fit on one line gives back every
      field `createResumeContext` writes. */
  lemma ContextRoundTrip(resumeData: Option<ResumeRecord>)
    requires resumeData.Some? ==> OneLine(resumeData.value.sections)
    ensures ReadContext(ResumeContext(resumeData)) ==
      if resumeData.None? then None else Some(DigestOf(resumeData.value.sections))
  {
    if resumeData.Some? {
      var s := resumeData.value.sections;
      var ls := [ContextHeader] + ContextLines(s);
      ContextLinesNoBreak(s);
      RenderSplit(ls);
      assert (ls + [""])[1..] == ContextLines(s) + [""];
      ReadLinesRoundTrip(s);
    } else {
      assert SplitAny("", {'\n'}) == [""];
    }
  }

}
