/** `extractExperience`: after the experience header, a two-state
    accumulator groups the section's lines into entries. A line that is not
    a bullet opens a new entry (flushing the one in progress), a bullet line
    is added to the description of the entry in progress, and the entry in
    progress is flushed when the section ends. */
module ResumeExperience {
  import opened Wrappers
  import opened Text
  import opened ResumeSections

  const ExperienceKeywords: seq<string> := ["experience", "work", "employment", "career"]
  const ExperienceStops: seq<string> := ["education", "skills"]

  predicate IsExperienceHeader(line: string) {
    Mentions(line, ExperienceKeywords)
  }

  predicate IsExperienceStop(line: string) {
    Mentions(line, ExperienceStops)
  }

  /** A line that starts with `-` or `•`. */
  predicate IsBullet(line: string) {
    StartsWith(line, "-") || StartsWith(line, "\U{2022}")
  }

  /** A line that starts a new entry: non-empty and not a bullet. */
  predicate IsTitleLine(line: string) {
    |line| > 0 && !IsBullet(line)
  }

  /** `{ title, description }`. */
  datatype Entry = Entry(title: string, description: seq<string>)

  /** The accumulator's state: the entries flushed so far, and the entry in
      progress when there is one. */
  datatype Scan =
    | NoCurrentEntry(done: seq<Entry>)
    | AccumulatingEntry(done: seq<Entry>, current: Entry)

  /** The flushed entries, with the entry in progress flushed last. */
  function Flush(s: Scan): (r: seq<Entry>)
    ensures s.done <= r && |r| == |s.done| + (if s.AccumulatingEntry? then 1 else 0)
  {
    match s
    case NoCurrentEntry(done) => done
    case AccumulatingEntry(done, current) => done + [current]
  }

  /** One transition of the accumulator. */
  function Step(s: Scan, line: string): (r: Scan)
    ensures s.AccumulatingEntry? ==> r.AccumulatingEntry?
  {
    if IsTitleLine(line) then AccumulatingEntry(Flush(s), Entry(line, []))
    else if s.AccumulatingEntry? && |line| > 0 then
      AccumulatingEntry(s.done, Entry(s.current.title, s.current.description + [line]))
    else s
  }

  /** The state after the accumulator has consumed `span`. */
  function Scanned(span: seq<string>): (r: Scan)
    ensures r.NoCurrentEntry? ==> r.done == []
    decreases |span|
  {
    if span == [] then NoCurrentEntry([])
    else Step(Scanned(span[..|span| - 1]), span[|span| - 1])
  }

  lemma ScannedSnoc(span: seq<string>, x: string)
    ensures Scanned(span + [x]) == Step(Scanned(span), x)
  {
    assert (span + [x])[..|span|] == span;
  }

  /** The experience `extractExperience` returns. */
  function ExperienceOf(lines: seq<string>): (r: seq<Entry>)
    ensures HeaderStart(lines, IsExperienceHeader) == -1 ==> r == []
  {
    var start := HeaderStart(lines, IsExperienceHeader);
    if start == -1 then []
    else Flush(Scanned(lines[start..SectionEnd(lines, start, IsExperienceStop)]))
  }

  /** The nullable `currentExperience` variable as an accumulator state. */
  function StateOf(experiences: seq<Entry>, current: Option<Entry>): Scan {
    match current
    case None => NoCurrentEntry(experiences)
    case Some(c) => AccumulatingEntry(experiences, c)
  }

  /** The accumulation loop of `extractExperience`, from `start` up to the
      first stop line. */
  method AccumulateEntries(lines: seq<string>, start: nat, isStop: string -> bool)
    returns (experiences: seq<Entry>)
    requires start <= |lines|
    ensures experiences == Flush(Scanned(lines[start..SectionEnd(lines, start, isStop)]))
  {
    experiences := [];
    var currentExperience: Option<Entry> := None;
    var i := start;
    ghost var state := NoCurrentEntry([]);
    while i < |lines|
      invariant start <= i <= |lines|
      invariant forall j :: start <= j < i ==> !isStop(lines[j])
      invariant state == Scanned(lines[start..i])
      invariant StateOf(experiences, currentExperience) == state
    {
      var line := lines[i];
      if isStop(line) {
        break;
      }
      SliceSnoc(lines, start, i);
      ScannedSnoc(lines[start..i], line);
      state := Step(state, line);
      experiences, currentExperience := AccumulateLine(experiences, currentExperience, line);
      i := i + 1;
    }
    SectionEndIs(lines, start, isStop, i);
    if currentExperience.Some? {
      experiences := experiences + [currentExperience.value];
    }
  }

  /** The body of the accumulation loop for one line: a title line
      flushes the entry in progress and opens a new one, a non-empty bullet
      line joins the description of the entry in progress. */
  method AccumulateLine(experiences: seq<Entry>, currentExperience: Option<Entry>, line: string)
    returns (experiences': seq<Entry>, currentExperience': Option<Entry>)
    ensures StateOf(experiences', currentExperience') == Step(StateOf(experiences, currentExperience), line)
  {
    experiences', currentExperience' := experiences, currentExperience;
    if |line| > 0 && !StartsWith(line, "-") && !StartsWith(line, "\U{2022}") {
      if currentExperience'.Some? {
        experiences' := experiences' + [currentExperience'.value];
      }
      currentExperience' := Some(Entry(line, []));
    } else if currentExperience'.Some? && |line| > 0 {
      var c := currentExperience'.value;
      currentExperience' := Some(c.(description := c.description + [line]));
    }
  }

  method ExtractExperience(lines: seq<string>) returns (experiences: seq<Entry>)
    ensures experiences == ExperienceOf(lines)
  {
    experiences := [];
    var experienceStart := LocateSection(lines, IsExperienceHeader);
    if experienceStart > -1 {
      experiences := AccumulateEntries(lines, experienceStart, IsExperienceStop);
    }
  }

  // ------------------------------------------------------------ properties

  /** An entry as the accumulator builds it: a title line and bullet lines. */
  predicate WellFormed(e: Entry) {
    IsTitleLine(e.title) && forall d :: d in e.description ==> |d| > 0 && IsBullet(d)
  }

  /** The lines of the entries, each title followed by its description. */
  function Flatten(es: seq<Entry>): seq<string>
    decreases |es|
  {
    if es == [] then []
    else
      var last := es[|es| - 1];
      Flatten(es[..|es| - 1]) + ([last.title] + last.description)
  }

  function Titles(es: seq<Entry>): seq<string>
    decreases |es|
  {
    if es == [] then [] else Titles(es[..|es| - 1]) + [es[|es| - 1].title]
  }

  /** The title lines of `span`, in order. */
  function TitleLines(span: seq<string>): seq<string>
    decreases |span|
  {
    if span == [] then []
    else
      var last := span[|span| - 1];
      TitleLines(span[..|span| - 1]) + (if IsTitleLine(last) then [last] else [])
  }

  /** `ls` without the bullet lines that come before its first title. */
  function DropLeadingBullets(ls: seq<string>): seq<string>
    decreases |ls|
  {
    if ls == [] then []
    else if IsBullet(ls[0]) then DropLeadingBullets(ls[1..])
    else ls
  }

  lemma {:induction false} DropLeadingBulletsSnoc(ls: seq<string>, x: string)
    ensures DropLeadingBullets(ls + [x]) ==
      if DropLeadingBullets(ls) == [] then (if IsBullet(x) then [] else [x])
      else DropLeadingBullets(ls) + [x]
    decreases |ls|
  {
    if ls == [] {
      assert ls + [x] == [x];
    } else {
      assert (ls + [x])[1..] == ls[1..] + [x];
      if IsBullet(ls[0]) {
        DropLeadingBulletsSnoc(ls[1..], x);
      }
    }
  }

  lemma FlattenSnoc(es: seq<Entry>, e: Entry)
    ensures Flatten(es + [e]) == Flatten(es) + ([e.title] + e.description)
  {
    assert (es + [e])[..|es|] == es;
  }

  lemma TitlesSnoc(es: seq<Entry>, e: Entry)
    ensures Titles(es + [e]) == Titles(es) + [e.title]
  {
    assert (es + [e])[..|es|] == es;
  }

  /** State `s` reads back as the lines `kept`: with no entry in progress
      nothing has been flushed, and the entries, each title followed by its
      description, are `kept` without its leading bullets. */
  predicate ReadsBack(s: Scan, kept: seq<string>) {
    && (s.NoCurrentEntry? ==> s.done == [])
    && Flatten(Flush(s)) == DropLeadingBullets(kept)
  }

  /** Reading back the span's entries, each title followed by its
      description, gives the span's non-empty lines with only the bullets
      that precede the first title dropped: each bullet line lands in the
      description of the nearest title above it, and no line is lost or
      reordered. */
  lemma {:induction false} ScanReadsBack(span: seq<string>)
    ensures ReadsBack(Scanned(span), DropEmpty(span))
    decreases |span|
  {
    if span == [] {
      return;
    }
    var prev, x := span[..|span| - 1], span[|span| - 1];
    assert span == prev + [x];
    ScanReadsBack(prev);
    var kept := DropEmpty(prev);
    DropEmptyAppend(prev, [x]);
    assert DropEmpty([x]) == if x == "" then [] else [x];
    if x == "" {
      assert Scanned(span) == Scanned(prev);
      assert DropEmpty(span) == kept;
    } else {
      assert DropEmpty(span) == kept + [x];
      ReadsBackStep(Scanned(prev), kept, x);
    }
  }

  /** No entry is in progress exactly when no title line has been kept. */
  lemma ReadsBackIdle(s: Scan, kept: seq<string>)
    requires ReadsBack(s, kept)
    ensures s.NoCurrentEntry? <==> DropLeadingBullets(kept) == []
  {
    if s.AccumulatingEntry? {
      FlattenSnoc(s.done, s.current);
    }
  }

  /** One step of `ScanReadsBack`: a state that reads back as `kept` reads
      back as `kept + [x]` after consuming the non-empty line `x`. */
  lemma ReadsBackStep(s: Scan, kept: seq<string>, x: string)
    requires x != ""
    requires ReadsBack(s, kept)
    ensures ReadsBack(Step(s, x), kept + [x])
  {
    DropLeadingBulletsSnoc(kept, x);
    if s.NoCurrentEntry? {
      assert DropLeadingBullets(kept) == [];
      if IsTitleLine(x) {
        FlattenSnoc([], Entry(x, []));
        assert Step(s, x) == AccumulatingEntry([], Entry(x, []));
      } else {
        assert Step(s, x) == s;
      }
    } else {
      FlattenSnoc(s.done, s.current);
      assert DropLeadingBullets(kept) != [];
      ReadsBackInEntry(s.done, s.current, x);
    }
  }

  /** The case of `ReadsBackStep` with an entry in progress: the new line
      follows the lines already read, as a new title or as the last line of
      the current description. */
  lemma ReadsBackInEntry(done: seq<Entry>, c: Entry, x: string)
    requires x != ""
    ensures Flatten(Flush(Step(AccumulatingEntry(done, c), x))) ==
      Flatten(Flush(AccumulatingEntry(done, c))) + [x]
  {
    if IsTitleLine(x) {
      FlattenSnoc(done + [c], Entry(x, []));
    } else {
      var c' := Entry(c.title, c.description + [x]);
      FlattenSnoc(done, c);
      FlattenSnoc(done, c');
      SeqAssoc([c.title], c.description, [x]);
      SeqAssoc(Flatten(done), [c.title] + c.description, [x]);
    }
  }

  /** Every title line of the span becomes exactly one title, in order. */
  lemma {:induction false} ScanTitles(span: seq<string>)
    ensures Titles(Flush(Scanned(span))) == TitleLines(span)
    decreases |span|
  {
    if span == [] {
      return;
    }
    var prev, x := span[..|span| - 1], span[|span| - 1];
    ScanTitles(prev);
    match Scanned(prev)
    case NoCurrentEntry(done) =>
      if IsTitleLine(x) {
        TitlesSnoc(done, Entry(x, []));
      }
    case AccumulatingEntry(done, c) =>
      TitlesSnoc(done, c);
      if IsTitleLine(x) {
        TitlesSnoc(done + [c], Entry(x, []));
      } else if |x| > 0 {
        TitlesSnoc(done, Entry(c.title, c.description + [x]));
      }
  }

  /** The accumulator only builds well-formed entries. */
  lemma {:induction false} ScanWellFormed(span: seq<string>)
    ensures forall e :: e in Flush(Scanned(span)) ==> WellFormed(e)
    decreases |span|
  {
    if span == [] {
      return;
    }
    var prev, x := span[..|span| - 1], span[|span| - 1];
    ScanWellFormed(prev);
    match Scanned(prev)
    case NoCurrentEntry(done) =>
    case AccumulatingEntry(done, c) =>
      if !IsTitleLine(x) && |x| > 0 {
        var c' := Entry(c.title, c.description + [x]);
        assert c in Flush(Scanned(prev));
        assert forall d :: d in c'.description ==> d in c.description || d == x;
      }
  }

  /** `extractExperience` returns `[]` without a header; with one, its
      entries are the grouping of the lines from just after the header up
      to (excluding) the first line that mentions education or skills. */
  lemma ExperienceGrouping(lines: seq<string>)
    ensures var start := HeaderStart(lines, IsExperienceHeader);
      && (start == -1 ==> ExperienceOf(lines) == [])
      && (start != -1 ==>
            var span := lines[start..SectionEnd(lines, start, IsExperienceStop)];
            && (forall e :: e in ExperienceOf(lines) ==> WellFormed(e))
            && Titles(ExperienceOf(lines)) == TitleLines(span)
            && Flatten(ExperienceOf(lines)) == DropLeadingBullets(DropEmpty(span)))
  {
    var start := HeaderStart(lines, IsExperienceHeader);
    if start != -1 {
      var span := lines[start..SectionEnd(lines, start, IsExperienceStop)];
      ScanReadsBack(span);
      ScanTitles(span);
      ScanWellFormed(span);
    }
  }

}
