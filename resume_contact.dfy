/** `extractContact`: a scan of the first ten lines that takes the first
    plausible line as the name and the last email and phone matches. The
    two regular expressions are matchers given as parameters: a matcher
    returns the matched text of a line, or `None` where `match` gives `null`. */
module ResumeContact {
  import opened Wrappers
  import opened Text
  import opened ResumeSections

  /** `line.match(regex)`: the matched text, `None` when there is no match. */
  type Matcher = string -> Option<string>

  /** A matcher that behaves like a regular-expression match: whatever it
      returns occurs in the line it was given. */
  ghost predicate Sound(m: Matcher) {
    forall line :: m(line).Some? ==> Contains(line, m(line).value)
  }

  /** How many leading lines the scan looks at. */
  const ContactWindow: nat := 10

  datatype Contact = Contact(name: string, email: string, phone: string, location: string)

  /** A line that can be taken as the name: longer than two characters and
      neither an email nor a phone line (`regex.test` is `match` not null). */
  predicate IsNameCandidate(line: string, email: Matcher, phone: Matcher) {
    |line| > 2 && email(line).None? && phone(line).None?
  }

  /** The name the scan settles on after reading `ls`: once a name is set
      (it is then never empty) it is kept. */
  function NameIn(ls: seq<string>, email: Matcher, phone: Matcher): (r: string)
    ensures r == "" || (IsNameCandidate(r, email, phone) && r in ls)
    decreases |ls|
  {
    if ls == [] then ""
    else
      var name := NameIn(ls[..|ls| - 1], email, phone);
      var line := ls[|ls| - 1];
      assert forall x :: x in ls[..|ls| - 1] ==> x in ls;
      if name == "" && IsNameCandidate(line, email, phone) then line else name
  }

  /** The field a matcher fills after reading `ls`: each match overwrites
      the one before. */
  function LastMatchIn(ls: seq<string>, m: Matcher): (r: string)
    ensures r == "" || exists i :: 0 <= i < |ls| && m(ls[i]) == Some(r)
    decreases |ls|
  {
    if ls == [] then ""
    else
      match m(ls[|ls| - 1])
      case Some(found) => found
      case None =>
        var prev := ls[..|ls| - 1];
        assert forall i :: 0 <= i < |prev| ==> prev[i] == ls[i];
        LastMatchIn(prev, m)
  }

  /** The lines the scan reads: indices `0 .. min(10, |lines|) - 1`. */
  function Window(lines: seq<string>): (w: seq<string>)
    ensures |w| == Min(ContactWindow, |lines|)
    ensures w == lines[..|w|]
  {
    lines[..Min(ContactWindow, |lines|)]
  }

  /** The contact `extractContact` returns; `location` is never filled in. */
  function ContactOf(lines: seq<string>, email: Matcher, phone: Matcher): (c: Contact)
    ensures c.location == ""
    ensures c.name == "" || (IsNameCandidate(c.name, email, phone) && c.name in Window(lines))
    ensures c.email == "" || exists i :: 0 <= i < |Window(lines)| && email(lines[i]) == Some(c.email)
    ensures c.phone == "" || exists i :: 0 <= i < |Window(lines)| && phone(lines[i]) == Some(c.phone)
  {
    var w := Window(lines);
    Contact(NameIn(w, email, phone), LastMatchIn(w, email), LastMatchIn(w, phone), "")
  }

  method ExtractContact(lines: seq<string>, emailRegex: Matcher, phoneRegex: Matcher)
    returns (contact: Contact)
    ensures contact == ContactOf(lines, emailRegex, phoneRegex)
  {
    contact := Contact("", "", "", "");
    var n := Min(ContactWindow, |lines|);
    for i := 0 to n
      invariant contact.name == NameIn(lines[..i], emailRegex, phoneRegex)
      invariant contact.email == LastMatchIn(lines[..i], emailRegex)
      invariant contact.phone == LastMatchIn(lines[..i], phoneRegex)
      invariant contact.location == ""
    {
      var line := lines[i];
      assert lines[..i + 1][..i] == lines[..i];
      if contact.name == "" && |line| > 2 && emailRegex(line).None? && phoneRegex(line).None? {
        contact := contact.(name := line);
      }
      var emailMatch := emailRegex(line);
      if emailMatch.Some? {
        contact := contact.(email := emailMatch.value);
      }
      var phoneMatch := phoneRegex(line);
      if phoneMatch.Some? {
        contact := contact.(phone := phoneMatch.value);
      }
    }
  }

  // ------------------------------------------------------------ properties

  /** The name is the first line that qualifies, or `""` when none does. */
  lemma {:induction false} NameIsFirstCandidate(ls: seq<string>, email: Matcher, phone: Matcher)
    ensures NameIn(ls, email, phone) == "" <==>
      forall i :: 0 <= i < |ls| ==> !IsNameCandidate(ls[i], email, phone)
    ensures NameIn(ls, email, phone) != "" ==>
      exists k :: 0 <= k < |ls| && IsNameCandidate(ls[k], email, phone) && ls[k] == NameIn(ls, email, phone)
        && forall j :: 0 <= j < k ==> !IsNameCandidate(ls[j], email, phone)
    decreases |ls|
  {
    if ls != [] {
      var prev := ls[..|ls| - 1];
      NameIsFirstCandidate(prev, email, phone);
      assert forall i :: 0 <= i < |prev| ==> prev[i] == ls[i];
      if NameIn(prev, email, phone) != "" {
        var k :| 0 <= k < |prev| && IsNameCandidate(prev[k], email, phone) && prev[k] == NameIn(prev, email, phone)
          && forall j :: 0 <= j < k ==> !IsNameCandidate(prev[j], email, phone);
        assert ls[k] == prev[k];
      }
    }
  }

  /** A matched field is `""` when no line matches. */
  lemma {:induction false} NoMatchEmpty(ls: seq<string>, m: Matcher)
    requires forall i :: 0 <= i < |ls| ==> m(ls[i]).None?
    ensures LastMatchIn(ls, m) == ""
    decreases |ls|
  {
    if ls != [] {
      var prev := ls[..|ls| - 1];
      assert forall i :: 0 <= i < |prev| ==> prev[i] == ls[i];
      NoMatchEmpty(prev, m);
    }
  }

  /** Last match wins: a matched field holds the match of the last line that
      matches, whatever the earlier lines matched. */
  lemma {:induction false} LastMatchWins(ls: seq<string>, m: Matcher, k: nat)
    requires k < |ls| && m(ls[k]).Some?
    requires forall j :: k < j < |ls| ==> m(ls[j]).None?
    ensures LastMatchIn(ls, m) == m(ls[k]).value
    decreases |ls|
  {
    if k < |ls| - 1 {
      var prev := ls[..|ls| - 1];
      assert forall j :: k < j < |prev| ==> prev[j] == ls[j];
      LastMatchWins(prev, m, k);
    }
  }

  /** Lines from the eleventh on never reach the contact: only the window counts. */
  lemma ContactReadsOnlyWindow(lines: seq<string>, more: seq<string>, email: Matcher, phone: Matcher)
    requires |lines| >= ContactWindow
    ensures ContactOf(lines + more, email, phone) == ContactOf(lines, email, phone)
  {
    assert Window(lines + more) == Window(lines);
  }

  /** With sound matchers, the email and the phone are each empty or occur
      in one of the first ten lines. */
  lemma {:induction false} MatchFromLine(ls: seq<string>, m: Matcher)
    requires Sound(m)
    ensures LastMatchIn(ls, m) == "" || exists i :: 0 <= i < |ls| && Contains(ls[i], LastMatchIn(ls, m))
    decreases |ls|
  {
    if ls != [] {
      var prev := ls[..|ls| - 1];
      var last := ls[|ls| - 1];
      if m(last).Some? {
        assert Contains(ls[|ls| - 1], LastMatchIn(ls, m));
      } else {
        MatchFromLine(prev, m);
        assert forall i :: 0 <= i < |prev| ==> prev[i] == ls[i];
      }
    }
  }

  /** What `extractContact` promises of its result as a whole. */
  lemma ContactFields(lines: seq<string>, email: Matcher, phone: Matcher)
    requires Sound(email) && Sound(phone)
    ensures var c := ContactOf(lines, email, phone);
      && c.location == ""
      && (c.name == "" || (|c.name| > 2 && c.name in Window(lines)))
      && (c.email == "" || exists i :: 0 <= i < Min(ContactWindow, |lines|) && Contains(lines[i], c.email))
      && (c.phone == "" || exists i :: 0 <= i < Min(ContactWindow, |lines|) && Contains(lines[i], c.phone))
  {
    var w := Window(lines);
    NameIsFirstCandidate(w, email, phone);
    MatchFromLine(w, email);
    MatchFromLine(w, phone);
    assert forall i :: 0 <= i < |w| ==> w[i] == lines[i];
  }

}
