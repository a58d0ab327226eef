# Resume parser and chat context, modelled in Dafny

This project models the deterministic core of a resume chat assistant and
proves properties of it. It has three parts.

- **The resume parser** (`services/resumeParser.js`). The raw text of a
  document is split into trimmed, non-empty lines. Five extractors then scan
  those lines:
  - the contact scan reads the first ten lines;
  - keyword-located spans give the summary, the education and the skills;
  - a two-state accumulator groups the experience lines into entries made of
    a title and a description.

  Each loop of the source is a Dafny `method` with the same loop, proved
  equal to a specification function. The properties are lemmas about those
  functions.
- **The chat service** (`services/chatService.js`).
  - `createResumeContext` writes the parsed record as a fixed line layout,
    and `createSystemPrompt` puts a fixed preamble in front of it. Both build
    their string step by step with `+=`, as the source does.
  - A reader for the layout proves the layout is a serialisation. It gives
    back every field the context writes, for any resume whose values fit on
    one line, and every parsed resume satisfies that condition.
  - The per-session conversation history is a `class` with a `map` field. It
    is updated in place by `GenerateResponse` and `ClearConversation`, and
    each session keeps its last ten exchanges.
- **The string stages of `parseMarkdown`** (`public/script.js`). These are
  the five-character HTML escape, the newline rewrite and the final
  paragraph wrap. The escape is proved safe and invertible. The two-step
  newline rewrite is proved equal to a one-pass rewrite.

Parts of the source are parameters of the model:

- the two regular expressions of `extractContact`, as matchers of type
  `string -> Option<string>`;
- the clock reading `parsedAt`;
- the DOCX text extraction and the JSON save of `parseDocx`, as their
  results;
- the call to the language model, as a function from system prompt and user
  message to a reply or an error;
- the markdown regex rewrites of `parseMarkdown`, as two string functions.

No section ends at the header of the next section. Each extractor has its
own stop keywords:

- the summary stops at `experience`, `education`, `skills` or `work`;
- the experience stops only at `education` or `skills`;
- the education stops at `skills` or `experience`;
- the skills have no stop at all and run to the end of the input.

The summary's `lines[i] === ''` stop test is kept. A lemma shows it can
never fire on normalised lines.

Two facts about the source follow from the model.

- The phone number is extracted but never written into the context.
- With a resume, the system prompt carries the `Resume Information:`
  heading twice. `createSystemPrompt` writes it once, and the context it
  appends already starts with it (`PromptRepeatsHeading`).

## Model

| member | source | states |
|---|---|---|
| ResumeLines.Normalise | services/resumeParser.js:31 | every normalised line is trimmed, non-empty and holds no line break |
| Text.TrimIsSlice | services/resumeParser.js:31 | `trim` returns the slice of its input between the whitespace at the two ends, with no whitespace at its own ends |
| ResumeLines.NormaliseOfLines | services/resumeParser.js:31 | text written as raw lines normalises to those lines trimmed, minus the ones that trim to nothing, in their order |
| ResumeLines.NormaliseLine | services/resumeParser.js:31 | a single raw line gives its trim, or nothing when it is blank |
| ResumeLines.NormaliseJoin | services/resumeParser.js:31 | any normalised lines, joined by newlines, normalise back to themselves |
| ResumeLines.NormaliseConcat | services/resumeParser.js:31 | the lines of `a + "\n" + b` are the lines of `a` followed by those of `b`, so relative order is kept and each line is treated on its own |
| ResumeLines.NormaliseIdempotent | services/resumeParser.js:31 | the normalised lines, joined by newlines, normalise to themselves |
| ResumeLines.NormaliseEmpty | services/resumeParser.js:31 | empty text has no lines |
| ResumeSections.ContainsSomeMeans | services/resumeParser.js:93 | `keywords.some(k => line.includes(k))` holds exactly when some keyword occurs as a substring |
| ResumeSections.FirstFrom | services/resumeParser.js:101-108 | the first index from `from` on whose line passes the test; -1 exactly when no line does |
| ResumeSections.HeaderStart | services/resumeParser.js:91-97 | -1 exactly when no line is a header; otherwise one past the first header line, with no header before it |
| ResumeSections.SectionEnd | services/resumeParser.js:179-187 | the first stop line at or after `start`, or the end of the input; no line before it is a stop |
| ResumeSections.LocateSection | services/resumeParser.js:91-97 | the header loop with `break` computes `HeaderStart` |
| ResumeSections.FindFirst | services/resumeParser.js:101-108 | the stop loop with `break` computes `FirstFrom` |
| ResumeSections.SummaryEnd | services/resumeParser.js:99-110 | the summary span ends within the input, has no stop line before its end, and ends at a stop line, after five lines, or at the end of the input |
| ResumeSections.CollectSection | services/resumeParser.js:179-191 | the education loop collects the non-empty lines from `start` up to the first stop line |
| ResumeSections.SummaryOf | services/resumeParser.js:86-116 | the summary is `""` when no line mentions a summary keyword |
| ResumeSections.ExtractSummary | services/resumeParser.js:86-116 | `extractSummary`'s two loops and fallback compute `SummaryOf` |
| ResumeSections.SummaryBlankTestIsDead | services/resumeParser.js:104 | on normalised lines the stop test is the keyword test alone: the empty-line disjunct never fires |
| ResumeSections.SummaryUpToStop | services/resumeParser.js:99-112 | with a later stop line, the summary is the space-join of the lines strictly between the header and the first stop line |
| ResumeSections.SummaryFallbackWindow | services/resumeParser.js:110-112 | with no later stop line, the summary is the space-join of at most five lines after the header |
| ResumeSections.EducationOf | services/resumeParser.js:165-195 | the education is `[]` when no line mentions an education keyword |
| ResumeSections.ExtractEducation | services/resumeParser.js:165-195 | `extractEducation` computes `EducationOf` |
| ResumeSections.EducationVerbatim | services/resumeParser.js:178-191 | on normalised lines the education is exactly the lines after the header up to (excluding) the first stop line, verbatim and in order |
| ResumeSections.TokensAreSkills | services/resumeParser.js:216 | every token of a line is non-empty, trimmed and holds none of the skill delimiters (comma, semicolon, vertical bar, bullet, hyphen) |
| ResumeSections.Tokens | services/resumeParser.js:216 | an empty line has no tokens; no token is empty; a line has at most one token more than it has delimiters |
| ResumeSections.TokensOfPieces | services/resumeParser.js:216 | a line of delimiter-free pieces with delimiters between them gives the pieces trimmed, the empty ones dropped, in order and with duplicates kept |
| ResumeSections.TokensExample | services/resumeParser.js:216 | a line reading Python, Go, Rust and C++ separated by a comma, a semicolon and a vertical bar gives exactly those four tokens, in that order |
| ResumeSections.CollectTokens | services/resumeParser.js:211-219 | the token loop pushes the tokens of every non-empty line, in order (`TokensOfLines`) |
| ResumeSections.SkillsOf | services/resumeParser.js:197-223 | the skills are `[]` when no line mentions a skills keyword |
| ResumeSections.ExtractSkills | services/resumeParser.js:197-223 | `extractSkills` computes `SkillsOf`: the tokens of every line after the header, to the end of the input |
| ResumeSections.TokensOfLinesAreSkills | services/resumeParser.js:211-219 | every collected token is a skill token |
| ResumeSections.SkillsAreTokens | services/resumeParser.js:197-223 | every skill returned is a skill token |
| ResumeSections.TokensOfLinesAppend | services/resumeParser.js:217 | tokens of `a + b` are the tokens of `a` then those of `b`: order and duplicates are preserved |
| ResumeExperience.ExperienceOf | services/resumeParser.js:118-163 | the experience is `[]` when no line mentions an experience keyword |
| ResumeExperience.Flush | services/resumeParser.js:145-147 | flushing keeps the flushed entries in front and adds one entry exactly when an entry is in progress |
| ResumeExperience.Step | services/resumeParser.js:144-154 | once an entry is in progress, some entry stays in progress |
| ResumeExperience.Scanned | services/resumeParser.js:134-155 | while no entry is in progress, nothing has been flushed |
| ResumeExperience.AccumulateLine | services/resumeParser.js:144-154 | one pass of the loop body over `experiences` and `currentExperience` is one accumulator `Step` |
| ResumeExperience.AccumulateEntries | services/resumeParser.js:131-160 | the accumulation loop, with its `break` at a stop line and its final flush, computes the flushed state after scanning the span |
| ResumeExperience.ExtractExperience | services/resumeParser.js:118-163 | `extractExperience` computes `ExperienceOf` |
| ResumeExperience.ReadsBackStep | services/resumeParser.js:144-154 | one line of the accumulator keeps the invariant: a title opens an entry, a bullet joins the entry in progress, and flattening the entries gives the kept lines without the leading bullets |
| ResumeExperience.ReadsBackIdle | services/resumeParser.js:145-159 | there is no entry in progress exactly when every kept line so far is a bullet that came before any title |
| ResumeExperience.ScanReadsBack | services/resumeParser.js:144-159 | after any span, the flushed entries flatten to the span's non-empty lines minus the bullets before the first title |
| ResumeExperience.ScanTitles | services/resumeParser.js:144-151 | the entry titles are exactly the span's title lines, one entry per title, in order |
| ResumeExperience.ScanWellFormed | services/resumeParser.js:148-153 | every entry has a title line as its title and only bullet lines in its description |
| ResumeExperience.ExperienceGrouping | services/resumeParser.js:118-163 | `[]` without a header; otherwise entries are well formed, titles are the span's title lines, and all lines are kept in order except the bullets before the first title |
| ResumeContact.Window | services/resumeParser.js:62 | the scan reads exactly the first ten lines, or all lines when there are fewer |
| ResumeContact.NameIn | services/resumeParser.js:65-68 | the name is `""` or a scanned line longer than two characters that matches neither pattern |
| ResumeContact.LastMatchIn | services/resumeParser.js:70-80 | a non-empty field is what the pattern matched on one of the scanned lines |
| ResumeContact.ContactOf | services/resumeParser.js:49-84 | location is `""`; the name is `""` or a window line that qualifies; email and phone are `""` or a match of their pattern on a window line |
| ResumeContact.ExtractContact | services/resumeParser.js:49-84 | the contact loop computes `ContactOf`: name, email and phone of the window, and an empty location |
| ResumeContact.NameIsFirstCandidate | services/resumeParser.js:65-68 | the name is `""` exactly when no window line qualifies; otherwise it is the first line longer than two that matches neither pattern |
| ResumeContact.NoMatchEmpty | services/resumeParser.js:70-80 | a field is `""` when no line matches its pattern |
| ResumeContact.LastMatchWins | services/resumeParser.js:70-80 | a field holds the match of the last line that matches, whatever earlier lines matched |
| ResumeContact.ContactReadsOnlyWindow | services/resumeParser.js:62 | lines from the eleventh on never change the contact |
| ResumeContact.MatchFromLine | services/resumeParser.js:71-80 | with a matcher that returns a part of its line, a non-empty field occurs in some scanned line |
| ResumeContact.ContactFields | services/resumeParser.js:49-84 | location is `""`; the name is `""` or a window line longer than two; email and phone are `""` or occur in one of the first ten lines |
| ResumeParser.StructureResumeData | services/resumeParser.js:30-47 | the record keeps the file name, the timestamp and the raw text as given, and its location is empty |
| ResumeParser.SectionsOf | services/resumeParser.js:37-43 | all five sections read the same lines: location is `""`, every experience entry is well formed, and every skill is a skill token |
| ResumeParser.ParseDocx | services/resumeParser.js:10-28 | an extraction or save error is rethrown prefixed with `Failed to parse resume: `; otherwise the result is the record of the extracted text |
| ResumeParser.EmptyResume | services/resumeParser.js:30-47 | an empty document gives empty contact fields, an empty summary and empty lists |
| ResumeParser.SectionsIgnoreLayout | services/resumeParser.js:30-47 | texts with the same normalised lines give the same sections, whatever the file name or the time |
| ResumeParser.BlankLineIgnored | services/resumeParser.js:31 | an empty line between two parts of a document changes nothing |
| ChatContext.NatToString | services/chatService.js:165 | the entry number is written as a non-empty string of decimal digits |
| ChatContext.NatToStringValue | services/chatService.js:165 | reading the digits back gives the number |
| ChatContext.ResumeContext | services/chatService.js:144-181 | `""` exactly when there is no resume; otherwise it starts with `Resume Information:\n` |
| ChatContext.ContextLines | services/chatService.js:150-178 | no section line is written exactly when name, email, summary, experience, education and skills are all empty |
| ChatContext.Render | services/chatService.js:148-178 | text written from at least one line ends with `\n` |
| ChatContext.CreateResumeContext | services/chatService.js:144-181 | the `+=` sequence writes the header and then, each ending in `\n`, the name, email and summary lines when non-empty, the numbered experience block, and the education and skills lines when non-empty |
| ChatContext.AppendField | services/chatService.js:150-160 | a field line is appended exactly when the value is non-empty |
| ChatContext.AppendList | services/chatService.js:172-178 | a list line, joined by `", "`, is appended exactly when the list is non-empty |
| ChatContext.AppendExperience | services/chatService.js:162-170 | the `forEach` writes the heading and then the entries in input order, numbered from 1 |
| ChatContext.AppendEntry | services/chatService.js:165-168 | an entry is its numbered title line, then an indented description line joined by spaces, only when the description is non-empty |
| ChatContext.SystemPrompt | services/chatService.js:183-196 | the prompt always starts with the preamble; it is the preamble alone exactly when the context is empty, and otherwise continues with the heading and the context |
| ChatContext.CreateSystemPrompt | services/chatService.js:183-196 | the three `+=` steps and the conditional append compute `SystemPrompt` |
| ChatContext.PromptRepeatsHeading | services/chatService.js:192 | with a context from a resume, the prompt carries the `Resume Information:` heading twice in a row |
| ContextReading.TakeFieldRoundTrip | services/chatService.js:150-160 | a field line, present or absent, is read back to its value in front of any later line |
| ContextReading.TakeListRoundTrip | services/chatService.js:172-178 | a list line is read back as the joined list, or as absent for an empty list |
| ContextReading.TakeEntryStep | services/chatService.js:165-168 | one entry's lines are read back to its title and joined description |
| ContextReading.TakeEntriesRoundTrip | services/chatService.js:164-169 | the numbered entries are read back in order, and reading stops where the block ends |
| ContextReading.ExperienceRoundTrip | services/chatService.js:162-170 | the experience block is read back to the entries' digests, empty without entries |
| ContextReading.ReadLinesRoundTrip | services/chatService.js:150-178 | the section lines are read back to every field they say, whatever the resume holds |
| ContextReading.RenderSplit | services/chatService.js:148-178 | splitting the `\n`-terminated lines on `\n` gives the lines back, then an empty piece |
| ContextReading.ContextLinesNoBreak | services/chatService.js:148-178 | a resume whose values fit on one line gives one line per item |
| ContextReading.ContextRoundTrip | services/chatService.js:144-181 | no resume gives no reading; a resume whose values fit on one line reads back to its name, email, summary, entries, education and skills |
| ParsedContext.ParsedResumeOneLine | services/resumeParser.js:30-47 | with an email matcher that returns part of its line, every value of a parsed resume fits on one line |
| ParsedContext.ParsedContextRoundTrip | services/chatService.js:144-181 | the context of any parsed resume reads back to what the resume says |
| ChatService.HistoryOf | services/chatService.js:22-26 | a session without an entry reads as `[]`, and under the bound every read history has at most ten exchanges |
| ChatService.KeepLast | services/chatService.js:42-44 | the trim keeps the `min(10, n)` most recent exchanges, as a suffix in the same order |
| ChatService.Record | services/chatService.js:39-44 | after recording, the history holds `min(10, n + 1)` exchanges for an old history of `n`, ends with the new exchange, and before it holds the most recent older ones |
| ChatService.TrimIsRecord | services/chatService.js:39-44 | the `push` and the `splice` as written compute `Record` |
| ChatService.KeepLastSnoc | services/chatService.js:42-44 | trimming before each push loses nothing that trimming at the end would keep |
| ChatService.ReplayKeepsLastTen | services/chatService.js:38-44 | a session's history after any sequence of successful calls is the last ten exchanges of all of them, in order |
| ChatService.ClearOnlyThat | services/chatService.js:198-204 | after clearing, that session reads as `[]` and every other session reads as before |
| ChatService.ChatService.constructor | services/chatService.js:9 | the table starts empty |
| ChatService.ChatService.GenerateResponse | services/chatService.js:13-47 | a missing resume fails with the fixed message and leaves the table alone; otherwise the model gets the prompt of the resume and the message; a failure only leaves a new empty history behind; a reply is recorded as the newest exchange, trimmed to ten, and returned; every history stays at most ten long |
| ChatService.ChatService.OpenSession | services/chatService.js:22-26 | after the get-or-create the session has an entry, histories read as before, and every history is still at most ten long |
| ChatService.ChatService.PushExchange | services/chatService.js:39-44 | the push and the splice replace the session's history with `Record` of it, change no other session, and keep every history at most ten long |
| ChatService.ChatService.ClearConversation | services/chatService.js:198-200 | only that session's entry is removed |
| ChatService.ChatService.GetConversationHistory | services/chatService.js:202-204 | `[]` for an unknown session, and never more than ten exchanges |
| Markdown.ReplaceChar | public/script.js:404-408 | every character of the result is a character of the input other than the replaced one, or a character of the replacement |
| Markdown.EscapeChain | public/script.js:403-408 | the five replaces, in source order, leave no `<`, `>`, `"` or `'` |
| Markdown.EscapeChainIsEscape | public/script.js:403-408 | because `&` goes first, the five chained replaces map each character on its own to its entity or to itself |
| Markdown.EscapeIsInert | public/script.js:403-408 | escaped text holds no `<`, `>`, `"` or `'` |
| Markdown.EscapeKeepsPlainText | public/script.js:403-408 | text without the five characters passes through unchanged, and escaping never shortens a text |
| Markdown.UnescapeEscape | public/script.js:403-408 | decoding the five entities gives back the escaped text |
| Markdown.EscapeChainSafe | public/script.js:403-408 | the chain as written leaves no `<`, `>`, `"` or `'`, and decoding undoes it |
| Markdown.AmpersandLastDoubleEscapes | public/script.js:404-405 | replacing `&` after `<` would turn `<` into `&amp;lt;`, which is why the order matters |
| Markdown.ReplacePairs | public/script.js:436 | text without newlines is left as it is |
| Markdown.LineBreaks | public/script.js:436-437 | no `\n` is left after the two replaces |
| Markdown.LineBreaksIsBreaks | public/script.js:436-437 | the two replaces equal a one-pass rewrite that turns each `\n\n` into `</p><p>` before any single `\n` becomes `<br>` |
| Markdown.BreaksNoNewline | public/script.js:436-437 | no `\n` is left after the rewrite |
| Markdown.BreaksNoChange | public/script.js:436-437 | text without newlines is left alone |
| Markdown.WrapParagraphs | public/script.js:448-459 | the html is wrapped in `<p>…</p>` exactly when it has none of `<p>`, `<h`, `<ul>`, `<pre>` or contains `</p><p>`, and is returned unchanged otherwise |
| Markdown.WrapOpensBlock | public/script.js:448-459 | the result always contains one of the block openers |
| Markdown.ParseMarkdown | public/script.js:401-460 | whatever the markdown rewrites do, the output contains one of the block openers |

## Left out

- The DOCX extraction (`mammoth`), the JSON file write and `getResumeData` are I/O. `ParseDocx` takes the extraction result and the save error as parameters and models only the error wrapping.
- The `parsedAt` timestamp is a parameter. It is carried as given and appears in no equality between sections.
- The email and phone regular expressions are not re-implemented: their leftmost matching, `\b` and the literal `|` in `[A-Z|a-z]`. They are matchers passed in, and the only fact assumed about them is that a match is part of its line (`Sound`).
- `trim` and `toLowerCase` are modelled over ASCII whitespace and ASCII letters, not Unicode.
- String lengths count characters (Unicode scalar values), not JavaScript's UTF-16 code units. This matters only for the `line.length > 2` name test of `extractContact` (`IsNameCandidate`): a line of one or two characters outside the Basic Multilingual Plane is longer than 2 in JavaScript and is taken as the name there, but not in the model.
- `tryOpenRouterAPI`, `testConnection`, environment variables, timeouts and `AbortController` are network and timer code. The model call is a parameter.
- The markdown regex rewrites (public/script.js:411-433, 440-445) are two string functions passed in. They include headers, emphasis, code, lists, blockquotes and the `<ul>` wrapping.
- The rest of public/script.js (DOM, events, `fetch`) and all of app.js are UI and HTTP plumbing.
- ChatService.ChatService.GenerateResponse: its check of the table, the model call and its update happen in one step. The `await` between reading a session's history and pushing to it is not modelled. A `clearConversation` that ran during that `await` would leave the push on a detached array.
- ChatService.ChatService.GetConversationHistory returns the stored list as a value. The source hands out the array itself, which a caller could then mutate.
- JavaScript truthiness is modelled as `Option` for `resumeData`, and as emptiness for strings and lists. The sections are assumed present, as `structureResumeData` always produces them.
