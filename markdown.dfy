/** The string stages of `parseMarkdown`: the HTML escape, the newline
    rewrite and the final paragraph wrap. The markdown rewrites between them
    are function parameters. Every `.replace(/x/g, y)` on a single
    character is `ReplaceChar`. */
module Markdown {
  import opened Text

  /** `s.replace(/c/g, rep)`: every `c`, left to right, becomes `rep`. */
  function ReplaceChar(s: string, c: char, rep: string): (r: string)
    ensures forall x :: x in r ==> (x in s && x != c) || x in rep
    decreases |s|
  {
    if s == [] then "" else (if s[0] == c then rep else [s[0]]) + ReplaceChar(s[1..], c, rep)
  }

  lemma {:induction false} ReplaceCharAppend(a: string, b: string, c: char, rep: string)
    ensures ReplaceChar(a + b, c, rep) == ReplaceChar(a, c, rep) + ReplaceChar(b, c, rep)
    decreases |a|
  {
    if a == [] {
      assert a + b == b;
    } else {
      assert (a + b)[1..] == a[1..] + b;
      ReplaceCharAppend(a[1..], b, c, rep);
    }
  }

  /** A text without `c` is left alone. */
  lemma {:induction false} ReplaceCharAbsent(s: string, c: char, rep: string)
    requires c !in s
    ensures ReplaceChar(s, c, rep) == s
    decreases |s|
  {
    if s != [] {
      ReplaceCharAbsent(s[1..], c, rep);
    }
  }

  // ---------------------------------------------------------------- escape

  const Amp: string := "&amp;"
  const Lt: string := "&lt;"
  const Gt: string := "&gt;"
  const Quot: string := "&quot;"
  const Apos: string := "&#39;"

  /** The escape chain, in the order it is written: `&` first. */
  function EscapeChain(text: string): (r: string)
    ensures forall x :: x in r ==> x != '<' && x != '>' && x != '"' && x != '\''
  {
    var html := ReplaceChar(text, '&', Amp);
    var html1 := ReplaceChar(html, '<', Lt);
    var html2 := ReplaceChar(html1, '>', Gt);
    var html3 := ReplaceChar(html2, '"', Quot);
    ReplaceChar(html3, '\'', Apos)
  }

  predicate IsSpecial(c: char) {
    c == '&' || c == '<' || c == '>' || c == '"' || c == '\''
  }

  /** What one character escapes to. */
  function EscapeChar(c: char): string {
    if c == '&' then Amp
    else if c == '<' then Lt
    else if c == '>' then Gt
    else if c == '"' then Quot
    else if c == '\'' then Apos
    else [c]
  }

  /** The escape done one character at a time. */
  function Escape(s: string): string
    decreases |s|
  {
    if s == [] then "" else EscapeChar(s[0]) + Escape(s[1..])
  }

  lemma ReplaceCharSingle(x: char, c: char, rep: string)
    ensures ReplaceChar([x], c, rep) == if x == c then rep else [x]
  {
    assert [x][1..] == [];
  }

  /** The characters entities are made of. */
  predicate EntityText(s: string) {
    forall i :: 0 <= i < |s| ==> s[i] == '&' || s[i] == '#' || s[i] == ';' || 'a' <= s[i] <= 'z' || '0' <= s[i] <= '9'
  }

  /** The entities hold none of the characters replaced after `&`. */
  lemma EntitiesInert(rep: string)
    requires EntityText(rep)
    ensures ReplaceChar(rep, '<', Lt) == rep && ReplaceChar(rep, '>', Gt) == rep
    ensures ReplaceChar(rep, '"', Quot) == rep && ReplaceChar(rep, '\'', Apos) == rep
  {
    ReplaceCharAbsent(rep, '<', Lt);
    ReplaceCharAbsent(rep, '>', Gt);
    ReplaceCharAbsent(rep, '"', Quot);
    ReplaceCharAbsent(rep, '\'', Apos);
  }

  /** The last four steps leave an entity alone and escape a single
      remaining character `c`. */
  lemma EscapeRestOfChar(c: char)
    requires c != '&'
    ensures ReplaceChar(ReplaceChar(ReplaceChar(ReplaceChar([c], '<', Lt), '>', Gt), '"', Quot), '\'', Apos)
      == EscapeChar(c)
  {
    ReplaceCharSingle(c, '<', Lt);
    if c == '<' {
      EntitiesInert(Lt);
    } else {
      ReplaceCharSingle(c, '>', Gt);
      if c == '>' {
        EntitiesInert(Gt);
      } else {
        ReplaceCharSingle(c, '"', Quot);
        if c == '"' {
          EntitiesInert(Quot);
        } else {
          ReplaceCharSingle(c, '\'', Apos);
        }
      }
    }
  }

  lemma EscapeChainOfChar(c: char)
    ensures EscapeChain([c]) == EscapeChar(c)
  {
    ReplaceCharSingle(c, '&', Amp);
    if c == '&' {
      EntitiesInert(Amp);
    } else {
      EscapeRestOfChar(c);
    }
  }

  lemma EscapeChainAppend(a: string, b: string)
    ensures EscapeChain(a + b) == EscapeChain(a) + EscapeChain(b)
  {
    ReplaceCharAppend(a, b, '&', Amp);
    var a1, b1 := ReplaceChar(a, '&', Amp), ReplaceChar(b, '&', Amp);
    ReplaceCharAppend(a1, b1, '<', Lt);
    var a2, b2 := ReplaceChar(a1, '<', Lt), ReplaceChar(b1, '<', Lt);
    ReplaceCharAppend(a2, b2, '>', Gt);
    var a3, b3 := ReplaceChar(a2, '>', Gt), ReplaceChar(b2, '>', Gt);
    ReplaceCharAppend(a3, b3, '"', Quot);
    var a4, b4 := ReplaceChar(a3, '"', Quot), ReplaceChar(b3, '"', Quot);
    ReplaceCharAppend(a4, b4, '\'', Apos);
  }

  /** Because `&` goes first, no entity written by a later step is escaped
      again: the chain maps each character on its own. */
  lemma {:induction false} EscapeChainIsEscape(s: string)
    ensures EscapeChain(s) == Escape(s)
    decreases |s|
  {
    if s == [] {
      assert EscapeChain(s) == "";
    } else {
      EscapeChainIsEscape(s[1..]);
      EscapeChainAppend([s[0]], s[1..]);
      EscapeChainOfChar(s[0]);
      assert [s[0]] + s[1..] == s;
    }
  }

  /** One character escapes to at least one character, none of them
      `<`, `>`, `"` or `'`, and to itself when it is not special. */
  lemma EscapeCharShape(c: char)
    ensures |EscapeChar(c)| >= 1
    ensures forall i :: 0 <= i < |EscapeChar(c)| ==> EscapeChar(c)[i] !in {'<', '>', '"', '\''}
    ensures !IsSpecial(c) ==> EscapeChar(c) == [c]
  {
    if IsSpecial(c) {
      assert EntityText(EscapeChar(c));
    }
  }

  /** An escaped text holds no `<`, `>`, `"` or `'`. */
  lemma {:induction false} EscapeIsInert(s: string)
    ensures forall i :: 0 <= i < |Escape(s)| ==> Escape(s)[i] !in {'<', '>', '"', '\''}
    decreases |s|
  {
    if s != [] {
      EscapeIsInert(s[1..]);
      EscapeCharShape(s[0]);
      var head, tail := EscapeChar(s[0]), Escape(s[1..]);
      assert Escape(s) == head + tail;
      forall i | 0 <= i < |head + tail| ensures (head + tail)[i] !in {'<', '>', '"', '\''} {
        if i >= |head| {
          assert (head + tail)[i] == tail[i - |head|];
        }
      }
    }
  }

  /** Text without the five characters passes through unchanged; any text
      grows or keeps its length. */
  lemma {:induction false} EscapeKeepsPlainText(s: string)
    ensures (forall i :: 0 <= i < |s| ==> !IsSpecial(s[i])) ==> Escape(s) == s
    ensures |Escape(s)| >= |s|
    decreases |s|
  {
    if s != [] {
      var rest := s[1..];
      EscapeKeepsPlainText(rest);
      EscapeCharShape(s[0]);
      assert Escape(s) == EscapeChar(s[0]) + Escape(rest);
      if forall i :: 0 <= i < |s| ==> !IsSpecial(s[i]) {
        assert forall i :: 0 <= i < |rest| ==> rest[i] == s[i + 1];
        assert [s[0]] + rest == s;
      }
    }
  }

  /** Decoding the five entities. */
  function Unescape(s: string): string
    decreases |s|
  {
    if s == [] then ""
    else if StartsWith(s, Amp) then "&" + Unescape(s[|Amp|..])
    else if StartsWith(s, Lt) then "<" + Unescape(s[|Lt|..])
    else if StartsWith(s, Gt) then ">" + Unescape(s[|Gt|..])
    else if StartsWith(s, Quot) then "\"" + Unescape(s[|Quot|..])
    else if StartsWith(s, Apos) then "'" + Unescape(s[|Apos|..])
    else [s[0]] + Unescape(s[1..])
  }

  /** A text that differs from `e` at position `k` does not start with `e`. */
  lemma DiffersAt(t: string, e: string, k: nat)
    requires k < |e| && k < |t| && t[k] != e[k]
    ensures !StartsWith(t, e)
  {
    if |e| <= |t| {
      assert t[..|e|][k] == t[k];
    }
  }

  lemma StartsWithEntity(e: string, rest: string)
    ensures StartsWith(e + rest, e) && (e + rest)[|e|..] == rest
  {
    assert (e + rest)[..|e|] == e;
  }

  lemma UnescapeStep(c: char, rest: string)
    ensures Unescape(EscapeChar(c) + rest) == [c] + Unescape(rest)
  {
    var e := EscapeChar(c);
    var t := e + rest;
    if IsSpecial(c) {
      StartsWithEntity(e, rest);
      assert t[0] == '&' && t[1] == e[1];
      if c != '&' { DiffersAt(t, Amp, 1); }
      if c != '&' && c != '<' { DiffersAt(t, Lt, 1); }
      if c == '"' || c == '\'' { DiffersAt(t, Gt, 1); }
      if c == '\'' { DiffersAt(t, Quot, 1); }
    } else {
      assert t[0] == c && t[1..] == rest;
      DiffersAt(t, Amp, 0);
      DiffersAt(t, Lt, 0);
      DiffersAt(t, Gt, 0);
      DiffersAt(t, Quot, 0);
      DiffersAt(t, Apos, 0);
    }
  }

  /** Decoding gives back the text that was escaped. */
  lemma {:induction false} UnescapeEscape(s: string)
    ensures Unescape(Escape(s)) == s
    decreases |s|
  {
    if s != [] {
      UnescapeEscape(s[1..]);
      UnescapeStep(s[0], Escape(s[1..]));
      assert [s[0]] + s[1..] == s;
    }
  }

  /** The escape stage of `parseMarkdown`, as written, is safe and can be
      undone. */
  lemma EscapeChainSafe(text: string)
    ensures forall i :: 0 <= i < |EscapeChain(text)| ==> EscapeChain(text)[i] !in {'<', '>', '"', '\''}
    ensures Unescape(EscapeChain(text)) == text
  {
    EscapeChainIsEscape(text);
    EscapeIsInert(text);
    UnescapeEscape(text);
  }

  /** With `&` replaced last, the entity for `<` would itself be escaped. */
  lemma AmpersandLastDoubleEscapes()
    ensures ReplaceChar(ReplaceChar("<", '<', Lt), '&', Amp) == "&amp;lt;"
  {
    ReplaceCharSingle('<', '<', Lt);
    assert Lt == ['&'] + "lt;";
    ReplaceCharAppend(['&'], "lt;", '&', Amp);
    ReplaceCharSingle('&', '&', Amp);
    ReplaceCharAbsent("lt;", '&', Amp);
  }

  // ----------------------------------------------------------- line breaks

  /** `html.replace(/\n\n/g, "</p><p>")`: pairs of newlines, matched left to
      right without overlap. */
  function ReplacePairs(s: string): (r: string)
    ensures '\n' !in s ==> r == s
    decreases |s|
  {
    if s == [] then ""
    else if |s| >= 2 && s[0] == '\n' && s[1] == '\n' then "</p><p>" + ReplacePairs(s[2..])
    else [s[0]] + ReplacePairs(s[1..])
  }

  /** The newline rewrite as written: pairs first, then single newlines. */
  function LineBreaks(html: string): (r: string)
    ensures '\n' !in r
  {
    ReplaceChar(ReplacePairs(html), '\n', "<br>")
  }

  /** The rewrite in one pass: a pair of newlines is a paragraph break, a
      newline on its own a line break. */
  function Breaks(s: string): string
    decreases |s|
  {
    if s == [] then ""
    else if |s| >= 2 && s[0] == '\n' && s[1] == '\n' then "</p><p>" + Breaks(s[2..])
    else if s[0] == '\n' then "<br>" + Breaks(s[1..])
    else [s[0]] + Breaks(s[1..])
  }

  /** The two replaces make the one-pass rewrite: every pair is taken
      before any single newline. */
  lemma {:induction false} LineBreaksIsBreaks(s: string)
    ensures LineBreaks(s) == Breaks(s)
    decreases |s|
  {
    if s != [] {
      if |s| >= 2 && s[0] == '\n' && s[1] == '\n' {
        LineBreaksIsBreaks(s[2..]);
        PairBreakStep(ReplacePairs(s[2..]));
      } else {
        LineBreaksIsBreaks(s[1..]);
        ReplaceCharAppend([s[0]], ReplacePairs(s[1..]), '\n', "<br>");
        ReplaceCharSingle(s[0], '\n', "<br>");
      }
    }
  }

  /** The paragraph break written by the first replace has no newline for
      the second to touch. */
  lemma PairBreakStep(rest: string)
    ensures ReplaceChar("</p><p>" + rest, '\n', "<br>") == "</p><p>" + ReplaceChar(rest, '\n', "<br>")
  {
    ReplaceCharAppend("</p><p>", rest, '\n', "<br>");
    ReplaceCharAbsent("</p><p>", '\n', "<br>");
  }

  /** No newline is left. */
  lemma {:induction false} BreaksNoNewline(s: string)
    ensures '\n' !in Breaks(s)
    decreases |s|
  {
    if s != [] {
      if |s| >= 2 && s[0] == '\n' && s[1] == '\n' {
        BreaksNoNewline(s[2..]);
      } else {
        BreaksNoNewline(s[1..]);
      }
    }
  }

  /** Text without newlines is left alone. */
  lemma {:induction false} BreaksNoChange(s: string)
    requires '\n' !in s
    ensures Breaks(s) == s
    decreases |s|
  {
    if s != [] {
      BreaksNoChange(s[1..]);
      assert [s[0]] + s[1..] == s;
    }
  }

  // ------------------------------------------------------------------ wrap

  /** None of the block openers `<p>`, `<h`, `<ul>`, `<pre>` occurs. */
  predicate NoBlock(html: string) {
    !Contains(html, "<p>") && !Contains(html, "<h") && !Contains(html, "<ul>") && !Contains(html, "<pre>")
  }

  /** The final wrap decision of `parseMarkdown`. */
  function WrapParagraphs(html: string): (r: string)
    ensures r == "<p>" + html + "</p>" <==> NoBlock(html) || Contains(html, "</p><p>")
    ensures r != "<p>" + html + "</p>" ==> r == html
  {
    if NoBlock(html) then "<p>" + html + "</p>"
    else if Contains(html, "</p><p>") then "<p>" + html + "</p>"
    else html
  }

  /** The wrapped result always opens some block. */
  lemma WrapOpensBlock(html: string)
    ensures !NoBlock(WrapParagraphs(html))
  {
    var r := WrapParagraphs(html);
    if r == html {
      assert !NoBlock(html);
    } else {
      assert r == "<p>" + (html + "</p>");
      assert r[..3] == "<p>";
    }
  }

  /** `parseMarkdown`: escape, the markdown rewrites (`markup`, lines
      411-435), the newline rewrite, the list wrapping (`lists`, lines
      440-445), and the paragraph wrap. */
  function ParseMarkdown(text: string, markup: string -> string, lists: string -> string): (r: string)
    ensures !NoBlock(r)
  {
    var html := lists(LineBreaks(markup(EscapeChain(text))));
    WrapOpensBlock(html);
    WrapParagraphs(html)
  }

}
