/** The line normaliser of `structureResumeData`: the raw text split on
    newlines, every piece trimmed, the empty pieces dropped. This one line
    sequence is all the extractors ever see. */
module ResumeLines {
  import opened Text

  /** What a normalised line looks like: non-empty, trimmed, one line of text. */
  predicate IsNormalLine(l: string) {
    l != "" && IsTrimmed(l) && '\n' !in l
  }

  predicate Normalised(lines: seq<string>) {
    forall i :: 0 <= i < |lines| ==> IsNormalLine(lines[i])
  }

  /** The raw lines of `text` with each one trimmed. */
  function TrimmedPieces(text: string): (r: seq<string>)
    ensures forall i :: 0 <= i < |r| ==> IsTrimmed(r[i]) && '\n' !in r[i]
  {
    var pieces := SplitAny(text, {'\n'});
    SplitAnyPiecesClean(text, {'\n'});
    var trimmed := TrimAll(pieces);
    assert forall i :: 0 <= i < |trimmed| ==> '\n' !in trimmed[i] by {
      forall i | 0 <= i < |trimmed| ensures '\n' !in trimmed[i] {
        assert trimmed[i] == Trim(pieces[i]);
        TrimKeepsCharacters(pieces[i]);
      }
    }
    trimmed
  }

  /** `text.split('\n').map(line => line.trim()).filter(line => line)`:
      every line is trimmed, non-empty and free of line breaks. */
  function Normalise(text: string): (lines: seq<string>)
    ensures Normalised(lines)
  {
    var trimmed := TrimmedPieces(text);
    var lines := DropEmpty(trimmed);
    DropEmptyKeeps(trimmed);
    assert forall i :: 0 <= i < |lines| ==> lines[i] in trimmed;
    lines
  }

  /** The normalised lines are the trimmed raw lines with the empty ones
      removed, in their original order: normalising text written as two
      parts gives the lines of the first part followed by those of the second. */
  lemma NormaliseConcat(a: string, b: string)
    ensures Normalise(a + "\n" + b) == Normalise(a) + Normalise(b)
  {
    var c := '\n';
    var pa := SplitAny(a, {c});
    var pb := SplitAny(b, {c});
    JoinSplit(a, c);
    JoinSplit(b, c);
    SplitAnyPiecesClean(a, {c});
    SplitAnyPiecesClean(b, {c});
    JoinAppend(pa, pb, [c]);
    SplitJoin(pa + pb, c);
    assert SplitAny(a + "\n" + b, {c}) == pa + pb;
    TrimAllAppend(pa, pb);
    DropEmptyAppend(TrimAll(pa), TrimAll(pb));
  }

  lemma {:induction false} TrimAllAppend(xs: seq<string>, ys: seq<string>)
    ensures TrimAll(xs + ys) == TrimAll(xs) + TrimAll(ys)
    decreases |xs|
  {
    if xs == [] {
      assert xs + ys == ys;
    } else {
      assert (xs + ys)[1..] == xs[1..] + ys;
      TrimAllAppend(xs[1..], ys);
    }
  }

  lemma {:induction false} JoinAppend(xs: seq<string>, ys: seq<string>, sep: string)
    requires xs != [] && ys != []
    ensures Join(xs + ys, sep) == Join(xs, sep) + sep + Join(ys, sep)
    decreases |xs|
  {
    var zs := xs + ys;
    assert zs[0] == xs[0];
    if |xs| == 1 {
      assert zs[1..] == ys;
      assert Join(zs, sep) == xs[0] + sep + Join(ys, sep);
    } else {
      assert zs[1..] == xs[1..] + ys;
      JoinAppend(xs[1..], ys, sep);
      var j := Join(xs[1..], sep);
      assert Join(zs, sep) == xs[0] + sep + (j + sep + Join(ys, sep));
      SeqAssoc(xs[0] + sep, j + sep, Join(ys, sep));
      SeqAssoc(xs[0] + sep, j, sep);
    }
  }

  /** Text written as raw lines, one per line, normalises to those lines
      trimmed, with the ones that trim to nothing removed, in their order. */
  lemma NormaliseOfLines(raw: seq<string>)
    requires |raw| >= 1
    requires forall i :: 0 <= i < |raw| ==> '\n' !in raw[i]
    ensures Normalise(Join(raw, "\n")) == DropEmpty(TrimAll(raw))
  {
    SplitJoin(raw, '\n');
  }

  /** A single raw line normalises to its trim, or to nothing when it is blank. */
  lemma NormaliseLine(l: string)
    requires '\n' !in l
    ensures Normalise(l) == (if Trim(l) == "" then [] else [Trim(l)])
  {
    NormaliseOfLines([l]);
    assert Join([l], "\n") == l;
    assert TrimAll([l]) == [Trim(l)];
    assert DropEmpty([Trim(l)]) == (if Trim(l) == "" then [] else [Trim(l)]) + DropEmpty([]);
  }

  /** Joining is an inverse of normalising: normalised lines, written out one
      per line, normalise back to themselves. */
  lemma NormaliseJoin(ls: seq<string>)
    requires Normalised(ls)
    ensures Normalise(Join(ls, "\n")) == ls
  {
    if ls == [] {
      assert Join(ls, "\n") == "";
      assert SplitAny("", {'\n'}) == [""];
      assert TrimAll([""]) == [""];
    } else {
      NormaliseOfLines(ls);
      forall i | 0 <= i < |ls| ensures Trim(ls[i]) == ls[i] {
        TrimTrimmed(ls[i]);
      }
      assert TrimAll(ls) == ls;
      DropEmptyNone(ls);
    }
  }

  /** Normalising is idempotent. */
  lemma NormaliseIdempotent(text: string)
    ensures Normalise(Join(Normalise(text), "\n")) == Normalise(text)
  {
    NormaliseJoin(Normalise(text));
  }

  /** Empty text has no lines. */
  lemma NormaliseEmpty()
    ensures Normalise("") == []
  {
    assert SplitAny("", {'\n'}) == [""];
    assert TrimAll([""]) == [""];
  }

}
