/** The JavaScript string operations the core is built from: `trim`,
    `toLowerCase`, `includes`, `startsWith`, `split`, `join` and the
    `filter(s => s)` idiom, over the ASCII whitespace and letter sets. */
module Text {

  /** The characters `String.prototype.trim` removes, restricted to ASCII. */
  predicate IsSpace(c: char) {
    c == ' ' || c == '\t' || c == '\n' || c == '\r' || c == '\U{000B}' || c == '\U{000C}'
  }

  /** No whitespace at either end: what `trim` leaves behind. */
  predicate IsTrimmed(s: string) {
    s == [] || (!IsSpace(s[0]) && !IsSpace(s[|s| - 1]))
  }

  /** `r` is the slice `s[i..j]`, and everything of `s` outside it is whitespace. */
  predicate IsTrimSlice(s: string, r: string, i: int, j: int) {
    0 <= i <= j <= |s| && r == s[i..j]
    && (forall k :: 0 <= k < i ==> IsSpace(s[k]))
    && (forall k :: j <= k < |s| ==> IsSpace(s[k]))
  }

  /** `s.trim()`: leading whitespace is dropped, then trailing whitespace. */
  function Trim(s: string): (r: string)
    ensures |r| <= |s|
    ensures IsTrimmed(r)
    decreases |s|
  {
    if s != [] && IsSpace(s[0]) then Trim(s[1..])
    else if s != [] && IsSpace(s[|s| - 1]) then Trim(s[..|s| - 1])
    else s
  }

  /** What `Trim` keeps: the slice of `s` left between the whitespace at its
      two ends. Together with `IsTrimmed` this pins the result down. */
  lemma {:induction false} TrimIsSlice(s: string)
    ensures exists i, j :: IsTrimSlice(s, Trim(s), i, j)
    decreases |s|
  {
    if s != [] && IsSpace(s[0]) {
      var tail := s[1..];
      TrimIsSlice(tail);
      assert Trim(s) == Trim(tail);
      TrimSliceFirst(s, tail, Trim(tail));
    } else if s != [] && IsSpace(s[|s| - 1]) {
      var init := s[..|s| - 1];
      TrimIsSlice(init);
      assert Trim(s) == Trim(init);
      TrimSliceLast(s, init, Trim(init));
    } else {
      assert s[0..|s|] == s == Trim(s);
      assert IsTrimSlice(s, Trim(s), 0, |s|);
    }
  }

  /** Dropping one leading space keeps `r` a trim slice of the whole. */
  lemma TrimSliceFirst(s: string, tail: string, r: string)
    requires s != [] && IsSpace(s[0]) && tail == s[1..]
    requires exists i, j :: IsTrimSlice(tail, r, i, j)
    ensures exists i, j :: IsTrimSlice(s, r, i, j)
  {
    var i, j :| IsTrimSlice(tail, r, i, j);
    assert s[1..][i..j] == s[i + 1..j + 1];
    forall k | 0 <= k < i + 1 ensures IsSpace(s[k]) {
      if k > 0 {
        assert s[k] == s[1..][k - 1];
      }
    }
    forall k | j + 1 <= k < |s| ensures IsSpace(s[k]) {
      assert s[k] == s[1..][k - 1];
    }
    assert IsTrimSlice(s, r, i + 1, j + 1);
  }

  /** Dropping one trailing space keeps `r` a trim slice of the whole. */
  lemma TrimSliceLast(s: string, init: string, r: string)
    requires s != [] && IsSpace(s[|s| - 1]) && init == s[..|s| - 1]
    requires exists i, j :: IsTrimSlice(init, r, i, j)
    ensures exists i, j :: IsTrimSlice(s, r, i, j)
  {
    var i, j :| IsTrimSlice(init, r, i, j);
    assert s[..|s| - 1][i..j] == s[i..j];
    forall k | 0 <= k < i ensures IsSpace(s[k]) {
      assert s[k] == s[..|s| - 1][k];
    }
    forall k | j <= k < |s| ensures IsSpace(s[k]) {
      if k < |s| - 1 {
        assert s[k] == s[..|s| - 1][k];
      }
    }
    assert IsTrimSlice(s, r, i, j);
  }

  /** `Trim` returns a slice of its input, so it keeps only characters the input has. */
  lemma {:induction false} TrimKeepsCharacters(s: string)
    ensures forall c :: c in Trim(s) ==> c in s
    decreases |s|
  {
    if s != [] && IsSpace(s[0]) {
      TrimKeepsCharacters(s[1..]);
    } else if s != [] && IsSpace(s[|s| - 1]) {
      TrimKeepsCharacters(s[..|s| - 1]);
    }
  }

  /** A string with nothing to trim is left as it is; in particular `Trim` is idempotent. */
  lemma TrimTrimmed(s: string)
    requires IsTrimmed(s)
    ensures Trim(s) == s
  {
  }

  function LowerChar(c: char): char {
    if 'A' <= c <= 'Z' then (c as int - 'A' as int + 'a' as int) as char else c
  }

  /** `s.toLowerCase()` over ASCII letters. */
  function ToLower(s: string): (r: string)
    ensures |r| == |s|
  {
    seq(|s|, i requires 0 <= i < |s| => LowerChar(s[i]))
  }

  /** `s.startsWith(p)`. */
  predicate StartsWith(s: string, p: string) {
    |p| <= |s| && s[..|p|] == p
  }

  /** `s.includes(t)`: `t` occurs in `s` at some position. */
  predicate Contains(s: string, t: string)
    decreases |s|
  {
    StartsWith(s, t) || (s != [] && Contains(s[1..], t))
  }

  /** `Contains` means an occurrence at a position: the substring relation. */
  lemma {:induction false} ContainsAt(s: string, t: string, k: nat)
    requires k + |t| <= |s| && s[k..k + |t|] == t
    ensures Contains(s, t)
    decreases k
  {
    if k > 0 {
      assert s[1..][k - 1..k - 1 + |t|] == s[k..k + |t|];
      ContainsAt(s[1..], t, k - 1);
    } else {
      assert s[..|t|] == t;
    }
  }

  /** The position of an occurrence. */
  lemma {:induction false} ContainsWitness(s: string, t: string) returns (k: nat)
    requires Contains(s, t)
    ensures k + |t| <= |s| && s[k..k + |t|] == t
    decreases |s|
  {
    if StartsWith(s, t) {
      k := 0;
    } else {
      var k' := ContainsWitness(s[1..], t);
      assert s[1..][k'..k' + |t|] == s[k' + 1..k' + 1 + |t|];
      k := k' + 1;
    }
  }

  /** Concatenation regroups freely; the solver only sees this through
      extensionality, so proofs cite it. */
  lemma SeqAssoc<T>(x: seq<T>, y: seq<T>, z: seq<T>)
    ensures (x + y) + z == x + (y + z)
  {
  }

  /** A slice grows by one element at its end. */
  lemma SliceSnoc<T>(s: seq<T>, i: nat, j: nat)
    requires i <= j < |s|
    ensures s[i..j + 1] == s[i..j] + [s[j]]
  {
  }

  /** `parts.join(sep)`. */
  function Join(parts: seq<string>, sep: string): string
    decreases |parts|
  {
    if parts == [] then ""
    else if |parts| == 1 then parts[0]
    else parts[0] + sep + Join(parts[1..], sep)
  }

  /** The characters of `s` that belong to `delims`, in order. */
  function DelimitersIn(s: string, delims: set<char>): seq<char>
    decreases |s|
  {
    if s == [] then []
    else (if s[0] in delims then [s[0]] else []) + DelimitersIn(s[1..], delims)
  }

  /** The pieces put back together, `seps[i]` between piece `i` and piece `i + 1`. */
  function Rejoin(parts: seq<string>, seps: seq<char>): string
    requires |parts| == |seps| + 1
    decreases |seps|
  {
    if seps == [] then parts[0] else parts[0] + ([seps[0]] + Rejoin(parts[1..], seps[1..]))
  }

  lemma {:induction false} RejoinCons(c: char, parts: seq<string>, seps: seq<char>)
    requires |parts| == |seps| + 1
    ensures Rejoin([[c] + parts[0]] + parts[1..], seps) == [c] + Rejoin(parts, seps)
  {
    var parts' := [[c] + parts[0]] + parts[1..];
    assert parts'[0] == [c] + parts[0];
    if seps != [] {
      assert parts'[1..] == parts[1..];
      var tail := [seps[0]] + Rejoin(parts[1..], seps[1..]);
      assert ([c] + parts[0]) + tail == [c] + (parts[0] + tail);
    }
  }

  /** `s.split(/[...]/)` for a character class: the pieces between the
      delimiters, one more than there are delimiters, that give back `s`
      when rejoined with the delimiters found in it. */
  function SplitAny(s: string, delims: set<char>): (r: seq<string>)
    ensures |r| == |DelimitersIn(s, delims)| + 1
    ensures Rejoin(r, DelimitersIn(s, delims)) == s
    decreases |s|
  {
    if s == [] then [""]
    else
      var rest := SplitAny(s[1..], delims);
      if s[0] in delims then
        assert s == [s[0]] + s[1..];
        [""] + rest
      else
        RejoinCons(s[0], rest, DelimitersIn(s[1..], delims));
        assert DelimitersIn(s, delims) == DelimitersIn(s[1..], delims);
        assert s == [s[0]] + s[1..];
        [[s[0]] + rest[0]] + rest[1..]
  }

  /** No piece holds a delimiter. */
  lemma {:induction false} SplitAnyPiecesClean(s: string, delims: set<char>)
    ensures forall i :: 0 <= i < |SplitAny(s, delims)| ==> forall c :: c in SplitAny(s, delims)[i] ==> c !in delims
    decreases |s|
  {
    if s != [] {
      SplitAnyPiecesClean(s[1..], delims);
    }
  }

  /** The pieces hold only characters of the text. */
  lemma {:induction false} SplitAnyKeepsCharacters(s: string, delims: set<char>)
    ensures forall i, c :: 0 <= i < |SplitAny(s, delims)| && c in SplitAny(s, delims)[i] ==> c in s
    decreases |s|
  {
    if s != [] {
      SplitAnyKeepsCharacters(s[1..], delims);
      assert forall c :: c in s[1..] ==> c in s;
    }
  }

  lemma {:induction false} SplitAnyNoDelimiter(p: string, delims: set<char>)
    requires forall c :: c in p ==> c !in delims
    ensures SplitAny(p, delims) == [p]
    decreases |p|
  {
    if p != [] {
      SplitAnyNoDelimiter(p[1..], delims);
    }
  }

  lemma {:induction false} SplitAnyAfterPiece(p: string, d: char, x: string, delims: set<char>)
    requires forall c :: c in p ==> c !in delims
    requires d in delims
    ensures SplitAny(p + [d] + x, delims) == [p] + SplitAny(x, delims)
    decreases |p|
  {
    if p == [] {
      assert (p + [d] + x)[1..] == x;
    } else {
      var s := p + [d] + x;
      assert s[0] == p[0] && s[1..] == p[1..] + [d] + x;
      SplitAnyAfterPiece(p[1..], d, x, delims);
      var rest := SplitAny(s[1..], delims);
      assert rest[0] == p[1..] && rest[1..] == SplitAny(x, delims);
      assert [p[0]] + p[1..] == p;
    }
  }

  /** Splitting undoes rejoining: pieces free of delimiters, rejoined with
      delimiters, split back into the same pieces. */
  lemma {:induction false} SplitRejoin(ps: seq<string>, ds: seq<char>, delims: set<char>)
    requires |ps| == |ds| + 1
    requires forall i, c :: 0 <= i < |ps| && c in ps[i] ==> c !in delims
    requires forall i :: 0 <= i < |ds| ==> ds[i] in delims
    ensures SplitAny(Rejoin(ps, ds), delims) == ps
    decreases |ds|
  {
    if ds == [] {
      SplitAnyNoDelimiter(ps[0], delims);
    } else {
      var x := Rejoin(ps[1..], ds[1..]);
      SplitRejoin(ps[1..], ds[1..], delims);
      SeqAssoc(ps[0], [ds[0]], x);
      SplitAnyAfterPiece(ps[0], ds[0], x, delims);
      assert [ps[0]] + ps[1..] == ps;
    }
  }

  /** Splitting on `c` undoes joining with `c`, when no part holds a `c`. */
  lemma {:induction false} SplitJoin(parts: seq<string>, c: char)
    requires |parts| >= 1
    requires forall i :: 0 <= i < |parts| ==> c !in parts[i]
    ensures SplitAny(Join(parts, [c]), {c}) == parts
    decreases |parts|
  {
    if |parts| == 1 {
      SplitAnyNoDelimiter(parts[0], {c});
    } else {
      SplitJoin(parts[1..], c);
      SplitAnyAfterPiece(parts[0], c, Join(parts[1..], [c]), {c});
      assert parts == [parts[0]] + parts[1..];
    }
  }

  /** Joining the pieces with `c` gives back the text that was split on `c`. */
  lemma {:induction false} JoinSplit(s: string, c: char)
    ensures Join(SplitAny(s, {c}), [c]) == s
    decreases |s|
  {
    if s != [] {
      JoinSplit(s[1..], c);
      var rest := SplitAny(s[1..], {c});
      if s[0] != c && |rest| > 1 {
        assert rest == [rest[0]] + rest[1..];
      }
      assert s == [s[0]] + s[1..];
    }
  }

  /** `xs.filter(s => s)`: the non-empty strings of `xs`, in order. */
  function DropEmpty(xs: seq<string>): (r: seq<string>)
    ensures |r| <= |xs|
    ensures forall i :: 0 <= i < |r| ==> r[i] != ""
    decreases |xs|
  {
    if xs == [] then []
    else (if xs[0] == "" then [] else [xs[0]]) + DropEmpty(xs[1..])
  }

  /** Filtering only removes: whatever it keeps was in the input. */
  lemma {:induction false} DropEmptyKeeps(xs: seq<string>)
    ensures forall x :: x in DropEmpty(xs) ==> x in xs
    decreases |xs|
  {
    if xs != [] {
      DropEmptyKeeps(xs[1..]);
    }
  }

  /** Filtering removes only the empty strings: input without any is kept whole. */
  lemma {:induction false} DropEmptyNone(xs: seq<string>)
    requires forall i :: 0 <= i < |xs| ==> xs[i] != ""
    ensures DropEmpty(xs) == xs
    decreases |xs|
  {
    if xs != [] {
      DropEmptyNone(xs[1..]);
    }
  }

  /** Filtering is done element by element, so it keeps relative order. */
  lemma {:induction false} DropEmptyAppend(a: seq<string>, b: seq<string>)
    ensures DropEmpty(a + b) == DropEmpty(a) + DropEmpty(b)
    decreases |a|
  {
    if a != [] {
      assert (a + b)[1..] == a[1..] + b;
      assert (a + b)[0] == a[0];
      DropEmptyAppend(a[1..], b);
      SeqAssoc(if a[0] == "" then [] else [a[0]], DropEmpty(a[1..]), DropEmpty(b));
    } else {
      assert a + b == b;
    }
  }

  /** `xs.map(s => s.trim())`. */
  function TrimAll(xs: seq<string>): (r: seq<string>)
    ensures |r| == |xs|
    ensures forall i :: 0 <= i < |xs| ==> r[i] == Trim(xs[i])
    decreases |xs|
  {
    if xs == [] then [] else [Trim(xs[0])] + TrimAll(xs[1..])
  }

}
