/**
  `String.prototype.split` with a regular-expression separator, for the two
  separators the core uses: the blank-line separator `/\n\s*\n/` of
  `chunkStory` and the sentence-gap separator `/(?<=[.?!])\s+/` of
  `convertToSSML`. The scan follows ECMA-262's `RegExp.prototype[@@split]`:
  try a match at every position from the end of the previous match; on a
  match, emit the text before it and resume after it; at the end emit the
  remainder.
*/
module JsSplit {
  import opened Results
  import opened JsText

  datatype Pattern =
    | BlankLine    // /\n\s*\n/
    | SentenceGap  // /(?<=[.?!])\s+/

  predicate IsSentenceEnd(c: char) {
    c == '.' || c == '?' || c == '!'
  }

  /** The end of the run of white space that starts at `i`. */
  function SpaceRunEnd(s: string, i: nat): (r: nat)
    requires i <= |s|
    ensures i <= r <= |s|
    ensures forall k :: i <= k < r ==> IsJsSpace(s[k])
    ensures r < |s| ==> !IsJsSpace(s[r])
    decreases |s| - i
  {
    if i == |s| || !IsJsSpace(s[i]) then i else SpaceRunEnd(s, i + 1)
  }

  /** The last line feed in `s[lo..hi]`, if any. */
  function LastNewline(s: string, lo: nat, hi: nat): (r: Option<nat>)
    requires lo <= hi <= |s|
    ensures r.Some? ==> lo <= r.value < hi && s[r.value] == '\n'
    ensures r.Some? ==> forall k :: r.value < k < hi ==> s[k] != '\n'
    ensures r.None? ==> forall k :: lo <= k < hi ==> s[k] != '\n'
    decreases hi - lo
  {
    if lo == hi then None
    else if s[hi - 1] == '\n' then Some(hi - 1)
    else LastNewline(s, lo, hi - 1)
  }

  /** Where a match of `pat` that starts at `q` ends, if one does. `\s*` is
      greedy, so `\n\s*\n` ends after the last line feed of the white-space
      run that follows the first one; `\s+` consumes the whole run. */
  function MatchAt(pat: Pattern, s: string, q: nat): (r: Option<nat>)
    requires q < |s|
    ensures r.Some? ==> q < r.value <= |s|
    ensures r.Some? ==> forall k :: q <= k < r.value ==> IsJsSpace(s[k])
  {
    match pat
    case BlankLine =>
      if s[q] != '\n' then None
      else (
        match LastNewline(s, q + 1, SpaceRunEnd(s, q + 1))
        case None => None
        case Some(j) => Some(j + 1))
    case SentenceGap =>
      if q > 0 && IsSentenceEnd(s[q - 1]) && IsJsSpace(s[q]) then Some(SpaceRunEnd(s, q))
      else None
  }

  /** `t` contains no position where `pat` matches. */
  predicate NoMatchIn(pat: Pattern, t: string) {
    forall j :: 0 <= j < |t| ==> MatchAt(pat, t, j).None?
  }

  /** What the text a match consumed looks like on its own. */
  predicate IsMatchText(pat: Pattern, x: string) {
    match pat
    case BlankLine => |x| >= 2 && x[0] == '\n' && x[|x| - 1] == '\n' && AllSpace(x)
    case SentenceGap => |x| >= 1 && AllSpace(x)
  }

  /** The pieces of a split together with the separator texts between them. */
  datatype Parts = Parts(pieces: seq<string>, seps: seq<string>)

  /** The pieces interleaved with the separators: the text that was split. */
  function Interleave(pieces: seq<string>, seps: seq<string>): string
    requires |pieces| == |seps| + 1
  {
    if |seps| == 0 then pieces[0]
    else pieces[0] + seps[0] + Interleave(pieces[1..], seps[1..])
  }

  /** A match found in a piece of `s` is a match in `s` itself. */
  lemma {:induction false} MatchLocal(pat: Pattern, s: string, a: nat, b: nat, j: nat)
    requires a <= b <= |s|
    requires j < b - a
    requires MatchAt(pat, s[a..b], j).Some?
    ensures MatchAt(pat, s, a + j).Some?
  {
    var t := s[a..b];
    match pat
    case BlankLine =>
      var k := LastNewline(t, j + 1, SpaceRunEnd(t, j + 1)).value;
      var rs := SpaceRunEnd(s, a + j + 1);
      assert t[k] == s[a + k];
      assert LastNewline(s, a + j + 1, rs).Some?;
    case SentenceGap =>
      assert t[j - 1] == s[a + j - 1];
      assert t[j] == s[a + j];
  }

  lemma {:induction false} NoMatchLocal(pat: Pattern, s: string, a: nat, b: nat)
    requires a <= b <= |s|
    requires forall j :: a <= j < b ==> MatchAt(pat, s, j).None?
    ensures NoMatchIn(pat, s[a..b])
  {
    forall j | 0 <= j < b - a
      ensures MatchAt(pat, s[a..b], j).None?
    {
      if MatchAt(pat, s[a..b], j).Some? {
        MatchLocal(pat, s, a, b, j);
      }
    }
  }

  lemma InterleaveCons(x: string, sep: string, pieces: seq<string>, seps: seq<string>)
    requires |pieces| == |seps| + 1
    ensures Interleave([x] + pieces, [sep] + seps) == x + sep + Interleave(pieces, seps)
  {
    assert ([x] + pieces)[1..] == pieces && ([sep] + seps)[1..] == seps;
  }

  lemma SliceThree(s: string, p: nat, q: nat, e: nat)
    requires p <= q <= e <= |s|
    ensures s[p..] == s[p..q] + s[q..e] + s[e..]
  {
    assert s[p..] == s[p..q] + s[q..];
    assert s[q..] == s[q..e] + s[e..];
  }

  /** The scan of `@@split`: `p` is where the current piece starts and `q`
      the next position to try. */
  function SplitFrom(pat: Pattern, s: string, p: nat, q: nat): (r: Parts)
    requires p <= q <= |s|
    ensures |r.pieces| == |r.seps| + 1
    ensures Interleave(r.pieces, r.seps) == s[p..]
    ensures p + |r.pieces[0]| <= |s| && r.pieces[0] == s[p..p + |r.pieces[0]|]
    decreases |s| - q, 1
  {
    if q == |s| then
      assert s[p..|s|] == s[p..];
      Parts([s[p..]], [])
    else
      match MatchAt(pat, s, q)
      case None => SplitFrom(pat, s, p, q + 1)
      case Some(e) =>
        var rest := SplitFrom(pat, s, e, e);
        InterleaveCons(s[p..q], s[q..e], rest.pieces, rest.seps);
        SliceThree(s, p, q, e);
        Parts([s[p..q]] + rest.pieces, [s[q..e]] + rest.seps)
  }

  /** Every separator the scan emits is the text of a match. */
  lemma {:induction false} SplitSepsAreMatches(pat: Pattern, s: string, p: nat, q: nat)
    requires p <= q <= |s|
    ensures forall i :: 0 <= i < |SplitFrom(pat, s, p, q).seps| ==>
      IsMatchText(pat, SplitFrom(pat, s, p, q).seps[i])
    decreases |s| - q
  {
    if q < |s| {
      if MatchAt(pat, s, q).None? {
        SplitSepsAreMatches(pat, s, p, q + 1);
        assert SplitFrom(pat, s, p, q) == SplitFrom(pat, s, p, q + 1);
      } else {
        var e := MatchAt(pat, s, q).value;
        SplitSepsAreMatches(pat, s, e, e);
        MatchTextOf(pat, s, q);
        var rest := SplitFrom(pat, s, e, e).seps;
        SepsCons(pat, s[q..e], rest);
        assert SplitFrom(pat, s, p, q).seps == [s[q..e]] + rest;
      }
    }
  }

  lemma {:induction false} SepsCons(pat: Pattern, x: string, seps: seq<string>)
    requires IsMatchText(pat, x)
    requires forall i :: 0 <= i < |seps| ==> IsMatchText(pat, seps[i])
    ensures forall i :: 0 <= i < |[x] + seps| ==> IsMatchText(pat, ([x] + seps)[i])
  {
  }

  /** No piece the scan emits contains a match, provided none starts
      between the piece's start and the scan position. */
  lemma {:induction false} SplitPiecesMatchFree(pat: Pattern, s: string, p: nat, q: nat)
    requires p <= q <= |s|
    requires forall j :: p <= j < q ==> MatchAt(pat, s, j).None?
    ensures forall i :: 0 <= i < |SplitFrom(pat, s, p, q).pieces| ==>
      NoMatchIn(pat, SplitFrom(pat, s, p, q).pieces[i])
    decreases |s| - q
  {
    if q == |s| {
      LastPieceMatchFree(pat, s, p);
    } else if MatchAt(pat, s, q).None? {
      SplitPiecesMatchFree(pat, s, p, q + 1);
      assert SplitFrom(pat, s, p, q) == SplitFrom(pat, s, p, q + 1);
    } else {
      var e := MatchAt(pat, s, q).value;
      SplitPiecesMatchFree(pat, s, e, e);
      FirstPieceMatchFree(pat, s, p, q);
    }
  }

  lemma {:induction false} LastPieceMatchFree(pat: Pattern, s: string, p: nat)
    requires p <= |s|
    requires forall j :: p <= j < |s| ==> MatchAt(pat, s, j).None?
    ensures forall i :: 0 <= i < |SplitFrom(pat, s, p, |s|).pieces| ==>
      NoMatchIn(pat, SplitFrom(pat, s, p, |s|).pieces[i])
  {
    NoMatchLocal(pat, s, p, |s|);
    assert s[p..|s|] == s[p..];
    assert SplitFrom(pat, s, p, |s|).pieces == [s[p..]];
  }

  lemma {:induction false} FirstPieceMatchFree(pat: Pattern, s: string, p: nat, q: nat)
    requires p <= q < |s| && MatchAt(pat, s, q).Some?
    requires forall j :: p <= j < q ==> MatchAt(pat, s, j).None?
    requires forall i :: 0 <= i < |SplitFrom(pat, s, MatchAt(pat, s, q).value, MatchAt(pat, s, q).value).pieces| ==>
      NoMatchIn(pat, SplitFrom(pat, s, MatchAt(pat, s, q).value, MatchAt(pat, s, q).value).pieces[i])
    ensures forall i :: 0 <= i < |SplitFrom(pat, s, p, q).pieces| ==>
      NoMatchIn(pat, SplitFrom(pat, s, p, q).pieces[i])
  {
    var e := MatchAt(pat, s, q).value;
    var rest := SplitFrom(pat, s, e, e).pieces;
    NoMatchLocal(pat, s, p, q);
    PiecesCons(pat, s[p..q], rest);
    assert SplitFrom(pat, s, p, q).pieces == [s[p..q]] + rest;
  }

  lemma {:induction false} PiecesCons(pat: Pattern, x: string, pieces: seq<string>)
    requires NoMatchIn(pat, x)
    requires forall i :: 0 <= i < |pieces| ==> NoMatchIn(pat, pieces[i])
    ensures forall i :: 0 <= i < |[x] + pieces| ==> NoMatchIn(pat, ([x] + pieces)[i])
  {
  }

  /** The text a match consumed has the shape of its pattern. */
  lemma {:induction false} MatchTextOf(pat: Pattern, s: string, q: nat)
    requires q < |s| && MatchAt(pat, s, q).Some?
    ensures IsMatchText(pat, s[q..MatchAt(pat, s, q).value])
  {
  }

  /** The pieces of `s.split(pat)` and the separators between them. */
  function SplitParts(pat: Pattern, s: string): (r: Parts)
    ensures |r.pieces| == |r.seps| + 1
    ensures Interleave(r.pieces, r.seps) == s
  {
    SplitFrom(pat, s, 0, 0)
  }

  /** `s.split(pat)`: the pieces between the matches. */
  function Split(pat: Pattern, s: string): (r: seq<string>)
    ensures |r| >= 1
  {
    SplitParts(pat, s).pieces
  }

  /** The piece a sentence gap follows is non-empty and ends in `.`, `?` or
      `!`, and the piece after it does not start with white space (the gap
      is the whole run). */
  predicate GapsAtSentenceEnds(r: Parts)
    requires |r.pieces| == |r.seps| + 1
  {
    forall i :: 0 <= i < |r.seps| ==> GapAfter(r.pieces, i)
  }

  predicate GapAfter(pieces: seq<string>, i: nat)
    requires i + 1 < |pieces|
  {
    && |pieces[i]| > 0
    && IsSentenceEnd(pieces[i][|pieces[i]| - 1])
    && (|pieces[i + 1]| > 0 ==> !IsJsSpace(pieces[i + 1][0]))
  }

  lemma {:induction false} SentenceGapsFrom(s: string, p: nat, q: nat)
    requires p <= q <= |s|
    requires forall j :: p <= j < q ==> MatchAt(SentenceGap, s, j).None?
    requires p > 0 ==> IsJsSpace(s[p - 1])
    ensures GapsAtSentenceEnds(SplitFrom(SentenceGap, s, p, q))
    decreases |s| - q
  {
    if q < |s| {
      if MatchAt(SentenceGap, s, q).None? {
        SentenceGapsFrom(s, p, q + 1);
      } else {
        var e := MatchAt(SentenceGap, s, q).value;
        SentenceGapsFrom(s, e, e);
        SentenceGapStep(s, p, q);
      }
    }
  }

  /** The step of `SentenceGapsFrom` at a match. */
  lemma {:induction false} SentenceGapStep(s: string, p: nat, q: nat)
    requires p <= q < |s| && MatchAt(SentenceGap, s, q).Some?
    requires forall j :: p <= j < q ==> MatchAt(SentenceGap, s, j).None?
    requires p > 0 ==> IsJsSpace(s[p - 1])
    requires var e := MatchAt(SentenceGap, s, q).value;
      GapsAtSentenceEnds(SplitFrom(SentenceGap, s, e, e))
    ensures GapsAtSentenceEnds(SplitFrom(SentenceGap, s, p, q))
  {
    var e := MatchAt(SentenceGap, s, q).value;
    var rest := SplitFrom(SentenceGap, s, e, e);
    var r := SplitFrom(SentenceGap, s, p, q);
    assert r.pieces == [s[p..q]] + rest.pieces && r.seps == [s[q..e]] + rest.seps;
    assert GapAfter(r.pieces, 0) by {
      assert q > p && IsSentenceEnd(s[q - 1]);
      assert r.pieces[0] == s[p..q] && r.pieces[1] == rest.pieces[0];
      assert |rest.pieces[0]| > 0 ==> rest.pieces[0][0] == s[e];
    }
    GapsCons(r.pieces, rest.pieces, |r.seps|);
  }

  /** Gaps after every piece of `rest`, and after the piece put before it. */
  lemma {:induction false} GapsCons(pieces: seq<string>, rest: seq<string>, n: nat)
    requires |pieces| == n + 1 && n >= 1 && pieces[1..] == rest
    requires GapAfter(pieces, 0)
    requires forall i :: 0 <= i < n - 1 ==> GapAfter(rest, i)
    ensures forall i :: 0 <= i < n ==> GapAfter(pieces, i)
  {
    forall i | 1 <= i < n
      ensures GapAfter(pieces, i)
    {
      assert GapAfter(rest, i - 1);
      assert pieces[i] == rest[i - 1] && pieces[i + 1] == rest[i];
    }
  }

  /** Sentence splitting happens only at white-space runs that follow a
      sentence end, and consumes each such run whole. */
  lemma {:induction false} SentenceSplitPoints(s: string)
    ensures GapsAtSentenceEnds(SplitParts(SentenceGap, s))
    ensures forall i :: 0 <= i < |SplitParts(SentenceGap, s).seps| ==>
      IsMatchText(SentenceGap, SplitParts(SentenceGap, s).seps[i])
  {
    SentenceGapsFrom(s, 0, 0);
    SplitSepsAreMatches(SentenceGap, s, 0, 0);
  }

  /** Where a blank-line cut falls: the piece before it does not end in a
      line feed (the match is the leftmost one), and the white space that
      opens the piece after it holds no line feed (`\s*` is greedy). */
  predicate BlankCutAfter(pieces: seq<string>, i: nat)
    requires i + 1 < |pieces|
  {
    && (|pieces[i]| > 0 ==> pieces[i][|pieces[i]| - 1] != '\n')
    && LeadHasNoNewline(pieces[i + 1])
  }

  /** The white space at the front of `t` holds no line feed. */
  predicate LeadHasNoNewline(t: string) {
    forall k :: 0 <= k < LeadingSpace(t) ==> t[k] != '\n'
  }

  predicate BlankCutsPlaced(r: Parts)
    requires |r.pieces| == |r.seps| + 1
  {
    forall i :: 0 <= i < |r.seps| ==> BlankCutAfter(r.pieces, i)
  }

  /** A line feed just before a blank-line match would itself start one. */
  lemma {:induction false} NoNewlineBeforeMatch(s: string, q: nat)
    requires 0 < q < |s| && MatchAt(BlankLine, s, q).Some?
    requires MatchAt(BlankLine, s, q - 1).None?
    ensures s[q - 1] != '\n'
  {
    var run := SpaceRunEnd(s, q);
    assert s[q] == '\n' && IsJsSpace(s[q]);
    assert run > q;
    assert LastNewline(s, q, run).Some?;
  }

  /** The text after a blank-line match opens with no line feed in its
      leading white space. */
  lemma {:induction false} NoNewlineAfterMatch(s: string, q: nat, t: string)
    requires q < |s| && MatchAt(BlankLine, s, q).Some?
    requires var e := MatchAt(BlankLine, s, q).value;
      e + |t| <= |s| && t == s[e..e + |t|]
    ensures LeadHasNoNewline(t)
  {
    var e := MatchAt(BlankLine, s, q).value;
    var run := SpaceRunEnd(s, q + 1);
    var lead := LeadingSpace(t);
    assert forall j :: e <= j < e + lead ==> IsJsSpace(s[j]) by {
      forall j | e <= j < e + lead
        ensures IsJsSpace(s[j])
      {
        assert t[..lead][j - e] == s[j];
      }
    }
    forall k | 0 <= k < lead
      ensures t[k] != '\n'
    {
      assert e + k < run;
      assert t[k] == s[e + k];
    }
  }

  lemma {:induction false} BlankCutsFrom(s: string, p: nat, q: nat)
    requires p <= q <= |s|
    requires forall j :: p <= j < q ==> MatchAt(BlankLine, s, j).None?
    ensures BlankCutsPlaced(SplitFrom(BlankLine, s, p, q))
    decreases |s| - q
  {
    if q < |s| {
      if MatchAt(BlankLine, s, q).None? {
        BlankCutsFrom(s, p, q + 1);
      } else {
        var e := MatchAt(BlankLine, s, q).value;
        BlankCutsFrom(s, e, e);
        BlankCutStep(s, p, q);
      }
    }
  }

  /** The step of `BlankCutsFrom` at a match. */
  lemma {:induction false} BlankCutStep(s: string, p: nat, q: nat)
    requires p <= q < |s| && MatchAt(BlankLine, s, q).Some?
    requires forall j :: p <= j < q ==> MatchAt(BlankLine, s, j).None?
    requires var e := MatchAt(BlankLine, s, q).value;
      BlankCutsPlaced(SplitFrom(BlankLine, s, e, e))
    ensures BlankCutsPlaced(SplitFrom(BlankLine, s, p, q))
  {
    var e := MatchAt(BlankLine, s, q).value;
    var rest := SplitFrom(BlankLine, s, e, e);
    var r := SplitFrom(BlankLine, s, p, q);
    assert r.pieces == [s[p..q]] + rest.pieces && r.seps == [s[q..e]] + rest.seps;
    assert BlankCutAfter(r.pieces, 0) by {
      if q > p {
        NoNewlineBeforeMatch(s, q);
      }
      NoNewlineAfterMatch(s, q, rest.pieces[0]);
      assert r.pieces[0] == s[p..q] && r.pieces[1] == rest.pieces[0];
    }
    BlankCutsCons(r.pieces, rest.pieces, |r.seps|);
  }

  lemma {:induction false} BlankCutsCons(pieces: seq<string>, rest: seq<string>, n: nat)
    requires |pieces| == n + 1 && n >= 1 && pieces[1..] == rest
    requires BlankCutAfter(pieces, 0)
    requires forall i :: 0 <= i < n - 1 ==> BlankCutAfter(rest, i)
    ensures forall i :: 0 <= i < n ==> BlankCutAfter(pieces, i)
  {
    forall i | 1 <= i < n
      ensures BlankCutAfter(pieces, i)
    {
      assert BlankCutAfter(rest, i - 1);
      assert pieces[i] == rest[i - 1] && pieces[i + 1] == rest[i];
    }
  }

  /** `story.split(/\n\s*\n/)` cuts at the leftmost line feed of each blank
      stretch and through to its last line feed: on `"a\n\n\nb"` the one
      separator is the whole `"\n\n\n"`. */
  lemma {:induction false} BlankLineSplitPoints(s: string)
    ensures BlankCutsPlaced(SplitParts(BlankLine, s))
    ensures forall i :: 0 <= i < |SplitParts(BlankLine, s).seps| ==>
      IsMatchText(BlankLine, SplitParts(BlankLine, s).seps[i])
  {
    BlankCutsFrom(s, 0, 0);
    SplitSepsAreMatches(BlankLine, s, 0, 0);
  }

  /** The scan's first piece reaches at least up to where the scan is. */
  lemma {:induction false} FirstPieceReaches(pat: Pattern, s: string, p: nat, q: nat)
    requires p <= q <= |s|
    ensures |SplitFrom(pat, s, p, q).pieces[0]| >= q - p
    decreases |s| - q
  {
    if q < |s| && MatchAt(pat, s, q).None? {
      FirstPieceReaches(pat, s, p, q + 1);
    }
  }

  /** A whole text that is one blank stretch is one match, with an empty
      piece on either side. */
  lemma {:induction false} WholeBlankSplit(s: string)
    requires IsMatchText(BlankLine, s)
    ensures Split(BlankLine, s) == [[], []]
  {
    assert SpaceRunEnd(s, 1) == |s|;
    assert LastNewline(s, 1, |s|) == Some(|s| - 1);
    assert MatchAt(BlankLine, s, 0) == Some(|s|);
    assert SplitFrom(BlankLine, s, |s|, |s|).pieces == [[]];
  }

  /** A non-empty text that is not one blank stretch leaves a non-empty
      piece. */
  lemma {:induction false} NonBlankLeavesPiece(s: string)
    requires s != [] && !IsMatchText(BlankLine, s)
    ensures Split(BlankLine, s)[0] != [] || (|Split(BlankLine, s)| > 1 && Split(BlankLine, s)[1] != [])
  {
    if MatchAt(BlankLine, s, 0).None? {
      assert SplitFrom(BlankLine, s, 0, 0) == SplitFrom(BlankLine, s, 0, 1);
      FirstPieceReaches(BlankLine, s, 0, 1);
    } else {
      PieceAfterFirstMatch(s);
    }
  }

  /** When the text opens with a blank-line match that is not all of it,
      the piece after that match is not empty. */
  lemma {:induction false} PieceAfterFirstMatch(s: string)
    requires s != [] && MatchAt(BlankLine, s, 0).Some?
    requires MatchAt(BlankLine, s, 0).value < |s|
    ensures |Split(BlankLine, s)| > 1 && Split(BlankLine, s)[1] != []
  {
    var e := MatchAt(BlankLine, s, 0).value;
    MatchEndNoNewline(s, 0);
    var rest := SplitFrom(BlankLine, s, e, e);
    assert rest == SplitFrom(BlankLine, s, e, e + 1);
    FirstPieceReaches(BlankLine, s, e, e + 1);
    assert SplitFrom(BlankLine, s, 0, 0).pieces == [s[0..0]] + rest.pieces;
  }

  /** A blank-line match that stops short of the end stops before a
      character that is not a line feed. */
  lemma {:induction false} MatchEndNoNewline(s: string, q: nat)
    requires q < |s| && MatchAt(BlankLine, s, q).Some?
    requires MatchAt(BlankLine, s, q).value < |s|
    ensures s[MatchAt(BlankLine, s, q).value] != '\n'
  {
    var e := MatchAt(BlankLine, s, q).value;
    var run := SpaceRunEnd(s, q + 1);
    assert e <= run;
    assert e < run ==> IsJsSpace(s[e]);
  }

  /** Every piece of `s.split(/\n\s*\n/)` is empty exactly when `s` is
      empty or is one blank stretch: white space of two or more characters
      that starts and ends with a line feed. `"\n"` and `" \n \n "` are
      not. */
  lemma {:induction false} BlankOnlyIff(s: string)
    ensures (forall i :: 0 <= i < |Split(BlankLine, s)| ==> Split(BlankLine, s)[i] == [])
      <==> s == [] || IsMatchText(BlankLine, s)
  {
    if s == [] {
      assert Split(BlankLine, s) == [[]];
    } else if IsMatchText(BlankLine, s) {
      WholeBlankSplit(s);
    } else {
      NonBlankLeavesPiece(s);
    }
  }

  lemma {:induction false} SplitFromNoMatch(pat: Pattern, s: string, q: nat)
    requires q <= |s|
    requires NoMatchIn(pat, s)
    ensures SplitFrom(pat, s, 0, q) == Parts([s], [])
    decreases |s| - q
  {
    if q < |s| {
      SplitFromNoMatch(pat, s, q + 1);
    }
  }

  /** A text splits into itself alone exactly when the separator occurs
      nowhere in it. */
  lemma {:induction false} SplitWholeIff(pat: Pattern, s: string)
    ensures Split(pat, s) == [s] <==> NoMatchIn(pat, s)
  {
    if NoMatchIn(pat, s) {
      SplitFromNoMatch(pat, s, 0);
    } else {
      SplitPiecesMatchFree(pat, s, 0, 0);
    }
  }
}
