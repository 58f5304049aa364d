/**
  `chunkStory` of backend/storyToScenes.js: the story is cut into
  paragraphs at blank lines and the paragraphs are packed greedily, in
  order, into chunks of at most `maxLen` characters joined by a blank line.
*/
module Chunking {
  import opened JsText
  import opened JsSplit

  const ParagraphSep: string := "\n\n"

  /** `p.slice(0, maxLen)` when `p` is longer than `maxLen`. */
  function Truncate(p: string, maxLen: nat): (r: string)
    ensures |r| <= maxLen && |r| <= |p|
    ensures r == p[..|r|]
    ensures |p| <= maxLen ==> r == p
    ensures |p| > maxLen ==> |r| == maxLen
  {
    if |p| > maxLen then p[..maxLen] else p
  }

  function TruncateAll(ps: seq<string>, maxLen: nat): (r: seq<string>)
    ensures |r| == |ps|
  {
    if |ps| == 0 then [] else [Truncate(ps[0], maxLen)] + TruncateAll(ps[1..], maxLen)
  }

  /** The loop of `chunkStory` from the paragraphs `ps` on, with `buffer`
      the chunk under construction: a paragraph is appended after a blank
      line when the result still fits in `maxLen`; otherwise the buffer is
      flushed (when non-empty) and the paragraph, cut to `maxLen`, starts
      the next chunk. The final buffer is flushed when non-empty. */
  function PackFrom(ps: seq<string>, buffer: string, maxLen: nat): (r: seq<string>)
    requires |buffer| <= maxLen
    ensures forall i :: 0 <= i < |r| ==> 0 < |r[i]| <= maxLen
    ensures buffer != [] ==> |r| > 0 && |r[0]| >= |buffer|
  {
    if |ps| == 0 then
      if buffer != [] then [buffer] else []
    else
      var p := ps[0];
      if |buffer| + |ParagraphSep| + |p| > maxLen then
        (if buffer != [] then [buffer] else []) + PackFrom(ps[1..], Truncate(p, maxLen), maxLen)
      else
        PackFrom(ps[1..], if buffer != [] then buffer + ParagraphSep + p else p, maxLen)
  }

  /** The packing of a list of paragraphs. */
  function ChunkParagraphs(ps: seq<string>, maxLen: nat): seq<string> {
    PackFrom(ps, [], maxLen)
  }

  /** `chunkStory(story, maxLen)`. */
  function ChunkStory(story: string, maxLen: nat): (r: seq<string>)
    ensures forall i :: 0 <= i < |r| ==> 0 < |r[i]| <= maxLen
  {
    ChunkParagraphs(Split(BlankLine, story), maxLen)
  }

  /** Packing leaves no chunk exactly when every paragraph is empty (with
      room for at least one character per chunk). */
  lemma {:induction false} PackEmptyIff(ps: seq<string>, maxLen: nat)
    requires maxLen >= 1
    ensures PackFrom(ps, [], maxLen) == [] <==> forall i :: 0 <= i < |ps| ==> ps[i] == []
  {
    if |ps| > 0 {
      PackEmptyIff(ps[1..], maxLen);
      if ps[0] == [] {
        assert Truncate(ps[0], maxLen) == [];
        assert forall i :: 1 <= i < |ps| ==> ps[i] == ps[1..][i - 1];
      } else {
        assert |Truncate(ps[0], maxLen)| > 0;
      }
    }
  }

  /** `chunkStory` returns no chunk exactly when the story is empty or is one
      blank stretch (white space of two or more characters that starts and
      ends with a line feed). */
  lemma {:induction false} NoChunksIff(story: string, maxLen: nat)
    requires maxLen >= 1
    ensures ChunkStory(story, maxLen) == [] <==> story == [] || IsMatchText(BlankLine, story)
  {
    PackEmptyIff(Split(BlankLine, story), maxLen);
    BlankOnlyIff(story);
  }

  /** The buffer put in front of the paragraphs still to come. */
  function Prepend(buffer: string, xs: seq<string>): seq<string> {
    if buffer == [] then xs else [buffer] + xs
  }

  lemma {:induction false} JoinMerge(a: string, b: string, xs: seq<string>, sep: string)
    ensures Join([a + sep + b] + xs, sep) == Join([a, b] + xs, sep)
  {
    if |xs| > 0 {
      var j := Join(xs, sep);
      calc {
        Join([a + sep + b] + xs, sep);
        { JoinCons(a + sep + b, xs, sep); }
        a + sep + b + sep + j;
        { assert a + sep + b + sep + j == a + sep + (b + sep + j); }
        a + sep + (b + sep + j);
        { JoinCons(b, xs, sep); }
        a + sep + Join([b] + xs, sep);
        { JoinCons(a, [b] + xs, sep); }
        Join([a] + ([b] + xs), sep);
        { assert [a] + ([b] + xs) == [a, b] + xs; }
        Join([a, b] + xs, sep);
      }
    } else {
      assert [a, b] + xs == [a, b] && [a, b][1..] == [b];
    }
  }

  lemma {:induction false} JoinFlush(buffer: string, tailChunks: seq<string>, tailParas: seq<string>, sep: string)
    requires |tailChunks| > 0 && |tailParas| > 0
    requires Join(tailChunks, sep) == Join(tailParas, sep)
    ensures Join([buffer] + tailChunks, sep) == Join([buffer] + tailParas, sep)
  {
    JoinCons(buffer, tailChunks, sep);
    JoinCons(buffer, tailParas, sep);
  }

  lemma {:induction false} PackLossless(ps: seq<string>, buffer: string, maxLen: nat)
    requires maxLen >= 1 && |buffer| <= maxLen
    requires forall i :: 0 <= i < |ps| ==> ps[i] != []
    ensures Join(PackFrom(ps, buffer, maxLen), ParagraphSep)
         == Join(Prepend(buffer, TruncateAll(ps, maxLen)), ParagraphSep)
  {
    if |ps| > 0 {
      var p := ps[0];
      assert forall i :: 0 <= i < |ps[1..]| ==> ps[1..][i] != [] by {
        forall i | 0 <= i < |ps[1..]| ensures ps[1..][i] != [] { assert ps[1..][i] == ps[i + 1]; }
      }
      if |buffer| + |ParagraphSep| + |p| > maxLen {
        PackLossless(ps[1..], Truncate(p, maxLen), maxLen);
        PackFlushStep(ps, buffer, maxLen);
      } else {
        var next := if buffer != [] then buffer + ParagraphSep + p else p;
        PackLossless(ps[1..], next, maxLen);
        PackMergeStep(ps, buffer, maxLen);
      }
    }
  }

  /** The step of `PackLossless` where the paragraph does not fit. */
  lemma {:induction false} PackFlushStep(ps: seq<string>, buffer: string, maxLen: nat)
    requires |ps| > 0 && ps[0] != [] && |buffer| <= maxLen && maxLen >= 1
    requires |buffer| + |ParagraphSep| + |ps[0]| > maxLen
    requires var t := Truncate(ps[0], maxLen);
      Join(PackFrom(ps[1..], t, maxLen), ParagraphSep)
        == Join(Prepend(t, TruncateAll(ps[1..], maxLen)), ParagraphSep)
    ensures Join(PackFrom(ps, buffer, maxLen), ParagraphSep)
         == Join(Prepend(buffer, TruncateAll(ps, maxLen)), ParagraphSep)
  {
    var t := Truncate(ps[0], maxLen);
    var rest := TruncateAll(ps[1..], maxLen);
    var tailChunks := PackFrom(ps[1..], t, maxLen);
    assert TruncateAll(ps, maxLen) == [t] + rest;
    assert t != [];
    if buffer != [] {
      assert PackFrom(ps, buffer, maxLen) == [buffer] + tailChunks;
      JoinFlush(buffer, tailChunks, [t] + rest, ParagraphSep);
    } else {
      assert PackFrom(ps, buffer, maxLen) == tailChunks;
    }
  }

  /** The step of `PackLossless` where the paragraph joins the buffer. */
  lemma {:induction false} PackMergeStep(ps: seq<string>, buffer: string, maxLen: nat)
    requires |ps| > 0 && ps[0] != [] && |buffer| <= maxLen
    requires |buffer| + |ParagraphSep| + |ps[0]| <= maxLen
    requires var next := if buffer != [] then buffer + ParagraphSep + ps[0] else ps[0];
      Join(PackFrom(ps[1..], next, maxLen), ParagraphSep)
        == Join(Prepend(next, TruncateAll(ps[1..], maxLen)), ParagraphSep)
    ensures Join(PackFrom(ps, buffer, maxLen), ParagraphSep)
         == Join(Prepend(buffer, TruncateAll(ps, maxLen)), ParagraphSep)
  {
    var p := ps[0];
    var rest := TruncateAll(ps[1..], maxLen);
    assert TruncateAll(ps, maxLen) == [p] + rest by {
      assert Truncate(p, maxLen) == p;
    }
    if buffer != [] {
      var merged := buffer + ParagraphSep + p;
      assert PackFrom(ps, buffer, maxLen) == PackFrom(ps[1..], merged, maxLen);
      MergedJoin(buffer, p, rest);
    } else {
      assert PackFrom(ps, buffer, maxLen) == PackFrom(ps[1..], p, maxLen);
    }
  }

  lemma {:induction false} MergedJoin(buffer: string, p: string, rest: seq<string>)
    ensures Join([buffer + ParagraphSep + p] + rest, ParagraphSep)
         == Join([buffer] + ([p] + rest), ParagraphSep)
  {
    JoinMerge(buffer, p, rest, ParagraphSep);
    PairCons(buffer, p, rest);
  }

  lemma PairCons<T>(a: T, b: T, rest: seq<T>)
    ensures [a, b] + rest == [a] + ([b] + rest)
  {
  }

  /** Chunking loses and reorders nothing: when every paragraph is
      non-empty, joining the chunks with a blank line gives the paragraphs,
      in their order, each cut to `maxLen`, joined the same way. */
  lemma {:induction false} ChunksPreserveParagraphs(ps: seq<string>, maxLen: nat)
    requires maxLen >= 1
    requires forall i :: 0 <= i < |ps| ==> ps[i] != []
    ensures Join(ChunkParagraphs(ps, maxLen), ParagraphSep) == Join(TruncateAll(ps, maxLen), ParagraphSep)
  {
    PackLossless(ps, [], maxLen);
  }

  /** No two neighbouring chunks could have been one: the first, a blank
      line and the second never fit in `maxLen`. */
  predicate Unmergeable(chunks: seq<string>, maxLen: nat) {
    forall i :: 0 <= i < |chunks| - 1 ==> |chunks[i]| + |ParagraphSep| + |chunks[i + 1]| > maxLen
  }

  lemma {:induction false} PackGreedy(ps: seq<string>, buffer: string, maxLen: nat)
    requires |buffer| <= maxLen
    ensures Unmergeable(PackFrom(ps, buffer, maxLen), maxLen)
  {
    if |ps| > 0 {
      var p := ps[0];
      var t := Truncate(p, maxLen);
      PackGreedy(ps[1..], t, maxLen);
      if |buffer| + |ParagraphSep| + |p| > maxLen {
        var tailChunks := PackFrom(ps[1..], t, maxLen);
        if buffer != [] {
          var r := [buffer] + tailChunks;
          assert |t| == maxLen || t == p;
          forall i | 0 <= i < |r| - 1
            ensures |r[i]| + |ParagraphSep| + |r[i + 1]| > maxLen
          {
            if i > 0 {
              assert r[i] == tailChunks[i - 1] && r[i + 1] == tailChunks[i];
            }
          }
        }
      } else {
        PackGreedy(ps[1..], if buffer != [] then buffer + ParagraphSep + p else p, maxLen);
      }
    }
  }

  /** `chunkStory` is greedy: a chunk is flushed only when the next
      paragraph does not fit after it. */
  lemma {:induction false} ChunksGreedy(story: string, maxLen: nat)
    ensures Unmergeable(ChunkStory(story, maxLen), maxLen)
  {
    PackGreedy(Split(BlankLine, story), [], maxLen);
  }

  // ---------------------------------------------------------------------
  // First fit, stated on groups of paragraphs.

  /** The length of the run of paragraphs that opens `ps` and goes into one
      chunk, searching on from a run of `n`: the run grows while its
      blank-line join still fits in `maxLen`, so it stops exactly where
      the next paragraph does not fit after it. */
  function GroupLen(ps: seq<string>, maxLen: nat, n: nat): (r: nat)
    requires 1 <= n <= |ps|
    ensures n <= r <= |ps|
    ensures r < |ps| ==> |Join(ps[..r + 1], ParagraphSep)| > maxLen
    ensures r > n ==> |Join(ps[..r], ParagraphSep)| <= maxLen
    decreases |ps| - n
  {
    if n < |ps| && |Join(ps[..n + 1], ParagraphSep)| <= maxLen then GroupLen(ps, maxLen, n + 1) else n
  }

  /** The chunk made of the first `n` paragraphs: one paragraph alone is
      cut to `maxLen`; a longer run fits and is joined as it is. */
  function GroupText(ps: seq<string>, maxLen: nat, n: nat): string
    requires 1 <= n <= |ps|
  {
    if n == 1 then Truncate(ps[0], maxLen) else Join(ps[..n], ParagraphSep)
  }

  /** First-fit packing by groups: each chunk is the longest run of the
      next paragraphs that fits, and the following chunk starts with the
      paragraph that did not fit after it. */
  function FirstFit(ps: seq<string>, maxLen: nat): (r: seq<string>)
    decreases |ps|
  {
    if |ps| == 0 then []
    else
      var n := GroupLen(ps, maxLen, 1);
      [GroupText(ps, maxLen, n)] + FirstFit(ps[n..], maxLen)
  }

  /** `chunkStory`'s loop is first fit: for non-empty paragraphs, its
      chunks are exactly the groups of `FirstFit`. */
  lemma {:induction false} PackIsFirstFit(ps: seq<string>, maxLen: nat)
    requires maxLen >= 1
    requires forall i :: 0 <= i < |ps| ==> ps[i] != []
    ensures ChunkParagraphs(ps, maxLen) == FirstFit(ps, maxLen)
  {
    if |ps| > 0 {
      var p := ps[0];
      assert PackFrom(ps, [], maxLen) == PackFrom(ps[1..], GroupText(ps, maxLen, 1), maxLen) by {
        if |p| + |ParagraphSep| <= maxLen {
          assert Truncate(p, maxLen) == p;
        }
      }
      PackFromGroup(ps, 1, maxLen);
    }
  }

  /** The loop holding the first `n` paragraphs of a group in its buffer
      ends with the chunks of `FirstFit`. */
  lemma {:induction false} PackFromGroup(ps: seq<string>, n: nat, maxLen: nat)
    requires maxLen >= 1 && 1 <= n <= |ps|
    requires forall i :: 0 <= i < |ps| ==> ps[i] != []
    requires GroupLen(ps, maxLen, n) == GroupLen(ps, maxLen, 1)
    requires |GroupText(ps, maxLen, n)| <= maxLen
    ensures PackFrom(ps[n..], GroupText(ps, maxLen, n), maxLen) == FirstFit(ps, maxLen)
    decreases |ps|, |ps| - n
  {
    var buf := GroupText(ps, maxLen, n);
    assert buf != [] by { GroupTextNonEmpty(ps, maxLen, n); }
    if n < GroupLen(ps, maxLen, n) {
      GroupGrows(ps, maxLen, n);
      assert ps[n..][0] == ps[n] && ps[n..][1..] == ps[n + 1..];
      PackFromGroup(ps, n + 1, maxLen);
    } else if n == |ps| {
      assert ps[n..] == [] && FirstFit(ps[n..], maxLen) == [];
    } else {
      GroupEnds(ps, maxLen, n);
      var qs := ps[n..];
      assert qs[0] == ps[n] && qs[1..] == ps[n + 1..];
      assert forall i :: 0 <= i < |qs| ==> qs[i] != [] by {
        forall i | 0 <= i < |qs| ensures qs[i] != [] { assert qs[i] == ps[n + i]; }
      }
      PackFromGroup(qs, 1, maxLen);
    }
  }

  lemma {:induction false} GroupTextNonEmpty(ps: seq<string>, maxLen: nat, n: nat)
    requires maxLen >= 1 && 1 <= n <= |ps| && ps[0] != []
    ensures GroupText(ps, maxLen, n) != []
  {
    if n > 1 {
      assert ps[..n][1..] == ps[1..n];
      assert |Join(ps[..n], ParagraphSep)| >= |ParagraphSep|;
    }
  }

  /** While the group grows, the buffer takes the next paragraph after a
      blank line. */
  lemma {:induction false} GroupGrows(ps: seq<string>, maxLen: nat, n: nat)
    requires 1 <= n <= |ps| && n < GroupLen(ps, maxLen, n)
    ensures |GroupText(ps, maxLen, n)| + |ParagraphSep| + |ps[n]| <= maxLen
    ensures GroupText(ps, maxLen, n) + ParagraphSep + ps[n] == GroupText(ps, maxLen, n + 1)
    ensures GroupLen(ps, maxLen, n + 1) == GroupLen(ps, maxLen, n)
  {
    assert |Join(ps[..n + 1], ParagraphSep)| <= maxLen;
    assert ps[..n] + [ps[n]] == ps[..n + 1];
    JoinSnoc(ps[..n], ps[n], ParagraphSep);
    if n == 1 {
      assert Join(ps[..1], ParagraphSep) == ps[0];
      assert Truncate(ps[0], maxLen) == ps[0];
    }
  }

  /** When the group ends before the last paragraph, the next paragraph
      does not fit after the buffer. */
  lemma {:induction false} GroupEnds(ps: seq<string>, maxLen: nat, n: nat)
    requires 1 <= n < |ps| && GroupLen(ps, maxLen, n) == n && ps[n] != []
    ensures |GroupText(ps, maxLen, n)| + |ParagraphSep| + |ps[n]| > maxLen
  {
    assert |Join(ps[..n + 1], ParagraphSep)| > maxLen;
    assert ps[..n] + [ps[n]] == ps[..n + 1];
    JoinSnoc(ps[..n], ps[n], ParagraphSep);
    if n == 1 {
      assert Join(ps[..1], ParagraphSep) == ps[0];
    }
  }
}
