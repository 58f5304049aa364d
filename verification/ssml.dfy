/**
  `convertToSSML` of backend/tts.js: the narration is cut into sentences
  at the white space that follows `.`, `?` or `!`, every sentence is
  trimmed and followed by a half-second break, and the whole is wrapped in
  a `<speak>` element. The sentence text is embedded as it is, without XML
  escaping.
*/
module Ssml {
  import opened Results
  import opened JsText
  import opened JsSplit

  const SpeakOpen: string := "<speak>"
  const SpeakClose: string := "</speak>"
  /** What follows every sentence. */
  const BreakTag: string := " <break time=\"0.5s\"/>"

  /** `.filter(Boolean)`: the non-empty strings, in order. */
  function NonEmpty(xs: seq<string>): (r: seq<string>)
    ensures |r| <= |xs|
    ensures forall i :: 0 <= i < |r| ==> r[i] != []
    ensures (forall i :: 0 <= i < |xs| ==> xs[i] != []) ==> r == xs
    ensures |xs| == 1 && xs[0] == [] ==> r == []
  {
    if |xs| == 0 then []
    else if xs[0] == [] then NonEmpty(xs[1..])
    else [xs[0]] + NonEmpty(xs[1..])
  }

  /** The filter works element by element: filtering a concatenation
      concatenates the filtered parts, so with the one-element cases above
      every non-empty string is kept, in its place. */
  lemma {:induction false} NonEmptyAppend(a: seq<string>, b: seq<string>)
    ensures NonEmpty(a + b) == NonEmpty(a) + NonEmpty(b)
    decreases |a|
  {
    if |a| == 0 {
      assert a + b == b;
    } else {
      assert (a + b)[0] == a[0] && (a + b)[1..] == a[1..] + b;
      NonEmptyAppend(a[1..], b);
    }
  }

  /** `.map(s => s.trim())`. */
  function TrimAll(xs: seq<string>): (r: seq<string>)
    ensures |r| == |xs|
    ensures forall i :: 0 <= i < |xs| ==> r[i] == Trim(xs[i])
  {
    seq(|xs|, i requires 0 <= i < |xs| => Trim(xs[i]))
  }

  /** The sentences of `text`: split, drop the empty pieces, trim. Empty
      pieces are dropped before trimming, so a piece of white space alone
      survives as an empty sentence. */
  function Sentences(text: string): seq<string> {
    TrimAll(NonEmpty(Split(SentenceGap, text)))
  }

  /** Every sentence followed by the break tag, joined by one space. */
  function SsmlBody(sentences: seq<string>): (r: string)
    ensures sentences == [] <==> r == []
  {
    if |sentences| == 0 then ""
    else if |sentences| == 1 then sentences[0] + BreakTag
    else sentences[0] + BreakTag + " " + SsmlBody(sentences[1..])
  }

  function ConvertToSsml(text: string): (r: string)
    ensures |r| >= |SpeakOpen| + |SpeakClose|
    ensures r[..|SpeakOpen|] == SpeakOpen
    ensures r[|r| - |SpeakClose|..] == SpeakClose
  {
    SpeakOpen + SsmlBody(Sentences(text)) + SpeakClose
  }

  // ---------------------------------------------------------------------
  // Reading the sentences back out of the markup.

  /** `tag` occurs in `b` at position `j`. */
  predicate TagAt(b: string, tag: string, j: nat) {
    j + |tag| <= |b| && b[j..j + |tag|] == tag
  }

  /** The first position of `tag` in `b` from `from` on, if any. */
  function FindFirst(b: string, tag: string, from: nat): (r: Option<nat>)
    requires from <= |b|
    ensures r.Some? ==> from <= r.value && TagAt(b, tag, r.value)
    ensures r.Some? ==> forall j :: from <= j < r.value ==> !TagAt(b, tag, j)
    ensures r.None? ==> forall j :: from <= j <= |b| ==> !TagAt(b, tag, j)
    decreases |b| - from
  {
    if from + |tag| > |b| then None
    else if TagAt(b, tag, from) then Some(from)
    else FindFirst(b, tag, from + 1)
  }

  /** The sentences of a body: the text before each break tag, the tags
      separated by one space. */
  function DecodeBody(b: string): Option<seq<string>>
    decreases |b|
  {
    if b == [] then Some([])
    else
      match FindFirst(b, BreakTag, 0)
      case None => None
      case Some(i) =>
        var rest := b[i + |BreakTag|..];
        if rest == [] then Some([b[..i]])
        else if rest[0] != ' ' then None
        else
          match DecodeBody(rest[1..])
          case None => None
          case Some(more) => Some([b[..i]] + more)
  }

  /** Strip the `<speak>` wrapper and the break tags. */
  function DecodeSsml(r: string): Option<seq<string>> {
    if |r| >= |SpeakOpen| + |SpeakClose| && r[..|SpeakOpen|] == SpeakOpen
       && r[|r| - |SpeakClose|..] == SpeakClose
    then DecodeBody(r[|SpeakOpen|..|r| - |SpeakClose|])
    else None
  }

  /** In a sentence without `<`, the first break tag is the one after it. */
  lemma {:induction false} FirstTagAfter(x: string, tail: string)
    requires '<' !in x
    ensures FindFirst(x + BreakTag + tail, BreakTag, 0) == Some(|x|)
  {
    var b := x + BreakTag + tail;
    assert b[|x|..|x| + |BreakTag|] == BreakTag;
    forall j | 0 <= j < |x|
      ensures !TagAt(b, BreakTag, j)
    {
      var w := b[j..j + |BreakTag|];
      assert w[1] == b[j + 1];
      if j + 1 < |x| {
        assert b[j + 1] == x[j + 1];
      } else {
        assert b[j + 1] == BreakTag[0];
      }
      assert w[1] != BreakTag[1];
    }
    FindFirstIs(b, BreakTag, 0, |x|);
  }

  lemma {:induction false} FindFirstIs(b: string, tag: string, from: nat, i: nat)
    requires from <= i && i + |tag| <= |b|
    requires TagAt(b, tag, i)
    requires forall j :: from <= j < i ==> !TagAt(b, tag, j)
    ensures FindFirst(b, tag, from) == Some(i)
    decreases i - from
  {
    if from < i {
      FindFirstIs(b, tag, from + 1, i);
    }
  }

  /** A last sentence free of `<` is read back alone. */
  lemma {:induction false} DecodeLast(x: string)
    requires '<' !in x
    ensures DecodeBody(x + BreakTag) == Some([x])
  {
    FirstTagAfter(x, "");
    var b := x + BreakTag;
    assert x + BreakTag + "" == b;
    assert b[..|x|] == x;
    assert b[|x| + |BreakTag|..] == [];
  }

  /** A sentence free of `<` followed by its tag and a space is read back
      ahead of whatever the rest decodes to. */
  lemma {:induction false} DecodeCons(x: string, t: string)
    requires '<' !in x
    ensures DecodeBody(x + BreakTag + " " + t) ==
      if DecodeBody(t).Some? then Some([x] + DecodeBody(t).value) else None
  {
    var tail := " " + t;
    var b := x + BreakTag + tail;
    assert x + BreakTag + " " + t == b;
    FirstTagAfter(x, tail);
    assert b[..|x|] == x;
    assert b[|x| + |BreakTag|..] == tail;
    assert tail[1..] == t;
  }

  /** Sentences free of `<` are recovered, in order, from the body. */
  lemma {:induction false} BodyRoundTrip(xs: seq<string>)
    requires forall i :: 0 <= i < |xs| ==> '<' !in xs[i]
    ensures DecodeBody(SsmlBody(xs)) == Some(xs)
  {
    if |xs| == 1 {
      DecodeLast(xs[0]);
      assert xs == [xs[0]];
    } else if |xs| > 1 {
      BodyRoundTrip(xs[1..]);
      DecodeCons(xs[0], SsmlBody(xs[1..]));
      assert [xs[0]] + xs[1..] == xs;
    }
  }

  /** Every character of a piece of a split occurs in the text split. */
  lemma {:induction false} PieceCharsInText(pieces: seq<string>, seps: seq<string>, i: nat, c: char)
    requires |pieces| == |seps| + 1
    requires i < |pieces| && c in pieces[i]
    ensures c in Interleave(pieces, seps)
  {
    var k :| 0 <= k < |pieces[i]| && pieces[i][k] == c;
    if i == 0 {
      if |seps| > 0 {
        assert Interleave(pieces, seps)[k] == c;
      }
    } else {
      PieceCharsInText(pieces[1..], seps[1..], i - 1, c);
      var t := Interleave(pieces[1..], seps[1..]);
      var k' :| 0 <= k' < |t| && t[k'] == c;
      assert Interleave(pieces, seps)[|pieces[0]| + |seps[0]| + k'] == c;
    }
  }

  lemma {:induction false} NoAngleInSentences(text: string)
    requires '<' !in text
    ensures forall i :: 0 <= i < |Sentences(text)| ==> '<' !in Sentences(text)[i]
  {
    var parts := SplitParts(SentenceGap, text);
    var kept := NonEmpty(parts.pieces);
    forall i | 0 <= i < |kept|
      ensures '<' !in kept[i]
    {
      NonEmptyFrom(parts.pieces, i);
      var j :| 0 <= j < |parts.pieces| && parts.pieces[j] == kept[i];
      if '<' in kept[i] {
        PieceCharsInText(parts.pieces, parts.seps, j, '<');
      }
    }
    forall i | 0 <= i < |kept|
      ensures '<' !in Trim(kept[i])
    {
    }
  }

  lemma {:induction false} NonEmptyFrom(xs: seq<string>, i: nat)
    requires i < |NonEmpty(xs)|
    ensures exists j :: 0 <= j < |xs| && xs[j] == NonEmpty(xs)[i]
  {
    if xs[0] == [] {
      NonEmptyFrom(xs[1..], i);
      var j :| 0 <= j < |xs[1..]| && xs[1..][j] == NonEmpty(xs[1..])[i];
      assert xs[j + 1] == NonEmpty(xs)[i];
    } else if i > 0 {
      NonEmptyFrom(xs[1..], i - 1);
      var j :| 0 <= j < |xs[1..]| && xs[1..][j] == NonEmpty(xs[1..])[i - 1];
      assert xs[j + 1] == NonEmpty(xs)[i];
    }
  }

  /** Stripping the wrapper and the break tags from the markup of a
      narration without `<` gives back its trimmed sentences, in order: the
      text is embedded verbatim and there is one break per sentence. */
  lemma {:induction false} SsmlRoundTrip(text: string)
    requires '<' !in text
    ensures DecodeSsml(ConvertToSsml(text)) == Some(Sentences(text))
  {
    NoAngleInSentences(text);
    BodyRoundTrip(Sentences(text));
    var r := ConvertToSsml(text);
    assert r[|SpeakOpen|..|r| - |SpeakClose|] == SsmlBody(Sentences(text));
  }

  /** Only the empty narration gives an empty `<speak></speak>`. */
  lemma {:induction false} SsmlEmptyIff(text: string)
    ensures ConvertToSsml(text) == SpeakOpen + SpeakClose <==> text == []
  {
    var parts := SplitParts(SentenceGap, text);
    if text == [] {
      assert parts.pieces == [[]] by {
        assert |parts.seps| == 0;
      }
      assert NonEmpty(parts.pieces) == [];
    } else {
      SentenceSplitPoints(text);
      assert parts.pieces[0] != [] by {
        if |parts.seps| > 0 {
          assert GapAfter(parts.pieces, 0);
        }
      }
      assert NonEmpty(parts.pieces) != [];
      assert |ConvertToSsml(text)| > |SpeakOpen + SpeakClose|;
    }
  }

  /** A narration of white space alone (no sentence end to split at) still
      yields one break. */
  lemma {:induction false} BlankNarrationKeepsBreak(text: string)
    requires text != [] && AllSpace(text)
    ensures ConvertToSsml(text) == SpeakOpen + BreakTag + SpeakClose
  {
    BlankSentences(text);
    assert SsmlBody([[]]) == BreakTag;
  }

  /** White space alone is one (empty) sentence. */
  lemma {:induction false} BlankSentences(text: string)
    requires text != [] && AllSpace(text)
    ensures Sentences(text) == [[]]
  {
    BlankHasNoGap(text);
    SplitWholeIff(SentenceGap, text);
    assert NonEmpty([text]) == [text];
    assert Trim(text) == [];
  }

  lemma {:induction false} BlankHasNoGap(text: string)
    requires AllSpace(text)
    ensures NoMatchIn(SentenceGap, text)
  {
    forall j | 0 <= j < |text|
      ensures MatchAt(SentenceGap, text, j).None?
    {
      if j > 0 { SpaceIsNotSentenceEnd(text[j - 1]); }
    }
  }

  lemma {:induction false} SpaceIsNotSentenceEnd(c: char)
    requires IsJsSpace(c)
    ensures !IsSentenceEnd(c)
  {
  }
}
