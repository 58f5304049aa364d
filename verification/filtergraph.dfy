/**
  The `-filter_complex` graph of the multi-image path of
  backend/createVideoFromScenes.js as a typed node list: one scale node per
  image turns input stream `[i:v]` into `[fv i]`, and a chain of `k - 1`
  cross-fades joins them, each fading the previous output into the next
  scaled image, the last one producing `[vout]`. A serialiser gives the
  filter text; the rendering of a number is a parameter `fmt`.
*/
module FilterGraph {
  import opened JsText
  import opened Timing

  datatype Label =
    | Stream(i: nat)  // [i:v], the i-th input file's video
    | Fv(i: nat)      // [fv i], the i-th image scaled
    | X(i: nat)       // [x i], the output of the i-th cross-fade
    | VOut            // [vout], the scene's visual track

  datatype Node =
    | Scale(input: Label, output: Label)
    | Xfade(first: Label, second: Label, offset: real, output: Label)

  /** The labels a node reads. */
  function Inputs(n: Node): seq<Label> {
    match n
    case Scale(a, _) => [a]
    case Xfade(a, b, _, _) => [a, b]
  }

  predicate Consumes(n: Node, l: Label) {
    l in Inputs(n)
  }

  /** The `i`-th cross-fade of `k` images (`1 <= i < k`): it reads the
      previous output (`[fv0]` for the first) and `[fv i]`, and writes
      `[x i]`, or `[vout]` when it is the last. */
  function Crossfade(k: nat, i: nat, offset: real): Node
    requires 1 <= i < k
  {
    Xfade(PrevLabel(k, i), Fv(i), offset, PrevLabel(k, i + 1))
  }

  /** The graph for `k` images: `k` scale nodes, then `k - 1` cross-fades
      at the given offsets. */
  function BuildGraph(k: nat, offsets: seq<real>): (g: seq<Node>)
    requires k >= 1 && |offsets| == k - 1
    ensures |g| == 2 * k - 1
  {
    seq(2 * k - 1, j requires 0 <= j < 2 * k - 1 =>
      if j < k then Scale(Stream(j), Fv(j)) else Crossfade(k, j - k + 1, offsets[j - k]))
  }

  /** No label is written by two nodes. */
  ghost predicate UniqueProducers(g: seq<Node>) {
    forall j1, j2 :: 0 <= j1 < j2 < |g| ==> g[j1].output != g[j2].output
  }

  /** No label is read twice, by two nodes or by one. */
  ghost predicate UniqueConsumers(g: seq<Node>) {
    && (forall j1, j2, l :: 0 <= j1 < j2 < |g| && Consumes(g[j1], l) ==> !Consumes(g[j2], l))
    && (forall j :: 0 <= j < |g| && g[j].Xfade? ==> g[j].first != g[j].second)
  }

  /** The outputs of the nodes, in order. */
  function Outputs(g: seq<Node>): (r: seq<Label>)
    ensures |r| == |g|
    ensures forall j :: 0 <= j < |g| ==> r[j] == g[j].output
  {
    seq(|g|, j requires 0 <= j < |g| => g[j].output)
  }

  /** Every label a node reads, other than an input stream, was written by
      an earlier node. */
  ghost predicate DefinedBeforeUse(g: seq<Node>) {
    forall j, l :: 0 <= j < |g| && Consumes(g[j], l) && !l.Stream? ==> l in Outputs(g[..j])
  }

  /** Every label a node writes, other than `[vout]`, is read by a later
      node; `[vout]` is written by the last node and read by none. */
  ghost predicate AllConsumed(g: seq<Node>) {
    && (forall j :: 0 <= j < |g| && g[j].output != VOut ==> exists j' :: j < j' < |g| && Consumes(g[j'], g[j].output))
    && |g| > 0 && g[|g| - 1].output == VOut
    && (forall j :: 0 <= j < |g| ==> !Consumes(g[j], VOut))
  }

  /** Each intermediate label is produced once and consumed once, and the
      chain ends in `[vout]`. */
  ghost predicate WellWired(g: seq<Node>) {
    UniqueProducers(g) && UniqueConsumers(g) && DefinedBeforeUse(g) && AllConsumed(g)
  }

  /** Where the graph of `k` images reads a label: stream `i` in scale
      node `i`, `[fv0]` and `[fv1]` in the first cross-fade, `[fv i]` and
      `[x i-1]` in the `i`-th. */
  function ConsumerIndex(k: nat, l: Label): int {
    match l
    case Stream(i) => i
    case Fv(i) => if i == 0 then k else k + i - 1
    case X(i) => k + i
    case VOut => -1
  }

  lemma {:induction false} ConsumedOnlyAt(k: nat, offsets: seq<real>, j: nat, l: Label)
    requires k >= 2 && |offsets| == k - 1
    requires j < 2 * k - 1 && Consumes(BuildGraph(k, offsets)[j], l)
    ensures j == ConsumerIndex(k, l)
    ensures l.Fv? ==> l.i < k
    ensures l.X? ==> 1 <= l.i < k - 1
  {
    var g := BuildGraph(k, offsets);
    if j >= k {
      assert g[k + (j - k + 1) - 1] == Crossfade(k, j - k + 1, offsets[j - k]);
    }
  }

  /** Node `j` is a scale node writing `[fv j]` for `j < k`, and otherwise
      the `(j - k + 1)`-th cross-fade at offset `offsets[j - k]`, writing
      `[x i]`, or `[vout]` when it is the last. */
  lemma {:induction false} GraphShape(k: nat, offsets: seq<real>, j: nat)
    requires k >= 2 && |offsets| == k - 1 && j < 2 * k - 1
    ensures var g := BuildGraph(k, offsets);
      && g[j] == (if j < k then Scale(Stream(j), Fv(j)) else Crossfade(k, j - k + 1, offsets[j - k]))
      && (g[j].Scale? <==> j < k)
      && g[j].output == (if j < k then Fv(j) else if j == 2 * k - 2 then VOut else X(j - k + 1))
      && (g[j].Xfade? ==> g[j].first != g[j].second)
  {
  }

  lemma {:induction false} GraphDefinedBeforeUse(k: nat, offsets: seq<real>)
    requires k >= 2 && |offsets| == k - 1
    ensures DefinedBeforeUse(BuildGraph(k, offsets))
  {
    var g := BuildGraph(k, offsets);
    forall j, l | 0 <= j < |g| && Consumes(g[j], l) && !l.Stream?
      ensures l in Outputs(g[..j])
    {
      ConsumedOnlyAt(k, offsets, j, l);
      var o := Outputs(g[..j]);
      if l.Fv? {
        GraphShape(k, offsets, l.i);
        assert o[l.i] == l;
      } else {
        GraphShape(k, offsets, j - 1);
        assert o[j - 1] == l;
      }
    }
  }

  /** The node that reads what node `j` writes, when that is not `[vout]`. */
  lemma {:induction false} NextConsumer(k: nat, offsets: seq<real>, j: nat) returns (j': nat)
    requires k >= 2 && |offsets| == k - 1 && j < 2 * k - 1
    requires BuildGraph(k, offsets)[j].output != VOut
    ensures j < j' < 2 * k - 1 && Consumes(BuildGraph(k, offsets)[j'], BuildGraph(k, offsets)[j].output)
  {
    var g := BuildGraph(k, offsets);
    GraphShape(k, offsets, j);
    j' := if j == 0 then k else if j < k then k + j - 1 else j + 1;
    var i := j' - k + 1;
    assert g[j'] == Crossfade(k, i, offsets[j' - k]);
    assert g[j'].second == Fv(i);
  }

  /** Every label but `[vout]` is read by a later node. */
  lemma {:induction false} GraphOutputsRead(k: nat, offsets: seq<real>)
    requires k >= 2 && |offsets| == k - 1
    ensures var g := BuildGraph(k, offsets);
      forall j :: 0 <= j < |g| && g[j].output != VOut ==> exists j' :: j < j' < |g| && Consumes(g[j'], g[j].output)
  {
    var g := BuildGraph(k, offsets);
    forall j | 0 <= j < |g| && g[j].output != VOut
      ensures exists j' :: j < j' < |g| && Consumes(g[j'], g[j].output)
    {
      var j' := NextConsumer(k, offsets, j);
    }
  }

  /** No node reads `[vout]`. */
  lemma {:induction false} GraphVOutUnread(k: nat, offsets: seq<real>)
    requires k >= 2 && |offsets| == k - 1
    ensures var g := BuildGraph(k, offsets);
      forall j :: 0 <= j < |g| ==> !Consumes(g[j], VOut)
  {
    var g := BuildGraph(k, offsets);
    forall j | 0 <= j < |g|
      ensures !Consumes(g[j], VOut)
    {
      if Consumes(g[j], VOut) {
        ConsumedOnlyAt(k, offsets, j, VOut);
      }
    }
  }

  lemma {:induction false} GraphAllConsumed(k: nat, offsets: seq<real>)
    requires k >= 2 && |offsets| == k - 1
    ensures AllConsumed(BuildGraph(k, offsets))
  {
    GraphShape(k, offsets, 2 * k - 2);
    GraphOutputsRead(k, offsets);
    GraphVOutUnread(k, offsets);
  }

  lemma {:induction false} GraphUniqueConsumers(k: nat, offsets: seq<real>)
    requires k >= 2 && |offsets| == k - 1
    ensures UniqueConsumers(BuildGraph(k, offsets))
  {
    var g := BuildGraph(k, offsets);
    forall j1, j2, l | 0 <= j1 < j2 < |g| && Consumes(g[j1], l)
      ensures !Consumes(g[j2], l)
    {
      ConsumedOnlyAt(k, offsets, j1, l);
      if Consumes(g[j2], l) {
        ConsumedOnlyAt(k, offsets, j2, l);
      }
    }
    forall j | 0 <= j < |g| && g[j].Xfade?
      ensures g[j].first != g[j].second
    {
      GraphShape(k, offsets, j);
    }
  }

  lemma {:induction false} GraphUniqueProducers(k: nat, offsets: seq<real>)
    requires k >= 2 && |offsets| == k - 1
    ensures UniqueProducers(BuildGraph(k, offsets))
  {
    var g := BuildGraph(k, offsets);
    forall j1, j2 | 0 <= j1 < j2 < |g|
      ensures g[j1].output != g[j2].output
    {
      GraphShape(k, offsets, j1);
      GraphShape(k, offsets, j2);
    }
  }

  /** The graph has `k` scale nodes followed by `k - 1` cross-fades, every
      label is written once and read once, and only the last cross-fade
      emits `[vout]`. */
  lemma {:induction false} GraphWellWired(k: nat, offsets: seq<real>)
    requires k >= 2 && |offsets| == k - 1
    ensures var g := BuildGraph(k, offsets);
      && (forall j :: 0 <= j < |g| ==> (g[j].Scale? <==> j < k))
      && WellWired(g)
  {
    forall j | 0 <= j < 2 * k - 1 {
      GraphShape(k, offsets, j);
    }
    GraphDefinedBeforeUse(k, offsets);
    GraphAllConsumed(k, offsets);
    GraphUniqueConsumers(k, offsets);
    GraphUniqueProducers(k, offsets);
  }

  // ---------------------------------------------------------------------
  // The filter text.

  function StreamText(i: nat): string { "[" + NatToString(i) + ":v]" }
  function FvText(i: nat): string { "[fv" + NatToString(i) + "]" }
  function XText(i: nat): string { "[x" + NatToString(i) + "]" }
  const VOutText: string := "[vout]"

  function LabelText(l: Label): string {
    match l
    case Stream(i) => StreamText(i)
    case Fv(i) => FvText(i)
    case X(i) => XText(i)
    case VOut => VOutText
  }

  const ScaleFilter: string := "scale=1280:720,format=yuv420p"
  const XfadeFilter: string := "xfade=duration=1:offset="

  /** `${a}${b}xfade=duration=1:offset=${start}${out}`. */
  function XfadeEntry(a: string, b: string, start: string, out: string): string {
    a + b + XfadeFilter + start + out
  }

  function NodeText(n: Node, fmt: real -> string): string {
    match n
    case Scale(a, b) => LabelText(a) + ScaleFilter + LabelText(b)
    case Xfade(a, b, off, o) => XfadeEntry(LabelText(a), LabelText(b), fmt(off), LabelText(o))
  }

  function NodeTexts(g: seq<Node>, fmt: real -> string): (r: seq<string>)
    ensures |r| == |g|
  {
    seq(|g|, j requires 0 <= j < |g| => NodeText(g[j], fmt))
  }

  /** The filter text: the nodes' texts joined with `;`. */
  function Serialize(g: seq<Node>, fmt: real -> string): string {
    Join(NodeTexts(g, fmt), ";")
  }

  /** The filter text the way the source builds it: the scale filters
      joined with `;`, then for every later image `;`, the previous label,
      `[fv i]`, the xfade filter with `Math.max(offset - 1, 0)`, and the new
      label, `offset` growing by each segment. */
  function FilterAsBuilt(segs: seq<real>, fmt: real -> string): string
    requires |segs| >= 2
  {
    XfadeLoop(segs, fmt, Join(ScaleTexts(|segs|), ";"), 1, "[fv0]", segs[0])
  }

  /** The source's `picked.map(...)` of scale filters, one per image. */
  function ScaleTexts(k: nat): (r: seq<string>)
    ensures |r| == k
  {
    seq(k, i requires 0 <= i < k => StreamText(i) + ScaleFilter + FvText(i))
  }

  /** One turn of the xfade loop per remaining image `i`. */
  function XfadeLoop(segs: seq<real>, fmt: real -> string, filter: string, i: nat, prev: string, offset: real): string
    requires 1 <= i <= |segs|
    decreases |segs| - i
  {
    if i == |segs| then filter
    else
      var cur := FvText(i);
      var out := if i == |segs| - 1 then VOutText else XText(i);
      var start := Max(offset - FadeDuration, 0.0);
      XfadeLoop(segs, fmt, filter + ";" + XfadeEntry(prev, cur, fmt(start), out), i + 1, out, offset + segs[i])
  }

  /** The label the loop holds as `prev` before turn `i` of `k - 1` (after
      the last turn, `[vout]`). */
  function PrevLabel(k: nat, i: nat): Label
    requires i >= 1
  {
    if i == 1 then Fv(0) else if i == k then VOut else X(i - 1)
  }

  /** The text one turn `i` of the loop appends after `;`. */
  function StepText(segs: seq<real>, fmt: real -> string, i: nat): string
    requires 1 <= i < |segs|
  {
    XfadeEntry(LabelText(PrevLabel(|segs|, i)), FvText(i), fmt(Offsets(segs)[i - 1]),
               LabelText(PrevLabel(|segs|, i + 1)))
  }

  /** The text of node `j`, the `(j - k + 1)`-th cross-fade, is what that
      turn of the loop appends. */
  lemma {:induction false} XfadeText(segs: seq<real>, fmt: real -> string, j: nat)
    requires |segs| >= 2 && |segs| <= j < 2 * |segs| - 1
    ensures NodeText(BuildGraph(|segs|, Offsets(segs))[j], fmt) == StepText(segs, fmt, j - |segs| + 1)
  {
    var k := |segs|;
    var g := BuildGraph(k, Offsets(segs));
    assert g[j] == Crossfade(k, j - k + 1, Offsets(segs)[j - k]);
  }

  lemma {:induction false} SumSnoc(segs: seq<real>, i: nat)
    requires i < |segs|
    ensures Sum(segs[..i + 1]) == Sum(segs[..i]) + segs[i]
  {
    assert segs[..i + 1][..i] == segs[..i];
  }

  /** One turn of the loop, in terms of `StepText`. */
  lemma {:induction false} XfadeLoopUnfold(segs: seq<real>, fmt: real -> string, filter: string, i: nat)
    requires 1 <= i < |segs|
    ensures XfadeLoop(segs, fmt, filter, i, LabelText(PrevLabel(|segs|, i)), Sum(segs[..i]))
         == XfadeLoop(segs, fmt, filter + ";" + StepText(segs, fmt, i), i + 1,
                      LabelText(PrevLabel(|segs|, i + 1)), Sum(segs[..i + 1]))
  {
    var k := |segs|;
    var prev := LabelText(PrevLabel(k, i));
    var out := if i == k - 1 then VOutText else XText(i);
    var start := Max(Sum(segs[..i]) - FadeDuration, 0.0);
    assert out == LabelText(PrevLabel(k, i + 1));
    OffsetAt(segs, i - 1);
    assert StepText(segs, fmt, i) == XfadeEntry(prev, FvText(i), fmt(start), out);
    SumSnoc(segs, i);
    assert XfadeLoop(segs, fmt, filter, i, prev, Sum(segs[..i]))
        == XfadeLoop(segs, fmt, filter + ";" + XfadeEntry(prev, FvText(i), fmt(start), out), i + 1, out, Sum(segs[..i]) + segs[i]);
  }

  lemma {:induction false} OffsetAt(segs: seq<real>, t: nat)
    requires t < |segs| - 1
    ensures Offsets(segs)[t] == Max(Sum(segs[..t + 1]) - FadeDuration, 0.0)
  {
    OffsetsClosedForm(segs);
  }

  /** `filter += ";" + x` for every `x` of `xs` in turn. */
  function AppendAll(filter: string, xs: seq<string>): string
    decreases |xs|
  {
    if xs == [] then filter else AppendAll(filter + ";" + xs[0], xs[1..])
  }

  lemma {:induction false} AppendAllJoin(xs: seq<string>, ys: seq<string>)
    requires |xs| >= 1
    ensures AppendAll(Join(xs, ";"), ys) == Join(xs + ys, ";")
    decreases |ys|
  {
    if ys == [] {
      assert xs + ys == xs;
    } else {
      JoinSnoc(xs, ys[0], ";");
      AppendAllJoin(xs + [ys[0]], ys[1..]);
      assert (xs + [ys[0]]) + ys[1..] == xs + ys;
    }
  }

  lemma {:induction false} AppendAllCons(filter: string, xs: seq<string>)
    requires xs != []
    ensures AppendAll(filter, xs) == AppendAll(filter + ";" + xs[0], xs[1..])
  {
  }

  lemma SplitAt<T>(s: seq<T>, n: nat)
    requires n <= |s|
    ensures s == s[..n] + s[n..]
  {
  }

  /** `[f(i), f(i + 1), ..., f(n - 1)]`. */
  function Tabulate<T>(f: nat -> T, i: nat, n: nat): (r: seq<T>)
    requires i <= n
    ensures |r| == n - i
    decreases n - i
  {
    if i == n then [] else [f(i)] + Tabulate(f, i + 1, n)
  }

  lemma {:induction false} TabulateAt<T>(f: nat -> T, i: nat, n: nat, t: nat)
    requires i + t < n
    ensures Tabulate(f, i, n)[t] == f(i + t)
    decreases t
  {
    if t > 0 {
      TabulateAt(f, i + 1, n, t - 1);
    }
  }

  /** The text turn `j` of the loop appends. */
  function StepFn(segs: seq<real>, fmt: real -> string): nat -> string {
    j => if 1 <= j < |segs| then StepText(segs, fmt, j) else ""
  }

  /** The loop from turn `i` on appends the texts of turns `i`, ...,
      `k - 1`. */
  lemma {:induction false} XfadeLoopSteps(segs: seq<real>, fmt: real -> string, filter: string, i: nat)
    requires 1 <= i <= |segs|
    ensures XfadeLoop(segs, fmt, filter, i, LabelText(PrevLabel(|segs|, i)), Sum(segs[..i]))
         == AppendAll(filter, Tabulate(StepFn(segs, fmt), i, |segs|))
    decreases |segs| - i
  {
    var k := |segs|;
    var f := StepFn(segs, fmt);
    if i < k {
      var step := StepText(segs, fmt, i);
      var xs := Tabulate(f, i, k);
      assert xs == [step] + Tabulate(f, i + 1, k);
      ConsTail([step], Tabulate(f, i + 1, k));
      calc {
        XfadeLoop(segs, fmt, filter, i, LabelText(PrevLabel(k, i)), Sum(segs[..i]));
        { XfadeLoopUnfold(segs, fmt, filter, i); }
        XfadeLoop(segs, fmt, filter + ";" + step, i + 1, LabelText(PrevLabel(k, i + 1)), Sum(segs[..i + 1]));
        { XfadeLoopSteps(segs, fmt, filter + ";" + step, i + 1); }
        AppendAll(filter + ";" + step, Tabulate(f, i + 1, k));
        { AppendAllCons(filter, xs); }
        AppendAll(filter, xs);
      }
    }
  }

  lemma ConsTail<T>(a: seq<T>, b: seq<T>)
    requires |a| == 1
    ensures (a + b)[0] == a[0] && (a + b)[1..] == b
  {
  }

  /** A slice whose elements are `f(i)`, `f(i + 1)`, ... is `Tabulate`. */
  lemma {:induction false} SliceIsTabulate<T>(s: seq<T>, f: nat -> T, a: nat, i: nat, n: nat)
    requires a <= |s| && i <= n && |s| - a == n - i
    requires forall j :: a <= j < |s| ==> s[j] == f(j - a + i)
    ensures s[a..] == Tabulate(f, i, n)
  {
    forall t | 0 <= t < n - i
      ensures s[a..][t] == Tabulate(f, i, n)[t]
    {
      assert s[a..][t] == s[a + t];
      TabulateAt(f, i, n, t);
    }
  }

  /** The cross-fade nodes' texts are the texts of the loop's turns. */
  lemma {:induction false} CrossfadeTexts(segs: seq<real>, fmt: real -> string)
    requires |segs| >= 2
    ensures NodeTexts(BuildGraph(|segs|, Offsets(segs)), fmt)[|segs|..] == Tabulate(StepFn(segs, fmt), 1, |segs|)
  {
    var texts := NodeTexts(BuildGraph(|segs|, Offsets(segs)), fmt);
    CrossfadeTextsAll(segs, fmt);
    SliceIsTabulate(texts, StepFn(segs, fmt), |segs|, 1, |segs|);
  }

  lemma {:induction false} CrossfadeTextsAll(segs: seq<real>, fmt: real -> string)
    requires |segs| >= 2
    ensures var texts := NodeTexts(BuildGraph(|segs|, Offsets(segs)), fmt);
      forall j :: |segs| <= j < |texts| ==> texts[j] == StepFn(segs, fmt)(j - |segs| + 1)
  {
    forall j | |segs| <= j < 2 * |segs| - 1
      ensures NodeTexts(BuildGraph(|segs|, Offsets(segs)), fmt)[j] == StepFn(segs, fmt)(j - |segs| + 1)
    {
      CrossfadeTextAt(segs, fmt, j);
    }
  }

  lemma {:induction false} CrossfadeTextAt(segs: seq<real>, fmt: real -> string, j: nat)
    requires |segs| >= 2 && |segs| <= j < 2 * |segs| - 1
    ensures NodeTexts(BuildGraph(|segs|, Offsets(segs)), fmt)[j] == StepFn(segs, fmt)(j - |segs| + 1)
  {
    var g := BuildGraph(|segs|, Offsets(segs));
    var i := j - |segs| + 1;
    assert NodeTexts(g, fmt)[j] == NodeText(g[j], fmt);
    XfadeText(segs, fmt, j);
    StepFnAt(segs, fmt, i);
  }

  lemma {:induction false} StepFnAt(segs: seq<real>, fmt: real -> string, i: nat)
    requires 1 <= i < |segs|
    ensures StepFn(segs, fmt)(i) == StepText(segs, fmt, i)
  {
  }

  /** The scale nodes' texts are the source's scale filters. */
  lemma {:induction false} ScalePrefix(segs: seq<real>, fmt: real -> string)
    requires |segs| >= 2
    ensures NodeTexts(BuildGraph(|segs|, Offsets(segs)), fmt)[..|segs|] == ScaleTexts(|segs|)
  {
    var k := |segs|;
    var g := BuildGraph(k, Offsets(segs));
    var texts := NodeTexts(g, fmt);
    forall i | 0 <= i < k
      ensures texts[i] == ScaleTexts(k)[i]
    {
      assert g[i] == Scale(Stream(i), Fv(i));
    }
  }

  /** The source's loop appends the cross-fade nodes' texts to the joined
      scale filters. */
  lemma {:induction false} FilterAsBuiltSteps(segs: seq<real>, fmt: real -> string)
    requires |segs| >= 2
    ensures FilterAsBuilt(segs, fmt)
         == AppendAll(Join(ScaleTexts(|segs|), ";"), NodeTexts(BuildGraph(|segs|, Offsets(segs)), fmt)[|segs|..])
  {
    var scales := Join(ScaleTexts(|segs|), ";");
    assert Sum(segs[..1]) == segs[0] by { assert segs[..1][..0] == []; }
    assert LabelText(PrevLabel(|segs|, 1)) == "[fv0]" by { assert NatToString(0) == "0"; }
    XfadeLoopSteps(segs, fmt, scales, 1);
    CrossfadeTexts(segs, fmt);
  }

  /** The typed graph serialises to exactly the text the source builds. */
  lemma {:induction false} SerializeMatchesSource(segs: seq<real>, fmt: real -> string)
    requires |segs| >= 2
    ensures Serialize(BuildGraph(|segs|, Offsets(segs)), fmt) == FilterAsBuilt(segs, fmt)
  {
    var texts := NodeTexts(BuildGraph(|segs|, Offsets(segs)), fmt);
    SplitAt(texts, |segs|);
    ScalePrefix(segs, fmt);
    FilterAsBuiltSteps(segs, fmt);
    AppendAllJoin(ScaleTexts(|segs|), texts[|segs|..]);
  }
}
