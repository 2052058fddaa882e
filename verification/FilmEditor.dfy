/**
 Film assembly with transitions: media/film_editor.py. Times are whole microseconds, so the source's
 round(x, 3) on seconds is RoundMs.
 */
module FilmEditor {
  import opened Prelude

  datatype Transition = Cut | Dissolve | FadeBlack | Unknown(name: string)
  datatype EditPlan = EditPlan(transition: Transition, transitionUs: int, fadeInUs: int, fadeOutUs: int,
                               muteAudio: bool)

  const MAX_TRANSITION_US := 2_000_000

  datatype EditError =
    UnsupportedTransition | NoClips | NegativeTime | TransitionOutOfRange | TransitionTooLong | FadesTooLong
    | LengthMismatch

  /** To the nearest millisecond, ties to the even one: 500 goes down, 1500 up, every two milliseconds. */
  function RoundMs(us: int): (ms: int)
    ensures us - 500 <= ms <= us + 500
  {
    var over := us % 2000;
    us - over + if over <= 500 then 0 else if over < 1500 then 1000 else 2000
  }

  /** A whole number of milliseconds. */
  predicate Whole(us: int) {
    RoundMs(us) == us
  }

  lemma Remainder(us: int, k: int, rest: int)
    requires us == 1000 * k + rest && 0 <= rest < 1000
    ensures us % 1000 == rest
  {
  }

  lemma WholeMeansMultiple(us: int)
    ensures Whole(us) <==> us % 1000 == 0
    ensures Whole(RoundMs(us))
  {
    var q, over := us / 2000, us % 2000;
    assert us == 2000 * q + over;
    if over < 1000 { Remainder(us, 2 * q, over); } else { Remainder(us, 2 * q + 1, over - 1000); }
    RoundedIsWhole(us, q, over);
  }

  lemma RoundedIsWhole(us: int, q: int, over: int)
    requires us == 2000 * q + over && 0 <= over < 2000
    ensures Whole(RoundMs(us))
  {
    assert us % 2000 == over;
    assert (2000 * q) % 2000 == 0 && (2000 * q + 1000) % 2000 == 1000 && (2000 * q + 2000) % 2000 == 0;
  }

  /** Half a millisecond goes to the even one of its two neighbours, everything else to the nearer. */
  lemma TiesGoToEven(ms: int, rest: int)
    requires 0 <= rest < 1000
    ensures RoundMs(1000 * ms + rest) ==
            if rest < 500 || (rest == 500 && ms % 2 == 0) then 1000 * ms else 1000 * ms + 1000
  {
    var k, odd := ms / 2, ms % 2;
    assert 1000 * ms + rest == 2000 * k + (1000 * odd + rest);
    TwoThousands(1000 * ms + rest, k, 1000 * odd + rest);
  }

  lemma TwoThousands(us: int, k: int, rest: int)
    requires us == 2000 * k + rest && 0 <= rest < 2000
    ensures us % 2000 == rest
  {
  }

  lemma MultiplesAdd(a: int, b: int, c: int)
    requires a % 1000 == 0 && b % 1000 == 0 && c % 1000 == 0
    ensures (a + b - c) % 1000 == 0
  {
    var i, j, k := a / 1000, b / 1000, c / 1000;
    assert a + b - c == 1000 * (i + j - k);
    Remainder(a + b - c, i + j - k, 0);
  }

  lemma WholeSums(a: int, b: int, c: int)
    requires Whole(a) && Whole(b) && Whole(c)
    ensures Whole(a + b - c)
  {
    WholeMeansMultiple(a);
    WholeMeansMultiple(b);
    WholeMeansMultiple(c);
    MultiplesAdd(a, b, c);
    WholeMeansMultiple(a + b - c);
  }

  function Shortest(ds: seq<int>): (m: int)
    requires ds != []
    ensures m in ds && forall d :: d in ds ==> m <= d
  {
    var last := ds[|ds| - 1];
    if |ds| == 1 then last
    else
      assert ds == ds[..|ds| - 1] + [last];
      var m := Shortest(ds[..|ds| - 1]); if last < m then last else m
  }

  /** Each transition overlaps two clips, so every one shortens the film. */
  function OverlappedLength(plan: EditPlan, ds: seq<int>): int {
    Sum(ds) - if plan.transition != Cut && |ds| > 1 then plan.transitionUs * (|ds| - 1) else 0
  }

  function FilmDuration(plan: EditPlan, ds: seq<int>): int {
    RoundMs(OverlappedLength(plan, ds))
  }

  function ValidatePlan(plan: EditPlan, ds: seq<int>): Option<EditError> {
    if plan.transition.Unknown? then Some(UnsupportedTransition)
    else if ds == [] then Some(NoClips)
    else if plan.transitionUs < 0 || plan.fadeInUs < 0 || plan.fadeOutUs < 0 then Some(NegativeTime)
    else if plan.transition != Cut && !(0 < plan.transitionUs <= MAX_TRANSITION_US) then Some(TransitionOutOfRange)
    else if plan.transition != Cut && plan.transitionUs >= Shortest(ds) then Some(TransitionTooLong)
    else if plan.fadeInUs + plan.fadeOutUs > FilmDuration(plan, ds) then Some(FadesTooLong)
    else None
  }

  /** A plan passes exactly when every transition fits its two clips and the two fades fit the film together. */
  lemma ValidatedExactlyWhen(plan: EditPlan, ds: seq<int>)
    ensures ValidatePlan(plan, ds).None? <==>
              && plan.transition in {Cut, Dissolve, FadeBlack} && ds != []
              && plan.transitionUs >= 0 && plan.fadeInUs >= 0 && plan.fadeOutUs >= 0
              && (plan.transition != Cut ==>
                    0 < plan.transitionUs <= 2_000_000 && forall d :: d in ds ==> plan.transitionUs < d)
              && plan.fadeInUs + plan.fadeOutUs <= FilmDuration(plan, ds)
    ensures ValidatePlan(plan, ds) == Some(TransitionTooLong) ==>
              plan.transition != Cut && exists d :: d in ds && d <= plan.transitionUs
    ensures ValidatePlan(plan, ds) == Some(FadesTooLong) ==>
              plan.fadeInUs + plan.fadeOutUs > FilmDuration(plan, ds)
  {
  }

  // ---- the emitted filter graph ------------------------------------------------------------------------

  datatype Label = ClipVideo(clip: nat) | ClipAudio(clip: nat) | V(n: nat) | A(n: nat) | VOut

  datatype Fade = FadeIn(duration: int) | FadeOut(start: int, duration: int)

  datatype Part =
    | XFade(left: Label, right: Label, kind: string, duration: int, offset: int, out: Label)
    | ACrossFade(left: Label, right: Label, duration: int, out: Label)
    | Fades(source: Label, filters: seq<Fade>, out: Label)

  function XFadeName(t: Transition): Option<string> {
    match t
    case Dissolve => Some("fade")
    case FadeBlack => Some("fadeblack")
    case _ => None
  }

  function FadeFilters(plan: EditPlan, total: int): seq<Fade> {
    (if plan.fadeInUs > 0 then [FadeIn(plan.fadeInUs)] else []) +
    (if plan.fadeOutUs > 0 then [FadeOut(RoundMs(total - plan.fadeOutUs), plan.fadeOutUs)] else [])
  }

  /** The running length after joining the first n clips; every join but the first entry rounds. */
  function Running(ds: seq<int>, t: int, n: nat): int
    requires 1 <= n <= |ds|
  {
    if n == 1 then ds[0] else RoundMs(Running(ds, t, n - 1) + ds[n - 1] - t)
  }

  function VideoLabel(n: nat): Label { if n <= 1 then ClipVideo(0) else V(n - 1) }
  function AudioLabel(n: nat): Label { if n <= 1 then ClipAudio(0) else A(n - 1) }

  /** The one or two filters that join clip n - 1. */
  function JoinFilters(plan: EditPlan, kind: string, n: nat, offset: int): seq<Part>
    requires n >= 2
  {
    var t := plan.transitionUs;
    var xfade := XFade(VideoLabel(n - 1), ClipVideo(n - 1), kind, t, offset, VideoLabel(n));
    if plan.muteAudio then [xfade]
    else [xfade, ACrossFade(AudioLabel(n - 1), ClipAudio(n - 1), t, AudioLabel(n))]
  }

  /** The joins for the first n clips, left to right. */
  function Joins(plan: EditPlan, kind: string, ds: seq<int>, n: nat): seq<Part>
    requires 1 <= n <= |ds|
  {
    if n == 1 then []
    else
      var t := plan.transitionUs;
      Joins(plan, kind, ds, n - 1) + JoinFilters(plan, kind, n, RoundMs(Running(ds, t, n - 1) - t))
  }

  lemma {:induction false} OneKindThroughout(plan: EditPlan, kind: string, ds: seq<int>, n: nat)
    requires 1 <= n <= |ds|
    ensures forall p :: p in Joins(plan, kind, ds, n) && p.XFade? ==> p.kind == kind
  {
    if n > 1 { OneKindThroughout(plan, kind, ds, n - 1); }
  }

  datatype Graph = Graph(parts: seq<Part>, video: Label, audio: Option<Label>)

  function FilterGraph(plan: EditPlan, kind: string, ds: seq<int>): Graph
    requires ds != []
  {
    var n := |ds|;
    var filters := FadeFilters(plan, Running(ds, plan.transitionUs, n));
    var joins := Joins(plan, kind, ds, n);
    var audio := if plan.muteAudio then None else Some(AudioLabel(n));
    if filters == [] then Graph(joins, VideoLabel(n), audio)
    else Graph(joins + [Fades(VideoLabel(n), filters, VOut)], VOut, audio)
  }

  /** None is the KeyError of a transition that has no xfade name. */
  method BuildFilterComplex(plan: EditPlan, ds: seq<int>) returns (graph: Option<Graph>)
    requires ds != []
    ensures graph == match XFadeName(plan.transition)
                     case None => None
                     case Some(kind) => Some(FilterGraph(plan, kind, ds))
    // Only these two transitions have a name, and every join of the picture goes by it.
    ensures graph.Some? <==> plan.transition in {Dissolve, FadeBlack}
    ensures graph.Some? ==> forall p :: p in graph.value.parts && p.XFade? ==>
              p.kind == if plan.transition == Dissolve then "fade" else "fadeblack"
  {
    var name := XFadeName(plan.transition);
    if name.None? { return None; }
    OneKindThroughout(plan, name.value, ds, |ds|);
    var parts: seq<Part> := [];
    var video, audio := ClipVideo(0), ClipAudio(0);
    var running := ds[0];
    for index := 1 to |ds|
      invariant parts == Joins(plan, name.value, ds, index)
      invariant video == VideoLabel(index) && audio == AudioLabel(index)
      invariant running == Running(ds, plan.transitionUs, index)
    {
      var offset := RoundMs(running - plan.transitionUs);
      parts := parts + [XFade(video, ClipVideo(index), name.value, plan.transitionUs, offset, V(index))];
      if !plan.muteAudio {
        parts := parts + [ACrossFade(audio, ClipAudio(index), plan.transitionUs, A(index))];
      }
      video, audio := V(index), A(index);
      running := RoundMs(running + ds[index] - plan.transitionUs);
    }
    var filters := FadeFilters(plan, running);
    if filters != [] {
      parts := parts + [Fades(video, filters, VOut)];
      video := VOut;
    }
    return Some(Graph(parts, video, if plan.muteAudio then None else Some(audio)));
  }

  /** One invocation: a lone clip only fades; several clips go through the graph. */
  datatype Assembly =
    | SingleClip(filters: seq<Fade>, mute: bool)
    | Transitions(inputs: nat, graph: Graph)
    | Refused(error: EditError)
    | CrashedOnCut

  method EditFilm(plan: EditPlan, clips: nat, ds: seq<int>) returns (film: Assembly)
    ensures ValidatePlan(plan, ds).Some? ==> film == Refused(ValidatePlan(plan, ds).value)
    ensures ValidatePlan(plan, ds).None? && clips != |ds| ==> film == Refused(LengthMismatch)
    ensures ValidatePlan(plan, ds).None? && clips == |ds| ==>
              film == if |ds| == 1 then SingleClip(FadeFilters(plan, ds[0]), plan.muteAudio)
                      else match XFadeName(plan.transition)
                           case None => CrashedOnCut
                           case Some(kind) => Transitions(|ds|, FilterGraph(plan, kind, ds))
    // A plan that passed validation still crashes exactly when it is a cut over two clips or more.
    ensures film == CrashedOnCut <==>
              ValidatePlan(plan, ds).None? && clips == |ds| && plan.transition == Cut && |ds| >= 2
  {
    var error := ValidatePlan(plan, ds);
    if error.Some? { return Refused(error.value); }
    if clips != |ds| { return Refused(LengthMismatch); }
    if clips == 1 { return SingleClip(FadeFilters(plan, ds[0]), plan.muteAudio); }
    var graph := BuildFilterComplex(plan, ds);
    match graph {
      case None => return CrashedOnCut;
      case Some(g) => return Transitions(clips, g);
    }
  }

  /** Whether a plan needs the graph at all; anything else is concatenated without a re-encode. */
  predicate NeedsReencode(plan: EditPlan) {
    plan.transition != Cut || plan.fadeInUs > 0 || plan.fadeOutUs > 0 || plan.muteAudio
  }

  lemma SumOfTwo(a: int, b: int)
    ensures Sum([a, b]) == a + b
  {
    assert [a, b][..1] == [a] && [a][..0] == [];
    assert Sum([a]) == a;
  }

  /** A hard cut that fades in: it passes validation, needs the graph, and crashes building it. */
  method CutThatFadesIn() returns (film: Assembly)
    ensures var plan := EditPlan(Cut, 500_000, 500_000, 0, false);
            NeedsReencode(plan) && ValidatePlan(plan, [4_000_000, 4_000_000]).None?
    ensures film == CrashedOnCut
  {
    var plan, ds := EditPlan(Cut, 500_000, 500_000, 0, false), [4_000_000, 4_000_000];
    SumOfTwo(4_000_000, 4_000_000);
    film := EditFilm(plan, 2, ds);
  }

  // ---- what a graph means --------------------------------------------------------------------------------

  /** What is seen (or heard) at one instant: a clip, a mix of what was there with a clip, or a dimmed picture. */
  datatype Frame =
    | Gap
    | Pure(clip: nat, at: int)
    | Blend(kind: string, under: Frame, over: Frame, step: int)
    | Dim(fade: Fade, step: int, frame: Frame)

  /** The signal on a link of the graph. */
  datatype Signal =
    | Nothing
    | Clip(clip: nat, length: int)
    | Joined(kind: string, left: Signal, right: Signal, duration: int, offset: int)
    | Faded(source: Signal, filters: seq<Fade>)

  function Length(s: Signal): int {
    match s
    case Nothing => 0
    case Clip(_, d) => d
    case Joined(_, _, right, _, offset) => offset + Length(right)
    case Faded(source, _) => Length(source)
  }

  function DimOne(fade: Fade, i: int, f: Frame): Frame {
    match fade
    case FadeIn(d) => if i < d then Dim(fade, i, f) else f
    case FadeOut(start, d) => if i >= start then Dim(fade, i - start, f) else f
  }

  function DimBy(filters: seq<Fade>, i: int, f: Frame): Frame {
    if filters == [] then f else DimOne(filters[|filters| - 1], i, DimBy(filters[..|filters| - 1], i, f))
  }

  /** What a signal carries at instant i: the right side of a join starts at its offset and mixes for `duration`. */
  function At(s: Signal, i: int): Frame {
    match s
    case Nothing => Gap
    case Clip(clip, d) => if 0 <= i < d then Pure(clip, i) else Gap
    case Joined(kind, left, right, t, offset) =>
      if i < offset then At(left, i)
      else if i < offset + t then Blend(kind, At(left, i), At(right, i - offset), i - offset)
      else At(right, i - offset)
    case Faded(source, filters) => DimBy(filters, i, At(source, i))
  }

  function Lookup(env: map<Label, Signal>, l: Label): Signal {
    if l in env then env[l] else Nothing
  }

  /** One filter binds its output label. An acrossfade always joins at the very end of its left input. */
  function EvalPart(env: map<Label, Signal>, p: Part): map<Label, Signal> {
    match p
    case XFade(l, r, kind, t, offset, out) => env[out := Joined(kind, Lookup(env, l), Lookup(env, r), t, offset)]
    case ACrossFade(l, r, t, out) =>
      var left := Lookup(env, l);
      env[out := Joined("acrossfade", left, Lookup(env, r), t, Length(left) - t)]
    case Fades(source, filters, out) => env[out := Faded(Lookup(env, source), filters)]
  }

  function Eval(env: map<Label, Signal>, parts: seq<Part>): map<Label, Signal> {
    if parts == [] then env else EvalPart(Eval(env, parts[..|parts| - 1]), parts[|parts| - 1])
  }

  /** The inputs: every clip's picture and sound, of the clip's length. */
  ghost predicate Inputs(env: map<Label, Signal>, ds: seq<int>) {
    forall i :: 0 <= i < |ds| ==>
      Lookup(env, ClipVideo(i)) == Clip(i, ds[i]) && Lookup(env, ClipAudio(i)) == Clip(i, ds[i])
  }

  // ---- the intended timeline -----------------------------------------------------------------------------

  /** Where clip i belongs: each earlier clip gives up t microseconds to the transition out of it. */
  function StartOf(ds: seq<int>, t: int, i: nat): int
    requires i <= |ds|
  {
    if i == 0 then 0 else StartOf(ds, t, i - 1) + ds[i - 1] - t
  }

  function EndOf(ds: seq<int>, t: int, i: nat): int
    requires i < |ds|
  {
    StartOf(ds, t, i) + ds[i]
  }

  /** Lay the first n clips down one after another, each on [StartOf, EndOf), later ones mixing over earlier. */
  function Placed(kind: string, ds: seq<int>, t: int, n: nat, at: int): Frame
    requires n <= |ds|
  {
    if n == 0 then Gap
    else
      var under := Placed(kind, ds, t, n - 1, at);
      var start := StartOf(ds, t, n - 1);
      if !(start <= at < EndOf(ds, t, n - 1)) then under
      else if under == Gap then Pure(n - 1, at - start)
      else Blend(kind, under, Pure(n - 1, at - start), at - start)
  }

  /** Clip `clip` is part of the frame, showing its own instant `at`. */
  predicate Shows(f: Frame, clip: nat, at: int) {
    match f
    case Gap => false
    case Pure(c, x) => c == clip && x == at
    case Blend(_, under, over, _) => Shows(under, clip, at) || Shows(over, clip, at)
    case Dim(_, _, g) => Shows(g, clip, at)
  }

  ghost predicate Fits(ds: seq<int>, t: int) {
    ds != [] && t > 0 && forall i :: 0 <= i < |ds| ==> t < ds[i]
  }

  lemma {:induction false} PlacedShowsExactly(kind: string, ds: seq<int>, t: int, n: nat, at: int, clip: nat, x: int)
    requires n <= |ds|
    ensures Shows(Placed(kind, ds, t, n, at), clip, x) <==>
            clip < n && StartOf(ds, t, clip) <= at < EndOf(ds, t, clip) && x == at - StartOf(ds, t, clip)
  {
    if n > 0 { PlacedShowsExactly(kind, ds, t, n - 1, at, clip, x); }
  }

  lemma {:induction false} PlacedIsGapAfterEnd(kind: string, ds: seq<int>, t: int, n: nat, at: int)
    requires Fits(ds, t) && 1 <= n <= |ds| && at >= EndOf(ds, t, n - 1)
    ensures Placed(kind, ds, t, n, at) == Gap
  {
    if n > 1 { PlacedIsGapAfterEnd(kind, ds, t, n - 1, at); }
    else { assert Placed(kind, ds, t, 0, at) == Gap; }
  }

  lemma {:induction false} StartsIncrease(ds: seq<int>, t: int, i: nat, j: nat)
    requires Fits(ds, t) && i < j <= |ds|
    ensures 0 <= StartOf(ds, t, i) < StartOf(ds, t, j)
  {
    if i > 0 { StartsIncrease(ds, t, 0, i); }
    if i + 1 < j { StartsIncrease(ds, t, i, j - 1); }
  }

  /** The chain a correct assembly builds: clip n - 1 joined at its own start. */
  function Chain(kind: string, ds: seq<int>, t: int, n: nat): Signal
    requires 1 <= n <= |ds|
  {
    if n == 1 then Clip(0, ds[0])
    else Joined(kind, Chain(kind, ds, t, n - 1), Clip(n - 1, ds[n - 1]), t, StartOf(ds, t, n - 1))
  }

  /** Joining left to right is placing every clip directly. */
  lemma {:induction false} ChainIsPlacement(kind: string, ds: seq<int>, t: int, n: nat, i: int)
    requires Fits(ds, t) && 1 <= n <= |ds| && 0 <= i < EndOf(ds, t, n - 1)
    ensures At(Chain(kind, ds, t, n), i) == Placed(kind, ds, t, n, i) != Gap
  {
    if n == 1 {
      assert Placed(kind, ds, t, 0, i) == Gap;
    } else {
      StartsIncrease(ds, t, n - 2, n - 1);
      if i < EndOf(ds, t, n - 2) { ChainIsPlacement(kind, ds, t, n - 1, i); }
      else { PlacedIsGapAfterEnd(kind, ds, t, n - 1, i); }
    }
  }

  lemma {:induction false} ChainLength(kind: string, ds: seq<int>, t: int, n: nat)
    requires 1 <= n <= |ds|
    ensures Length(Chain(kind, ds, t, n)) == EndOf(ds, t, n - 1)
  {
    if n > 1 { ChainLength(kind, ds, t, n - 1); }
  }

  // ---- millisecond clips: the graph means the timeline ---------------------------------------------------

  ghost predicate WholeMs(ds: seq<int>, t: int) {
    Whole(t) && forall i :: 0 <= i < |ds| ==> Whole(ds[i])
  }

  lemma {:induction false} RunningIsExact(ds: seq<int>, t: int, n: nat)
    requires WholeMs(ds, t) && 1 <= n <= |ds|
    ensures Running(ds, t, n) == EndOf(ds, t, n - 1) && Whole(Running(ds, t, n))
  {
    if n > 1 {
      RunningIsExact(ds, t, n - 1);
      WholeSums(Running(ds, t, n - 1), ds[n - 1], t);
    }
  }

  lemma EvalAppend(env: map<Label, Signal>, parts: seq<Part>, p: Part)
    ensures Eval(env, parts + [p]) == EvalPart(Eval(env, parts), p)
  {
    assert (parts + [p])[..|parts + [p]| - 1] == parts;
  }

  /** Where the emitted offset puts the start of clip i in the picture. */
  function EmittedStart(ds: seq<int>, t: int, i: nat): int
    requires i < |ds|
  {
    if i == 0 then 0 else RoundMs(Running(ds, t, i) - t)
  }

  /** The picture the emitted joins build, whatever the clips' lengths. */
  function EmittedChain(kind: string, ds: seq<int>, t: int, n: nat): Signal
    requires 1 <= n <= |ds|
  {
    if n == 1 then Clip(0, ds[0])
    else Joined(kind, EmittedChain(kind, ds, t, n - 1), Clip(n - 1, ds[n - 1]), t, EmittedStart(ds, t, n - 1))
  }

  /** After joining n clips both labels carry their chains, and the inputs are still there. The sound never rounds. */
  ghost predicate CarriesChains(plan: EditPlan, kind: string, ds: seq<int>, n: nat, end: map<Label, Signal>)
    requires 1 <= n <= |ds|
  {
    && Lookup(end, VideoLabel(n)) == EmittedChain(kind, ds, plan.transitionUs, n)
    && (!plan.muteAudio ==> Lookup(end, AudioLabel(n)) == Chain("acrossfade", ds, plan.transitionUs, n))
    && Inputs(end, ds)
  }

  lemma {:induction false} EvalConcat(env: map<Label, Signal>, parts: seq<Part>, more: seq<Part>)
    ensures Eval(env, parts + more) == Eval(Eval(env, parts), more)
  {
    if more == [] {
      assert parts + more == parts;
    } else {
      EvalConcat(env, parts, more[..|more| - 1]);
      assert (parts + more)[..|parts + more| - 1] == parts + more[..|more| - 1];
    }
  }

  lemma JoinSignals(plan: EditPlan, kind: string, n: nat, offset: int, env: map<Label, Signal>)
    requires n >= 2
    ensures var end := Eval(env, JoinFilters(plan, kind, n, offset));
            var t, sound := plan.transitionUs, Lookup(env, AudioLabel(n - 1));
            && Lookup(end, VideoLabel(n))
                 == Joined(kind, Lookup(env, VideoLabel(n - 1)), Lookup(env, ClipVideo(n - 1)), t, offset)
            && (!plan.muteAudio ==>
                 Lookup(end, AudioLabel(n))
                   == Joined("acrossfade", sound, Lookup(env, ClipAudio(n - 1)), t, Length(sound) - t))
            && forall i :: Lookup(end, ClipVideo(i)) == Lookup(env, ClipVideo(i))
                        && Lookup(end, ClipAudio(i)) == Lookup(env, ClipAudio(i))
  {
    var filters := JoinFilters(plan, kind, n, offset);
    EvalAppend(env, [], filters[0]);
    assert filters[..1] == [] + [filters[0]];
    if plan.muteAudio { assert filters == filters[..1]; }
    else { EvalAppend(env, filters[..1], filters[1]); assert filters == filters[..1] + [filters[1]]; }
  }

  lemma OneMoreClip(plan: EditPlan, kind: string, ds: seq<int>, n: nat, env: map<Label, Signal>)
    requires 2 <= n <= |ds| && CarriesChains(plan, kind, ds, n - 1, env)
    ensures CarriesChains(plan, kind, ds, n,
                          Eval(env, JoinFilters(plan, kind, n, EmittedStart(ds, plan.transitionUs, n - 1))))
  {
    JoinSignals(plan, kind, n, EmittedStart(ds, plan.transitionUs, n - 1), env);
    ChainLength("acrossfade", ds, plan.transitionUs, n - 1);
  }

  lemma {:induction false} JoinsCarryChains(plan: EditPlan, kind: string, ds: seq<int>, n: nat, env: map<Label, Signal>)
    requires 1 <= n <= |ds| && Inputs(env, ds)
    ensures CarriesChains(plan, kind, ds, n, Eval(env, Joins(plan, kind, ds, n)))
  {
    if n > 1 {
      JoinsCarryChains(plan, kind, ds, n - 1, env);
      var parts := Joins(plan, kind, ds, n - 1);
      var more := JoinFilters(plan, kind, n, EmittedStart(ds, plan.transitionUs, n - 1));
      OneMoreClip(plan, kind, ds, n, Eval(env, parts));
      EvalConcat(env, parts, more);
      assert Joins(plan, kind, ds, n) == parts + more;
    }
  }

  /** On millisecond clips nothing rounds. */
  lemma {:induction false} EmittedIsExact(kind: string, ds: seq<int>, t: int, n: nat)
    requires WholeMs(ds, t) && 1 <= n <= |ds|
    ensures EmittedChain(kind, ds, t, n) == Chain(kind, ds, t, n)
  {
    if n > 1 {
      EmittedIsExact(kind, ds, t, n - 1);
      RunningIsExact(ds, t, n - 1);
      WholeSums(Running(ds, t, n - 1), 0, t);
    }
  }

  lemma {:induction false} LengthIsSum(ds: seq<int>, t: int, n: nat)
    requires 1 <= n <= |ds|
    ensures EndOf(ds, t, n - 1) == Sum(ds[..n]) - t * (n - 1)
  {
    assert ds[..n][..n - 1] == ds[..n - 1];
    if n == 1 { assert ds[..0] == []; } else { LengthIsSum(ds, t, n - 1); }
  }

  /** The picture at instant i of a film of `total`: inside the fade-in, inside the fade-out, or untouched. */
  function Finished(plan: EditPlan, total: int, i: int, f: Frame): Frame {
    if i < plan.fadeInUs then Dim(FadeIn(plan.fadeInUs), i, f)
    else if i >= total - plan.fadeOutUs then
      Dim(FadeOut(total - plan.fadeOutUs, plan.fadeOutUs), i - (total - plan.fadeOutUs), f)
    else f
  }

  lemma DimmedTwice(x: Fade, y: Fade, i: int, f: Frame)
    ensures DimBy([], i, f) == f && DimBy([x], i, f) == DimOne(x, i, f)
    ensures DimBy([x, y], i, f) == DimOne(y, i, DimOne(x, i, f))
  {
    assert [x][..0] == [] && [x, y][..1] == [x];
  }

  lemma FadesLieApart(plan: EditPlan, total: int, i: int, f: Frame)
    requires plan.fadeInUs >= 0 && plan.fadeOutUs >= 0 && plan.fadeInUs + plan.fadeOutUs <= total
    requires Whole(total - plan.fadeOutUs) && 0 <= i < total
    ensures DimBy(FadeFilters(plan, total), i, f) == Finished(plan, total, i, f)
  {
    var fadeIn, fadeOut := FadeIn(plan.fadeInUs), FadeOut(total - plan.fadeOutUs, plan.fadeOutUs);
    FiltersAre(plan, total);
    DimmedTwice(fadeIn, fadeOut, i, f);
    DimmedTwice(fadeOut, fadeOut, i, f);
  }

  lemma FiltersAre(plan: EditPlan, total: int)
    requires Whole(total - plan.fadeOutUs)
    ensures var fadeIn, fadeOut := FadeIn(plan.fadeInUs), FadeOut(total - plan.fadeOutUs, plan.fadeOutUs);
            FadeFilters(plan, total) ==
              if plan.fadeInUs > 0 && plan.fadeOutUs > 0 then [fadeIn, fadeOut]
              else if plan.fadeInUs > 0 then [fadeIn] else if plan.fadeOutUs > 0 then [fadeOut] else []
  {
  }

  lemma OverlappedLengthIsEnd(plan: EditPlan, ds: seq<int>)
    requires plan.transition != Cut && |ds| >= 2
    ensures OverlappedLength(plan, ds) == EndOf(ds, plan.transitionUs, |ds| - 1)
  {
    assert ds[..|ds|] == ds;
    LengthIsSum(ds, plan.transitionUs, |ds|);
  }

  lemma DurationIsExact(plan: EditPlan, ds: seq<int>)
    requires plan.transition != Cut && |ds| >= 2 && WholeMs(ds, plan.transitionUs)
    ensures FilmDuration(plan, ds) == EndOf(ds, plan.transitionUs, |ds| - 1) == Running(ds, plan.transitionUs, |ds|)
    ensures Whole(FilmDuration(plan, ds))
  {
    OverlappedLengthIsEnd(plan, ds);
    RunningIsExact(ds, plan.transitionUs, |ds|);
  }

  lemma ValidPlanFits(plan: EditPlan, ds: seq<int>)
    requires ValidatePlan(plan, ds).None? && plan.transition != Cut
    ensures Fits(ds, plan.transitionUs) && XFadeName(plan.transition).Some?
    ensures plan.fadeInUs >= 0 && plan.fadeOutUs >= 0 && plan.fadeInUs + plan.fadeOutUs <= FilmDuration(plan, ds)
  {
    forall i | 0 <= i < |ds| ensures plan.transitionUs < ds[i] { assert ds[i] in ds; }
  }

  /** The labels the graph ends on carry the picture chain, dimmed if any fade was asked for, and the sound chain. */
  lemma GraphSignals(plan: EditPlan, kind: string, ds: seq<int>, env: map<Label, Signal>)
    requires ds != [] && Inputs(env, ds)
    ensures var t, n := plan.transitionUs, |ds|;
            var filters := FadeFilters(plan, Running(ds, t, n));
            var graph := FilterGraph(plan, kind, ds);
            var end := Eval(env, graph.parts);
            && Lookup(end, graph.video) ==
                 (if filters == [] then EmittedChain(kind, ds, t, n) else Faded(EmittedChain(kind, ds, t, n), filters))
            && (graph.audio.Some? <==> !plan.muteAudio)
            && (graph.audio.Some? ==> Lookup(end, graph.audio.value) == Chain("acrossfade", ds, t, n))
  {
    var filters := FadeFilters(plan, Running(ds, plan.transitionUs, |ds|));
    JoinsCarryChains(plan, kind, ds, |ds|, env);
    EvalAppend(env, Joins(plan, kind, ds, |ds|), Fades(VideoLabel(|ds|), filters, VOut));
  }

  /**
   Any number of millisecond clips and any validated plan with a real transition: the emitted graph shows
   each clip exactly on its own interval, the sound has the same layout, the length is the promised runtime,
   starts are non-negative and increase, and the two fades lie inside the film without meeting.
   */
  lemma AssemblyMeansTimeline(plan: EditPlan, ds: seq<int>, env: map<Label, Signal>)
    requires ValidatePlan(plan, ds).None? && plan.transition != Cut && |ds| >= 2
    requires WholeMs(ds, plan.transitionUs) && Whole(plan.fadeOutUs) && Inputs(env, ds)
    ensures plan.transition in {Dissolve, FadeBlack}
    ensures var kind := if plan.transition == Dissolve then "fade" else "fadeblack";
            var t := plan.transitionUs;
            var total := FilmDuration(plan, ds);
            var graph := FilterGraph(plan, kind, ds);
            var picture := Lookup(Eval(env, graph.parts), graph.video);
            && XFadeName(plan.transition) == Some(kind)
            && Length(picture) == total
            && (forall i :: 0 <= i < total ==>
                  At(picture, i) == Finished(plan, total, i, Placed(kind, ds, t, |ds|, i)))
            && (graph.audio.Some? <==> !plan.muteAudio)
            && (graph.audio.Some? ==>
                  var sound := Lookup(Eval(env, graph.parts), graph.audio.value);
                  && Length(sound) == total
                  && forall i :: 0 <= i < total ==> At(sound, i) == Placed("acrossfade", ds, t, |ds|, i))
    ensures forall i, j :: 0 <= i < j < |ds| ==>
              0 <= StartOf(ds, plan.transitionUs, i) < StartOf(ds, plan.transitionUs, j)
  {
    ValidPlanFits(plan, ds);
    var kind := XFadeName(plan.transition).value;
    var t, n, total := plan.transitionUs, |ds|, FilmDuration(plan, ds);
    DurationIsExact(plan, ds);
    ExactGraphSignals(plan, kind, ds, env);
    var graph := FilterGraph(plan, kind, ds);
    WholeSums(total, 0, plan.fadeOutUs);
    PictureMeans(plan, kind, ds, Lookup(Eval(env, graph.parts), graph.video), total);
    if graph.audio.Some? { SoundMeans(ds, t, Lookup(Eval(env, graph.parts), graph.audio.value)); }
    forall i, j | 0 <= i < j < n ensures 0 <= StartOf(ds, t, i) < StartOf(ds, t, j) { StartsIncrease(ds, t, i, j); }
  }

  /** On millisecond clips the graph carries the exact chains, for the promised runtime. */
  lemma ExactGraphSignals(plan: EditPlan, kind: string, ds: seq<int>, env: map<Label, Signal>)
    requires plan.transition != Cut && |ds| >= 2 && WholeMs(ds, plan.transitionUs) && Inputs(env, ds)
    ensures var chain := Chain(kind, ds, plan.transitionUs, |ds|);
            var filters := FadeFilters(plan, FilmDuration(plan, ds));
            var graph := FilterGraph(plan, kind, ds);
            var end := Eval(env, graph.parts);
            && Lookup(end, graph.video) == (if filters == [] then chain else Faded(chain, filters))
            && (graph.audio.Some? <==> !plan.muteAudio)
            && (graph.audio.Some? ==>
                  Lookup(end, graph.audio.value) == Chain("acrossfade", ds, plan.transitionUs, |ds|))
  {
    DurationIsExact(plan, ds);
    GraphSignals(plan, kind, ds, env);
    EmittedIsExact(kind, ds, plan.transitionUs, |ds|);
  }

  lemma SoundMeans(ds: seq<int>, t: int, sound: Signal)
    requires Fits(ds, t) && sound == Chain("acrossfade", ds, t, |ds|)
    ensures Length(sound) == EndOf(ds, t, |ds| - 1)
    ensures forall i :: 0 <= i < Length(sound) ==> At(sound, i) == Placed("acrossfade", ds, t, |ds|, i)
  {
    ChainLength("acrossfade", ds, t, |ds|);
    forall i | 0 <= i < Length(sound) ensures At(sound, i) == Placed("acrossfade", ds, t, |ds|, i) {
      ChainIsPlacement("acrossfade", ds, t, |ds|, i);
    }
  }

  lemma PictureMeans(plan: EditPlan, kind: string, ds: seq<int>, picture: Signal, total: int)
    requires Fits(ds, plan.transitionUs) && total == EndOf(ds, plan.transitionUs, |ds| - 1)
    requires plan.fadeInUs >= 0 && plan.fadeOutUs >= 0 && plan.fadeInUs + plan.fadeOutUs <= total
    requires Whole(total - plan.fadeOutUs)
    requires var chain := Chain(kind, ds, plan.transitionUs, |ds|);
             picture == if FadeFilters(plan, total) == [] then chain else Faded(chain, FadeFilters(plan, total))
    ensures Length(picture) == total
    ensures forall i :: 0 <= i < total ==>
              At(picture, i) == Finished(plan, total, i, Placed(kind, ds, plan.transitionUs, |ds|, i))
  {
    ChainLength(kind, ds, plan.transitionUs, |ds|);
    forall i | 0 <= i < total
      ensures At(picture, i) == Finished(plan, total, i, Placed(kind, ds, plan.transitionUs, |ds|, i))
    {
      ChainIsPlacement(kind, ds, plan.transitionUs, |ds|, i);
      FadesLieApart(plan, total, i, Placed(kind, ds, plan.transitionUs, |ds|, i));
    }
  }

  /** A film of one clip, under any transition, is that clip with its fades. */
  lemma LoneClipMeansItself(plan: EditPlan, ds: seq<int>, i: int)
    requires ValidatePlan(plan, ds).None? && |ds| == 1
    requires Whole(ds[0]) && Whole(plan.fadeOutUs) && 0 <= i < FilmDuration(plan, ds)
    ensures FilmDuration(plan, ds) == ds[0] == EndOf(ds, plan.transitionUs, 0)
    ensures DimBy(FadeFilters(plan, ds[0]), i, Pure(0, i)) ==
            Finished(plan, ds[0], i, Placed("", ds, plan.transitionUs, 1, i))
  {
    assert ds[..0] == [] && ds[..1] == ds && Sum(ds[..0]) == 0;
    assert Placed("", ds, plan.transitionUs, 0, i) == Gap;
    WholeSums(ds[0], 0, plan.fadeOutUs);
    FadesLieApart(plan, ds[0], i, Pure(0, i));
  }

  // ---- microsecond clips: the drift is bounded -----------------------------------------------------------

  lemma {:induction false} RunningDrift(ds: seq<int>, t: int, n: nat)
    requires 1 <= n <= |ds|
    ensures EndOf(ds, t, n - 1) - 500 * (n - 1) <= Running(ds, t, n) <= EndOf(ds, t, n - 1) + 500 * (n - 1)
  {
    if n > 1 { RunningDrift(ds, t, n - 1); }
  }

  /** Clip i's emitted offset is within i half-milliseconds of its exact start. */
  lemma {:induction false} OffsetDrift(plan: EditPlan, kind: string, ds: seq<int>, n: nat, p: Part)
    requires 1 <= n <= |ds| && p in Joins(plan, kind, ds, n) && p.XFade?
    ensures p.right.ClipVideo? && 1 <= p.right.clip < n
    ensures var i := p.right.clip;
            var exact := StartOf(ds, plan.transitionUs, i);
            exact - 500 * i <= p.offset <= exact + 500 * i
  {
    if n > 1 {
      if p in Joins(plan, kind, ds, n - 1) { OffsetDrift(plan, kind, ds, n - 1, p); }
      else { RunningDrift(ds, plan.transitionUs, n - 1); }
    }
  }

  /** The picture shows clip i from within i half-milliseconds of where the sound, which never rounds, has it. */
  lemma EmittedStartDrift(ds: seq<int>, t: int, i: nat)
    requires i < |ds|
    ensures StartOf(ds, t, i) - 500 * i <= EmittedStart(ds, t, i) <= StartOf(ds, t, i) + 500 * i
  {
    if i > 0 { RunningDrift(ds, t, i); }
  }

  /**
   Any clips, to the microsecond: the picture the emitted graph shows is within n half-milliseconds of the runtime the
   plan was validated against and its sound within one; picture and sound start clip i at most i half-milliseconds
   apart.
   */
  lemma LengthDrift(plan: EditPlan, ds: seq<int>, env: map<Label, Signal>)
    requires XFadeName(plan.transition).Some? && |ds| >= 2 && Inputs(env, ds)
    ensures var kind := XFadeName(plan.transition).value;
            var n, t, total := |ds|, plan.transitionUs, FilmDuration(plan, ds);
            var graph := FilterGraph(plan, kind, ds);
            var end := Eval(env, graph.parts);
            && total - 500 * n <= Length(Lookup(end, graph.video)) <= total + 500 * n
            && (graph.audio.Some? ==>
                  && Lookup(end, graph.audio.value) == Chain("acrossfade", ds, t, n)
                  && total - 500 <= Length(Lookup(end, graph.audio.value)) <= total + 500)
            && forall i :: 0 <= i < n ==>
                             StartOf(ds, t, i) - 500 * i <= EmittedStart(ds, t, i) <= StartOf(ds, t, i) + 500 * i
  {
    var kind := XFadeName(plan.transition).value;
    var n, t := |ds|, plan.transitionUs;
    OverlappedLengthIsEnd(plan, ds);
    GraphSignals(plan, kind, ds, env);
    ChainLength("acrossfade", ds, t, n);
    assert Length(EmittedChain(kind, ds, t, n)) == EmittedStart(ds, t, n - 1) + ds[n - 1];
    forall i | 0 <= i < n
      ensures StartOf(ds, t, i) - 500 * i <= EmittedStart(ds, t, i) <= StartOf(ds, t, i) + 500 * i
    {
      EmittedStartDrift(ds, t, i);
    }
  }
}
