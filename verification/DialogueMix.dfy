/** Laying synthesised dialogue over a finished film: media/dialogue_mix.py. Times are whole microseconds. */
module DialogueMix {
  import opened Prelude
  import opened FilmEditor

  datatype Cue = Cue(audio: string, startUs: int, durationUs: int)

  const TOLERANCE_US := 250_000

  /** Where each shot begins: the sum of the whole lengths before it. */
  method CueStartTimes(ds: seq<int>) returns (starts: seq<int>)
    ensures |starts| == |ds|
    ensures forall i :: 0 <= i < |ds| ==> starts[i] == Sum(ds[..i])
  {
    starts := [];
    var elapsed := 0;
    for k := 0 to |ds|
      invariant |starts| == k && elapsed == Sum(ds[..k])
      invariant forall i :: 0 <= i < k ==> starts[i] == Sum(ds[..i])
    {
      starts := starts + [elapsed];
      elapsed := elapsed + ds[k];
      assert ds[..k + 1][..k] == ds[..k];
    }
  }

  /** A line may overrun the shot that contains it by the tolerance, and no more. */
  predicate Fits(cue: Cue, shotUs: int) {
    cue.durationUs - shotUs <= TOLERANCE_US
  }

  /** The cue clock leads the film clock by one transition per earlier shot: exactly right for hard cuts only. */
  lemma {:induction false} CueClockLeads(ds: seq<int>, t: int, i: nat)
    requires i <= |ds|
    ensures Sum(ds[..i]) == StartOf(ds, t, i) + i * t
  {
    if i > 0 {
      CueClockLeads(ds, t, i - 1);
      assert ds[..i][..i - 1] == ds[..i - 1];
    } else {
      assert ds[..0] == [];
    }
  }

  /**
   On a hard-cut film a line that starts with its shot is accepted exactly when it ends at most a quarter second after
   its shot does.
   */
  lemma AcceptedLinesStayWithTheirShots(ds: seq<int>, starts: seq<int>, i: nat, cue: Cue)
    requires |starts| == |ds| && i < |ds|
    requires forall k :: 0 <= k < |ds| ==> starts[k] == Sum(ds[..k])
    requires cue.startUs == starts[i]
    ensures cue.startUs == StartOf(ds, 0, i)
    ensures Fits(cue, ds[i]) <==> cue.startUs + cue.durationUs <= EndOf(ds, 0, i) + 250_000
  {
    CueClockLeads(ds, 0, i);
  }

  lemma {:induction false} LaterShotsStartLater(ds: seq<int>, i: nat, j: nat)
    requires i < j < |ds| && forall d :: d in ds ==> d >= 0
    ensures EndOf(ds, 0, i) <= StartOf(ds, 0, j)
  {
    if i + 1 < j {
      LaterShotsStartLater(ds, i, j - 1);
      assert ds[j - 1] in ds;
    }
  }

  /** So it overlaps the line of any later speaking shot by at most the tolerance. */
  lemma AcceptedLinesBarelyOverlap(ds: seq<int>, starts: seq<int>, i: nat, cue: Cue, j: nat, later: Cue)
    requires |starts| == |ds| && i < j < |ds| && forall d :: d in ds ==> d >= 0
    requires forall k :: 0 <= k < |ds| ==> starts[k] == Sum(ds[..k])
    requires cue.startUs == starts[i] && Fits(cue, ds[i]) && later.startUs == starts[j]
    ensures cue.startUs + cue.durationUs <= later.startUs + 250_000
  {
    AcceptedLinesStayWithTheirShots(ds, starts, i, cue);
    CueClockLeads(ds, 0, j);
    LaterShotsStartLater(ds, i, j);
  }

  // ---- the emitted mix ---------------------------------------------------------------------------------

  datatype Input = Film | SilentBed | Speech(audio: string)
  datatype MixLabel = Bed | Line(input: nat) | Out

  datatype Filter =
    | Volume(input: nat, ducked: bool)
    | Delay(input: nat, delayMs: nat, out: MixLabel)
    | Mix(sources: seq<MixLabel>, count: nat)

  datatype Invocation = Invocation(inputs: seq<Input>, filters: seq<Filter>, shortest: bool)

  function DelayMs(startUs: int): nat {
    if RoundMs(startUs) < 0 then 0 else RoundMs(startUs) / 1000
  }

  method MixDialogue(cues: seq<Cue>, hasAmbience: bool) returns (mix: Invocation)
    requires cues != []
    ensures |mix.filters| == |cues| + 2
    ensures mix.inputs == (if hasAmbience then [Film] else [Film, SilentBed])
                          + seq(|cues|, k requires 0 <= k < |cues| => Speech(cues[k].audio))
    // The bed is the film's own sound, or the silence when it has none.
    ensures mix.filters[0].Volume? && mix.filters[0].ducked == hasAmbience && mix.filters[0].input < |mix.inputs|
    ensures mix.inputs[mix.filters[0].input] == if hasAmbience then Film else SilentBed
    // Each delay applies to its own cue's sound, by its own cue's start.
    ensures forall k :: 1 <= k <= |cues| ==>
              var f, cue := mix.filters[k], cues[k - 1];
              && f.Delay? && f.input < |mix.inputs| && mix.inputs[f.input] == Speech(cue.audio)
              && f.delayMs == DelayMs(cue.startUs) && f.out == Line(f.input)
    // Everything is summed once: the bed and every line, under distinct labels.
    ensures var last := mix.filters[|cues| + 1];
            && last.Mix? && last.count == |last.sources| == |cues| + 1 && last.sources[0] == Bed
            && (forall k :: 1 <= k <= |cues| ==> mix.filters[k].Delay? && last.sources[k] == mix.filters[k].out)
            && (forall j, k :: 0 <= j < k < |last.sources| ==> last.sources[j] != last.sources[k])
    ensures mix.shortest <==> !hasAmbience
  {
    var inputs := [Film];
    if !hasAmbience { inputs := inputs + [SilentBed]; }
    ghost var before := inputs;
    for k := 0 to |cues|
      invariant inputs == before + seq(k, j requires 0 <= j < k => Speech(cues[j].audio))
    {
      inputs := inputs + [Speech(cues[k].audio)];
    }
    var first := if hasAmbience then 1 else 2;
    var filters := [Volume(if hasAmbience then 0 else 1, hasAmbience)];
    var labels := [Bed];
    for k := 0 to |cues|
      invariant |filters| == |labels| == k + 1
      invariant filters[0] == Volume(if hasAmbience then 0 else 1, hasAmbience) && labels[0] == Bed
      invariant forall j :: 1 <= j <= k ==>
                  && filters[j] == Delay(first + j - 1, DelayMs(cues[j - 1].startUs), Line(first + j - 1))
                  && labels[j] == Line(first + j - 1)
    {
      filters := filters + [Delay(first + k, DelayMs(cues[k].startUs), Line(first + k))];
      labels := labels + [Line(first + k)];
    }
    filters := filters + [Mix(labels, |labels|)];
    return Invocation(inputs, filters, !hasAmbience);
  }

  /** On millisecond clips the emitted delay is the shot's start itself. */
  lemma DelayIsTheStart(startUs: int)
    requires startUs >= 0
    ensures startUs - 500 <= 1000 * DelayMs(startUs) <= startUs + 500
    ensures Whole(startUs) ==> 1000 * DelayMs(startUs) == startUs
  {
    WholeMeansMultiple(startUs);
    WholeMeansMultiple(RoundMs(startUs));
  }
}
