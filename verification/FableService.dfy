/**
 The service's methods over one project row and its children, each proved to do what the model of the action says:
 core/fable_service.py. A method that raises answers false; what it assigned before that was committed.
 */
module FableService {
  import opened Prelude
  import opened CinematicState
  import opened CostService
  import opened ReferenceSlots
  import opened FableModel
  import opened FableInvariants
  import opened FableLedger
  import Parser = AdaptationParser

  class FableProject {
    var status: ProjectStatus
    var adaptation: Option<string>
    var style: string
    var scenes: nat
    var characters: seq<Character>
    var shots: seq<FilmShot>
    var limit: Option<nat>
    var currency: Option<string>
    var spent: nat
    const takesPerShot: Option<nat>

    function State(): Project
      reads this
    {
      Project(status, adaptation, style, scenes, characters, shots, Budget(limit, currency, spent), takesPerShot)
    }

    constructor (takes: Option<nat>)
      ensures State() == NewProject(takes)
    {
      status, adaptation, style, scenes := Draft, None, "", 0;
      characters, shots := [], [];
      limit, currency, spent := None, None, 0;
      takesPerShot := takes;
    }

    // ---- budget --------------------------------------------------------------------------------------------

    method SetBudget(newLimit: Option<int>, newCurrency: Option<string>) returns (ok: bool)
      modifies `limit, `currency
      ensures Result(State(), ok) == SetBudgetOf(old(State()), newLimit, newCurrency)
    {
      if newLimit.None? {
        limit := None;
        return true;
      }
      if newLimit.value <= 0 || newCurrency.None? || newLimit.value < spent { return false; }
      if currency.Some? && newCurrency != currency && spent > 0 { return false; }
      limit, currency := Some(newLimit.value), newCurrency;
      return true;
    }

    /** Books one reported charge; false is the refusal of a foreign currency. */
    method RecordSpend(charge: Option<Charge>) returns (ok: bool)
      modifies `spent
      ensures ok == CostService.RecordSpend(old(State()).budget, charge).Some?
      ensures ok ==> State().budget == CostService.RecordSpend(old(State()).budget, charge).value
      ensures !ok ==> spent == old(spent)
    {
      if charge.None? { return true; }
      if charge.value.currency.Some? && currency.Some? && charge.value.currency != currency { return false; }
      spent := spent + charge.value.amount;
      return true;
    }

    /** The audit: spend recomputed from the line items, and how many finished takes have no figure. */
    method RecordedSpend() returns (total: nat, unpriced: nat)
      ensures total == Recorded(State())
      ensures unpriced == UnpricedTakes(shots)
    {
      total, unpriced := 0, 0;
      for i := 0 to |shots|
        invariant total == ShotsTotal(shots[..i]) && unpriced == UnpricedTakes(shots[..i])
      {
        var takes := shots[i].takes;
        for k := 0 to |takes|
          invariant total == ShotsTotal(shots[..i]) + TakesTotal(takes[..k])
          invariant unpriced == UnpricedTakes(shots[..i]) + UnpricedOf(takes[..k])
        {
          assert takes[..k + 1][..k] == takes[..k];
          if takes[k].cost.None? {
            if takes[k].media.Some? { unpriced := unpriced + 1; }
          } else {
            total := total + takes[k].cost.value.amount;
          }
        }
        assert takes[..|takes|] == takes && shots[..i + 1][..i] == shots[..i];
      }
      assert shots[..|shots|] == shots;
      for i := 0 to |characters|
        invariant total == ShotsTotal(shots) + CastTotal(characters[..i])
      {
        assert characters[..i + 1][..i] == characters[..i];
        if characters[i].cost.Some? { total := total + characters[i].cost.value.amount; }
      }
      assert characters[..|characters|] == characters;
    }

    // ---- adaptation ----------------------------------------------------------------------------------------

    /** Whether the caller goes on to call the director is the second answer: a replay does not. */
    method StartAdaptation(input: string) returns (ok: bool, proceed: bool)
      modifies `status
      ensures Result(State(), ok) == FableModel.StartAdaptation(old(State()), input)
      ensures proceed <==> !AlreadyAdapted(old(State()))
    {
      if status !in {Draft, Adapting} && scenes > 0 { return adaptation == Some(input), false; }
      if status == Draft { status := Adapting; }
      return true, true;
    }

    method FinishAdaptation(input: string, doc: Parser.Document) returns (ok: bool)
      modifies `status, `adaptation, `style, `scenes, `characters, `shots
      ensures Result(State(), ok) == FableModel.FinishAdaptation(old(State()), input, doc)
    {
      if scenes > 0 {
        var generated := HasTakes();
        if generated { return false; }
      }
      if StoryReview !in AllowedProject(status) { return false; }
      var cast := CastOf(doc.characters);
      var film := ShotsOf(doc.scenes);
      Rewrite(input, doc.visualStyle, |doc.scenes|, cast, film);
      return true;
    }

    method Rewrite(input: string, newStyle: string, count: nat, cast: seq<Character>, film: seq<FilmShot>)
      modifies `status, `adaptation, `style, `scenes, `characters, `shots
      ensures State() == Rewritten(old(State()), input, newStyle, count, cast, film)
    {
      if scenes > 0 { scenes, characters, shots := 0, [], []; }
      status, adaptation, style := StoryReview, Some(input), newStyle;
      scenes, characters, shots := scenes + count, characters + cast, shots + film;
    }

    method HasTakes() returns (any: bool)
      ensures any <==> AnyTakes(shots)
    {
      for i := 0 to |shots|
        invariant !AnyTakes(shots[..i])
      {
        if shots[i].takes != [] {
          assert shots[i] in shots;
          return true;
        }
      }
      assert shots[..|shots|] == shots;
      return false;
    }

    static method CastOf(models: seq<Parser.CharacterModel>) returns (cast: seq<Character>)
      ensures cast == NewCast(models)
    {
      cast := [];
      for i := 0 to |models|
        invariant cast == NewCast(models[..i])
      {
        assert models[..i + 1][..i] == models[..i];
        cast := PutByName(cast, NewCharacter(models[i]));
      }
      assert models[..|models|] == models;
    }

    static method ShotsOf(scenes: seq<Parser.SceneModel>) returns (film: seq<FilmShot>)
      ensures film == NewFilm(scenes)
    {
      film := [];
      for i := 0 to |scenes|
        invariant film == NewFilm(scenes[..i])
      {
        var scene := scenes[i];
        for k := 0 to |scene.shots|
          invariant film == NewFilm(scenes[..i]) + NewShots(scene.order, scene.shots[..k])
        {
          assert scene.shots[..k + 1][..k] == scene.shots[..k];
          var model := scene.shots[k];
          film := film
                  + [FilmShot(Place(scene.order, model.order), model.subject, model.durationMs, Planned, [])];
        }
        assert scene.shots[..|scene.shots|] == scene.shots && scenes[..i + 1][..i] == scenes[..i];
      }
      assert scenes[..|scenes|] == scenes;
    }

    // ---- casting -------------------------------------------------------------------------------------------

    method GenerateCharacterSheet(svc: Service, i: nat, draw: View -> Answer) returns (ok: bool, log: seq<ImageRequest>)
      requires i < |characters|
      modifies `characters, `spent
      ensures CastingRun(State(), ok, log) == CastOne(svc, old(State()), i, draw)
    {
      var c := characters[i];
      var fingerprint := svc.fingerprint(c.name, c.bible, style);
      if c.fingerprint == Some(fingerprint) && c.images != map[] { return true, []; }
      characters := characters[i := c.(approved := false, refused := false)];
      var pass := DrawViews(c.name, draw);
      log := pass.requests;
      if pass.end.DeadPass? { return false, log; }
      if pass.cost > 0 {
        ok := RecordSpend(Some(Charge(pass.cost, pass.currency)));
        if !ok { return false, log; }
      }
      var refused := pass.end.RefusedPass?;
      characters := characters[i := c.(
          approved := false, images := pass.images, refused := refused,
          fingerprint := if refused then None else Some(fingerprint),
          cost := if pass.cost > 0 then Some(Charge(pass.cost, pass.currency)) else c.cost)];
      return true, log;
    }

    /** The views in order, each after the first with the face image as its reference. */
    static method DrawViews(character: string, draw: View -> Answer) returns (pass: Pass)
      ensures pass == RunPass(character, draw, |VIEWS|)
    {
      var images: map<View, MediaPath> := map[];
      var face: Option<MediaPath> := None;
      var cost: nat := 0;
      var currency: Option<string> := None;
      var log: seq<ImageRequest> := [];
      for k := 0 to |VIEWS|
        invariant Pass(images, face, cost, currency, Whole, log) == RunPass(character, draw, k)
      {
        RunPassStops(character, draw, k + 1, |VIEWS|);
        log := log + [ImageRequest(character, VIEWS[k], if face.Some? then [face.value] else [])];
        var answer := draw(VIEWS[k]);
        if answer.Died? { return Pass(images, face, cost, currency, DeadPass, log); }
        if answer.RefusedByPolicy? { return Pass(images, face, cost, currency, RefusedPass, log); }
        images := images[VIEWS[k] := answer.path];
        if k == 0 { face := Some(answer.path); }
        if answer.cost.Some? {
          cost := cost + answer.cost.value.amount;
          if currency.None? { currency := answer.cost.value.currency; }
        }
      }
      return Pass(images, face, cost, currency, Whole, log);
    }

    method GenerateReferences(svc: Service, provider: ReferenceProvider, script: nat -> View -> Answer, lives: nat)
      returns (ok: bool, log: seq<ImageRequest>)
      modifies `status, `characters, `spent
      ensures CastingRun(State(), ok, log) == FableModel.GenerateReferences(svc, old(State()), provider, script, lives)
    {
      if status != Casting || characters == [] || !ReferencesAffordable(svc, State(), provider) { return false, []; }
      ghost var start := State();
      var n := |characters|;
      log := [];
      for i := 0 to if lives < n then lives else n
        invariant CastingRun(State(), true, log) == CastUpTo(svc, start, script, i) && |characters| == n
      {
        CastingStops(svc, start, script, i + 1, if lives < n then lives else n);
        var one;
        ok, one := GenerateCharacterSheet(svc, i, script(i));
        log := log + one;
        if !ok { return false, log; }
      }
      CastingKeepsTheStatus(svc, start, script, if lives < n then lives else n);
      if lives <= n { return false, log; }
      status := CharacterReview;
      return true, log;
    }

    method ApproveReference(i: nat) returns (ok: bool)
      modifies `characters
      ensures Result(State(), ok) == FableModel.ApproveReference(old(State()), i)
    {
      if i >= |characters| { return false; }
      for k := 0 to |VIEWS|
        invariant forall j :: 0 <= j < k ==> VIEWS[j] in characters[i].images
      {
        if VIEWS[k] !in characters[i].images {
          assert VIEWS[k] in VIEWS;
          return false;
        }
      }
      characters := characters[i := characters[i].(approved := true)];
      return true;
    }

    method RejectReference(i: nat) returns (ok: bool)
      modifies `characters
      ensures Result(State(), ok) == FableModel.RejectReference(old(State()), i)
    {
      if i >= |characters| { return false; }
      characters := characters[i := characters[i].(approved := false, fingerprint := None)];
      return true;
    }

    /** Only rows of other projects are offered: see FableWorld. */
    method ReuseCharacter(source: Character) returns (ok: bool)
      modifies `characters
      ensures Result(State(), ok) == FableModel.ReuseCharacter(old(State()), source)
    {
      if status != Casting || !source.approved || source.images == map[] { return false; }
      var target := source.(approved := false, refused := false, cost := None);
      match Namesake(characters, source.name) {
        case Some(i) => characters := characters[i := target];
        case None => characters := characters + [target];
      }
      return true;
    }

    method DeleteCharacter(i: nat) returns (ok: bool)
      modifies `characters
      ensures Result(State(), ok) == FableModel.DeleteCharacter(old(State()), i)
    {
      if i >= |characters| { return false; }
      for k := 0 to |shots|
        invariant forall j :: 0 <= j < k ==> shots[j].subject != characters[i].name
      {
        if shots[k].subject == characters[i].name {
          assert shots[k] in shots;
          return false;
        }
      }
      characters := characters[..i] + characters[i + 1..];
      return true;
    }

    // ---- review gates --------------------------------------------------------------------------------------

    method Transition(to: ProjectStatus) returns (ok: bool)
      modifies `status
      ensures Result(State(), ok) == Move(old(State()), to)
    {
      ok := to in AllowedProject(status);
      if ok { status := to; }
    }

    method ApproveStory() returns (ok: bool)
      modifies `status
      ensures Result(State(), ok) == FableModel.ApproveStory(old(State()))
    {
      ok := Transition(Casting);
    }

    method ApproveCharacters() returns (ok: bool)
      modifies `status
      ensures Result(State(), ok) == FableModel.ApproveCharacters(old(State()))
    {
      for k := 0 to |characters|
        invariant forall j :: 0 <= j < k ==> characters[j].adult && characters[j].approved
      {
        if !(characters[k].adult && characters[k].approved) {
          assert characters[k] in characters;
          return false;
        }
      }
      ok := Transition(Storyboarding);
      if ok { ok := Transition(ShotReview); }
    }

    method ApproveShots(svc: Service, pricing: Pricing) returns (ok: bool)
      modifies `status, `shots
      ensures Result(State(), ok) == FableModel.ApproveShots(svc, old(State()), pricing)
    {
      if shots == [] { return false; }
      var plans := PlannedLengths();
      ok := AssertGenerationAffordable(State().budget, plans, pricing, svc.allowPaid, TakesFor(svc, State()));
      if !ok || Generating !in AllowedProject(status) { return false; }
      status := Generating;
      MarkReady();
    }

    method PlannedLengths() returns (plans: seq<nat>)
      ensures plans == Plans(shots)
    {
      plans := [];
      for k := 0 to |shots|
        invariant plans == Plans(shots[..k])
      {
        assert shots[..k + 1][..k] == shots[..k];
        plans := plans + [PlannedMs(shots[k])];
      }
      assert shots[..|shots|] == shots;
    }

    /** Every PLANNED shot becomes claimable; the others stay as they are. */
    method MarkReady()
      modifies `shots
      ensures shots == AllMadeReady(old(shots))
    {
      ghost var before := shots;
      for k := 0 to |shots|
        invariant |shots| == |before|
        invariant forall j :: 0 <= j < |shots| ==> shots[j] == if j < k then MadeReady(before[j]) else before[j]
      {
        if shots[k].status == Planned { shots := shots[k := shots[k].(status := Ready)]; }
      }
      assert shots == AllMadeReady(before);
    }

    // ---- take selection ------------------------------------------------------------------------------------

    method SelectTake(i: nat, k: nat) returns (ok: bool)
      modifies `status, `shots
      ensures Result(State(), ok) == FableModel.SelectTake(old(State()), i, k)
    {
      if i >= |shots| || k >= |shots[i].takes| || shots[i].takes[k].status != Downloaded { return false; }
      var shot := shots[i];
      var takes := shot.takes;
      for j := 0 to |takes|
        invariant |takes| == |shot.takes|
        invariant forall m :: 0 <= m < |takes| ==>
                    takes[m] == if m < j then shot.takes[m].(selected := false) else shot.takes[m]
      {
        if takes[j].selected { takes := takes[j := takes[j].(selected := false)]; }
      }
      assert takes == Deselected(shot.takes);
      takes := takes[k := takes[k].(selected := true)];
      if Selected !in AllowedShot(shot.status) { return false; }
      shots := shots[i := shot.(status := Selected, takes := takes)];
      MaybeAdvanceToEditing();
      return true;
    }

    method MaybeAdvanceToEditing()
      modifies `status
      ensures State() == FableModel.MaybeAdvanceToEditing(old(State()))
    {
      if status != TakeReview { return; }
      for j := 0 to |shots|
        invariant forall m :: 0 <= m < j ==> shots[m].status == Selected
      {
        if shots[j].status != Selected {
          assert shots[j] in shots;
          return;
        }
      }
      status := Editing;
    }

    method DeselectTake(i: nat, k: nat) returns (ok: bool)
      modifies `status, `shots
      ensures Result(State(), ok) == FableModel.DeselectTake(old(State()), i, k)
    {
      if i >= |shots| || k >= |shots[i].takes| || !shots[i].takes[k].selected { return false; }
      if status !in {TakeReview, Editing} { return false; }
      if ShotStatus.ReviewRequired !in AllowedShot(shots[i].status) { return false; }
      if status == Editing {
        // The table has no way back: the exception leaves nothing committed.
        return false;
      }
      shots := shots[i := Unchoose(shots[i], k)];
      return true;
    }

    // ---- the final cut -------------------------------------------------------------------------------------

    /** The chosen clips go to the editor in film order; the project moves on once the tools have succeeded. */
    method RenderFinal(toolsWork: bool) returns (ok: bool, cut: seq<MediaPath>)
      modifies `status
      ensures Result(State(), ok) == FableModel.RenderFinal(old(State()), toolsWork)
      ensures ok ==> IsCut(FilmOrder(shots), cut)
    {
      if status != Editing { return false, []; }
      SameShots(shots);
      var clips := ChosenClips(FilmOrder(shots));
      if clips.None? || !toolsWork { return false, []; }
      status := FinalReview;
      return true, clips.value;
    }

    /** Stops at the first shot without exactly one selected take, or without its media. */
    static method ChosenClips(film: seq<FilmShot>) returns (clips: Option<seq<MediaPath>>)
      ensures clips.Some? ==> IsCut(film, clips.value)
      ensures clips.Some? <==> forall s :: s in film ==> Cuttable(s)
    {
      var cut := [];
      for i := 0 to |film|
        invariant IsCut(film[..i], cut)
      {
        var chosen := TheChosen(film[i]);
        if chosen.None? || film[i].takes[chosen.value].media.None? {
          assert film[i] in film && !Cuttable(film[i]);
          return None;
        }
        assert ChosenClip(film[i], film[i].takes[chosen.value].media.value);
        cut := cut + [film[i].takes[chosen.value].media.value];
      }
      assert film[..|film|] == film;
      IsCutMeansCuttable(film, cut);
      return Some(cut);
    }

    /** scalar_one_or_none: the only selected take; with several it raises, which refuses the render as well. */
    static method TheChosen(s: FilmShot) returns (at: Option<nat>)
      ensures at.Some? ==> ChosenAt(s, at.value)
      ensures at.None? ==> forall k :: !ChosenAt(s, k)
    {
      at := None;
      for k := 0 to |s.takes|
        invariant at.Some? ==> at.value < k && s.takes[at.value].selected
        invariant forall j :: 0 <= j < k && s.takes[j].selected ==> at == Some(j)
      {
        if s.takes[k].selected {
          if at.Some? {
            forall j ensures !ChosenAt(s, j) { assert j == k || j != k; }
            return None;
          }
          at := Some(k);
        }
      }
    }

    method ApproveFinal() returns (ok: bool)
      modifies `status
      ensures Result(State(), ok) == Move(old(State()), Completed)
    {
      ok := Transition(Completed);
    }

    method CancelProject() returns (ok: bool)
      modifies `status
      ensures Result(State(), ok) == Move(old(State()), ProjectStatus.Cancelled)
    {
      ok := Transition(ProjectStatus.Cancelled);
    }
  }

  /** The media of the shot's only selected take. */
  predicate ChosenClip(s: FilmShot, clip: MediaPath) {
    exists k :: 0 <= k < |s.takes| && ChosenAt(s, k) && s.takes[k].media == Some(clip)
  }

  /** One chosen clip for every shot, in their order. */
  ghost predicate IsCut(film: seq<FilmShot>, cut: seq<MediaPath>) {
    |cut| == |film| && forall i :: 0 <= i < |film| ==> ChosenClip(film[i], cut[i])
  }

  lemma SameShots(shots: seq<FilmShot>)
    ensures forall s :: s in FilmOrder(shots) <==> s in shots
  {
    FilmOrderIsSorted(shots);
    forall s ensures s in FilmOrder(shots) <==> s in shots {
      assert s in multiset(FilmOrder(shots)) <==> s in multiset(shots);
    }
  }

  lemma IsCutMeansCuttable(film: seq<FilmShot>, cut: seq<MediaPath>)
    requires IsCut(film, cut)
    ensures forall s :: s in film ==> Cuttable(s)
  {
    forall s | s in film ensures Cuttable(s) {
      var i :| 0 <= i < |film| && film[i] == s;
      assert ChosenClip(film[i], cut[i]);
    }
  }

  function UnpricedOf(takes: seq<Take>): nat {
    if takes == [] then 0
    else
      var last := takes[|takes| - 1];
      UnpricedOf(takes[..|takes| - 1]) + if last.cost.None? && last.media.Some? then 1 else 0
  }

  /** The takes that have media but no figure for it. */
  function WithoutFigure(takes: seq<Take>): set<int> {
    set k | 0 <= k < |takes| && takes[k].media.Some? && takes[k].cost.None?
  }

  lemma OneMoreTake(takes: seq<Take>, t: Take)
    ensures |WithoutFigure(takes + [t])| == |WithoutFigure(takes)| + if t.media.Some? && t.cost.None? then 1 else 0
  {
    var n, before, after := |takes|, WithoutFigure(takes), WithoutFigure(takes + [t]);
    assert n !in before;
    if t.media.Some? && t.cost.None? { assert after == before + {n}; } else { assert after == before; }
  }

  lemma {:induction false} UnpricedAreCounted(takes: seq<Take>)
    ensures UnpricedOf(takes) == |WithoutFigure(takes)|
  {
    if takes != [] {
      var n := |takes| - 1;
      UnpricedAreCounted(takes[..n]);
      OneMoreTake(takes[..n], takes[n]);
      assert takes == takes[..n] + [takes[n]];
    }
  }

  /** The audit's warning: it counts, over all shots, the takes that have media but no figure. */
  lemma {:induction false} UnpricedTakesAreCounted(shots: seq<FilmShot>, counts: seq<nat>)
    requires |counts| == |shots| && forall i :: 0 <= i < |shots| ==> counts[i] == |WithoutFigure(shots[i].takes)|
    ensures UnpricedTakes(shots) == Sum(counts)
  {
    if shots != [] {
      var n := |shots| - 1;
      UnpricedTakesAreCounted(shots[..n], counts[..n]);
      UnpricedAreCounted(shots[n].takes);
    }
  }

  function UnpricedTakes(shots: seq<FilmShot>): nat {
    if shots == [] then 0 else UnpricedTakes(shots[..|shots| - 1]) + UnpricedOf(shots[|shots| - 1].takes)
  }

  /** A pass that has ended asks for nothing more. */
  lemma {:induction false} RunPassStops(character: string, draw: View -> Answer, k: nat, n: nat)
    requires k <= n <= |VIEWS|
    ensures !RunPass(character, draw, k).end.Whole? ==> RunPass(character, draw, n) == RunPass(character, draw, k)
  {
    if k < n { RunPassStops(character, draw, k, n - 1); }
  }

  /** A casting run that raised goes no further. */
  lemma {:induction false} CastingStops(svc: Service, p: Project, script: nat -> View -> Answer, k: nat, n: nat)
    requires k <= n <= |p.characters|
    ensures !CastUpTo(svc, p, script, k).ok ==> CastUpTo(svc, p, script, n) == CastUpTo(svc, p, script, k)
  {
    if k < n { CastingStops(svc, p, script, k, n - 1); }
  }
}
