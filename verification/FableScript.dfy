/**
 The script of a film: what an adaptation writes, row by row, and that nothing rewrites it afterwards -- the film that
 is shot and cut is the one document that was adapted. core/fable_service.py:393-555.
 */
module FableScript {
  import opened Prelude
  import opened CinematicState
  import opened CostService
  import opened ReferenceSlots
  import opened FableModel
  import opened FableInvariants
  import opened FableGates
  import Parser = AdaptationParser
  import AdaptationService

  // ---- what is written -------------------------------------------------------------------------------------

  /** The j-th character of the document is the last of its name, and this is its row: nothing drawn or decided. */
  predicate Introduces(models: seq<Parser.CharacterModel>, j: nat, c: Character) {
    && j < |models| && models[j].name == c.name && models[j].bible == c.bible
    && (forall l :: j < l < |models| ==> models[l].name != c.name)
    && c.adult && !c.approved && !c.refused && c.images == map[] && c.fingerprint.None? && c.cost.None?
  }

  lemma {:induction false} EveryRowIsIntroduced(models: seq<Parser.CharacterModel>, c: Character) returns (j: nat)
    requires c in NewCast(models)
    ensures Introduces(models, j, c)
  {
    var n := |models| - 1;
    var rows, row := NewCast(models[..n]), NewCharacter(models[n]);
    NewCastIsSound(models[..n]);
    if c == row {
      j := n;
    } else {
      NamesakesAreReplaced(rows, row, c);
      j := EveryRowIsIntroduced(models[..n], c);
      StillIntroduced(models, j, c);
    }
  }

  lemma StillIntroduced(models: seq<Parser.CharacterModel>, j: nat, c: Character)
    requires models != [] && models[|models| - 1].name != c.name && Introduces(models[..|models| - 1], j, c)
    ensures Introduces(models, j, c)
  {
    assert models[..|models| - 1][j] == models[j];
    assert forall l :: j < l < |models| - 1 ==> models[..|models| - 1][l] == models[l];
  }

  lemma NamesakesAreReplaced(rows: seq<Character>, row: Character, c: Character)
    requires UniqueNames(rows) && c in PutByName(rows, row) && c != row
    ensures c in rows && c.name != row.name
  {
    PutKeepsNames(rows, row);
    var put := PutByName(rows, row);
    var i :| 0 <= i < |put| && put[i] == c;
    assert i < |rows| ==> put[i] == if rows[i].name == row.name then row else rows[i];
  }

  /** Every shot of the document has its own row, there are no others, and no two rows share a place in the film. */
  ghost predicate ShotsWritten(shots: seq<FilmShot>, scenes: seq<Parser.SceneModel>) {
    && |shots| == ShotsBefore(scenes)
    && (forall i, k :: 0 <= i < |scenes| && 0 <= k < |scenes[i].shots| ==> HeldAt(shots, scenes, i, k))
    && (forall s :: s in shots ==> FromScene(scenes, s))
    && PlacesDistinct(shots)
  }

  /** Its row comes after those of the scenes before and of the earlier shots of its scene. */
  ghost predicate HeldAt(shots: seq<FilmShot>, scenes: seq<Parser.SceneModel>, i: nat, k: nat)
    requires i < |scenes| && k < |scenes[i].shots|
  {
    var at := ShotsBefore(scenes[..i]) + k;
    at < |shots| && Holds(shots[at], scenes[i], scenes[i].shots[k])
  }

  /** Everyone the document declares, once, as it last describes them, and nobody else. */
  ghost predicate CastWritten(cast: seq<Character>, models: seq<Parser.CharacterModel>) {
    && UniqueNames(cast)
    && (forall m :: m in models ==> HasName(cast, m.name))
    && (forall c :: c in cast ==> exists j: nat :: Introduces(models, j, c))
  }

  lemma CastIsWritten(models: seq<Parser.CharacterModel>)
    ensures CastWritten(NewCast(models), models)
  {
    NewCastIsSound(models);
    forall c | c in NewCast(models) ensures exists j: nat :: Introduces(models, j, c) {
      var j := EveryRowIsIntroduced(models, c);
    }
  }

  lemma ShotsAreWritten(doc: Parser.Document, q: Parser.Request)
    requires Parser.Meets(doc, q)
    ensures ShotsWritten(NewFilm(doc.scenes), doc.scenes)
  {
    AdaptationService.AcceptedDocumentsAreStorable(doc, q);
    NewFilmIsWellPlaced(doc.scenes);
    NewFilmComesFromScenes(doc.scenes);
    NewFilmIsAsLong(doc.scenes);
    forall i, k | 0 <= i < |doc.scenes| && 0 <= k < |doc.scenes[i].shots|
      ensures HeldAt(NewFilm(doc.scenes), doc.scenes, i, k)
    {
      NewFilmHoldsEveryShot(doc.scenes, i, k);
    }
  }

  /** An adaptation is written exactly while the project is adapting and no shot it would replace has a take. */
  lemma AdaptationAcceptedExactlyWhen(p: Project, input: string, doc: Parser.Document)
    ensures FinishAdaptation(p, input, doc).ok <==>
              p.status == Adapting && (p.scenes > 0 ==> forall s :: s in p.shots ==> s.takes == [])
    ensures !FinishAdaptation(p, input, doc).ok ==> FinishAdaptation(p, input, doc).project == p
  {
  }

  /** What an accepted adaptation leaves, in place of whatever was there: the input, and the document row by row. */
  lemma AdaptationIsWritten(p: Project, input: string, doc: Parser.Document, q: Parser.Request)
    requires Sound(p) && Parser.Meets(doc, q) && FinishAdaptation(p, input, doc).ok
    ensures var end := FinishAdaptation(p, input, doc).project;
            && end.status == StoryReview && end.adaptation == Some(input) && end.style == doc.visualStyle
            && end.scenes == |doc.scenes| && end.budget == p.budget && end.takesPerShot == p.takesPerShot
            && ShotsWritten(end.shots, doc.scenes) && CastWritten(end.characters, doc.characters)
  {
    var end := FinishAdaptation(p, input, doc).project;
    WrittenAnew(p, input, doc);
    CastIsWritten(doc.characters);
    ShotsAreWritten(doc, q);
  }

  /** Adapting again: refused for another input, and for the same one answered without calling the director. */
  lemma AdaptingAgain(p: Project, input: string)
    ensures var r := StartAdaptation(p, input);
            && (p.status == Draft ==> r.ok && r.project == p.(status := Adapting))
            && (p.status != Draft ==> r.project == p)
            && (r.ok <==> p.status in {Draft, Adapting} || p.scenes == 0 || p.adaptation == Some(input))
  {
  }

  // ---- nothing rewrites it ---------------------------------------------------------------------------------

  /** The same shots, each in its place, about the same subject, and as long. */
  ghost predicate SameScript(shots: seq<FilmShot>, later: seq<FilmShot>) {
    && |later| == |shots|
    && forall i :: 0 <= i < |shots| ==>
         later[i].place == shots[i].place && later[i].subject == shots[i].subject
         && later[i].plannedMs == shots[i].plannedMs
  }

  lemma CastStepsKeepTheScript(svc: Service, p: Project, a: Action)
    requires TouchesCast(a) && (a.AdaptationFinishes? ==> !CastStep(svc, p, a).ok)
    ensures var q := CastStep(svc, p, a).project;
            q.shots == p.shots && q.adaptation == p.adaptation && q.style == p.style
  {
    if a.ReferencesGenerated? {
      var n := if a.lives < |p.characters| then a.lives else |p.characters|;
      CastingChangesTheCastAlone(svc, p, a.script, n);
    }
  }

  lemma {:induction false} CastingChangesTheCastAlone(svc: Service, p: Project, script: nat -> View -> Answer, n: nat)
    requires n <= |p.characters|
    ensures var q := CastUpTo(svc, p, script, n).project; q == p.(characters := q.characters, budget := q.budget)
  {
    if n > 0 { CastingChangesTheCastAlone(svc, p, script, n - 1); }
  }

  lemma TakeStepsKeepTheScript(svc: Service, p: Project, a: Action)
    requires TouchesTakes(a)
    ensures var q := TakeStep(svc, p, a).project;
            SameScript(p.shots, q.shots) && q.adaptation == p.adaptation && q.style == p.style
  {
  }

  lemma WorkStepsKeepTheScript(svc: Service, p: Project, a: Action)
    requires IsWork(a)
    ensures var q := WorkStep(svc, p, a).project;
            SameScript(p.shots, q.shots) && q.adaptation == p.adaptation && q.style == p.style
  {
  }

  lemma ProjectStepsKeepTheScript(p: Project, a: Action)
    requires !TouchesCast(a) && !TouchesTakes(a) && !IsWork(a)
    ensures var q := ProjectStep(p, a).project;
            q.shots == p.shots && q.adaptation == p.adaptation && q.style == p.style
  {
  }

  lemma StepKeepsTheScript(svc: Service, p: Project, a: Action)
    requires a.AdaptationFinishes? ==> !Step(svc, p, a).ok
    ensures var q := Step(svc, p, a).project;
            SameScript(p.shots, q.shots) && q.adaptation == p.adaptation && q.style == p.style
  {
    if TouchesCast(a) { CastStepsKeepTheScript(svc, p, a); }
    else if TouchesTakes(a) { TakeStepsKeepTheScript(svc, p, a); }
    else if IsWork(a) { WorkStepsKeepTheScript(svc, p, a); }
    else { ProjectStepsKeepTheScript(p, a); }
  }

  /** No adaptation was accepted from the j-th action to the n-th. */
  ghost predicate NoneAdapted(svc: Service, p: Project, actions: seq<Action>, j: nat, n: nat)
    requires n <= |actions|
  {
    forall k :: j <= k < n && actions[k].AdaptationFinishes? ==> !Accepted(svc, p, actions, k)
  }

  lemma {:induction false} RunsKeepTheScript(svc: Service, p: Project, actions: seq<Action>, j: nat, n: nat)
    requires j <= n <= |actions| && NoneAdapted(svc, p, actions, j, n)
    ensures var before, after := After(svc, p, actions, j), After(svc, p, actions, n);
            && SameScript(before.shots, after.shots)
            && after.adaptation == before.adaptation && after.style == before.style
    decreases n
  {
    if j < n {
      RunsKeepTheScript(svc, p, actions, j, n - 1);
      AfterOneMore(svc, p, actions, n - 1);
      StepKeepsTheScript(svc, After(svc, p, actions, n - 1), actions[n - 1]);
    }
  }

  /** The rows of the film are the document's shots as it has them, whatever was generated for them since. */
  ghost predicate Films(p: Project, doc: Parser.Document) {
    && |p.shots| == ShotsBefore(doc.scenes) && p.style == doc.visualStyle
    && forall i, k :: 0 <= i < |doc.scenes| && 0 <= k < |doc.scenes[i].shots| ==> FilmedAt(p.shots, doc.scenes, i, k)
  }

  ghost predicate FilmedAt(shots: seq<FilmShot>, scenes: seq<Parser.SceneModel>, i: nat, k: nat)
    requires i < |scenes| && k < |scenes[i].shots|
  {
    var at, shot := ShotsBefore(scenes[..i]) + k, scenes[i].shots[k];
    && at < |shots| && shots[at].place == Place(scenes[i].order, shot.order)
    && shots[at].subject == shot.subject && shots[at].plannedMs == shot.durationMs
  }

  lemma SameScriptFilms(p: Project, later: Project, doc: Parser.Document)
    requires ShotsWritten(p.shots, doc.scenes) && p.style == doc.visualStyle
    requires SameScript(p.shots, later.shots) && later.style == p.style
    ensures Films(later, doc)
  {
    forall i, k | 0 <= i < |doc.scenes| && 0 <= k < |doc.scenes[i].shots|
      ensures FilmedAt(later.shots, doc.scenes, i, k)
    {
      assert HeldAt(p.shots, doc.scenes, i, k);
    }
  }

  lemma AdaptedDocumentIsFilmed(svc: Service, p: Project, actions: seq<Action>, m: nat, n: nat)
    requires Sound(p) && m < n <= |actions| && actions[m].AdaptationFinishes? && Accepted(svc, p, actions, m)
    requires Sound(After(svc, p, actions, m)) && NoneAdapted(svc, p, actions, m + 1, n)
    ensures Films(After(svc, p, actions, n), actions[m].doc)
    ensures After(svc, p, actions, n).adaptation == Some(actions[m].input)
  {
    var before, a := After(svc, p, actions, m), actions[m];
    AfterOneMore(svc, p, actions, m);
    AdaptationIsWritten(before, a.input, a.doc, a.q);
    RunsKeepTheScript(svc, p, actions, m + 1, n);
    SameScriptFilms(After(svc, p, actions, m + 1), After(svc, p, actions, n), a.doc);
  }

  /**
   At any point of any run from creation at which the project is in production, its film is the one document that was
   ever adapted for it: every shot of it, in its place, with its subject and at its length, and nothing else.
   */
  lemma ProductionFilmsTheAdaptation(svc: Service, takes: Option<nat>, actions: seq<Action>, n: nat)
    returns (adapted: nat)
    requires n <= |actions| && InProduction(After(svc, NewProject(takes), actions, n).status)
    requires forall a :: a in actions ==> SourceSound(a)
    ensures adapted < n && actions[adapted].AdaptationFinishes? && Accepted(svc, NewProject(takes), actions, adapted)
    ensures Films(After(svc, NewProject(takes), actions, n), actions[adapted].doc)
    ensures After(svc, NewProject(takes), actions, n).adaptation == Some(actions[adapted].input)
  {
    var p := NewProject(takes);
    assert Sound(p);
    var story, cast, shots;
    adapted, story, cast, shots := ProductionWasApproved(svc, takes, actions, n);
    RunsKeepSound(svc, p, actions[..adapted]);
    AdaptedDocumentIsFilmed(svc, p, actions, adapted, n);
  }
}
