/**
 What every service action and every worker step keeps: the cast is sound, every shot's subject is in it, and takes are
 selected exactly where the shots say so.
 */
module FableInvariants {
  import opened Prelude
  import opened CinematicState
  import opened CostService
  import opened ReferenceSlots
  import opened FableModel
  import Parser = AdaptationParser
  import AdaptationService

  // ---- the invariant ---------------------------------------------------------------------------------------

  /** Actors are adults; an approved sheet, and a sheet that claims to describe its bible, has every view. */
  predicate SheetSound(c: Character) {
    c.adult && ((c.approved || c.fingerprint.Some?) ==> Complete(c.images))
  }

  ghost predicate UniqueNames(rows: seq<Character>) {
    forall i, j :: 0 <= i < j < |rows| ==> rows[i].name != rows[j].name
  }

  ghost predicate CastSound(rows: seq<Character>) {
    UniqueNames(rows) && forall c :: c in rows ==> SheetSound(c)
  }

  ghost predicate SubjectsCast(rows: seq<Character>, shots: seq<FilmShot>) {
    forall s :: s in shots ==> HasName(rows, s.subject)
  }

  /** Only a downloaded take has a cost, or is selected; at most one is selected, and then the shot says so. */
  ghost predicate ShotSound(s: FilmShot) {
    && (forall k :: 0 <= k < |s.takes| ==> if s.takes[k].status == Downloaded then s.takes[k].media.Some?
                                           else s.takes[k].cost.None?)
    && (forall k :: 0 <= k < |s.takes| && s.takes[k].selected ==> ChosenAt(s, k) && s.takes[k].status == Downloaded)
    && (s.status == Selected <==> exists k :: ChosenAt(s, k))
  }

  ghost predicate PlacesDistinct(shots: seq<FilmShot>) {
    forall i, j :: 0 <= i < j < |shots| ==> shots[i].place != shots[j].place
  }

  const CUT: set<ProjectStatus> := {Editing, FinalReview, Completed}

  ghost predicate FilmSound(p: Project) {
    && (forall s :: s in p.shots ==> ShotSound(s))
    && PlacesDistinct(p.shots)
    && (p.status in CUT ==> p.shots != [] && AllSelected(p.shots))
  }

  /** Before an adaptation is written there is nothing to cast and nothing to shoot. */
  ghost predicate Rooted(p: Project) {
    p.scenes == 0 ==> p.characters == [] && p.shots == [] && p.status in {Draft, Adapting, ProjectStatus.Cancelled}
  }

  ghost predicate Sound(p: Project) {
    CastSound(p.characters) && SubjectsCast(p.characters, p.shots) && FilmSound(p) && Rooted(p)
  }

  // ---- the cast --------------------------------------------------------------------------------------------

  /** Rows keep their places; the new row takes its namesake's, or the end. */
  lemma PutKeepsNames(rows: seq<Character>, row: Character)
    requires UniqueNames(rows)
    ensures var put := PutByName(rows, row);
            && UniqueNames(put) && row in put
            && |rows| <= |put| <= |rows| + 1
            && (forall i :: 0 <= i < |rows| ==> put[i] == if rows[i].name == row.name then row else rows[i])
            && (forall c :: c in put ==> c == row || c in rows)
  {
    var put := PutByName(rows, row);
    match Namesake(rows, row.name)
    case Some(i) => assert put[i] == row;
    case None =>
      assert put[|rows|] == row;
      assert forall i :: 0 <= i < |rows| ==> rows[i] in rows;
  }

  lemma PutIsSound(rows: seq<Character>, row: Character, shots: seq<FilmShot>)
    requires CastSound(rows) && SheetSound(row) && SubjectsCast(rows, shots)
    ensures CastSound(PutByName(rows, row)) && SubjectsCast(PutByName(rows, row), shots)
  {
    PutKeepsNames(rows, row);
    var put := PutByName(rows, row);
    forall s | s in shots ensures HasName(put, s.subject) {
      var c :| c in rows && c.name == s.subject;
      var i :| 0 <= i < |rows| && rows[i] == c;
      assert put[i] in put;
    }
  }

  lemma {:induction false} NewCastIsSound(models: seq<Parser.CharacterModel>)
    ensures CastSound(NewCast(models))
    ensures forall m :: m in models ==> HasName(NewCast(models), m.name)
    ensures forall c :: c in NewCast(models) ==> c.adult && !c.approved && c.cost.None?
  {
    if models != [] {
      var n := |models| - 1;
      var rows, row := NewCast(models[..n]), NewCharacter(models[n]);
      NewCastIsSound(models[..n]);
      PutKeepsNames(rows, row);
      forall m | m in models ensures HasName(NewCast(models), m.name) {
        if m.name == row.name {
          assert row in NewCast(models);
        } else {
          assert m in models[..n];
          var c :| c in rows && c.name == m.name;
          var i :| 0 <= i < |rows| && rows[i] == c;
          assert NewCast(models)[i] in NewCast(models);
        }
      }
    }
  }

  /** A row replaced by one of the same name. */
  lemma ReplacingKeepsTheCast(p: Project, i: nat, c: Character)
    requires i < |p.characters| && CastSound(p.characters) && SubjectsCast(p.characters, p.shots)
    requires c.name == p.characters[i].name && SheetSound(c)
    ensures CastSound(p.characters[i := c]) && SubjectsCast(p.characters[i := c], p.shots)
  {
    var rows := p.characters[i := c];
    assert forall k :: 0 <= k < |rows| ==> rows[k].name == p.characters[k].name;
    forall s | s in p.shots ensures HasName(rows, s.subject) {
      var a :| a in p.characters && a.name == s.subject;
      var k :| 0 <= k < |rows| && p.characters[k] == a;
      assert rows[k] in rows;
    }
  }

  lemma {:induction false} WholePassesAreComplete(character: string, draw: View -> Answer, k: nat)
    requires k <= |VIEWS| && RunPass(character, draw, k).end.Whole?
    ensures forall j :: 0 <= j < k ==> VIEWS[j] in RunPass(character, draw, k).images
  {
    if k > 0 { WholePassesAreComplete(character, draw, k - 1); }
  }

  /** Casting touches nothing but the cast, which it leaves sound, and the budget. */
  ghost predicate CastingMade(p: Project, q: Project) {
    && CastSound(q.characters) && SubjectsCast(q.characters, q.shots)
    && q == p.(characters := q.characters, budget := q.budget)
  }

  lemma CastOneKeepsTheCast(svc: Service, p: Project, i: nat, draw: View -> Answer)
    requires i < |p.characters| && CastSound(p.characters) && SubjectsCast(p.characters, p.shots)
    ensures CastingMade(p, CastOne(svc, p, i, draw).project)
  {
    var c := p.characters[i];
    assert c in p.characters;
    ReplacingKeepsTheCast(p, i, Reopened(c));
    var pass := RunPass(c.name, draw, |VIEWS|);
    if pass.end.Whole? {
      WholePassesAreComplete(c.name, draw, |VIEWS|);
      ReplacingKeepsTheCast(p, i, Filed(Reopened(c), pass, FingerprintOf(svc, p, c)));
    } else if pass.end.RefusedPass? {
      ReplacingKeepsTheCast(p, i, Filed(Reopened(c), pass, FingerprintOf(svc, p, c)));
    }
  }

  lemma {:induction false} CastingKeepsTheCast(svc: Service, p: Project, script: nat -> View -> Answer, n: nat)
    requires n <= |p.characters| && CastSound(p.characters) && SubjectsCast(p.characters, p.shots)
    ensures CastingMade(p, CastUpTo(svc, p, script, n).project)
  {
    if n > 0 {
      CastingKeepsTheCast(svc, p, script, n - 1);
      var before := CastUpTo(svc, p, script, n - 1);
      if before.ok {
        CastOneKeepsTheCast(svc, before.project, n - 1, script(n - 1));
        assert CastUpTo(svc, p, script, n).project == CastOne(svc, before.project, n - 1, script(n - 1)).project;
      }
    }
  }

  lemma {:induction false} CastingKeepsTheStatus(svc: Service, p: Project, script: nat -> View -> Answer, n: nat)
    requires n <= |p.characters|
    ensures CastUpTo(svc, p, script, n).project.status == p.status
  {
    if n > 0 { CastingKeepsTheStatus(svc, p, script, n - 1); }
  }

  lemma ReferencesKeep(svc: Service, p: Project, provider: ReferenceProvider, script: nat -> View -> Answer, lives: nat)
    requires Sound(p)
    ensures Sound(GenerateReferences(svc, p, provider, script, lives).project)
  {
    var n := if lives < |p.characters| then lives else |p.characters|;
    CastingKeepsTheCast(svc, p, script, n);
  }

  lemma DeletionKeeps(p: Project, i: nat)
    requires Sound(p)
    ensures Sound(DeleteCharacter(p, i).project)
  {
    if DeleteCharacter(p, i).ok {
      var rows := p.characters[..i] + p.characters[i + 1..];
      assert forall k :: 0 <= k < |rows| ==> rows[k] == p.characters[if k < i then k else k + 1];
      forall s | s in p.shots ensures HasName(rows, s.subject) {
        var c :| c in p.characters && c.name == s.subject;
        var k :| 0 <= k < |p.characters| && p.characters[k] == c;
        assert k != i;
        assert rows[if k < i then k else k - 1] == c;
      }
    }
  }

  lemma ReuseKeeps(p: Project, source: Character)
    requires Sound(p) && SheetSound(source)
    ensures Sound(ReuseCharacter(p, source).project)
  {
    PutIsSound(p.characters, Recast(source), p.shots);
  }

  lemma SheetReviewKeeps(p: Project, i: nat)
    requires Sound(p)
    ensures Sound(ApproveReference(p, i).project) && Sound(RejectReference(p, i).project)
  {
    if i < |p.characters| {
      var c := p.characters[i];
      assert c in p.characters;
      ReplacingKeepsTheCast(p, i, c.(approved := false, fingerprint := None));
      if Complete(c.images) { ReplacingKeepsTheCast(p, i, c.(approved := true)); }
    }
  }

  // ---- adaptation ------------------------------------------------------------------------------------------

  /** The film of scenes whose numbers do not collide. */
  ghost predicate WellNumbered(scenes: seq<Parser.SceneModel>) {
    && (forall i, j :: 0 <= i < j < |scenes| ==> scenes[i].order != scenes[j].order)
    && forall i, j, k :: 0 <= i < |scenes| && 0 <= j < k < |scenes[i].shots| ==>
                           scenes[i].shots[j].order != scenes[i].shots[k].order
  }

  /** The row holds this shot of this scene as the document has it, planned and with nothing generated. */
  predicate Holds(s: FilmShot, scene: Parser.SceneModel, shot: Parser.ShotModel) {
    && s.place == Place(scene.order, shot.order) && s.subject == shot.subject && s.plannedMs == shot.durationMs
    && s.status == Planned && s.takes == []
  }

  ghost predicate FromScene(scenes: seq<Parser.SceneModel>, s: FilmShot) {
    exists i, k :: 0 <= i < |scenes| && 0 <= k < |scenes[i].shots| && Holds(s, scenes[i], scenes[i].shots[k])
  }

  lemma AnotherScene(film: seq<FilmShot>, scene: Parser.SceneModel)
    requires PlacesDistinct(film) && forall s :: s in film ==> s.place.scene != scene.order
    requires forall j, k :: 0 <= j < k < |scene.shots| ==> scene.shots[j].order != scene.shots[k].order
    ensures PlacesDistinct(film + NewShots(scene.order, scene.shots))
  {
    var longer := film + NewShots(scene.order, scene.shots);
    forall i, j | 0 <= i < j < |longer| ensures longer[i].place != longer[j].place {
      assert i < |film| ==> film[i] in film;
    }
  }

  /** How many shots the scenes before have: where the next scene's rows begin. */
  function ShotsBefore(scenes: seq<Parser.SceneModel>): nat {
    if scenes == [] then 0 else ShotsBefore(scenes[..|scenes| - 1]) + |scenes[|scenes| - 1].shots|
  }

  /** The rows are the document's shots, each once, scene after scene. */
  lemma {:induction false} NewFilmHoldsEveryShot(scenes: seq<Parser.SceneModel>, i: nat, k: nat)
    requires i < |scenes| && k < |scenes[i].shots|
    ensures |NewFilm(scenes)| == ShotsBefore(scenes)
    ensures ShotsBefore(scenes[..i]) + k < |NewFilm(scenes)|
    ensures Holds(NewFilm(scenes)[ShotsBefore(scenes[..i]) + k], scenes[i], scenes[i].shots[k])
  {
    var n := |scenes| - 1;
    NewFilmIsAsLong(scenes[..n]);
    if i < n {
      NewFilmHoldsEveryShot(scenes[..n], i, k);
      assert scenes[..n][..i] == scenes[..i];
    }
  }

  lemma {:induction false} NewFilmIsAsLong(scenes: seq<Parser.SceneModel>)
    ensures |NewFilm(scenes)| == ShotsBefore(scenes)
  {
    if scenes != [] { NewFilmIsAsLong(scenes[..|scenes| - 1]); }
  }

  lemma {:induction false} NewFilmComesFromScenes(scenes: seq<Parser.SceneModel>)
    ensures forall s :: s in NewFilm(scenes) ==> FromScene(scenes, s)
  {
    if scenes != [] {
      var n := |scenes| - 1;
      NewFilmComesFromScenes(scenes[..n]);
      forall s | s in NewFilm(scenes) ensures FromScene(scenes, s) {
        if s in NewFilm(scenes[..n]) {
          var i, k :| 0 <= i < n && 0 <= k < |scenes[..n][i].shots|
                      && Holds(s, scenes[..n][i], scenes[..n][i].shots[k]);
          assert Holds(s, scenes[i], scenes[i].shots[k]);
        } else {
          var last := NewShots(scenes[n].order, scenes[n].shots);
          var k :| 0 <= k < |last| && last[k] == s;
          assert Holds(s, scenes[n], scenes[n].shots[k]);
        }
      }
    }
  }

  lemma {:induction false} NewFilmIsWellPlaced(scenes: seq<Parser.SceneModel>)
    requires WellNumbered(scenes)
    ensures PlacesDistinct(NewFilm(scenes))
  {
    if scenes != [] {
      var n := |scenes| - 1;
      NewFilmIsWellPlaced(scenes[..n]);
      NewFilmComesFromScenes(scenes[..n]);
      AnotherScene(NewFilm(scenes[..n]), scenes[n]);
    }
  }

  lemma NewFilmIsSound(doc: Parser.Document, q: Parser.Request)
    requires Parser.Meets(doc, q)
    ensures SubjectsCast(NewCast(doc.characters), NewFilm(doc.scenes)) && PlacesDistinct(NewFilm(doc.scenes))
    ensures forall s :: s in NewFilm(doc.scenes) ==> ShotSound(s) && s.takes == []
  {
    AdaptationService.AcceptedDocumentsAreStorable(doc, q);
    NewCastIsSound(doc.characters);
    NewFilmIsWellPlaced(doc.scenes);
    NewFilmComesFromScenes(doc.scenes);
    forall s | s in NewFilm(doc.scenes) ensures HasName(NewCast(doc.characters), s.subject) {
      var i, k :| 0 <= i < |doc.scenes| && 0 <= k < |doc.scenes[i].shots|
                  && Holds(s, doc.scenes[i], doc.scenes[i].shots[k]);
      MeetsDeclares(doc, q, i, k);
    }
  }

  /** Whatever was there is replaced: before there are scenes there is nothing to keep. */
  lemma WrittenAnew(p: Project, input: string, doc: Parser.Document)
    requires Rooted(p) && FinishAdaptation(p, input, doc).ok
    ensures FinishAdaptation(p, input, doc).project ==
            p.(status := StoryReview, adaptation := Some(input), style := doc.visualStyle, scenes := |doc.scenes|,
               characters := NewCast(doc.characters), shots := NewFilm(doc.scenes))
  {
  }

  lemma AdaptationKeeps(p: Project, input: string, doc: Parser.Document, q: Parser.Request)
    requires Sound(p) && doc.scenes != [] && Parser.Meets(doc, q)
    ensures Sound(FinishAdaptation(p, input, doc).project)
  {
    NewCastIsSound(doc.characters);
    NewFilmIsSound(doc, q);
    if FinishAdaptation(p, input, doc).ok { WrittenAnew(p, input, doc); }
  }

  lemma MeetsDeclares(doc: Parser.Document, q: Parser.Request, i: nat, k: nat)
    requires Parser.Meets(doc, q) && i < |doc.scenes| && k < |doc.scenes[i].shots|
    ensures HasName(NewCast(doc.characters), doc.scenes[i].shots[k].subject)
  {
    AdaptationService.AcceptedDocumentsAreStorable(doc, q);
    NewCastIsSound(doc.characters);
    assert doc.scenes[i].shots[k].subject in Parser.Names(doc);
    var m :| m in doc.characters && m.name == doc.scenes[i].shots[k].subject;
  }

  // ---- takes -----------------------------------------------------------------------------------------------

  lemma ChoosingKeepsTheShot(s: FilmShot, k: nat)
    requires ShotSound(s) && k < |s.takes| && s.takes[k].status == Downloaded
    ensures ShotSound(Choose(s, k)) && ChosenAt(Choose(s, k), k)
  {
    assert ChosenAt(Choose(s, k), k);
  }

  lemma UnchoosingKeepsTheShot(s: FilmShot, k: nat)
    requires ShotSound(s) && k < |s.takes| && s.takes[k].selected
    ensures ShotSound(Unchoose(s, k))
  {
    var t := Unchoose(s, k);
    assert ChosenAt(s, k);
    assert forall j :: 0 <= j < |t.takes| ==> !t.takes[j].selected;
  }

  /** A shot replaced by a sound one with its place and subject, in a project not yet cut or still wholly selected. */
  lemma ReplacingKeepsTheFilm(p: Project, i: nat, s: FilmShot)
    requires Sound(p) && i < |p.shots| && ShotSound(s)
    requires s.subject == p.shots[i].subject && s.place == p.shots[i].place
    requires p.status in CUT ==> s.status == Selected
    ensures Sound(WithShot(p, i, s))
  {
    var shots := p.shots[i := s];
    forall t | t in shots
      ensures HasName(p.characters, t.subject) && ShotSound(t) && (p.status in CUT ==> t.status == Selected)
    {
      var k :| 0 <= k < |shots| && shots[k] == t;
      assert p.shots[k] in p.shots;
    }
  }

  lemma SelectionKeeps(p: Project, i: nat, k: nat)
    requires Sound(p)
    ensures Sound(SelectTake(p, i, k).project)
  {
    if SelectTake(p, i, k).ok {
      ChoosingKeepsTheShot(p.shots[i], k);
      ReplacingKeepsTheFilm(p, i, Choose(p.shots[i], k));
    }
  }

  lemma DeselectionKeeps(p: Project, i: nat, k: nat)
    requires Sound(p)
    ensures Sound(DeselectTake(p, i, k).project)
  {
    if DeselectTake(p, i, k).ok {
      UnchoosingKeepsTheShot(p.shots[i], k);
      ReplacingKeepsTheFilm(p, i, Unchoose(p.shots[i], k));
    }
  }

  lemma MoveKeeps(p: Project, i: nat, to: ShotStatus)
    requires Sound(p)
    ensures Sound(WorkerMoves(p, i, to).project)
  {
    if WorkerMoves(p, i, to).ok {
      var s := p.shots[i];
      assert s in p.shots && ShotSound(s);
      var t := s.(status := to);
      assert forall k :: ChosenAt(t, k) <==> ChosenAt(s, k);
      ReplacingKeepsTheFilm(p, i, t);
    }
  }

  lemma OrderKeeps(svc: Service, p: Project, i: nat, charges: bool, quote: Option<Charge>)
    requires Sound(p)
    ensures Sound(WorkerOrders(svc, p, i, charges, quote).project)
  {
    if WorkerOrders(svc, p, i, charges, quote).ok {
      var s := p.shots[i];
      assert s in p.shots && ShotSound(s);
      var t := s.(status := Submitted);
      assert forall k :: ChosenAt(t, k) <==> ChosenAt(s, k);
      ReplacingKeepsTheFilm(p, i, t);
    }
  }

  lemma SubmitKeeps(p: Project, i: nat)
    requires Sound(p)
    ensures Sound(WorkerSubmits(p, i).project)
  {
    if WorkerSubmits(p, i).ok {
      var s := p.shots[i];
      assert s in p.shots && ShotSound(s);
      var t := s.(status := ShotGenerating, takes := s.takes + [Take(TakeSubmitted, None, None, false)]);
      forall k | 0 <= k < |t.takes| ensures !t.takes[k].selected {
        assert k < |s.takes| ==> t.takes[k] == s.takes[k] && !ChosenAt(s, k);
      }
      ReplacingKeepsTheFilm(p, i, t);
    }
  }

  /** A take that was only submitted is not a selected one, so settling it leaves the selection alone. */
  lemma SettleKeeps(p: Project, i: nat, k: nat, how: Settlement)
    requires Sound(p)
    ensures Sound(WorkerSettles(p, i, k, how).project)
  {
    if WorkerSettles(p, i, k, how).ok {
      var s := p.shots[i];
      assert s in p.shots && ShotSound(s);
      var t := WorkerSettles(p, i, k, how).project.shots[i];
      assert forall j :: 0 <= j < |s.takes| && j != k ==> t.takes[j] == s.takes[j];
      assert forall j :: 0 <= j < |s.takes| ==> t.takes[j].selected == s.takes[j].selected;
      assert !s.takes[k].selected;
      assert forall j :: ChosenAt(t, j) <==> ChosenAt(s, j);
      ReplacingKeepsTheFilm(p, i, t);
    }
  }

  lemma ReadyingKeepsTheShot(s: FilmShot)
    requires ShotSound(s)
    ensures ShotSound(MadeReady(s)) && MadeReady(s).subject == s.subject
  {
    assert forall j :: ChosenAt(MadeReady(s), j) <==> ChosenAt(s, j);
  }

  lemma ShotApprovalKeeps(svc: Service, p: Project, pricing: Pricing)
    requires Sound(p)
    ensures Sound(ApproveShots(svc, p, pricing).project)
  {
    var r := ApproveShots(svc, p, pricing);
    if r.ok {
      forall s | s in r.project.shots ensures HasName(p.characters, s.subject) && ShotSound(s) {
        var k :| 0 <= k < |p.shots| && r.project.shots[k] == s;
        assert p.shots[k] in p.shots;
        ReadyingKeepsTheShot(p.shots[k]);
      }
    }
  }

  // ---- every step, every run -------------------------------------------------------------------------------

  /** A reused actor comes with a sound sheet, as every row of every project does: see FableWorld. */
  predicate SourceSound(a: Action) {
    a.CharacterReused? ==> SheetSound(a.source)
  }

  lemma MoveKeepsSound(p: Project, to: ProjectStatus)
    requires Sound(p) && (to in CUT ==> p.status in CUT || to !in AllowedProject(p.status))
    requires to != StoryReview && to != ProjectFailed
    ensures Sound(Move(p, to).project)
  {
  }

  /** The cut statuses are entered only from one another. */
  lemma CastApprovalKeeps(p: Project)
    requires Sound(p)
    ensures Sound(ApproveCharacters(p).project)
  {
    MoveKeepsSound(p, Storyboarding);
    MoveKeepsSound(Move(p, Storyboarding).project, ShotReview);
  }

  lemma TakesLeaveTheCast(svc: Service, p: Project, a: Action)
    requires TouchesTakes(a)
    ensures var q := TakeStep(svc, p, a).project;
            q.characters == p.characters && q.style == p.style && q.scenes == p.scenes
  {
  }

  lemma WorkLeavesTheCast(svc: Service, p: Project, a: Action)
    requires IsWork(a)
    ensures var q := WorkStep(svc, p, a).project;
            q.characters == p.characters && q.style == p.style && q.scenes == p.scenes
  {
  }

  lemma OthersLeaveTheCast(svc: Service, p: Project, a: Action)
    requires !TouchesCast(a)
    ensures var q := Step(svc, p, a).project;
            q.characters == p.characters && q.style == p.style && q.scenes == p.scenes
  {
    if TouchesTakes(a) { TakesLeaveTheCast(svc, p, a); }
    else if IsWork(a) { WorkLeavesTheCast(svc, p, a); }
  }

  lemma CastStepKeepsSound(svc: Service, p: Project, a: Action)
    requires Sound(p) && SourceSound(a) && TouchesCast(a)
    ensures Sound(CastStep(svc, p, a).project)
  {
    match a
    case AdaptationFinishes(input, doc, q) =>
      if doc.scenes != [] && Parser.Meets(doc, q) { AdaptationKeeps(p, input, doc, q); }
    case ReferencesGenerated(provider, script, lives) => ReferencesKeep(svc, p, provider, script, lives);
    case ReferenceApproved(i) => SheetReviewKeeps(p, i);
    case ReferenceRejected(i) => SheetReviewKeeps(p, i);
    case CharacterReused(source) => ReuseKeeps(p, source);
    case CharacterDeleted(i) => DeletionKeeps(p, i);
  }

  lemma TakeStepKeepsSound(svc: Service, p: Project, a: Action)
    requires Sound(p) && TouchesTakes(a)
    ensures Sound(TakeStep(svc, p, a).project)
  {
    match a
    case ShotsApproved(pricing) => ShotApprovalKeeps(svc, p, pricing);
    case TakeSelected(i, k) => SelectionKeeps(p, i, k);
    case TakeDeselected(i, k) => DeselectionKeeps(p, i, k);
  }

  lemma WorkStepKeepsSound(svc: Service, p: Project, a: Action)
    requires Sound(p) && IsWork(a)
    ensures Sound(WorkStep(svc, p, a).project)
  {
    match a
    case ShotMoves(i, to) => MoveKeeps(p, i, to);
    case TakeOrdered(i, charges, quote) => OrderKeeps(svc, p, i, charges, quote);
    case TakeSubmits(i) => SubmitKeeps(p, i);
    case TakeSettles(i, k, how) => SettleKeeps(p, i, k, how);
  }

  lemma ProjectStepKeepsSound(p: Project, a: Action)
    requires Sound(p) && !TouchesCast(a) && !TouchesTakes(a) && !IsWork(a)
    ensures Sound(ProjectStep(p, a).project)
  {
    match a
    case CharactersApproved => CastApprovalKeeps(p);
    case AdaptationStarts(_) => MoveKeepsSound(p, Adapting);
    case StoryApproved => MoveKeepsSound(p, Casting);
    case FinalRendered(_) => MoveKeepsSound(p, FinalReview);
    case FinalApproved => MoveKeepsSound(p, Completed);
    case ProjectCancelled => MoveKeepsSound(p, ProjectStatus.Cancelled);
    case GenerationEnds => MoveKeepsSound(p, TakeReview);
    case BudgetIsSet(_, _) =>
  }

  lemma StepKeepsSound(svc: Service, p: Project, a: Action)
    requires Sound(p) && SourceSound(a)
    ensures Sound(Step(svc, p, a).project)
  {
    if TouchesCast(a) { CastStepKeepsSound(svc, p, a); }
    else if TouchesTakes(a) { TakeStepKeepsSound(svc, p, a); }
    else if IsWork(a) { WorkStepKeepsSound(svc, p, a); }
    else { ProjectStepKeepsSound(p, a); }
  }

  lemma {:induction false} RunsKeepSound(svc: Service, p: Project, actions: seq<Action>)
    requires Sound(p) && forall a :: a in actions ==> SourceSound(a)
    ensures Sound(Run(svc, p, actions))
  {
    if actions != [] {
      var n := |actions| - 1;
      RunsKeepSound(svc, p, actions[..n]);
      StepKeepsSound(svc, Run(svc, p, actions[..n]), actions[n]);
    }
  }

  // ---- film order ------------------------------------------------------------------------------------------

  ghost predicate Ascending(shots: seq<FilmShot>) {
    forall i, j :: 0 <= i < j < |shots| ==> !Precedes(shots[j].place, shots[i].place)
  }

  lemma {:induction false} InsertionKeepsShots(shots: seq<FilmShot>, s: FilmShot)
    ensures multiset(Inserted(shots, s)) == multiset(shots) + multiset{s}
    ensures forall t :: t in Inserted(shots, s) <==> t in shots || t == s
  {
    if shots != [] && Precedes(s.place, shots[|shots| - 1].place) {
      assert shots == shots[..|shots| - 1] + [shots[|shots| - 1]];
      InsertionKeepsShots(shots[..|shots| - 1], s);
    }
  }

  lemma {:induction false} InsertionKeepsOrder(shots: seq<FilmShot>, s: FilmShot)
    requires Ascending(shots)
    ensures Ascending(Inserted(shots, s))
  {
    if shots != [] && Precedes(s.place, shots[|shots| - 1].place) {
      var rest, last := shots[..|shots| - 1], shots[|shots| - 1];
      assert shots == rest + [last];
      InsertionKeepsOrder(rest, s);
      InsertionKeepsShots(rest, s);
      forall i | 0 <= i < |Inserted(rest, s)| ensures !Precedes(last.place, Inserted(rest, s)[i].place) {
        assert Inserted(rest, s)[i] in Inserted(rest, s);
      }
    }
  }

  lemma {:induction false} FilmOrderIsSorted(shots: seq<FilmShot>)
    ensures Ascending(FilmOrder(shots)) && multiset(FilmOrder(shots)) == multiset(shots)
  {
    if shots != [] {
      var n := |shots| - 1;
      assert shots == shots[..n] + [shots[n]];
      FilmOrderIsSorted(shots[..n]);
      InsertionKeepsOrder(FilmOrder(shots[..n]), shots[n]);
      InsertionKeepsShots(FilmOrder(shots[..n]), shots[n]);
    }
  }

  lemma {:induction false} InsertionKeepsDistinct(shots: seq<FilmShot>, s: FilmShot)
    requires PlacesDistinct(shots) && forall t :: t in shots ==> t.place != s.place
    ensures PlacesDistinct(Inserted(shots, s))
  {
    if shots != [] && Precedes(s.place, shots[|shots| - 1].place) {
      var rest, last := shots[..|shots| - 1], shots[|shots| - 1];
      assert shots == rest + [last];
      InsertionKeepsDistinct(rest, s);
      InsertionKeepsShots(rest, s);
      assert forall i :: 0 <= i < |Inserted(rest, s)| ==> Inserted(rest, s)[i] in Inserted(rest, s);
    }
  }

  lemma {:induction false} FilmOrderIsDistinct(shots: seq<FilmShot>)
    requires PlacesDistinct(shots)
    ensures PlacesDistinct(FilmOrder(shots)) && forall s :: s in FilmOrder(shots) <==> s in shots
  {
    if shots != [] {
      var n := |shots| - 1;
      assert shots == shots[..n] + [shots[n]];
      FilmOrderIsDistinct(shots[..n]);
      InsertionKeepsDistinct(FilmOrder(shots[..n]), shots[n]);
      InsertionKeepsShots(FilmOrder(shots[..n]), shots[n]);
    }
  }

  /** Every sound project has one film: all its shots, each strictly after the one before in the story. */
  lemma FilmFollowsTheStory(p: Project)
    requires Sound(p)
    ensures var film := FilmOrder(p.shots);
            && multiset(film) == multiset(p.shots)
            && forall i, j :: 0 <= i < j < |film| ==> Precedes(film[i].place, film[j].place)
  {
    FilmOrderIsSorted(p.shots);
    FilmOrderIsDistinct(p.shots);
  }
}
