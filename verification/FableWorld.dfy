/** Every project of the database at once: an actor is reused from a row of another project. */
module FableWorld {
  import opened Prelude
  import opened CinematicState
  import opened FableModel
  import opened FableInvariants

  datatype WorldAction =
    | Created(takesPerShot: Option<nat>)
    | On(project: nat, action: Action)
    | Reused(project: nat, from: nat, character: nat)

  ghost function WorldStep(svc: Service, world: seq<Project>, a: WorldAction): seq<Project> {
    match a
    case Created(takes) => world + [NewProject(takes)]
    case On(j, action) =>
      if j >= |world| || action.CharacterReused? then world
      else world[j := Step(svc, world[j], action).project]
    case Reused(j, from, i) =>
      if j >= |world| || from >= |world| || from == j || i >= |world[from].characters| then world
      else world[j := Step(svc, world[j], CharacterReused(world[from].characters[i])).project]
  }

  ghost function WorldRunFrom(svc: Service, world: seq<Project>, actions: seq<WorldAction>): seq<Project> {
    if actions == [] then world
    else WorldStep(svc, WorldRunFrom(svc, world, actions[..|actions| - 1]), actions[|actions| - 1])
  }

  /** A run from the empty database. */
  ghost function WorldRun(svc: Service, actions: seq<WorldAction>): seq<Project> {
    WorldRunFrom(svc, [], actions)
  }

  /** Only rows of other projects are offered for reuse, and a reuse never changes the project the row comes from. */
  lemma ActorsComeFromElsewhere(svc: Service, world: seq<Project>, j: nat, from: nat, i: nat)
    requires from < |world|
    ensures var after := WorldStep(svc, world, Reused(j, from, i));
            && |after| == |world| && after[from] == world[from] && (from == j ==> after == world)
            && forall k :: 0 <= k < |world| && k != j ==> after[k] == world[k]
  {
  }

  lemma WorldStepKeepsSound(svc: Service, world: seq<Project>, a: WorldAction)
    requires forall p :: p in world ==> Sound(p)
    ensures forall p :: p in WorldStep(svc, world, a) ==> Sound(p)
  {
    match a
    case Created(takes) => assert Sound(NewProject(takes));
    case On(j, action) =>
      if j < |world| && !action.CharacterReused? { StepKeepsSound(svc, world[j], action); }
    case Reused(j, from, i) =>
      if j < |world| && from < |world| && i < |world[from].characters| {
        assert world[from] in world && world[from].characters[i] in world[from].characters;
        StepKeepsSound(svc, world[j], CharacterReused(world[from].characters[i]));
      }
  }

  lemma {:induction false} WorldRunsKeepSound(svc: Service, world: seq<Project>, actions: seq<WorldAction>)
    requires forall p :: p in world ==> Sound(p)
    ensures forall p :: p in WorldRunFrom(svc, world, actions) ==> Sound(p)
  {
    if actions != [] {
      WorldRunsKeepSound(svc, world, actions[..|actions| - 1]);
      WorldStepKeepsSound(svc, WorldRunFrom(svc, world, actions[..|actions| - 1]), actions[|actions| - 1]);
    }
  }

  lemma ReachableIsSound(svc: Service, actions: seq<WorldAction>)
    ensures forall p :: p in WorldRun(svc, actions) ==> Sound(p)
  {
    WorldRunsKeepSound(svc, [], actions);
  }

  /** What a step of the database does to its j-th project: the action on it, or the reuse of a row of that moment. */
  ghost function OwnStep(world: seq<Project>, a: WorldAction, j: nat): seq<Action>
    requires j < |world|
  {
    match a
    case Created(_) => []
    case On(i, action) => if i == j && !action.CharacterReused? then [action] else []
    case Reused(i, from, c) =>
      if i == j && from < |world| && from != j && c < |world[from].characters|
      then [CharacterReused(world[from].characters[c])] else []
  }

  /** Project j's own history in a run of the database. */
  ghost function Own(svc: Service, world: seq<Project>, actions: seq<WorldAction>, j: nat): seq<Action> {
    if actions == [] then []
    else
      var n := |actions| - 1;
      var before := WorldRunFrom(svc, world, actions[..n]);
      Own(svc, world, actions[..n], j) + if j < |before| then OwnStep(before, actions[n], j) else []
  }

  /** Project j when the run of the database began, or when it was created in it. */
  ghost function First(svc: Service, world: seq<Project>, actions: seq<WorldAction>, j: nat): Project
    requires j < |WorldRunFrom(svc, world, actions)|
  {
    if actions == [] then world[j]
    else
      var n := |actions| - 1;
      if j < |WorldRunFrom(svc, world, actions[..n])| then First(svc, world, actions[..n], j)
      else WorldRunFrom(svc, world, actions)[j]
  }

  lemma OwnStepIsTheStep(svc: Service, world: seq<Project>, a: WorldAction, j: nat)
    requires j < |world| && forall p :: p in world ==> Sound(p)
    ensures var own := OwnStep(world, a, j);
            && j < |WorldStep(svc, world, a)| && |own| <= 1 && (forall act :: act in own ==> SourceSound(act))
            && WorldStep(svc, world, a)[j] == if own == [] then world[j] else Step(svc, world[j], own[0]).project
  {
    if a.Reused? && a.from < |world| && a.character < |world[a.from].characters| {
      assert world[a.from] in world && world[a.from].characters[a.character] in world[a.from].characters;
    }
  }

  /** What happens to one project while the whole database runs is the run of its own history alone. */
  lemma {:induction false} ProjectsRunAlone(svc: Service, world: seq<Project>, actions: seq<WorldAction>, j: nat)
    requires j < |WorldRunFrom(svc, world, actions)| && forall p :: p in world ==> Sound(p)
    ensures forall act :: act in Own(svc, world, actions, j) ==> SourceSound(act)
    ensures WorldRunFrom(svc, world, actions)[j] == Run(svc, First(svc, world, actions, j), Own(svc, world, actions, j))
    ensures if j < |world| then First(svc, world, actions, j) == world[j]
            else exists takes :: First(svc, world, actions, j) == NewProject(takes)
  {
    if actions != [] {
      var n := |actions| - 1;
      var before := WorldRunFrom(svc, world, actions[..n]);
      WorldRunsKeepSound(svc, world, actions[..n]);
      WorldGrows(svc, world, actions[..n]);
      if j < |before| {
        ProjectsRunAlone(svc, world, actions[..n], j);
        OwnStepIsTheStep(svc, before, actions[n], j);
        OneMoreStep(svc, First(svc, world, actions[..n], j), Own(svc, world, actions[..n], j),
                    OwnStep(before, actions[n], j));
      } else {
        NothingBeforeCreation(svc, world, actions, j);
      }
    }
  }

  lemma OneMoreStep(svc: Service, start: Project, acts: seq<Action>, last: seq<Action>)
    requires |last| <= 1
    ensures Run(svc, start, acts + last) ==
            if last == [] then Run(svc, start, acts) else Step(svc, Run(svc, start, acts), last[0]).project
  {
    if last == [] { assert acts + last == acts; } else { assert (acts + last)[..|acts|] == acts; }
  }

  lemma {:induction false} NothingBeforeCreation(svc: Service, world: seq<Project>, actions: seq<WorldAction>, j: nat)
    requires actions != [] && |WorldRunFrom(svc, world, actions[..|actions| - 1])| <= j
    ensures Own(svc, world, actions, j) == []
  {
    var n := |actions| - 1;
    if n > 0 {
      var shorter := actions[..n];
      assert WorldRunFrom(svc, world, shorter) ==
             WorldStep(svc, WorldRunFrom(svc, world, shorter[..n - 1]), shorter[n - 1]);
      NothingBeforeCreation(svc, world, shorter, j);
    }
  }

  lemma {:induction false} WorldGrows(svc: Service, world: seq<Project>, actions: seq<WorldAction>)
    ensures |world| <= |WorldRunFrom(svc, world, actions)|
  {
    if actions != [] { WorldGrows(svc, world, actions[..|actions| - 1]); }
  }

  /** Names identify the characters of a cast, every shot's subject is one of them, and approval means a whole sheet. */
  lemma ReachableCasts(svc: Service, actions: seq<WorldAction>, p: Project)
    requires p in WorldRun(svc, actions)
    ensures forall i, j :: 0 <= i < j < |p.characters| ==> p.characters[i].name != p.characters[j].name
    ensures forall s :: s in p.shots ==> exists c :: c in p.characters && c.name == s.subject
    ensures forall c :: c in p.characters && c.approved ==> Complete(c.images)
  {
    ReachableIsSound(svc, actions);
    forall s | s in p.shots ensures exists c :: c in p.characters && c.name == s.subject {
      assert HasName(p.characters, s.subject);
    }
  }

  /**
   A shot is SELECTED exactly when exactly one of its takes is, that take has media, and a project being cut or already
   cut has every shot SELECTED; so the final render never misses a take: only its tools can fail it.
   */
  lemma ReachableSelections(svc: Service, actions: seq<WorldAction>, p: Project, toolsWork: bool)
    requires p in WorldRun(svc, actions)
    ensures forall s :: s in p.shots ==>
              && (s.status == Selected <==> exists k :: ChosenAt(s, k))
              && (s.status != Selected ==> forall t :: t in s.takes ==> !t.selected)
              && (s.status == Selected ==> Cuttable(s))
    ensures p.status in CUT ==> p.shots != [] && forall s :: s in p.shots ==> s.status == Selected
    ensures RenderFinal(p, toolsWork).ok <==> p.status == Editing && toolsWork
  {
    ReachableIsSound(svc, actions);
    forall s | s in p.shots
      ensures s.status == Selected ==> Cuttable(s)
      ensures s.status != Selected ==> forall t :: t in s.takes ==> !t.selected
    {
      assert ShotSound(s);
    }
  }
}

/** The guarantees about runs of one project, for every project of every reachable database. */
module FableDatabase {
  import opened Prelude
  import opened CinematicState
  import opened FableModel
  import opened FableInvariants
  import opened FableLedger
  import opened FableCasting
  import opened FableGates
  import opened FablePaidWork
  import opened FableScript
  import opened FableWorld

  /** A project's own history from its creation on. */
  lemma FromItsCreation(svc: Service, world: seq<WorldAction>, j: nat) returns (takes: Option<nat>)
    requires j < |WorldRun(svc, world)|
    ensures WorldRun(svc, world)[j] == Run(svc, NewProject(takes), Own(svc, [], world, j))
    ensures First(svc, [], world, j) == NewProject(takes)
    ensures forall act :: act in Own(svc, [], world, j) ==> SourceSound(act)
  {
    ProjectsRunAlone(svc, [], world, j);
    takes :| First(svc, [], world, j) == NewProject(takes);
  }

  /** Nothing was generated for any project of the database without three approvals in its own history. */
  lemma EveryProjectsShotsWereApproved(svc: Service, world: seq<WorldAction>, j: nat)
    returns (takes: Option<nat>, adapted: nat, story: nat, cast: nat, shots: nat)
    requires j < |WorldRun(svc, world)| && !Untouched(WorldRun(svc, world)[j])
    ensures First(svc, [], world, j) == NewProject(takes)
    ensures var acts := Own(svc, [], world, j);
            && ApprovedInOrder(svc, NewProject(takes), acts, adapted, story, cast, shots)
            && PaidForAt(svc, After(svc, NewProject(takes), acts, shots), acts[shots])
  {
    takes := FromItsCreation(svc, world, j);
    var acts := Own(svc, [], world, j);
    assert acts[..|acts|] == acts;
    adapted, story, cast, shots := GenerationWasApproved(svc, takes, acts, |acts|);
  }

  /** Nothing paid was set going for any project without the switch, a limit of its own, and a price that fits. */
  lemma EveryProjectsPaidWorkWasAllowed(svc: Service, world: seq<WorldAction>, j: nat, n: nat) returns (m: nat)
    requires j < |WorldRun(svc, world)| && n < |Own(svc, [], world, j)|
    requires var first, acts := First(svc, [], world, j), Own(svc, [], world, j);
             SetsPaidWorkGoing(svc, After(svc, first, acts, n), acts[n])
    ensures var first, acts := First(svc, [], world, j), Own(svc, [], world, j);
            && svc.allowPaid && LimitSetAt(svc, first, acts, m, n) && acts[m].limit.Some?
            && PriceFits(svc, After(svc, first, acts, n), acts[n])
  {
    var takes := FromItsCreation(svc, world, j);
    m := PaidWorkWasAllowed(svc, takes, Own(svc, [], world, j), n);
  }

  /** Every project in production films the one document that was adapted in its own history. */
  lemma EveryProductionFilmsItsAdaptation(svc: Service, world: seq<WorldAction>, j: nat) returns (adapted: nat)
    requires j < |WorldRun(svc, world)| && InProduction(WorldRun(svc, world)[j].status)
    ensures var first, acts := First(svc, [], world, j), Own(svc, [], world, j);
            && adapted < |acts| && acts[adapted].AdaptationFinishes? && Accepted(svc, first, acts, adapted)
            && Films(WorldRun(svc, world)[j], acts[adapted].doc)
            && WorldRun(svc, world)[j].adaptation == Some(acts[adapted].input)
  {
    var takes := FromItsCreation(svc, world, j);
    var acts := Own(svc, [], world, j);
    assert acts[..|acts|] == acts;
    adapted := ProductionFilmsTheAdaptation(svc, takes, acts, |acts|);
  }

  /** The money of every project of the database is accounted for in its own history. */
  lemma EveryProjectsSpendingIsAccountedFor(svc: Service, world: seq<WorldAction>, j: nat)
    requires j < |WorldRun(svc, world)|
    ensures var p, first, acts := WorldRun(svc, world)[j], First(svc, [], world, j), Own(svc, [], world, j);
            p.budget.spent + AllUnbooked(svc, first, acts) == Recorded(p) + AllDropped(svc, first, acts)
  {
    var takes := FromItsCreation(svc, world, j);
    SpendingIsAccountedFor(svc, takes, Own(svc, [], world, j));
  }

  /** A finished sheet survives whatever the rest of the database does, while its project's own history leaves it. */
  lemma EveryFinishedSheetIsSpared(svc: Service, before: seq<WorldAction>, actions: seq<WorldAction>, j: nat,
                                   c: Character)
    requires j < |WorldRun(svc, before)| && HasSheet(svc, WorldRun(svc, before)[j], c)
    requires var world := WorldRun(svc, before);
             AllLeave(svc, world[j], Own(svc, world, actions, j), c.name)
    ensures var world := WorldRun(svc, before);
            var after := WorldRunFrom(svc, world, actions);
            && j < |after| && HasSheet(svc, after[j], c)
            && !Asked(AllRequests(svc, world[j], Own(svc, world, actions, j)), c.name)
  {
    var world := WorldRun(svc, before);
    ReachableIsSound(svc, before);
    WorldGrows(svc, world, actions);
    ProjectsRunAlone(svc, world, actions, j);
    FinishedSheetsAreNeverRedrawn(svc, world[j], Own(svc, world, actions, j), c);
  }
}

/** When takes can be chosen and un-chosen: core/fable_service.py:1062-1141. */
module TakeSelection {
  import opened Prelude
  import opened CinematicState
  import opened FableModel
  import opened FableInvariants
  import opened FableCasting
  import opened CostService
  import opened ReferenceSlots

  /**
   Choosing is accepted exactly for a downloaded take of a shot under review. The loop that would deselect a previous
   choice therefore never changes a take on a committed path: replacing a choice takes a deselection first.
   */
  lemma SelectAcceptedExactlyWhen(p: Project, i: nat, k: nat)
    requires Sound(p) && HasTake(p, i, k)
    ensures SelectTake(p, i, k).ok <==>
              p.shots[i].takes[k].status == Downloaded && p.shots[i].status == ShotStatus.ReviewRequired
    ensures SelectTake(p, i, k).ok ==> Deselected(p.shots[i].takes) == p.shots[i].takes
  {
    var s := p.shots[i];
    assert s in p.shots && ShotSound(s);
    if s.status != Selected {
      forall j | 0 <= j < |s.takes| ensures Deselected(s.takes)[j] == s.takes[j] {
        assert !ChosenAt(s, j);
      }
    }
  }

  /**
   The documentation promises that un-choosing in EDITING steps the project back to TAKE_REVIEW. The project table has
   no such edge, so it is refused: un-choosing works exactly while takes are under review.
   */
  lemma DeselectAcceptedExactlyWhen(p: Project, i: nat, k: nat)
    requires Sound(p) && HasTake(p, i, k)
    ensures DeselectTake(p, i, k).ok <==> p.shots[i].takes[k].selected && p.status == TakeReview
    ensures !DeselectTake(p, i, k).ok ==> DeselectTake(p, i, k).project == p
  {
    var s := p.shots[i];
    assert s in p.shots && ShotSound(s);
    if s.takes[k].selected { assert ChosenAt(s, k); }
  }

  const CHOSEN := Take(Downloaded, Some("take.mp4"), None, true)
  const SHOT := FilmShot(Place(1, 1), "Mina", 4000, Selected, [CHOSEN])
  const UNCHOSEN_SHOT := SHOT.(status := ShotStatus.ReviewRequired, takes := [CHOSEN.(selected := false)])

  /** An actor whose sheet is finished and approved, as everyone's is past the character gate. */
  const MINA := Approved("Mina", "a bible", "sheet")

  /** The same shot with a second take that could be chosen. */
  const TWO_TAKE_SHOT := SHOT.(takes := [CHOSEN, CHOSEN.(media := Some("other.mp4"), selected := false)])

  function OneShotFilm(status: ProjectStatus, shot: FilmShot): Project {
    Project(status, Some("input"), "noir", 1, [MINA], [shot], Budget(None, None, 0), None)
  }

  lemma OneShotFilmsAreSound()
    ensures Sound(OneShotFilm(Editing, SHOT)) && Sound(OneShotFilm(Generating, UNCHOSEN_SHOT))
    ensures Sound(OneShotFilm(TakeReview, TWO_TAKE_SHOT))
  {
    assert ChosenAt(TWO_TAKE_SHOT, 0);
    assert MINA in [MINA] && HasName([MINA], "Mina");
    assert ChosenAt(SHOT, 0);
    assert SheetSound(MINA);
  }

  /** A chosen shot with a second downloaded take, under take review: the second cannot take the first one's place. */
  lemma ChoicesAreNotReplaced()
    ensures var p := OneShotFilm(TakeReview, TWO_TAKE_SHOT);
            && Sound(p) && p.shots[0].takes[1].status == Downloaded && p.shots[0].takes[0].selected
            && !SelectTake(p, 0, 1).ok && SelectTake(p, 0, 1).project == p
  {
    OneShotFilmsAreSound();
  }

  /** One shot, chosen, in a sound project ready to be cut: the choice cannot be taken back any more. */
  lemma EditingNeverStepsBack()
    ensures var p := OneShotFilm(Editing, SHOT);
            Sound(p) && p.shots[0].takes[0].selected && !DeselectTake(p, 0, 0).ok
  {
    OneShotFilmsAreSound();
  }

  /**
   The documentation promises that choosing the last take moves the project on to EDITING. It does exactly when the
   project is in take review by then.
   */
  lemma LastChoiceCutsExactlyWhen(p: Project, i: nat, k: nat)
    requires Sound(p) && SelectTake(p, i, k).ok && AllSelected(SelectTake(p, i, k).project.shots)
    ensures SelectTake(p, i, k).project.status == Editing <==> p.status == TakeReview
    ensures p.status != TakeReview ==> SelectTake(p, i, k).project.status == p.status
  {
    var s := p.shots[i];
    assert s in p.shots && ShotSound(s);
  }

  /** A sound project that misses it: its only shot is chosen while it is still generating. */
  lemma LastChoiceMadeTooEarly()
    ensures var p := OneShotFilm(Generating, UNCHOSEN_SHOT);
            var chosen := SelectTake(p, 0, 0);
            && Sound(p) && chosen.ok && AllSelected(chosen.project.shots) && chosen.project.status == Generating
            && WorkerAdvances(chosen.project).project.status == TakeReview
  {
    OneShotFilmsAreSound();
    var p := OneShotFilm(Generating, UNCHOSEN_SHOT);
    var chosen := SelectTake(p, 0, 0).project;
    assert chosen.shots == [Choose(UNCHOSEN_SHOT, 0)];
    assert forall s :: s in chosen.shots ==> s.status !in PENDING;
  }

  /**
   What becomes of such a project: the worker moves it to take review with nothing left to choose, where every
   selection is refused.
   */
  lemma ChosenTooEarly(p: Project, i: nat, k: nat)
    requires Sound(p) && p.status == Generating && SelectTake(p, i, k).ok
    requires AllSelected(SelectTake(p, i, k).project.shots)
    ensures var end := WorkerAdvances(SelectTake(p, i, k).project);
            && end.ok && end.project.status == TakeReview && AllSelected(end.project.shots)
            && forall j, m :: !SelectTake(end.project, j, m).ok
  {
    var chosen := SelectTake(p, i, k).project;
    assert chosen.status == Generating;
    assert forall s :: s in chosen.shots ==> s.status !in PENDING;
    var end := WorkerAdvances(chosen).project;
    forall j: nat, m: nat ensures !SelectTake(end, j, m).ok {
      if j < |end.shots| { assert end.shots[j] in end.shots; }
    }
  }

  /** The way out: take any one choice back and make it again. */
  lemma ReselectionCuts(p: Project, i: nat, k: nat)
    requires Sound(p) && p.status == TakeReview && AllSelected(p.shots)
    requires HasTake(p, i, k) && p.shots[i].takes[k].selected
    ensures var undone := DeselectTake(p, i, k);
            && undone.ok && SelectTake(undone.project, i, k).ok
            && SelectTake(undone.project, i, k).project == p.(status := Editing)
  {
    var s := p.shots[i];
    assert s in p.shots && ShotSound(s) && ChosenAt(s, k);
    var undone := DeselectTake(p, i, k);
    var t := Unchoose(s, k);
    assert undone.ok && undone.project == WithShot(p, i, t);
    assert Deselected(t.takes)[k := t.takes[k].(selected := true)] == s.takes;
    assert Choose(t, k) == s;
    assert p.shots[i := t][i := s] == p.shots;
  }
}
