/**
 The review gates: every run in which a shot left PLANNED, got a take or was billed for one -- cancelled runs
 included -- passed the story, the cast and the shot approval before, in that order.
 core/fable_service.py:909-1058.
 */
module FableGates {
  import opened Prelude
  import opened CinematicState
  import opened CostService
  import opened ReferenceSlots
  import opened FableModel
  import opened FableInvariants
  import Parser = AdaptationParser

  /** How far a project has come. Casting may be re-opened from its review, and generation from take review. */
  function Level(s: ProjectStatus): int {
    match s
    case Draft => 0
    case Adapting => 1
    case StoryReview => 2
    case Casting | CharacterReview => 3
    case Storyboarding | ShotReview => 4
    case Generating | TakeReview => 5
    case Editing => 6
    case FinalReview => 7
    case Completed => 8
    case ProjectFailed | Cancelled => 9
  }

  const STORY := 3
  const CAST := 4
  const SHOTS := 5

  /** The statuses the service ever leaves a project in: no service action or worker step fails a project. */
  predicate Settled(s: ProjectStatus) {
    s != ProjectFailed && s != Storyboarding
  }

  /** What it takes to reach a level: an adaptation, and then the three approvals. */
  predicate Opens(a: Action, level: int) {
    match level
    case 2 => a.AdaptationFinishes?
    case 3 => a.StoryApproved?
    case 4 => a.CharactersApproved?
    case 5 => a.ShotsApproved?
    case _ => true
  }

  /** A step stays on its level, climbs to the next one by what opens it, or cancels the project. */
  predicate Climbs(before: ProjectStatus, a: Action, after: ProjectStatus) {
    && Settled(after)
    && (|| Level(after) == Level(before) || after.Cancelled?
        || (Level(after) == Level(before) + 1 && Opens(a, Level(after))))
  }

  lemma SheetStepsStandStill(p: Project, i: nat, source: Character)
    ensures ApproveReference(p, i).project.status == p.status && RejectReference(p, i).project.status == p.status
    ensures ReuseCharacter(p, source).project.status == p.status && DeleteCharacter(p, i).project.status == p.status
  {
  }

  lemma CastingClimbs(svc: Service, p: Project, a: Action)
    requires Settled(p.status) && a.ReferencesGenerated?
    ensures Climbs(p.status, a, GenerateReferences(svc, p, a.provider, a.script, a.lives).project.status)
  {
    CastingKeepsTheStatus(svc, p, a.script, if a.lives < |p.characters| then a.lives else |p.characters|);
  }

  lemma CastStepsClimb(svc: Service, p: Project, a: Action)
    requires Settled(p.status) && TouchesCast(a)
    ensures Climbs(p.status, a, CastStep(svc, p, a).project.status)
  {
    match a
    case ReferencesGenerated(_, _, _) => CastingClimbs(svc, p, a);
    case ReferenceApproved(i) => SheetStepsStandStill(p, i, NewCharacter(Parser.CharacterModel("", "")));
    case ReferenceRejected(i) => SheetStepsStandStill(p, i, NewCharacter(Parser.CharacterModel("", "")));
    case CharacterDeleted(i) => SheetStepsStandStill(p, i, NewCharacter(Parser.CharacterModel("", "")));
    case CharacterReused(source) => SheetStepsStandStill(p, 0, source);
    case AdaptationFinishes(_, _, _) =>
  }

  /** Choosing the last take cuts the film; un-choosing never steps back. */
  lemma TakeStepsClimb(svc: Service, p: Project, a: Action)
    requires Settled(p.status) && TouchesTakes(a)
    ensures Climbs(p.status, a, TakeStep(svc, p, a).project.status)
  {
  }

  lemma WorkStepsStandStill(svc: Service, p: Project, a: Action)
    requires IsWork(a)
    ensures WorkStep(svc, p, a).project.status == p.status
  {
  }

  lemma ReviewsClimb(p: Project, toolsWork: bool, input: string)
    requires Settled(p.status)
    ensures Climbs(p.status, StoryApproved, ApproveStory(p).project.status)
    ensures Climbs(p.status, CharactersApproved, ApproveCharacters(p).project.status)
    ensures Climbs(p.status, FinalRendered(toolsWork), RenderFinal(p, toolsWork).project.status)
    ensures Climbs(p.status, AdaptationStarts(input), StartAdaptation(p, input).project.status)
  {
  }

  lemma ProjectStepsClimb(p: Project, a: Action)
    requires Settled(p.status) && !TouchesCast(a) && !TouchesTakes(a) && !IsWork(a)
    ensures Climbs(p.status, a, ProjectStep(p, a).project.status)
  {
    match a
    case FinalRendered(toolsWork) => ReviewsClimb(p, toolsWork, "");
    case AdaptationStarts(input) => ReviewsClimb(p, true, input);
    case StoryApproved | CharactersApproved => ReviewsClimb(p, true, "");
    case _ =>
  }

  lemma StepsClimb(svc: Service, p: Project, a: Action)
    requires Settled(p.status)
    ensures Climbs(p.status, a, Step(svc, p, a).project.status)
  {
    if TouchesCast(a) { CastStepsClimb(svc, p, a); }
    else if TouchesTakes(a) { TakeStepsClimb(svc, p, a); }
    else if IsWork(a) { WorkStepsStandStill(svc, p, a); }
    else { ProjectStepsClimb(p, a); }
  }

  // ---- traces ----------------------------------------------------------------------------------------------

  ghost function After(svc: Service, p: Project, actions: seq<Action>, k: nat): Project
    requires k <= |actions|
  {
    Run(svc, p, actions[..k])
  }

  /** The k-th action of the run was accepted. */
  ghost predicate Accepted(svc: Service, p: Project, actions: seq<Action>, k: nat)
    requires k < |actions|
  {
    Step(svc, After(svc, p, actions, k), actions[k]).ok
  }

  lemma AfterOneMore(svc: Service, p: Project, actions: seq<Action>, k: nat)
    requires k < |actions|
    ensures After(svc, p, actions, k + 1) == Step(svc, After(svc, p, actions, k), actions[k]).project
  {
    assert actions[..k + 1][..k] == actions[..k];
  }

  lemma {:induction false} ClimbsAdd(status: nat -> ProjectStatus, action: nat -> Action, j: nat, k: nat)
    requires j <= k && Settled(status(0))
    requires forall i: nat :: i < k && Settled(status(i)) ==> Climbs(status(i), action(i), status(i + 1))
    ensures Settled(status(j)) && Settled(status(k)) && Level(status(j)) <= Level(status(k))
    decreases k
  {
    if k > 0 { ClimbsAdd(status, action, if j < k then j else k - 1, k - 1); }
  }

  lemma RunsClimb(svc: Service, p: Project, actions: seq<Action>, j: nat, k: nat)
    requires Settled(p.status) && j <= k <= |actions|
    ensures Settled(After(svc, p, actions, j).status) && Settled(After(svc, p, actions, k).status)
    ensures Level(After(svc, p, actions, j).status) <= Level(After(svc, p, actions, k).status)
  {
    var status: nat -> ProjectStatus := (i: nat) => if i <= |actions| then After(svc, p, actions, i).status else Draft;
    var action: nat -> Action := (i: nat) => if i < |actions| then actions[i] else ProjectCancelled;
    forall i: nat | i < k && Settled(status(i)) ensures Climbs(status(i), action(i), status(i + 1)) {
      AfterOneMore(svc, p, actions, i);
      StepsClimb(svc, After(svc, p, actions, i), actions[i]);
    }
    ClimbsAdd(status, action, j, k);
  }

  /** The one step of a run that passes a gate. */
  ghost predicate PassesGate(svc: Service, p: Project, actions: seq<Action>, level: int, k: nat) {
    && k < |actions| && Opens(actions[k], level) && Accepted(svc, p, actions, k)
    && Level(After(svc, p, actions, k).status) == level - 1 && level <= Level(After(svc, p, actions, k + 1).status)
  }

  lemma GateIsPassedHere(svc: Service, p: Project, actions: seq<Action>, level: int, k: nat)
    requires 2 <= level <= 5 && k < |actions| && Settled(After(svc, p, actions, k).status)
    requires Level(After(svc, p, actions, k).status) < level <= Level(After(svc, p, actions, k + 1).status)
    requires !After(svc, p, actions, k + 1).status.Cancelled?
    ensures PassesGate(svc, p, actions, level, k)
  {
    AfterOneMore(svc, p, actions, k);
    StepsClimb(svc, After(svc, p, actions, k), actions[k]);
    RefusalsStandStill(svc, After(svc, p, actions, k), actions[k], level);
  }

  lemma {:induction false} GateIsPassed(svc: Service, p: Project, actions: seq<Action>, level: int, n: nat)
    returns (k: nat)
    requires 2 <= level <= 5 && Settled(p.status) && Level(p.status) < level && n <= |actions|
    requires level <= Level(After(svc, p, actions, n).status) && !After(svc, p, actions, n).status.Cancelled?
    ensures k < n && PassesGate(svc, p, actions, level, k)
  {
    RunsClimb(svc, p, actions, n - 1, n);
    RunsClimb(svc, p, actions, 0, n - 1);
    var before := After(svc, p, actions, n - 1);
    if level <= Level(before.status) {
      k := GateIsPassed(svc, p, actions, level, n - 1);
    } else {
      k := n - 1;
      GateIsPassedHere(svc, p, actions, level, k);
    }
  }

  lemma RefusalsStandStill(svc: Service, p: Project, a: Action, level: int)
    requires 2 <= level <= 5 && Opens(a, level) && Step(svc, p, a).project.status != p.status
    ensures Step(svc, p, a).ok
  {
  }

  /** Gates are passed in the order of their levels, and each only once. */
  lemma GatesInOrder(svc: Service, p: Project, actions: seq<Action>, low: int, j: nat, high: int, k: nat)
    requires Settled(p.status) && PassesGate(svc, p, actions, low, j) && PassesGate(svc, p, actions, high, k)
    ensures low < high ==> j < k
    ensures low == high ==> j == k
  {
    if k < j { RunsClimb(svc, p, actions, k + 1, j); }
    if j < k { RunsClimb(svc, p, actions, j + 1, k); }
  }

  lemma AdaptationsLand(svc: Service, p: Project, a: Action)
    requires a.AdaptationFinishes? && Settled(p.status) && Step(svc, p, a).ok
    ensures p.status == Adapting && Step(svc, p, a).project.status == StoryReview
  {
    assert Step(svc, p, a) == CastStep(svc, p, a);
  }

  /** An accepted adaptation is the one that passes the first gate. */
  lemma AdaptationsPassTheFirstGate(svc: Service, p: Project, actions: seq<Action>, k: nat)
    requires Settled(p.status) && k < |actions| && actions[k].AdaptationFinishes? && Accepted(svc, p, actions, k)
    ensures PassesGate(svc, p, actions, 2, k)
  {
    AfterOneMore(svc, p, actions, k);
    RunsClimb(svc, p, actions, 0, k);
    AdaptationsLand(svc, After(svc, p, actions, k), actions[k]);
  }

  predicate InProduction(s: ProjectStatus) {
    s in {Generating, TakeReview, Editing, FinalReview, Completed}
  }

  /** What the three approvals had in front of them. */
  ghost predicate ApprovedInOrder(svc: Service, p: Project, actions: seq<Action>,
                                  adapted: nat, story: nat, cast: nat, shots: nat)
  {
    && adapted < story < cast < shots < |actions|
    && actions[adapted].AdaptationFinishes? && Accepted(svc, p, actions, adapted)
    && actions[story].StoryApproved? && Accepted(svc, p, actions, story)
    && actions[cast].CharactersApproved? && Accepted(svc, p, actions, cast)
    && actions[shots].ShotsApproved? && Accepted(svc, p, actions, shots)
    // Nothing else was ever adapted: these approvals are about the story in production.
    && (forall k :: 0 <= k < |actions| && k != adapted && actions[k].AdaptationFinishes? ==>
                      !Accepted(svc, p, actions, k))
    // The whole cast was adult and approved, sheet by sheet.
    && (forall c :: c in After(svc, p, actions, cast).characters ==> c.adult && c.approved)
  }

  /** A price for every shot, at its planned length or, when none is planned, at two seconds. */
  ghost predicate ShotPrices(provider: VideoProvider, shots: seq<FilmShot>, quotes: seq<Option<Charge>>) {
    && |quotes| == |shots|
    && forall i :: 0 <= i < |shots| ==>
         && quotes[i].Some?
         && Prices(provider, if shots[i].plannedMs == 0 then 2000 else shots[i].plannedMs, quotes[i])
  }

  ghost predicate WholeBillFits(p: Project, provider: VideoProvider, takes: nat)
    requires p.budget.limit.Some?
  {
    exists quotes :: ShotPrices(provider, p.shots, quotes)
                     && p.budget.spent + takes * Sum(Amounts(quotes)) <= p.budget.limit.value
  }

  /**
   With a limit set and a provider to price with, the whole bill fitted under the limit at the shot approval: as many
   takes of every shot as the project asks for, or else the service.
   */
  ghost predicate PaidForAt(svc: Service, p: Project, a: Action) {
    a.ShotsApproved? && a.pricing.PricedBy? && p.budget.limit.Some? ==>
      WholeBillFits(p, a.pricing.provider, if p.takesPerShot.Some? && p.takesPerShot.value > 0
                                           then p.takesPerShot.value else svc.defaultTakes)
  }

  /** A project found in production at any point of its run was approved before that point. */
  lemma ProductionWasApproved(svc: Service, takes: Option<nat>, actions: seq<Action>, n: nat)
    returns (adapted: nat, story: nat, cast: nat, shots: nat)
    requires n <= |actions| && InProduction(After(svc, NewProject(takes), actions, n).status)
    ensures ApprovedInOrder(svc, NewProject(takes), actions, adapted, story, cast, shots) && shots < n
    ensures PaidForAt(svc, After(svc, NewProject(takes), actions, shots), actions[shots])
  {
    var p := NewProject(takes);
    adapted := GateIsPassed(svc, p, actions, 2, n);
    story := GateIsPassed(svc, p, actions, STORY, n);
    cast := GateIsPassed(svc, p, actions, CAST, n);
    shots := GateIsPassed(svc, p, actions, SHOTS, n);
    GatesInOrder(svc, p, actions, 2, adapted, STORY, story);
    GatesInOrder(svc, p, actions, STORY, story, CAST, cast);
    GatesInOrder(svc, p, actions, CAST, cast, SHOTS, shots);
    OnlyOneAdaptation(svc, p, actions, adapted);
    CastApprovalMeansApproved(svc, p, actions, cast);
    ShotApprovalMeansPaidFor(svc, After(svc, p, actions, shots), actions[shots]);
  }

  lemma OnlyOneAdaptation(svc: Service, p: Project, actions: seq<Action>, adapted: nat)
    requires Settled(p.status) && PassesGate(svc, p, actions, 2, adapted)
    ensures forall k :: 0 <= k < |actions| && k != adapted && actions[k].AdaptationFinishes? ==>
              !Accepted(svc, p, actions, k)
  {
    forall k | 0 <= k < |actions| && k != adapted && actions[k].AdaptationFinishes?
      ensures !Accepted(svc, p, actions, k)
    {
      if Accepted(svc, p, actions, k) {
        AdaptationsPassTheFirstGate(svc, p, actions, k);
        GatesInOrder(svc, p, actions, 2, adapted, 2, k);
      }
    }
  }

  lemma CastApprovalMeansApproved(svc: Service, p: Project, actions: seq<Action>, k: nat)
    requires k < |actions| && actions[k].CharactersApproved? && Accepted(svc, p, actions, k)
    ensures forall c :: c in After(svc, p, actions, k).characters ==> c.adult && c.approved
  {
  }

  lemma ShotApprovalMeansPaidFor(svc: Service, p: Project, a: Action)
    requires a.ShotsApproved? && Step(svc, p, a).ok
    ensures PaidForAt(svc, p, a)
  {
    if a.pricing.PricedBy? && p.budget.limit.Some? {
      var provider := a.pricing.provider;
      var quotes := AffordableMeansPayable(p.budget, Plans(p.shots), provider, svc.allowPaid, TakesFor(svc, p));
      assert ShotPrices(provider, p.shots, quotes);
    }
  }

  // ---- nothing is generated without approval -----------------------------------------------------------------

  /** No shot is claimable yet, and nothing was ever generated for one. */
  ghost predicate Untouched(p: Project) {
    forall s :: s in p.shots ==> s.status == Planned && s.takes == []
  }

  lemma TakeStepsKeepUntouched(svc: Service, p: Project, a: Action)
    requires Untouched(p) && TouchesTakes(a) && !a.ShotsApproved?
    ensures TakeStep(svc, p, a).project == p
  {
    assert forall i :: 0 <= i < |p.shots| ==> p.shots[i] in p.shots;
  }

  lemma WorkStepsKeepUntouched(svc: Service, p: Project, a: Action)
    requires Untouched(p) && IsWork(a)
    ensures !WorkStep(svc, p, a).ok && WorkStep(svc, p, a).project == p
  {
    assert forall i :: 0 <= i < |p.shots| ==> p.shots[i] in p.shots;
  }

  lemma CastStepsKeepUntouched(svc: Service, p: Project, a: Action)
    requires Untouched(p) && TouchesCast(a)
    ensures Untouched(CastStep(svc, p, a).project)
  {
    match a
    case AdaptationFinishes(_, doc, _) => NewFilmComesFromScenes(doc.scenes);
    case ReferencesGenerated(_, script, lives) =>
      CastingKeepsTheShots(svc, p, script, if lives < |p.characters| then lives else |p.characters|);
    case _ =>
  }

  lemma {:induction false} CastingKeepsTheShots(svc: Service, p: Project, script: nat -> View -> Answer, n: nat)
    requires n <= |p.characters|
    ensures CastUpTo(svc, p, script, n).project.shots == p.shots
  {
    if n > 0 { CastingKeepsTheShots(svc, p, script, n - 1); }
  }

  lemma ProjectStepsKeepShots(p: Project, a: Action)
    requires !TouchesCast(a) && !TouchesTakes(a) && !IsWork(a)
    ensures ProjectStep(p, a).project.shots == p.shots
  {
  }

  /** Only an accepted shot approval touches the shots of a project. */
  lemma OnlyApprovalTouches(svc: Service, p: Project, a: Action)
    requires Untouched(p) && !Untouched(Step(svc, p, a).project)
    ensures a.ShotsApproved? && Step(svc, p, a).ok && Step(svc, p, a).project.status == Generating
  {
    if TouchesCast(a) { CastStepsKeepUntouched(svc, p, a); }
    else if IsWork(a) { WorkStepsKeepUntouched(svc, p, a); }
    else if !TouchesTakes(a) { ProjectStepsKeepShots(p, a); }
    else if !a.ShotsApproved? { TakeStepsKeepUntouched(svc, p, a); }
  }

  lemma StartsUntouched(svc: Service, takes: Option<nat>, actions: seq<Action>)
    ensures Untouched(After(svc, NewProject(takes), actions, 0))
  {
    assert actions[..0] == [];
  }

  lemma {:induction false} TouchedByApproval(svc: Service, takes: Option<nat>, actions: seq<Action>, n: nat)
    returns (k: nat)
    requires n <= |actions| && !Untouched(After(svc, NewProject(takes), actions, n))
    ensures k < n && InProduction(After(svc, NewProject(takes), actions, k + 1).status)
  {
    var p := NewProject(takes);
    StartsUntouched(svc, takes, actions);
    assert n > 0;
    if !Untouched(After(svc, p, actions, n - 1)) {
      k := TouchedByApproval(svc, takes, actions, n - 1);
    } else {
      k := n - 1;
      AfterOneMore(svc, p, actions, k);
      OnlyApprovalTouches(svc, After(svc, p, actions, k), actions[k]);
    }
  }

  /**
   The cost gate. At any point of any run from creation, whatever became of the project, a shot that is no longer
   PLANNED or has a take means that before that point the story, the cast and the shots were approved in that order,
   and with a limit set and a provider to price with, the whole bill fitted then.
   */
  lemma GenerationWasApproved(svc: Service, takes: Option<nat>, actions: seq<Action>, n: nat)
    returns (adapted: nat, story: nat, cast: nat, shots: nat)
    requires n <= |actions| && !Untouched(After(svc, NewProject(takes), actions, n))
    ensures ApprovedInOrder(svc, NewProject(takes), actions, adapted, story, cast, shots) && shots < n
    ensures PaidForAt(svc, After(svc, NewProject(takes), actions, shots), actions[shots])
  {
    var k := TouchedByApproval(svc, takes, actions, n);
    adapted, story, cast, shots := ProductionWasApproved(svc, takes, actions, k + 1);
  }

  /** The worker does nothing -- no take is ordered, submitted or billed -- before those approvals. */
  lemma OrdersWereApproved(svc: Service, takes: Option<nat>, actions: seq<Action>, n: nat)
    returns (adapted: nat, story: nat, cast: nat, shots: nat)
    requires n < |actions| && IsWork(actions[n])
    requires Accepted(svc, NewProject(takes), actions, n)
    ensures ApprovedInOrder(svc, NewProject(takes), actions, adapted, story, cast, shots) && shots < n
    ensures PaidForAt(svc, After(svc, NewProject(takes), actions, shots), actions[shots])
  {
    WorkNeedsTouched(svc, After(svc, NewProject(takes), actions, n), actions[n]);
    adapted, story, cast, shots := GenerationWasApproved(svc, takes, actions, n);
  }

  lemma WorkNeedsTouched(svc: Service, p: Project, a: Action)
    requires IsWork(a) && Step(svc, p, a).ok
    ensures !Untouched(p)
  {
    if Untouched(p) { WorkStepsKeepUntouched(svc, p, a); }
  }

  /**
   The gates ask only the transition table, so each is open from more statuses than the review it is named after:
   approving the story again re-opens casting from the character review, and approving the shots again re-opens
   generation from take review. Approving the cast after its own review is harmless.
   */
  lemma GatesOpenExactlyWhen(svc: Service, p: Project, pricing: Pricing)
    ensures ApproveStory(p).ok <==> p.status in {StoryReview, CharacterReview, ProjectFailed}
    ensures ApproveCharacters(p).ok <==>
              && p.status in {CharacterReview, ShotReview, ProjectFailed}
              && forall c :: c in p.characters ==> c.adult && c.approved
    ensures ApproveShots(svc, p, pricing).ok <==>
              && p.status in {ShotReview, TakeReview, ProjectFailed} && p.shots != []
              && GenerationAffordable(p.budget, Plans(p.shots), pricing, svc.allowPaid, TakesFor(svc, p))
    ensures p.status == ShotReview && ApproveCharacters(p).ok ==> ApproveCharacters(p).project == p
  {
  }
}
