/**
 One cinematic project as core/fable_service.py keeps it: the project row with its characters and shots, and what each
 service action and worker step makes of it. Rows are addressed by their position. An action that raises leaves what
 it had already committed.
 */
module FableModel {
  import opened Prelude
  import opened CinematicState
  import opened CostService
  import opened ReferenceSlots
  import Parser = AdaptationParser

  type MediaPath = path: string | path != "" witness "."

  datatype TakeStatus = TakeSubmitted | TakeModerated | TakeFailed | Downloaded

  datatype Take = Take(status: TakeStatus, media: Option<MediaPath>, cost: Option<Charge>, selected: bool)

  /** Where a shot plays: its scene's number in the film and its own number in the scene. */
  datatype Place = Place(scene: int, order: int)

  datatype FilmShot = FilmShot(place: Place, subject: string, plannedMs: nat, status: ShotStatus, takes: seq<Take>)

  /** `bible` is everything about the character that its prompts are compiled from. */
  datatype Character = Character(name: string, bible: string, adult: bool, images: map<View, MediaPath>,
                                 fingerprint: Option<string>, approved: bool, refused: bool, cost: Option<Charge>)

  datatype Project = Project(status: ProjectStatus, adaptation: Option<string>, style: string, scenes: nat,
                             characters: seq<Character>, shots: seq<FilmShot>, budget: Budget,
                             takesPerShot: Option<nat>)

  /** How the service was configured. `fingerprint` identifies a sheet by name, bible and visual style. */
  datatype Service = Service(allowPaid: bool, defaultTakes: nat, fingerprint: (string, string, string) -> string)

  /** `ok` is false when the action raised. */
  datatype Result = Result(project: Project, ok: bool)

  function NewProject(takesPerShot: Option<nat>): Project {
    Project(Draft, None, "", 0, [], [], Budget(None, None, 0), takesPerShot)
  }

  function Refuse(p: Project): Result {
    Result(p, false)
  }

  /** apply_project_transition: no action here enters the one status that asks for fields. */
  function Move(p: Project, to: ProjectStatus): Result {
    if to in AllowedProject(p.status) then Result(p.(status := to), true) else Refuse(p)
  }

  // ---- budget ----------------------------------------------------------------------------------------------

  function SetBudgetOf(p: Project, limit: Option<int>, currency: Option<string>): Result {
    match SetBudget(p.budget, limit, currency)
    case None => Refuse(p)
    case Some(budget) => Result(p.(budget := budget), true)
  }

  // ---- adaptation ------------------------------------------------------------------------------------------

  /** Adaptation finished, and left scenes behind. */
  predicate AlreadyAdapted(p: Project) {
    p.status !in {Draft, Adapting} && p.scenes > 0
  }

  /** The transaction before the director is called. A replay succeeds without calling it. */
  function StartAdaptation(p: Project, input: string): Result {
    if AlreadyAdapted(p) then Result(p, p.adaptation == Some(input))
    else if p.status == Draft then Move(p, Adapting)
    else Result(p, true)
  }

  predicate HasName(rows: seq<Character>, name: string) {
    exists c :: c in rows && c.name == name
  }

  function Namesake(rows: seq<Character>, name: string): (at: Option<nat>)
    ensures at.Some? ==> at.value < |rows| && rows[at.value].name == name
    ensures at.None? <==> !HasName(rows, name)
  {
    if rows == [] then None
    else
      var earlier := Namesake(rows[..|rows| - 1], name);
      assert rows == rows[..|rows| - 1] + [rows[|rows| - 1]];
      if earlier.Some? then earlier
      else if rows[|rows| - 1].name == name then Some(|rows| - 1)
      else None
  }

  /** d[row.name] = row: a namesake's place is taken over, otherwise the row is added at the end. */
  function PutByName(rows: seq<Character>, row: Character): seq<Character> {
    match Namesake(rows, row.name)
    case Some(i) => rows[i := row]
    case None => rows + [row]
  }

  function NewCharacter(model: Parser.CharacterModel): Character {
    Character(model.name, model.bible, true, map[], None, false, false, None)
  }

  function NewCast(models: seq<Parser.CharacterModel>): seq<Character> {
    if models == [] then [] else PutByName(NewCast(models[..|models| - 1]), NewCharacter(models[|models| - 1]))
  }

  function NewShot(scene: int, model: Parser.ShotModel): FilmShot {
    FilmShot(Place(scene, model.order), model.subject, model.durationMs, Planned, [])
  }

  function NewShots(scene: int, models: seq<Parser.ShotModel>): (shots: seq<FilmShot>)
    ensures |shots| == |models| && forall i :: 0 <= i < |shots| ==> shots[i] == NewShot(scene, models[i])
  {
    if models == [] then []
    else NewShots(scene, models[..|models| - 1]) + [NewShot(scene, models[|models| - 1])]
  }

  function NewFilm(scenes: seq<Parser.SceneModel>): seq<FilmShot> {
    if scenes == [] then []
    else
      var last := scenes[|scenes| - 1];
      NewFilm(scenes[..|scenes| - 1]) + NewShots(last.order, last.shots)
  }

  predicate AnyTakes(shots: seq<FilmShot>) {
    exists s :: s in shots && s.takes != []
  }

  /** The children of the adaptation before are deleted, then the new ones added. */
  function Rewritten(p: Project, input: string, style: string, scenes: nat, cast: seq<Character>, film: seq<FilmShot>)
    : Project
  {
    var kept := if p.scenes > 0 then p.(scenes := 0, characters := [], shots := []) else p;
    kept.(status := StoryReview, adaptation := Some(input), style := style, scenes := kept.scenes + scenes,
          characters := kept.characters + cast, shots := kept.shots + film)
  }

  /** The transaction that writes an adaptation. */
  function FinishAdaptation(p: Project, input: string, doc: Parser.Document): Result {
    if (p.scenes > 0 && AnyTakes(p.shots)) || StoryReview !in AllowedProject(p.status) then Refuse(p)
    else Result(Rewritten(p, input, doc.visualStyle, |doc.scenes|, NewCast(doc.characters),
                          NewFilm(doc.scenes)), true)
  }

  // ---- casting ---------------------------------------------------------------------------------------------

  datatype ReferenceProvider = ReferenceProvider(charges: bool, quote: Option<Charge>)

  /** What becomes of one image request; Died is any other exception, or the process ending. */
  datatype Answer = Image(path: MediaPath, cost: Option<Charge>) | RefusedByPolicy | Died

  datatype ImageRequest = ImageRequest(character: string, view: View, references: seq<MediaPath>)

  datatype PassEnd = Whole | RefusedPass | DeadPass

  datatype Pass = Pass(images: map<View, MediaPath>, face: Option<MediaPath>, cost: nat, currency: Option<string>,
                       end: PassEnd, requests: seq<ImageRequest>)

  predicate Complete(images: map<View, MediaPath>) {
    forall v :: v in VIEWS ==> v in images
  }

  function OneView(before: Pass, character: string, k: nat, answer: Answer): Pass
    requires k < |VIEWS|
  {
    var request := ImageRequest(character, VIEWS[k], if before.face.Some? then [before.face.value] else []);
    var asked := before.(requests := before.requests + [request]);
    match answer
    case RefusedByPolicy => asked.(end := RefusedPass)
    case Died => asked.(end := DeadPass)
    case Image(path, cost) =>
      asked.(images := before.images[VIEWS[k] := path],
             face := if k == 0 then Some(path) else before.face,
             cost := before.cost + if cost.Some? then cost.value.amount else 0,
             currency := if before.currency.None? && cost.Some? then cost.value.currency else before.currency)
  }

  /** The first k views of a sheet, each after the first drawn from the face; the first failure ends the pass. */
  function RunPass(character: string, draw: View -> Answer, k: nat): Pass
    requires k <= |VIEWS|
  {
    if k == 0 then Pass(map[], None, 0, None, Whole, [])
    else
      var before := RunPass(character, draw, k - 1);
      if before.end.Whole? then OneView(before, character, k - 1, draw(VIEWS[k - 1])) else before
  }

  function FingerprintOf(svc: Service, p: Project, c: Character): string {
    svc.fingerprint(c.name, c.bible, p.style)
  }

  /** This sheet already describes this bible. */
  predicate Finished(svc: Service, p: Project, c: Character) {
    c.fingerprint == Some(FingerprintOf(svc, p, c)) && c.images != map[]
  }

  /** Approval never survives regeneration. */
  function Reopened(c: Character): Character {
    c.(approved := false, refused := false)
  }

  function Filed(c: Character, pass: Pass, fingerprint: string): Character {
    c.(images := pass.images, refused := pass.end.RefusedPass?,
       fingerprint := if pass.end.RefusedPass? then None else Some(fingerprint),
       cost := if pass.cost > 0 then Some(Charge(pass.cost, pass.currency)) else c.cost)
  }

  /** Where a casting run stands: the requests made so far, and whether it raised. */
  datatype CastingRun = CastingRun(project: Project, ok: bool, log: seq<ImageRequest>)

  function WithCharacter(p: Project, i: nat, c: Character): Project
    requires i < |p.characters|
  {
    p.(characters := p.characters[i := c])
  }

  function PassCharge(pass: Pass): Option<Charge> {
    if pass.cost > 0 then Some(Charge(pass.cost, pass.currency)) else None
  }

  /** One character's sheet: the transaction before the pass, the pass, and the transaction after it. */
  function CastOne(svc: Service, p: Project, i: nat, draw: View -> Answer): CastingRun
    requires i < |p.characters|
  {
    var c := p.characters[i];
    if Finished(svc, p, c) then CastingRun(p, true, [])
    else
      var begun := WithCharacter(p, i, Reopened(c));
      var pass := RunPass(c.name, draw, |VIEWS|);
      var booked := RecordSpend(p.budget, PassCharge(pass));
      if pass.end.DeadPass? || booked.None? then CastingRun(begun, false, pass.requests)
      else CastingRun(WithCharacter(p, i, Filed(Reopened(c), pass, FingerprintOf(svc, p, c))).(budget := booked.value),
                      true, pass.requests)
  }

  /** The first n characters in turn, until one raises. */
  function CastUpTo(svc: Service, p: Project, script: nat -> View -> Answer, n: nat): (run: CastingRun)
    requires n <= |p.characters|
    ensures |run.project.characters| == |p.characters|
  {
    if n == 0 then CastingRun(p, true, [])
    else
      var before := CastUpTo(svc, p, script, n - 1);
      if !before.ok then before
      else
        var one := CastOne(svc, before.project, n - 1, script(n - 1));
        one.(log := before.log + one.log)
  }

  predicate ReferencesAffordable(svc: Service, p: Project, provider: ReferenceProvider) {
    && PaidGate(p.budget, provider.charges, svc.allowPaid).Allowed?
    && (p.budget.limit.Some? ==>
          && provider.quote.Some?
          && WithinBudget(p.budget, Some(provider.quote.value.amount * |p.characters| * |VIEWS|),
                          provider.quote.value.currency).Allowed?)
  }

  /** The process lives through the first `lives` sheets; living through one more means it finishes the run. */
  function GenerateReferences(svc: Service, p: Project, provider: ReferenceProvider, script: nat -> View -> Answer,
                              lives: nat): CastingRun
  {
    if p.status != Casting || p.characters == [] || !ReferencesAffordable(svc, p, provider)
    then CastingRun(p, false, [])
    else
      var n := |p.characters|;
      var run := CastUpTo(svc, p, script, if lives < n then lives else n);
      if !run.ok || lives <= n then run.(ok := false)
      else
        var moved := Move(run.project, CharacterReview);
        CastingRun(moved.project, moved.ok, run.log)
  }

  function ApproveReference(p: Project, i: nat): Result {
    if i >= |p.characters| || !Complete(p.characters[i].images) then Refuse(p)
    else Result(WithCharacter(p, i, p.characters[i].(approved := true)), true)
  }

  function RejectReference(p: Project, i: nat): Result {
    if i >= |p.characters| then Refuse(p)
    else Result(WithCharacter(p, i, p.characters[i].(approved := false, fingerprint := None)), true)
  }

  /** The row a reused actor leaves in this project: cast, not yet accepted for this film, and free. */
  function Recast(source: Character): Character {
    source.(approved := false, refused := false, cost := None)
  }

  /** `source` is a row of another project. */
  function ReuseCharacter(p: Project, source: Character): Result {
    if p.status != Casting || !source.approved || source.images == map[] then Refuse(p)
    else Result(p.(characters := PutByName(p.characters, Recast(source))), true)
  }

  predicate InUse(p: Project, name: string) {
    exists s :: s in p.shots && s.subject == name
  }

  function DeleteCharacter(p: Project, i: nat): Result {
    if i >= |p.characters| || InUse(p, p.characters[i].name) then Refuse(p)
    else Result(p.(characters := p.characters[..i] + p.characters[i + 1..]), true)
  }

  // ---- review gates ----------------------------------------------------------------------------------------

  function ApproveStory(p: Project): Result {
    Move(p, Casting)
  }

  function ApproveCharacters(p: Project): Result {
    if exists c :: c in p.characters && !(c.adult && c.approved) then Refuse(p)
    else if !Move(p, Storyboarding).ok then Refuse(p)
    else Move(Move(p, Storyboarding).project, ShotReview)
  }

  function PlannedMs(s: FilmShot): nat {
    if s.plannedMs == 0 then DEFAULT_SHOT_MS else s.plannedMs
  }

  function Plans(shots: seq<FilmShot>): (plans: seq<nat>)
    ensures |plans| == |shots|
    ensures forall i :: 0 <= i < |plans| ==> plans[i] == PlannedMs(shots[i])
  {
    if shots == [] then [] else Plans(shots[..|shots| - 1]) + [PlannedMs(shots[|shots| - 1])]
  }

  function TakesFor(svc: Service, p: Project): nat {
    if p.takesPerShot.Some? && p.takesPerShot.value > 0 then p.takesPerShot.value else svc.defaultTakes
  }

  function MadeReady(s: FilmShot): FilmShot {
    if s.status == Planned then s.(status := Ready) else s
  }

  function AllMadeReady(shots: seq<FilmShot>): (ready: seq<FilmShot>)
    ensures |ready| == |shots| && forall i :: 0 <= i < |ready| ==> ready[i] == MadeReady(shots[i])
  {
    if shots == [] then [] else AllMadeReady(shots[..|shots| - 1]) + [MadeReady(shots[|shots| - 1])]
  }

  ghost function ApproveShots(svc: Service, p: Project, pricing: Pricing): Result {
    if p.shots == [] || !GenerationAffordable(p.budget, Plans(p.shots), pricing, svc.allowPaid, TakesFor(svc, p))
       || Generating !in AllowedProject(p.status)
    then Refuse(p)
    else Result(p.(status := Generating, shots := AllMadeReady(p.shots)), true)
  }

  // ---- take selection and the final cut ----------------------------------------------------------------------

  function Deselected(takes: seq<Take>): (cleared: seq<Take>)
    ensures |cleared| == |takes| && forall i :: 0 <= i < |cleared| ==> cleared[i] == takes[i].(selected := false)
  {
    if takes == [] then [] else Deselected(takes[..|takes| - 1]) + [takes[|takes| - 1].(selected := false)]
  }

  predicate HasTake(p: Project, i: nat, k: nat) {
    i < |p.shots| && k < |p.shots[i].takes|
  }

  predicate AllSelected(shots: seq<FilmShot>) {
    forall s :: s in shots ==> s.status == Selected
  }

  /** Project and shots after an edit of one shot: a project under take review is cut once every shot is chosen. */
  function WithShot(p: Project, i: nat, s: FilmShot): Project
    requires i < |p.shots|
  {
    p.(shots := p.shots[i := s])
  }

  function MaybeAdvanceToEditing(p: Project): Project {
    if p.status == TakeReview && AllSelected(p.shots) then p.(status := Editing) else p
  }

  function Choose(s: FilmShot, k: nat): FilmShot
    requires k < |s.takes|
  {
    s.(status := Selected, takes := Deselected(s.takes)[k := s.takes[k].(selected := true)])
  }

  function Unchoose(s: FilmShot, k: nat): FilmShot
    requires k < |s.takes|
  {
    s.(status := ShotStatus.ReviewRequired, takes := s.takes[k := s.takes[k].(selected := false)])
  }

  function SelectTake(p: Project, i: nat, k: nat): Result {
    if !HasTake(p, i, k) || p.shots[i].takes[k].status != Downloaded || Selected !in AllowedShot(p.shots[i].status)
    then Refuse(p)
    else Result(MaybeAdvanceToEditing(WithShot(p, i, Choose(p.shots[i], k))), true)
  }

  function DeselectTake(p: Project, i: nat, k: nat): Result {
    if !HasTake(p, i, k) || !p.shots[i].takes[k].selected || p.status !in {TakeReview, Editing}
       || ShotStatus.ReviewRequired !in AllowedShot(p.shots[i].status)
    then Refuse(p)
    else
      var undone := WithShot(p, i, Unchoose(p.shots[i], k));
      if p.status == TakeReview then Result(undone, true)
      else if Move(undone, TakeReview).ok then Move(undone, TakeReview)
      else Refuse(p)
  }

  /** scalar_one_or_none over the selected takes of a shot: none, or several, is a refusal. */
  predicate ChosenAt(s: FilmShot, k: nat) {
    k < |s.takes| && s.takes[k].selected && forall j :: 0 <= j < |s.takes| && s.takes[j].selected ==> j == k
  }

  predicate Cuttable(s: FilmShot) {
    exists k :: 0 <= k < |s.takes| && ChosenAt(s, k) && s.takes[k].media.Some?
  }

  predicate Precedes(a: Place, b: Place) {
    a.scene < b.scene || (a.scene == b.scene && a.order < b.order)
  }

  function Inserted(shots: seq<FilmShot>, s: FilmShot): seq<FilmShot> {
    if shots == [] || !Precedes(s.place, shots[|shots| - 1].place) then shots + [s]
    else Inserted(shots[..|shots| - 1], s) + [shots[|shots| - 1]]
  }

  /** The shots as the film plays them: ordered by scene and then by shot number. */
  function FilmOrder(shots: seq<FilmShot>): seq<FilmShot> {
    if shots == [] then [] else Inserted(FilmOrder(shots[..|shots| - 1]), shots[|shots| - 1])
  }

  /** `toolsWork` is false when ffmpeg, the mix or the probe fails. */
  function RenderFinal(p: Project, toolsWork: bool): Result {
    if p.status != Editing || (exists s :: s in p.shots && !Cuttable(s)) || !toolsWork then Refuse(p)
    else Move(p, FinalReview)
  }

  // ---- the shot worker, abstractly ---------------------------------------------------------------------------

  datatype Settlement = Moderate | Fail | Download(media: MediaPath, cost: Option<Charge>)

  /** Only the shot approval takes a shot out of PLANNED, and only the service into and out of SELECTED. */
  const SERVICE_ONLY: set<ShotStatus> := {Planned, Selected}

  /** Any other edge of the shot table, but for the two on the way to a take, which have steps of their own. */
  function WorkerMoves(p: Project, i: nat, to: ShotStatus): Result {
    if i >= |p.shots| || p.shots[i].status in SERVICE_ONLY || to in SERVICE_ONLY + {Submitted, ShotGenerating}
       || to !in AllowedShot(p.shots[i].status)
    then Refuse(p)
    else Result(WithShot(p, i, p.shots[i].(status := to)), true)
  }

  /** Both cost gates are asked before a take is ordered, at the quote for what will be ordered. */
  function WorkerOrders(svc: Service, p: Project, i: nat, charges: bool, quote: Option<Charge>): Result {
    var amount := if quote.Some? then Some(quote.value.amount) else None;
    var currency := if quote.Some? then quote.value.currency else None;
    if i >= |p.shots| || Submitted !in AllowedShot(p.shots[i].status)
       || !PaidGate(p.budget, charges, svc.allowPaid).Allowed? || !WithinBudget(p.budget, amount, currency).Allowed?
    then Refuse(p)
    else Result(WithShot(p, i, p.shots[i].(status := Submitted)), true)
  }

  function WorkerSubmits(p: Project, i: nat): Result {
    if i >= |p.shots| || ShotGenerating !in AllowedShot(p.shots[i].status) then Refuse(p)
    else
      var s := p.shots[i];
      var take := Take(TakeSubmitted, None, None, false);
      Result(WithShot(p, i, s.(status := ShotGenerating, takes := s.takes + [take])), true)
  }

  /** A bill in a foreign currency stays on the take and never reaches the running total. */
  function Booked(b: Budget, cost: Option<Charge>): Budget {
    match RecordSpend(b, cost)
    case Some(after) => after
    case None => b
  }

  function WorkerSettles(p: Project, i: nat, k: nat, how: Settlement): Result {
    if !HasTake(p, i, k) || p.shots[i].takes[k].status != TakeSubmitted
       || (how.Download? && p.shots[i].status != ShotStatus.Validating)
    then Refuse(p)
    else
      var s := p.shots[i];
      match how
      case Moderate => Result(WithShot(p, i, s.(takes := s.takes[k := s.takes[k].(status := TakeModerated)])), true)
      case Fail => Result(WithShot(p, i, s.(takes := s.takes[k := s.takes[k].(status := TakeFailed)])), true)
      case Download(media, cost) =>
        var take := s.takes[k].(status := Downloaded, media := Some(media), cost := cost);
        Result(WithShot(p, i, s.(takes := s.takes[k := take])).(budget := Booked(p.budget, cost)), true)
  }

  const PENDING: set<ShotStatus> := {Ready, Submitted, ShotGenerating, Downloading, ShotStatus.Validating}

  function WorkerAdvances(p: Project): Result {
    if p.status != Generating || (exists s :: s in p.shots && s.status in PENDING) then Refuse(p)
    else Move(p, TakeReview)
  }

  // ---- runs ------------------------------------------------------------------------------------------------

  datatype Action =
    | BudgetIsSet(limit: Option<int>, currency: Option<string>)
    | AdaptationStarts(input: string)
    | AdaptationFinishes(input: string, doc: Parser.Document, q: Parser.Request)
    | StoryApproved
    | ReferencesGenerated(provider: ReferenceProvider, script: nat -> View -> Answer, lives: nat)
    | ReferenceApproved(character: nat)
    | ReferenceRejected(character: nat)
    | CharacterReused(source: Character)
    | CharacterDeleted(character: nat)
    | CharactersApproved
    | ShotsApproved(pricing: Pricing)
    | TakeSelected(shot: nat, take: nat)
    | TakeDeselected(shot: nat, take: nat)
    | FinalRendered(toolsWork: bool)
    | FinalApproved
    | ProjectCancelled
    | ShotMoves(shot: nat, to: ShotStatus)
    | TakeOrdered(shot: nat, charges: bool, quote: Option<Charge>)
    | TakeSubmits(shot: nat)
    | TakeSettles(shot: nat, take: nat, how: Settlement)
    | GenerationEnds

  predicate TouchesCast(a: Action) {
    a.AdaptationFinishes? || a.ReferencesGenerated? || a.ReferenceApproved? || a.ReferenceRejected?
    || a.CharacterReused? || a.CharacterDeleted?
  }

  predicate TouchesTakes(a: Action) {
    a.ShotsApproved? || a.TakeSelected? || a.TakeDeselected?
  }

  predicate IsWork(a: Action) {
    a.ShotMoves? || a.TakeOrdered? || a.TakeSubmits? || a.TakeSettles?
  }

  /** The schema lets no empty document through, and the repair loop only documents that meet the rules. */
  ghost function CastStep(svc: Service, p: Project, a: Action): Result
    requires TouchesCast(a)
  {
    match a
    case AdaptationFinishes(input, doc, q) =>
      if doc.scenes != [] && Parser.Meets(doc, q) then FinishAdaptation(p, input, doc) else Refuse(p)
    case ReferencesGenerated(provider, script, lives) =>
      var run := GenerateReferences(svc, p, provider, script, lives);
      Result(run.project, run.ok)
    case ReferenceApproved(i) => ApproveReference(p, i)
    case ReferenceRejected(i) => RejectReference(p, i)
    case CharacterReused(source) => ReuseCharacter(p, source)
    case CharacterDeleted(i) => DeleteCharacter(p, i)
  }

  ghost function TakeStep(svc: Service, p: Project, a: Action): Result
    requires TouchesTakes(a)
  {
    match a
    case ShotsApproved(pricing) => ApproveShots(svc, p, pricing)
    case TakeSelected(i, k) => SelectTake(p, i, k)
    case TakeDeselected(i, k) => DeselectTake(p, i, k)
  }

  function WorkStep(svc: Service, p: Project, a: Action): Result
    requires IsWork(a)
  {
    match a
    case ShotMoves(i, to) => WorkerMoves(p, i, to)
    case TakeOrdered(i, charges, quote) => WorkerOrders(svc, p, i, charges, quote)
    case TakeSubmits(i) => WorkerSubmits(p, i)
    case TakeSettles(i, k, how) => WorkerSettles(p, i, k, how)
  }

  /** Whatever moves the project itself along, or sets its budget. */
  function ProjectStep(p: Project, a: Action): Result
    requires !TouchesCast(a) && !TouchesTakes(a) && !IsWork(a)
  {
    match a
    case BudgetIsSet(limit, currency) => SetBudgetOf(p, limit, currency)
    case AdaptationStarts(input) => StartAdaptation(p, input)
    case StoryApproved => ApproveStory(p)
    case CharactersApproved => ApproveCharacters(p)
    case FinalRendered(toolsWork) => RenderFinal(p, toolsWork)
    case FinalApproved => Move(p, Completed)
    case ProjectCancelled => Move(p, ProjectStatus.Cancelled)
    case GenerationEnds => WorkerAdvances(p)
  }

  ghost function Step(svc: Service, p: Project, a: Action): Result {
    if TouchesCast(a) then CastStep(svc, p, a)
    else if TouchesTakes(a) then TakeStep(svc, p, a)
    else if IsWork(a) then WorkStep(svc, p, a)
    else ProjectStep(p, a)
  }

  ghost function Run(svc: Service, p: Project, actions: seq<Action>): Project {
    if actions == [] then p
    else Step(svc, Run(svc, p, actions[..|actions| - 1]), actions[|actions| - 1]).project
  }
}
