/**
 The money of a project over whole runs: what was booked against what its line items still say, and the spending limit.
 core/cost_service.py:226-315 and the callers of record_spend.
 */
module FableLedger {
  import opened Prelude
  import opened CinematicState
  import opened CostService
  import opened ReferenceSlots
  import opened FableModel
  import opened FableInvariants
  import Parser = AdaptationParser

  // ---- the line items --------------------------------------------------------------------------------------

  function TakesTotal(takes: seq<Take>): nat {
    if takes == [] then 0 else TakesTotal(takes[..|takes| - 1]) + Amount(takes[|takes| - 1].cost)
  }

  function ShotsTotal(shots: seq<FilmShot>): nat {
    if shots == [] then 0 else ShotsTotal(shots[..|shots| - 1]) + TakesTotal(shots[|shots| - 1].takes)
  }

  function CastTotal(rows: seq<Character>): nat {
    if rows == [] then 0 else CastTotal(rows[..|rows| - 1]) + Amount(rows[|rows| - 1].cost)
  }

  /** recorded_spend: the audit of the running total from its own line items, sheets and takes alike. */
  function Recorded(p: Project): nat {
    ShotsTotal(p.shots) + CastTotal(p.characters)
  }

  lemma {:induction false} TakesUpdate(takes: seq<Take>, k: nat, t: Take)
    requires k < |takes|
    ensures TakesTotal(takes[k := t]) == TakesTotal(takes) - Amount(takes[k].cost) + Amount(t.cost)
  {
    var n := |takes| - 1;
    if k < n {
      TakesUpdate(takes[..n], k, t);
      assert takes[k := t][..n] == takes[..n][k := t];
    } else {
      assert takes[k := t][..n] == takes[..n];
    }
  }

  lemma {:induction false} ShotsUpdate(shots: seq<FilmShot>, i: nat, s: FilmShot)
    requires i < |shots|
    ensures ShotsTotal(shots[i := s]) == ShotsTotal(shots) - TakesTotal(shots[i].takes) + TakesTotal(s.takes)
  {
    var n := |shots| - 1;
    if i < n {
      ShotsUpdate(shots[..n], i, s);
      assert shots[i := s][..n] == shots[..n][i := s];
    } else {
      assert shots[i := s][..n] == shots[..n];
    }
  }

  lemma {:induction false} CastUpdate(rows: seq<Character>, i: nat, c: Character)
    requires i < |rows|
    ensures CastTotal(rows[i := c]) == CastTotal(rows) - Amount(rows[i].cost) + Amount(c.cost)
  {
    var n := |rows| - 1;
    if i < n {
      CastUpdate(rows[..n], i, c);
      assert rows[i := c][..n] == rows[..n][i := c];
    } else {
      assert rows[i := c][..n] == rows[..n];
    }
  }

  lemma {:induction false} CastDelete(rows: seq<Character>, i: nat)
    requires i < |rows|
    ensures CastTotal(rows[..i] + rows[i + 1..]) == CastTotal(rows) - Amount(rows[i].cost)
  {
    var n := |rows| - 1;
    if i < n {
      CastDelete(rows[..n], i);
      assert (rows[..i] + rows[i + 1..])[..n - 1] == rows[..n][..i] + rows[..n][i + 1..];
    } else {
      assert rows[..i] + rows[i + 1..] == rows[..n];
    }
  }

  lemma {:induction false} SameTakesSameTotal(shots: seq<FilmShot>, others: seq<FilmShot>)
    requires |shots| == |others|
    requires forall i :: 0 <= i < |shots| ==> TakesTotal(shots[i].takes) == TakesTotal(others[i].takes)
    ensures ShotsTotal(shots) == ShotsTotal(others)
  {
    if shots != [] {
      var n := |shots| - 1;
      SameTakesSameTotal(shots[..n], others[..n]);
    }
  }

  lemma {:induction false} NoTakesNoTotal(shots: seq<FilmShot>)
    requires forall s :: s in shots ==> s.takes == []
    ensures ShotsTotal(shots) == 0
  {
    if shots != [] {
      assert shots[|shots| - 1] in shots;
      NoTakesNoTotal(shots[..|shots| - 1]);
    }
  }

  lemma {:induction false} DeselectingCostsNothing(takes: seq<Take>)
    ensures TakesTotal(Deselected(takes)) == TakesTotal(takes)
  {
    if takes != [] { DeselectingCostsNothing(takes[..|takes| - 1]); }
  }

  // ---- line items that go, and bills that are kept but not booked -------------------------------------------

  /** The line item of the row that PutByName replaces. */
  function NamesakesAmount(rows: seq<Character>, name: string): nat {
    match Namesake(rows, name)
    case Some(i) => Amount(rows[i].cost)
    case None => 0
  }

  lemma PutTotal(rows: seq<Character>, row: Character)
    ensures CastTotal(PutByName(rows, row)) == CastTotal(rows) - NamesakesAmount(rows, row.name) + Amount(row.cost)
  {
    match Namesake(rows, row.name)
    case Some(i) => CastUpdate(rows, i, row);
    case None => assert (rows + [row])[..|rows|] == rows;
  }

  lemma {:induction false} NewCastIsFree(models: seq<Parser.CharacterModel>)
    ensures CastTotal(NewCast(models)) == 0
  {
    if models != [] {
      NewCastIsFree(models[..|models| - 1]);
      PutTotal(NewCast(models[..|models| - 1]), NewCharacter(models[|models| - 1]));
    }
  }

  /** A regenerated sheet overwrites the line item of the one before. */
  function DroppedByOne(svc: Service, p: Project, i: nat, draw: View -> Answer): nat
    requires i < |p.characters|
  {
    var pass := RunPass(p.characters[i].name, draw, |VIEWS|);
    if Finished(svc, p, p.characters[i]) || !CastOne(svc, p, i, draw).ok || pass.cost == 0 then 0
    else Amount(p.characters[i].cost)
  }

  function DroppedUpTo(svc: Service, p: Project, script: nat -> View -> Answer, n: nat): nat
    requires n <= |p.characters|
  {
    if n == 0 then 0
    else
      var before := CastUpTo(svc, p, script, n - 1);
      DroppedUpTo(svc, p, script, n - 1)
      + if before.ok then DroppedByOne(svc, before.project, n - 1, script(n - 1)) else 0
  }

  /** What the line items lose in this step: sheets regenerated, cast over, deleted or adapted away. */
  ghost function Dropped(svc: Service, p: Project, a: Action): nat {
    if !Step(svc, p, a).ok && !a.ReferencesGenerated? then 0
    else match a
      case ReferencesGenerated(provider, script, lives) =>
        if p.status != Casting || p.characters == [] || !ReferencesAffordable(svc, p, provider) then 0
        else DroppedUpTo(svc, p, script, if lives < |p.characters| then lives else |p.characters|)
      case AdaptationFinishes(_, _, _) => if p.scenes > 0 then CastTotal(p.characters) else 0
      case CharacterReused(source) => NamesakesAmount(p.characters, source.name)
      case CharacterDeleted(i) => if i < |p.characters| then Amount(p.characters[i].cost) else 0
      case _ => 0
  }

  /** What a take records without the total moving: its provider billed in a foreign currency. */
  ghost function Unbooked(svc: Service, p: Project, a: Action): nat {
    if a.TakeSettles? && Step(svc, p, a).ok then UnbookedBill(p.budget, a.how) else 0
  }

  ghost predicate Balanced(p: Project, q: Project, dropped: nat, unbooked: nat) {
    q.budget.spent + unbooked + Recorded(p) == p.budget.spent + dropped + Recorded(q)
  }

  // ---- one step --------------------------------------------------------------------------------------------

  lemma CastOneBalances(svc: Service, p: Project, i: nat, draw: View -> Answer)
    requires i < |p.characters|
    ensures Balanced(p, CastOne(svc, p, i, draw).project, DroppedByOne(svc, p, i, draw), 0)
  {
    var c := p.characters[i];
    CastUpdate(p.characters, i, Reopened(c));
    CastUpdate(p.characters, i, Filed(Reopened(c), RunPass(c.name, draw, |VIEWS|), FingerprintOf(svc, p, c)));
  }

  lemma BalancesAdd(p: Project, q: Project, r: Project, d: nat, u: nat, e: nat, v: nat)
    requires Balanced(p, q, d, u) && Balanced(q, r, e, v)
    ensures Balanced(p, r, d + e, u + v)
  {
  }

  lemma {:induction false} CastingBalances(svc: Service, p: Project, script: nat -> View -> Answer, n: nat)
    requires n <= |p.characters|
    ensures Balanced(p, CastUpTo(svc, p, script, n).project, DroppedUpTo(svc, p, script, n), 0)
  {
    if n > 0 {
      CastingBalances(svc, p, script, n - 1);
      var before := CastUpTo(svc, p, script, n - 1);
      if before.ok {
        OneMoreBalances(svc, p, before.project, n - 1, script(n - 1), DroppedUpTo(svc, p, script, n - 1));
      }
    }
  }

  lemma OneMoreBalances(svc: Service, p: Project, before: Project, i: nat, draw: View -> Answer, dropped: nat)
    requires i < |before.characters| && Balanced(p, before, dropped, 0)
    ensures Balanced(p, CastOne(svc, before, i, draw).project, dropped + DroppedByOne(svc, before, i, draw), 0)
  {
    CastOneBalances(svc, before, i, draw);
    BalancesAdd(p, before, CastOne(svc, before, i, draw).project, dropped, 0, DroppedByOne(svc, before, i, draw), 0);
  }

  /** Exchanging one shot moves the audit by what its takes record. */
  lemma EditMovesTheAudit(p: Project, i: nat, s: FilmShot)
    requires i < |p.shots|
    ensures Recorded(WithShot(p, i, s)) == Recorded(p) - TakesTotal(p.shots[i].takes) + TakesTotal(s.takes)
  {
    ShotsUpdate(p.shots, i, s);
  }

  lemma SelectionBalances(p: Project, i: nat, k: nat)
    ensures Balanced(p, SelectTake(p, i, k).project, 0, 0)
  {
    var r := SelectTake(p, i, k);
    if r.ok {
      var s := p.shots[i];
      EditMovesTheAudit(p, i, Choose(s, k));
      DeselectingCostsNothing(s.takes);
      TakesUpdate(Deselected(s.takes), k, s.takes[k].(selected := true));
      assert Recorded(r.project) == Recorded(WithShot(p, i, Choose(s, k)));
    }
  }

  lemma DeselectionBalances(p: Project, i: nat, k: nat)
    ensures Balanced(p, DeselectTake(p, i, k).project, 0, 0)
  {
    var r := DeselectTake(p, i, k);
    if r.ok {
      var s := p.shots[i];
      EditMovesTheAudit(p, i, Unchoose(s, k));
      TakesUpdate(s.takes, k, s.takes[k].(selected := false));
      assert Recorded(r.project) == Recorded(WithShot(p, i, Unchoose(s, k)));
    }
  }

  /** What a settlement records without booking it. */
  function UnbookedBill(b: Budget, how: Settlement): nat {
    if how.Download? && RecordSpend(b, how.cost).None? then Amount(how.cost) else 0
  }

  lemma SettlementBalances(p: Project, i: nat, k: nat, how: Settlement)
    requires Sound(p)
    ensures var r := WorkerSettles(p, i, k, how);
            Balanced(p, r.project, 0, if r.ok then UnbookedBill(p.budget, how) else 0)
  {
    var r := WorkerSettles(p, i, k, how);
    if r.ok {
      var s, t := p.shots[i], r.project.shots[i];
      assert s in p.shots && ShotSound(s);
      EditMovesTheAudit(p, i, t);
      TakesUpdate(s.takes, k, t.takes[k]);
      assert Recorded(r.project) == Recorded(WithShot(p, i, t));
    }
  }

  lemma MoveBalances(p: Project, i: nat, to: ShotStatus)
    ensures Balanced(p, WorkerMoves(p, i, to).project, 0, 0)
  {
    if i < |p.shots| { EditMovesTheAudit(p, i, p.shots[i].(status := to)); }
  }

  lemma OrderBalances(svc: Service, p: Project, i: nat, charges: bool, quote: Option<Charge>)
    ensures Balanced(p, WorkerOrders(svc, p, i, charges, quote).project, 0, 0)
  {
    if i < |p.shots| { EditMovesTheAudit(p, i, p.shots[i].(status := Submitted)); }
  }

  lemma SubmissionBalances(p: Project, i: nat)
    ensures Balanced(p, WorkerSubmits(p, i).project, 0, 0)
  {
    if i < |p.shots| {
      var s := p.shots[i];
      var take := Take(TakeSubmitted, None, None, false);
      assert (s.takes + [take])[..|s.takes|] == s.takes;
      EditMovesTheAudit(p, i, s.(status := ShotGenerating, takes := s.takes + [take]));
    }
  }

  lemma ShotApprovalBalances(svc: Service, p: Project, pricing: Pricing)
    ensures Balanced(p, ApproveShots(svc, p, pricing).project, 0, 0)
  {
    SameTakesSameTotal(p.shots, AllMadeReady(p.shots));
  }

  lemma {:induction false} NewFilmHasNoTakes(scenes: seq<Parser.SceneModel>)
    ensures forall s :: s in NewFilm(scenes) ==> s.takes == []
  {
    if scenes != [] { NewFilmHasNoTakes(scenes[..|scenes| - 1]); }
  }

  lemma AdaptationBalances(p: Project, input: string, doc: Parser.Document)
    requires Sound(p)
    ensures var r := FinishAdaptation(p, input, doc);
            Balanced(p, r.project, if r.ok && p.scenes > 0 then CastTotal(p.characters) else 0, 0)
  {
    var r := FinishAdaptation(p, input, doc);
    if r.ok {
      NewCastIsFree(doc.characters);
      NewFilmHasNoTakes(doc.scenes);
      NoTakesNoTotal(NewFilm(doc.scenes));
      assert r.project.characters == NewCast(doc.characters);
      assert r.project.shots == NewFilm(doc.scenes);
      assert p.scenes > 0 ==> forall s :: s in p.shots ==> s.takes == [];
      NoTakesNoTotal(if p.scenes > 0 then p.shots else []);
    }
  }

  lemma RecastingBalances(p: Project, source: Character, i: nat)
    ensures var r := ReuseCharacter(p, source);
            Balanced(p, r.project, if r.ok then NamesakesAmount(p.characters, source.name) else 0, 0)
    ensures var r := DeleteCharacter(p, i);
            Balanced(p, r.project, if r.ok then Amount(p.characters[i].cost) else 0, 0)
  {
    PutTotal(p.characters, Recast(source));
    if i < |p.characters| { CastDelete(p.characters, i); }
  }

  lemma ReviewBalances(p: Project, i: nat)
    ensures Balanced(p, ApproveReference(p, i).project, 0, 0) && Balanced(p, RejectReference(p, i).project, 0, 0)
  {
    if i < |p.characters| {
      var c := p.characters[i];
      CastUpdate(p.characters, i, c.(approved := true));
      CastUpdate(p.characters, i, c.(approved := false, fingerprint := None));
    }
  }

  lemma CastingRunBalances(svc: Service, p: Project, a: Action)
    requires a.ReferencesGenerated?
    ensures Balanced(p, GenerateReferences(svc, p, a.provider, a.script, a.lives).project, Dropped(svc, p, a), 0)
  {
    CastingBalances(svc, p, a.script, if a.lives < |p.characters| then a.lives else |p.characters|);
  }

  lemma AdaptationStepBalances(svc: Service, p: Project, a: Action)
    requires Sound(p) && a.AdaptationFinishes?
    ensures Balanced(p, CastStep(svc, p, a).project, Dropped(svc, p, a), 0)
  {
    AdaptationBalances(p, a.input, a.doc);
  }

  lemma RecastingStepBalances(svc: Service, p: Project, a: Action)
    requires a.CharacterReused? || a.CharacterDeleted?
    ensures Balanced(p, CastStep(svc, p, a).project, Dropped(svc, p, a), 0)
  {
    match a
    case CharacterReused(source) => RecastingBalances(p, source, 0);
    case CharacterDeleted(i) => RecastingBalances(p, Character("", "", false, map[], None, false, false, None), i);
  }

  lemma ReviewStepBalances(svc: Service, p: Project, a: Action)
    requires a.ReferenceApproved? || a.ReferenceRejected?
    ensures Balanced(p, CastStep(svc, p, a).project, 0, 0) && Dropped(svc, p, a) == 0
  {
    ReviewBalances(p, a.character);
  }

  lemma CastStepBalances(svc: Service, p: Project, a: Action)
    requires Sound(p) && TouchesCast(a)
    ensures Balanced(p, CastStep(svc, p, a).project, Dropped(svc, p, a), 0)
  {
    if a.ReferencesGenerated? { CastingRunBalances(svc, p, a); }
    else if a.AdaptationFinishes? { AdaptationStepBalances(svc, p, a); }
    else if a.CharacterReused? || a.CharacterDeleted? { RecastingStepBalances(svc, p, a); }
    else { ReviewStepBalances(svc, p, a); }
  }

  lemma TakeStepBalances(svc: Service, p: Project, a: Action)
    requires TouchesTakes(a)
    ensures Balanced(p, TakeStep(svc, p, a).project, 0, 0)
  {
    match a
    case ShotsApproved(pricing) => ShotApprovalBalances(svc, p, pricing);
    case TakeSelected(i, k) => SelectionBalances(p, i, k);
    case TakeDeselected(i, k) => DeselectionBalances(p, i, k);
  }

  lemma WorkStepBalances(svc: Service, p: Project, a: Action)
    requires Sound(p) && IsWork(a)
    ensures Balanced(p, WorkStep(svc, p, a).project, 0, Unbooked(svc, p, a))
  {
    match a
    case ShotMoves(i, to) => MoveBalances(p, i, to);
    case TakeOrdered(i, charges, quote) => OrderBalances(svc, p, i, charges, quote);
    case TakeSubmits(i) => SubmissionBalances(p, i);
    case TakeSettles(i, k, how) => SettlementBalances(p, i, k, how);
  }

  lemma ProjectStepBalances(p: Project, a: Action)
    requires !TouchesCast(a) && !TouchesTakes(a) && !IsWork(a)
    ensures Balanced(p, ProjectStep(p, a).project, 0, 0)
  {
    var q := ProjectStep(p, a).project;
    assert q.characters == p.characters && q.shots == p.shots && q.budget.spent == p.budget.spent;
  }

  /** The step law: what was booked is what the line items gained, plus what they lost, less what was never booked. */
  lemma StepBalances(svc: Service, p: Project, a: Action)
    requires Sound(p)
    ensures Balanced(p, Step(svc, p, a).project, Dropped(svc, p, a), Unbooked(svc, p, a))
  {
    if TouchesCast(a) { CastStepBalances(svc, p, a); }
    else if TouchesTakes(a) { TakeStepBalances(svc, p, a); }
    else if IsWork(a) { WorkStepBalances(svc, p, a); }
    else { ProjectStepBalances(p, a); }
  }

  // ---- whole runs ------------------------------------------------------------------------------------------

  ghost function AllDropped(svc: Service, p: Project, actions: seq<Action>): nat {
    if actions == [] then 0
    else
      var n := |actions| - 1;
      AllDropped(svc, p, actions[..n]) + Dropped(svc, Run(svc, p, actions[..n]), actions[n])
  }

  ghost function AllUnbooked(svc: Service, p: Project, actions: seq<Action>): nat {
    if actions == [] then 0
    else
      var n := |actions| - 1;
      AllUnbooked(svc, p, actions[..n]) + Unbooked(svc, Run(svc, p, actions[..n]), actions[n])
  }

  lemma {:induction false} RunsBalance(svc: Service, p: Project, actions: seq<Action>)
    requires Sound(p) && forall a :: a in actions ==> SourceSound(a)
    ensures Balanced(p, Run(svc, p, actions), AllDropped(svc, p, actions), AllUnbooked(svc, p, actions))
  {
    if actions != [] {
      var n := |actions| - 1;
      var before := Run(svc, p, actions[..n]);
      RunsBalance(svc, p, actions[..n]);
      RunsKeepSound(svc, p, actions[..n]);
      StepBalances(svc, before, actions[n]);
      BalancesAdd(p, before, Run(svc, p, actions), AllDropped(svc, p, actions[..n]), AllUnbooked(svc, p, actions[..n]),
                  Dropped(svc, before, actions[n]), Unbooked(svc, before, actions[n]));
    }
  }

  /**
   Conservation from creation on. The total is what the line items say exactly when the bills never booked, for being in
   a foreign currency, equal the line items lost, to regeneration, reuse or deletion; it is at least that exactly when
   they are no more.
   */
  lemma SpendingIsAccountedFor(svc: Service, takes: Option<nat>, actions: seq<Action>)
    requires forall a :: a in actions ==> SourceSound(a)
    ensures var end := Run(svc, NewProject(takes), actions);
            var dropped := AllDropped(svc, NewProject(takes), actions);
            var unbooked := AllUnbooked(svc, NewProject(takes), actions);
            && end.budget.spent + unbooked == Recorded(end) + dropped
            && (end.budget.spent == Recorded(end) <==> unbooked == dropped)
            && (end.budget.spent >= Recorded(end) <==> unbooked <= dropped)
  {
    assert Sound(NewProject(takes));
    RunsBalance(svc, NewProject(takes), actions);
  }

  const USD := Some("USD")
  const EUR := Some("EUR")

  function OneShotFilm(status: ProjectStatus, mina: Character, shots: seq<FilmShot>, budget: Budget): Project {
    Project(status, Some("input"), "noir", 1, [mina], shots, budget, None)
  }

  /** A take billed in a foreign currency: the line items then say more than the total. */
  lemma ForeignBillsAreNotBooked()
    ensures var take := Take(TakeSubmitted, None, None, false);
            var shot := FilmShot(Place(1, 1), "Mina", 4000, ShotStatus.Validating, [take]);
            var mina := Character("Mina", "a bible", true, map[], None, false, false, None);
            var p := OneShotFilm(Generating, mina, [shot], Budget(Some(100), USD, 0));
            var q := WorkerSettles(p, 0, 0, Download("take.mp4", Some(Charge(5, EUR))));
            q.ok && q.project.budget.spent == 0 && Recorded(q.project) == 5
  {
    var take := Take(Downloaded, Some("take.mp4"), Some(Charge(5, EUR)), false);
    var billed := FilmShot(Place(1, 1), "Mina", 4000, ShotStatus.Validating, [take]);
    assert [take][..0] == [] && TakesTotal([take]) == 5;
    assert [billed][..0] == [] && ShotsTotal([billed]) == 5;
    var mina := Character("Mina", "a bible", true, map[], None, false, false, None);
    assert [mina][..0] == [] && CastTotal([mina]) == 0;
  }

  lemma {:induction false} EvenlyPricedPass(name: string, draw: View -> Answer, price: nat, k: nat)
    requires k <= |VIEWS| && forall v :: draw(v).Image? && draw(v).cost == Some(Charge(price, USD))
    ensures RunPass(name, draw, k).end.Whole? && RunPass(name, draw, k).cost == k * price
    ensures k > 0 ==> RunPass(name, draw, k).currency == USD
  {
    if k > 0 { EvenlyPricedPass(name, draw, price, k - 1); }
  }

  const REFUSED_MINA :=
    Character("Mina", "a bible", true, map[Face := "face.png"], None, false, true, Some(Charge(4, USD)))

  /** A sheet refused after a billed face, and drawn again: the total then says more than the line items. */
  lemma RegeneratedSheetsStaySpent(svc: Service)
    ensures var p := OneShotFilm(Casting, REFUSED_MINA, [], Budget(None, USD, 4));
            var draw: View -> Answer := v => Image("view.png", Some(Charge(1, USD)));
            var q := CastOne(svc, p, 0, draw);
            Recorded(p) == p.budget.spent == 4 && q.ok && q.project.budget.spent == 9 && Recorded(q.project) == 5
  {
    var mina := REFUSED_MINA;
    var p := OneShotFilm(Casting, REFUSED_MINA, [], Budget(None, USD, 4));
    var draw: View -> Answer := v => Image("view.png", Some(Charge(1, USD)));
    EvenlyPricedPass("Mina", draw, 1, |VIEWS|);
    assert [mina][..0] == [] && CastTotal([mina]) == 4;
    CastUpdate([mina], 0, Filed(Reopened(mina), RunPass("Mina", draw, |VIEWS|), FingerprintOf(svc, p, mina)));
  }

  // ---- the limit -------------------------------------------------------------------------------------------

  predicate WithinLimit(b: Budget) {
    b.limit.Some? ==> b.spent <= b.limit.value
  }

  /** No image costs more than `most`. */
  ghost predicate Bounded(script: nat -> View -> Answer, most: nat) {
    forall i, v :: script(i)(v).Image? ==> Amount(script(i)(v).cost) <= most
  }

  /** The provider never bills above its quote. */
  ghost predicate Honest(a: Action) {
    a.ReferencesGenerated? && a.provider.quote.Some? ==> Bounded(a.script, a.provider.quote.value.amount)
  }

  lemma {:induction false} PassCostIsBounded(script: nat -> View -> Answer, i: nat, name: string, k: nat, most: nat)
    requires k <= |VIEWS| && Bounded(script, most)
    ensures RunPass(name, script(i), k).cost <= k * most
  {
    if k > 0 {
      PassCostIsBounded(script, i, name, k - 1, most);
      assert (k - 1) * most + most == k * most;
    }
  }

  lemma {:induction false} CastingIsBounded(svc: Service, p: Project, script: nat -> View -> Answer, n: nat, sheet: nat)
    requires n <= |p.characters|
    requires forall i, name :: 0 <= i < n ==> RunPass(name, script(i), |VIEWS|).cost <= sheet
    ensures CastUpTo(svc, p, script, n).project.budget.spent <= p.budget.spent + n * sheet
    ensures CastUpTo(svc, p, script, n).project.budget.limit == p.budget.limit
  {
    if n > 0 {
      CastingIsBounded(svc, p, script, n - 1, sheet);
      assert (n - 1) * sheet + sheet == n * sheet;
    }
  }

  /** A casting run stays within the limit, whatever it replays, has refused, or leaves half done. */
  lemma CastingStaysWithin(svc: Service, p: Project, provider: ReferenceProvider, script: nat -> View -> Answer,
                           lives: nat)
    requires WithinLimit(p.budget) && Honest(ReferencesGenerated(provider, script, lives))
    ensures WithinLimit(GenerateReferences(svc, p, provider, script, lives).project.budget)
  {
    if p.budget.limit.Some? && p.status == Casting && p.characters != [] && ReferencesAffordable(svc, p, provider) {
      var most := provider.quote.value.amount;
      var n := if lives < |p.characters| then lives else |p.characters|;
      forall i, name | 0 <= i < n ensures RunPass(name, script(i), |VIEWS|).cost <= most * |VIEWS| {
        PassCostIsBounded(script, i, name, |VIEWS|, most);
      }
      CastingIsBounded(svc, p, script, n, most * |VIEWS|);
      FewerSheets(n, |p.characters|, most, |VIEWS|);
    }
    CastingKeepsTheLimit(svc, p, script, if lives < |p.characters| then lives else |p.characters|);
  }

  lemma FewerSheets(n: nat, all: nat, most: nat, views: nat)
    requires n <= all
    ensures n * (most * views) <= most * all * views
  {
    assert most * all * views == all * (most * views);
    assert n * (most * views) <= all * (most * views);
  }

  lemma {:induction false} CastingKeepsTheLimit(svc: Service, p: Project, script: nat -> View -> Answer, n: nat)
    requires n <= |p.characters|
    ensures CastUpTo(svc, p, script, n).project.budget.limit == p.budget.limit
  {
    if n > 0 { CastingKeepsTheLimit(svc, p, script, n - 1); }
  }

  /** A bill that fits under the limit when it arrives: the worker asks before it orders, not when it is billed. */
  predicate BillFits(p: Project, a: Action) {
    a.TakeSettles? && a.how.Download? ==> WithinLimit(Booked(p.budget, a.how.cost))
  }

  /** Along the run, providers keep to their quotes and every take's bill still fits when it arrives. */
  ghost predicate BillsFit(svc: Service, p: Project, actions: seq<Action>) {
    forall n :: 0 <= n < |actions| ==> Honest(actions[n]) && BillFits(Run(svc, p, actions[..n]), actions[n])
  }

  /** Books nothing and leaves the limit alone. */
  predicate Quiet(a: Action) {
    !a.BudgetIsSet? && !a.ReferencesGenerated? && !(a.TakeSettles? && a.how.Download?)
  }

  lemma QuietStepsKeepTheBudget(svc: Service, p: Project, a: Action)
    requires Quiet(a)
    ensures Step(svc, p, a).project.budget == p.budget
  {
    if TouchesTakes(a) { assert TakeStep(svc, p, a).project.budget == p.budget; }
  }

  lemma StepStaysWithin(svc: Service, p: Project, a: Action)
    requires WithinLimit(p.budget) && Honest(a) && BillFits(p, a)
    ensures WithinLimit(Step(svc, p, a).project.budget)
  {
    if a.ReferencesGenerated? {
      CastingStaysWithin(svc, p, a.provider, a.script, a.lives);
    } else if a.BudgetIsSet? || (a.TakeSettles? && a.how.Download?) {
    } else {
      QuietStepsKeepTheBudget(svc, p, a);
    }
  }

  /** No service action, casting and set_budget included, ever takes the spending over the limit. */
  lemma {:induction false} RunsStayWithin(svc: Service, p: Project, actions: seq<Action>)
    requires WithinLimit(p.budget) && BillsFit(svc, p, actions)
    ensures WithinLimit(Run(svc, p, actions).budget)
  {
    if actions != [] {
      var n := |actions| - 1;
      assert forall m :: 0 <= m < n ==> actions[..n][..m] == actions[..m];
      RunsStayWithin(svc, p, actions[..n]);
      StepStaysWithin(svc, Run(svc, p, actions[..n]), actions[n]);
    }
  }

  // ---- orders and bills --------------------------------------------------------------------------------------

  lemma {:induction false} QuietRunsKeepTheBudget(svc: Service, p: Project, actions: seq<Action>)
    requires forall a :: a in actions ==> Quiet(a)
    ensures Run(svc, p, actions).budget == p.budget
  {
    if actions != [] {
      var n := |actions| - 1;
      QuietRunsKeepTheBudget(svc, p, actions[..n]);
      QuietStepsKeepTheBudget(svc, Run(svc, p, actions[..n]), actions[n]);
    }
  }

  /**
   The worker asks the budget when it orders a take, at the quote, and not again when it is billed. With one take in
   flight, nothing else booked and the limit left alone in between, and a bill no higher than the quote, that is enough.
   */
  lemma OneTakeInFlightFits(svc: Service, p: Project, shot: nat, charges: bool, quote: Option<Charge>,
                            between: seq<Action>, i: nat, k: nat, how: Settlement)
    requires WithinLimit(p.budget) && WorkerOrders(svc, p, shot, charges, quote).ok
    requires forall a :: a in between ==> Quiet(a)
    requires how.Download? ==> Amount(how.cost) <= Amount(quote)
    ensures var q := Run(svc, WorkerOrders(svc, p, shot, charges, quote).project, between);
            BillFits(q, TakeSettles(i, k, how)) && WithinLimit(WorkerSettles(q, i, k, how).project.budget)
  {
    QuietRunsKeepTheBudget(svc, WorkerOrders(svc, p, shot, charges, quote).project, between);
  }

  /** An order reserves nothing: two takes ordered against the same spending fit exactly when both bills do together. */
  lemma TwoTakesInFlightFitExactlyWhen(b: Budget, x: Charge, y: Charge)
    requires b.limit.Some?
    requires WithinBudget(b, Some(x.amount), x.currency).Allowed?
    requires WithinBudget(b, Some(y.amount), y.currency).Allowed?
    ensures WithinLimit(Booked(Booked(b, Some(x)), Some(y))) <==> b.spent + x.amount + y.amount <= b.limit.value
  {
  }

  // ---- any number of takes in flight -------------------------------------------------------------------------

  function Without(quotes: seq<nat>, t: nat): seq<nat>
    requires t < |quotes|
  {
    quotes[..t] + quotes[t + 1..]
  }

  lemma {:induction false} WithoutOneLess(quotes: seq<nat>, t: nat)
    requires t < |quotes|
    ensures Sum(Without(quotes, t)) == Sum(quotes) - quotes[t]
  {
    var n := |quotes| - 1;
    if t == n {
      assert Without(quotes, t) == quotes[..n];
    } else {
      WithoutOneLess(quotes[..n], t);
      assert Without(quotes, t)[..n - 1] == Without(quotes[..n], t);
    }
  }

  lemma {:induction false} QuotesAddUp(quotes: seq<nat>)
    ensures Sum(quotes) >= 0
  {
    if quotes != [] { QuotesAddUp(quotes[..|quotes| - 1]); }
  }

  /** The quotes of the takes in flight after a step: an order adds its own, a settlement takes its take's away. */
  ghost function InFlightAfter(svc: Service, p: Project, a: Action, quotes: seq<nat>, ticket: nat): seq<nat> {
    if a.TakeOrdered? && Step(svc, p, a).ok then quotes + [Amount(a.quote)]
    else if a.TakeSettles? && Step(svc, p, a).ok && ticket < |quotes| then Without(quotes, ticket)
    else quotes
  }

  /** Along a run whose n-th settlement is for the order at place ticket(n) among those in flight. */
  ghost function InFlight(svc: Service, p: Project, actions: seq<Action>, ticket: nat -> nat): seq<nat> {
    if actions == [] then []
    else
      var n := |actions| - 1;
      InFlightAfter(svc, Run(svc, p, actions[..n]), actions[n], InFlight(svc, p, actions[..n], ticket), ticket(n))
  }

  /** The limit is left alone, providers keep to their quotes, and no take is billed above the quote of its order. */
  ghost predicate KeepsToQuotes(svc: Service, p: Project, a: Action, quotes: seq<nat>, ticket: nat) {
    && Honest(a)
    && Step(svc, p, a).project.budget.limit == p.budget.limit
    && (a.TakeSettles? && a.how.Download? && Step(svc, p, a).ok ==>
          ticket < |quotes| && Amount(a.how.cost) <= quotes[ticket])
  }

  /** Everything promised so far: what is spent, and what the takes in flight may still cost. */
  ghost predicate PromisedWithin(p: Project, quotes: seq<nat>, most: nat) {
    p.budget.limit.Some? && p.budget.spent + Sum(quotes) <= p.budget.limit.value + most
  }

  /** Casting is refused, or ends within the limit: it asks the budget for the whole cast. */
  lemma CastingFitsOrIsRefused(svc: Service, p: Project, provider: ReferenceProvider, script: nat -> View -> Answer,
                               lives: nat)
    requires Honest(ReferencesGenerated(provider, script, lives))
    ensures var q := GenerateReferences(svc, p, provider, script, lives).project;
            q == p || WithinLimit(q.budget)
  {
    if p.status == Casting && p.characters != [] && ReferencesAffordable(svc, p, provider) {
      CastingStaysWithin(svc, p, provider, script, lives);
    }
  }

  lemma OrderPromises(svc: Service, p: Project, a: Action, quotes: seq<nat>, most: nat)
    requires a.TakeOrdered? && Step(svc, p, a).ok && PromisedWithin(p, quotes, most) && Sum(quotes) <= most
    ensures PromisedWithin(Step(svc, p, a).project, quotes + [Amount(a.quote)], most)
  {
    assert (quotes + [Amount(a.quote)])[..|quotes|] == quotes;
  }

  lemma SettlementPromises(svc: Service, p: Project, a: Action, quotes: seq<nat>, ticket: nat, most: nat)
    requires a.TakeSettles? && Step(svc, p, a).ok && PromisedWithin(p, quotes, most)
    requires KeepsToQuotes(svc, p, a, quotes, ticket)
    ensures PromisedWithin(Step(svc, p, a).project, InFlightAfter(svc, p, a, quotes, ticket), most)
  {
    if ticket < |quotes| { WithoutOneLess(quotes, ticket); }
  }

  lemma StepPromises(svc: Service, p: Project, a: Action, quotes: seq<nat>, ticket: nat, most: nat)
    requires PromisedWithin(p, quotes, most) && KeepsToQuotes(svc, p, a, quotes, ticket)
    requires (a.TakeOrdered? || a.ReferencesGenerated?) && Step(svc, p, a).ok ==> Sum(quotes) <= most
    requires a.ReferencesGenerated? ==> Sum(quotes) <= most
    ensures PromisedWithin(Step(svc, p, a).project, InFlightAfter(svc, p, a, quotes, ticket), most)
  {
    if !Step(svc, p, a).ok && !a.ReferencesGenerated? {
      RefusalsSpendNothing(svc, p, a);
    } else if a.TakeOrdered? {
      OrderPromises(svc, p, a, quotes, most);
    } else if a.TakeSettles? {
      SettlementPromises(svc, p, a, quotes, ticket, most);
    } else if a.ReferencesGenerated? {
      CastingFitsOrIsRefused(svc, p, a.provider, a.script, a.lives);
    } else if a.BudgetIsSet? {
    } else {
      QuietStepsKeepTheBudget(svc, p, a);
    }
  }

  lemma RefusalsSpendNothing(svc: Service, p: Project, a: Action)
    requires !Step(svc, p, a).ok && !a.ReferencesGenerated?
    ensures Step(svc, p, a).project.budget == p.budget
  {
    if !a.BudgetIsSet? && !a.TakeSettles? { QuietStepsKeepTheBudget(svc, p, a); }
  }

  /** Along the run everybody keeps to the quotes, and at most `most` was in flight whenever something was ordered. */
  ghost predicate RunKeepsToQuotes(svc: Service, p: Project, actions: seq<Action>, ticket: nat -> nat, most: nat) {
    forall n :: 0 <= n < |actions| ==> KeepsAt(svc, p, actions[..n], actions[n], ticket, most)
  }

  /** The next action after these. */
  ghost predicate KeepsAt(svc: Service, p: Project, actions: seq<Action>, next: Action, ticket: nat -> nat, most: nat) {
    var before, quotes := Run(svc, p, actions), InFlight(svc, p, actions, ticket);
    && KeepsToQuotes(svc, before, next, quotes, ticket(|actions|))
    && (next.ReferencesGenerated? || (next.TakeOrdered? && Step(svc, before, next).ok) ==> Sum(quotes) <= most)
  }

  /**
   Orders reserve nothing, for any number of takes: over any run with the limit left alone and bills no higher than
   quotes, the spending exceeds the limit by no more than the quotes that were in flight beside some order when it was
   made. With takes ordered one at a time that is nothing.
   */
  lemma {:induction false} OverspendIsBounded(svc: Service, p: Project, actions: seq<Action>, ticket: nat -> nat,
                                              most: nat)
    requires p.budget.limit.Some? && WithinLimit(p.budget) && RunKeepsToQuotes(svc, p, actions, ticket, most)
    ensures PromisedWithin(Run(svc, p, actions), InFlight(svc, p, actions, ticket), most)
    ensures Run(svc, p, actions).budget.limit == p.budget.limit
    ensures Run(svc, p, actions).budget.spent <= p.budget.limit.value + most
  {
    if actions != [] {
      var n := |actions| - 1;
      PrefixKeepsToQuotes(svc, p, actions, ticket, most);
      OverspendIsBounded(svc, p, actions[..n], ticket, most);
      StepPromises(svc, Run(svc, p, actions[..n]), actions[n], InFlight(svc, p, actions[..n], ticket), ticket(n), most);
    }
    QuotesAddUp(InFlight(svc, p, actions, ticket));
  }

  lemma PrefixKeepsToQuotes(svc: Service, p: Project, actions: seq<Action>, ticket: nat -> nat, most: nat)
    requires actions != [] && RunKeepsToQuotes(svc, p, actions, ticket, most)
    ensures var n := |actions| - 1;
            && RunKeepsToQuotes(svc, p, actions[..n], ticket, most)
            && KeepsAt(svc, p, actions[..n], actions[n], ticket, most)
  {
    var n := |actions| - 1;
    forall m | 0 <= m < n ensures KeepsAt(svc, p, actions[..n][..m], actions[..n][m], ticket, most) {
      assert actions[..n][..m] == actions[..m];
      assert KeepsAt(svc, p, actions[..m], actions[m], ticket, most);
    }
  }

  /**
   A second take in flight can cost the whole of the bound above; and with the limit lowered after the order, or a bill
   above the quote, even one take goes over the limit.
   */
  lemma EachConditionMatters()
    ensures var b, take := Budget(Some(100), USD, 60), Charge(40, USD);
            && WithinBudget(b, Some(take.amount), take.currency).Allowed?
            && Booked(Booked(b, Some(take)), Some(take)).spent == b.limit.value + take.amount
            && SetBudget(b, Some(60), USD).Some? && !WithinLimit(Booked(SetBudget(b, Some(60), USD).value, Some(take)))
            && !WithinLimit(Booked(b, Some(take.(amount := 60))))
  {
  }
}
