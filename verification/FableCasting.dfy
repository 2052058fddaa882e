/**
 Casting under crashes and re-runs: a finished sheet is never drawn or paid for again, and the views of a sheet are
 chained to the face of the same pass. core/fable_service.py:559-739, pipeline/reference_prompt.py:66-69.
 */
module FableCasting {
  import opened Prelude
  import opened CinematicState
  import opened CostService
  import opened ReferenceSlots
  import opened FableModel
  import opened FableInvariants
  import Parser = AdaptationParser

  // ---- one pass --------------------------------------------------------------------------------------------

  /** The k-th request of a pass: the face from words alone, every later view with exactly that face. */
  predicate Chained(requests: seq<ImageRequest>, character: string, draw: View -> Answer, k: nat)
    requires k < |requests| <= |VIEWS|
  {
    && requests[k].character == character && requests[k].view == VIEWS[k]
    && if k == 0 then requests[k].references == []
       else draw(VIEWS[0]).Image? && requests[k].references == [draw(VIEWS[0]).path]
  }

  /** A pass keeps exactly the images it was given, and is whole exactly when it was given every one. */
  lemma {:induction false} PassKeepsItsImages(character: string, draw: View -> Answer, k: nat)
    requires k <= |VIEWS|
    ensures var pass := RunPass(character, draw, k);
            && (pass.end.Whole? <==> forall j :: 0 <= j < k ==> draw(VIEWS[j]).Image?)
            && (forall v :: v in pass.images ==> draw(v).Image? && pass.images[v] == draw(v).path)
            && (pass.end.Whole? && k > 0 ==> draw(VIEWS[0]).Image? && pass.face == Some(draw(VIEWS[0]).path))
            && (k == 0 ==> pass.face.None?)
  {
    if k > 0 { PassKeepsItsImages(character, draw, k - 1); }
  }

  /** A pass asks for the views in order until one is refused or lost. */
  lemma {:induction false} PassIsChained(character: string, draw: View -> Answer, k: nat)
    requires k <= |VIEWS|
    ensures var pass := RunPass(character, draw, k);
            && |pass.requests| <= k && (pass.end.Whole? ==> |pass.requests| == k)
            && forall j :: 0 <= j < |pass.requests| ==> Chained(pass.requests, character, draw, j)
  {
    if k > 0 {
      PassIsChained(character, draw, k - 1);
      PassKeepsItsImages(character, draw, k - 1);
      var before := RunPass(character, draw, k - 1);
      if before.end.Whole? {
        ChainGrows(before, character, draw, k - 1, draw(VIEWS[k - 1]));
      }
    }
  }

  lemma ChainGrows(before: Pass, character: string, draw: View -> Answer, k: nat, answer: Answer)
    requires k < |VIEWS| && |before.requests| == k
    requires forall j :: 0 <= j < k ==> Chained(before.requests, character, draw, j)
    requires if k == 0 then before.face.None? else draw(VIEWS[0]).Image? && before.face == Some(draw(VIEWS[0]).path)
    ensures var after := OneView(before, character, k, answer);
            |after.requests| == k + 1 && forall j :: 0 <= j <= k ==> Chained(after.requests, character, draw, j)
  {
    var after := OneView(before, character, k, answer);
    forall j | 0 <= j <= k ensures Chained(after.requests, character, draw, j) {
      assert j < k ==> Chained(before.requests, character, draw, j) && after.requests[j] == before.requests[j];
    }
  }

  // ---- finished sheets -------------------------------------------------------------------------------------

  /** The same actor drawn on the same sheet, paid for once; approval may come and go. */
  predicate SameSheet(c: Character, d: Character) {
    d.(approved := c.approved) == c
  }

  ghost predicate Asked(log: seq<ImageRequest>, name: string) {
    exists r :: r in log && r.character == name
  }

  /** Casting that has not got to the n-th row yet: everyone keeps their name, and those rows are as they were. */
  ghost predicate SameFrom(p: Project, q: Project, n: nat) {
    && q == p.(characters := q.characters, budget := q.budget) && |q.characters| == |p.characters|
    && (forall k :: 0 <= k < |p.characters| ==> q.characters[k].name == p.characters[k].name)
    && (forall k :: n <= k < |p.characters| ==> q.characters[k] == p.characters[k])
  }

  lemma CastOneAsksForOne(svc: Service, p: Project, i: nat, draw: View -> Answer)
    requires i < |p.characters|
    ensures var run := CastOne(svc, p, i, draw);
            && SameFrom(p, run.project, i + 1)
            && (forall k :: 0 <= k < |p.characters| && k != i ==> run.project.characters[k] == p.characters[k])
            && (forall r :: r in run.log ==> r.character == p.characters[i].name)
            && (Finished(svc, p, p.characters[i]) ==> run.project == p && run.log == [])
  {
    var log := CastOne(svc, p, i, draw).log;
    PassIsChained(p.characters[i].name, draw, |VIEWS|);
    forall r | r in log ensures r.character == p.characters[i].name {
      var k :| 0 <= k < |log| && log[k] == r;
      assert Chained(RunPass(p.characters[i].name, draw, |VIEWS|).requests, p.characters[i].name, draw, k);
    }
  }

  lemma SameOn(p: Project, q: Project, r: Project, n: nat)
    requires SameFrom(p, q, n) && SameFrom(q, r, n + 1)
    ensures SameFrom(p, r, n + 1)
  {
  }

  lemma {:induction false} CastingKeepsNames(svc: Service, p: Project, script: nat -> View -> Answer, n: nat)
    requires n <= |p.characters|
    ensures SameFrom(p, CastUpTo(svc, p, script, n).project, n)
  {
    if n > 0 {
      CastingKeepsNames(svc, p, script, n - 1);
      var before := CastUpTo(svc, p, script, n - 1);
      if before.ok {
        CastOneAsksForOne(svc, before.project, n - 1, script(n - 1));
        SameOn(p, before.project, CastOne(svc, before.project, n - 1, script(n - 1)).project, n - 1);
      }
    }
  }

  lemma OneMoreSpares(svc: Service, p: Project, before: CastingRun, n: nat, draw: View -> Answer, j: nat)
    requires n < |p.characters| && j < |p.characters| && Finished(svc, p, p.characters[j])
    requires UniqueNames(p.characters) && SameFrom(p, before.project, n)
    requires before.project.characters[j] == p.characters[j] && !Asked(before.log, p.characters[j].name)
    ensures var one := CastOne(svc, before.project, n, draw);
            one.project.characters[j] == p.characters[j] && !Asked(before.log + one.log, p.characters[j].name)
  {
    CastOneAsksForOne(svc, before.project, n, draw);
    assert n != j ==> p.characters[n].name != p.characters[j].name;
  }

  lemma {:induction false} CastingSparesFinished(svc: Service, p: Project, script: nat -> View -> Answer,
                                                 n: nat, j: nat)
    requires n <= |p.characters| && j < |p.characters| && Finished(svc, p, p.characters[j])
    requires UniqueNames(p.characters)
    ensures CastUpTo(svc, p, script, n).project.characters[j] == p.characters[j]
    ensures !Asked(CastUpTo(svc, p, script, n).log, p.characters[j].name)
  {
    if n > 0 {
      CastingSparesFinished(svc, p, script, n - 1, j);
      var before := CastUpTo(svc, p, script, n - 1);
      if before.ok {
        CastingKeepsNames(svc, p, script, n - 1);
        OneMoreSpares(svc, p, before, n - 1, script(n - 1), j);
      }
    }
  }

  /** The action is about this very sheet: it rejects, casts over, deletes or adapts away the character of this name. */
  predicate IsAbout(p: Project, a: Action, name: string) {
    match a
    case AdaptationFinishes(_, _, _) => true
    case ReferenceRejected(i) => i < |p.characters| && p.characters[i].name == name
    case CharacterReused(source) => source.name == name
    case CharacterDeleted(i) => i < |p.characters| && p.characters[i].name == name
    case _ => false
  }

  /** What a refused action was about does not matter. */
  ghost predicate Leaves(svc: Service, p: Project, a: Action, name: string) {
    IsAbout(p, a, name) ==> !Step(svc, p, a).ok
  }

  ghost function Requests(svc: Service, p: Project, a: Action): seq<ImageRequest> {
    if a.ReferencesGenerated? then GenerateReferences(svc, p, a.provider, a.script, a.lives).log else []
  }

  ghost predicate AskedFor(log: seq<ImageRequest>, name: string, view: View) {
    exists r :: r in log && r.character == name && r.view == view
  }

  ghost predicate AllViewsAskedFor(log: seq<ImageRequest>, name: string) {
    forall k :: 0 <= k < |VIEWS| ==> AskedFor(log, name, VIEWS[k])
  }

  /** The project still has this sheet, finished, whatever place its character has moved to. */
  ghost predicate HasSheet(svc: Service, p: Project, c: Character) {
    exists j :: 0 <= j < |p.characters| && SameSheet(c, p.characters[j]) && Finished(svc, p, p.characters[j])
  }

  lemma FoundAt(svc: Service, p: Project, c: Character, j: nat)
    requires j < |p.characters| && SameSheet(c, p.characters[j]) && Finished(svc, p, p.characters[j])
    ensures HasSheet(svc, p, c)
  {
  }

  lemma RunSparesFinished(svc: Service, p: Project, provider: ReferenceProvider, script: nat -> View -> Answer,
                          lives: nat, c: Character, j: nat)
    requires j < |p.characters| && Finished(svc, p, p.characters[j]) && SameSheet(c, p.characters[j])
    requires UniqueNames(p.characters)
    ensures var run := GenerateReferences(svc, p, provider, script, lives);
            HasSheet(svc, run.project, c) && !Asked(run.log, c.name)
  {
    var n := if lives < |p.characters| then lives else |p.characters|;
    CastingKeepsNames(svc, p, script, n);
    CastingSparesFinished(svc, p, script, n, j);
    FoundAt(svc, GenerateReferences(svc, p, provider, script, lives).project, c, j);
  }

  lemma ReuseSparesFinished(svc: Service, p: Project, source: Character, c: Character, j: nat)
    requires j < |p.characters| && Finished(svc, p, p.characters[j]) && SameSheet(c, p.characters[j])
    requires ReuseCharacter(p, source).ok ==> source.name != c.name
    ensures HasSheet(svc, ReuseCharacter(p, source).project, c)
  {
    FoundAt(svc, ReuseCharacter(p, source).project, c, j);
  }

  lemma ReviewsSpareFinished(svc: Service, p: Project, i: nat, c: Character, j: nat)
    requires j < |p.characters| && Finished(svc, p, p.characters[j]) && SameSheet(c, p.characters[j])
    ensures HasSheet(svc, ApproveReference(p, i).project, c)
    ensures i != j ==> HasSheet(svc, RejectReference(p, i).project, c)
  {
    FoundAt(svc, ApproveReference(p, i).project, c, j);
    if i != j { FoundAt(svc, RejectReference(p, i).project, c, j); }
  }

  /** A character behind the deleted one moves up a place. */
  lemma DeletionSparesFinished(svc: Service, p: Project, i: nat, c: Character, j: nat)
    requires j < |p.characters| && Finished(svc, p, p.characters[j]) && SameSheet(c, p.characters[j])
    requires i == j ==> !DeleteCharacter(p, i).ok
    ensures HasSheet(svc, DeleteCharacter(p, i).project, c)
  {
    FoundAt(svc, DeleteCharacter(p, i).project, c, if DeleteCharacter(p, i).ok && j > i then j - 1 else j);
  }

  lemma StepSparesFinished(svc: Service, p: Project, a: Action, c: Character)
    requires UniqueNames(p.characters) && HasSheet(svc, p, c) && Leaves(svc, p, a, c.name)
    ensures HasSheet(svc, Step(svc, p, a).project, c)
    ensures !Asked(Requests(svc, p, a), c.name)
  {
    var j :| 0 <= j < |p.characters| && SameSheet(c, p.characters[j]) && Finished(svc, p, p.characters[j]);
    if TouchesCast(a) {
      CastStepSparesFinished(svc, p, a, c, j);
    } else {
      OthersLeaveTheCast(svc, p, a);
      FoundAt(svc, Step(svc, p, a).project, c, j);
    }
  }

  lemma CastStepSparesFinished(svc: Service, p: Project, a: Action, c: Character, j: nat)
    requires TouchesCast(a) && UniqueNames(p.characters) && Leaves(svc, p, a, c.name)
    requires j < |p.characters| && SameSheet(c, p.characters[j]) && Finished(svc, p, p.characters[j])
    ensures HasSheet(svc, CastStep(svc, p, a).project, c)
    ensures !Asked(Requests(svc, p, a), c.name)
  {
    match a
    case ReferencesGenerated(provider, script, lives) => RunSparesFinished(svc, p, provider, script, lives, c, j);
    case CharacterReused(source) => ReuseSparesFinished(svc, p, source, c, j);
    case CharacterDeleted(i) => DeletionSparesFinished(svc, p, i, c, j);
    case ReferenceApproved(i) => ReviewsSpareFinished(svc, p, i, c, j);
    case ReferenceRejected(i) => ReviewsSpareFinished(svc, p, i, c, j);
    case AdaptationFinishes(_, _, _) => FoundAt(svc, p, c, j);
  }

  ghost function AllRequests(svc: Service, p: Project, actions: seq<Action>): seq<ImageRequest> {
    if actions == [] then []
    else
      var n := |actions| - 1;
      AllRequests(svc, p, actions[..n]) + Requests(svc, Run(svc, p, actions[..n]), actions[n])
  }

  lemma NeverAskedTwice(log: seq<ImageRequest>, more: seq<ImageRequest>, name: string)
    requires !Asked(log, name) && !Asked(more, name)
    ensures !Asked(log + more, name)
  {
  }

  ghost predicate AllLeave(svc: Service, p: Project, actions: seq<Action>, name: string) {
    forall n :: 0 <= n < |actions| ==> Leaves(svc, Run(svc, p, actions[..n]), actions[n], name)
  }

  lemma EachLeaves(svc: Service, p: Project, actions: seq<Action>, name: string)
    requires actions != [] && AllLeave(svc, p, actions, name)
    ensures var n := |actions| - 1;
            AllLeave(svc, p, actions[..n], name) && Leaves(svc, Run(svc, p, actions[..n]), actions[n], name)
  {
    var n := |actions| - 1;
    forall m | 0 <= m < n ensures Leaves(svc, Run(svc, p, actions[..n][..m]), actions[..n][m], name) {
      assert actions[..n][..m] == actions[..m];
      assert Leaves(svc, Run(svc, p, actions[..m]), actions[m], name);
    }
  }

  /**
   However often casting crashes and is run again, and whatever else happens to the project meanwhile, a sheet that is
   finished is never asked for again and never billed again, until it is rejected, cast over, deleted or adapted away.
   */
  lemma {:induction false} FinishedSheetsAreNeverRedrawn(svc: Service, p: Project, actions: seq<Action>, c: Character)
    requires Sound(p) && forall a :: a in actions ==> SourceSound(a)
    requires HasSheet(svc, p, c) && AllLeave(svc, p, actions, c.name)
    ensures HasSheet(svc, Run(svc, p, actions), c)
    ensures !Asked(AllRequests(svc, p, actions), c.name)
  {
    if actions != [] {
      var n := |actions| - 1;
      EachLeaves(svc, p, actions, c.name);
      FinishedSheetsAreNeverRedrawn(svc, p, actions[..n], c);
      RunsKeepSound(svc, p, actions[..n]);
      StepSparesFinished(svc, Run(svc, p, actions[..n]), actions[n], c);
      NeverAskedTwice(AllRequests(svc, p, actions[..n]), Requests(svc, Run(svc, p, actions[..n]), actions[n]), c.name);
    }
  }

  // ---- what a crash costs ----------------------------------------------------------------------------------

  /** A sheet casting is done with: finished, or refused and waiting for a decision. */
  predicate Done(svc: Service, p: Project, c: Character) {
    Finished(svc, p, c) || (c.refused && !c.approved && c.fingerprint.None?)
  }

  lemma CastOneSettles(svc: Service, p: Project, i: nat, draw: View -> Answer)
    requires i < |p.characters|
    ensures var run := CastOne(svc, p, i, draw);
            && run.project ==
               p.(characters := p.characters[i := run.project.characters[i]], budget := run.project.budget)
            && (run.ok ==> Done(svc, run.project, run.project.characters[i]))
            && (!run.ok ==> run.project.characters[i] == Reopened(p.characters[i]) && run.project.budget == p.budget)
  {
    var name := p.characters[i].name;
    if RunPass(name, draw, |VIEWS|).end.Whole? {
      WholePassesAreComplete(name, draw, |VIEWS|);
      assert VIEWS[0] in RunPass(name, draw, |VIEWS|).images;
    }
  }

  /** Where a run stands that got as far as the m-th character: those before are done, those after untouched. */
  ghost predicate StoppedAt(svc: Service, p: Project, q: Project, m: nat) {
    && |q.characters| == |p.characters| && m <= |p.characters| && q.style == p.style
    && (forall j :: 0 <= j < m ==> Done(svc, q, q.characters[j]))
    && (forall j :: m < j < |p.characters| ==> q.characters[j] == p.characters[j])
    && (m < |p.characters| ==> q.characters[m] in {p.characters[m], Reopened(p.characters[m])})
  }

  lemma OneSheetFurther(svc: Service, p: Project, before: Project, n: nat, draw: View -> Answer)
    requires n < |p.characters| && StoppedAt(svc, p, before, n)
    requires forall j :: n <= j < |p.characters| ==> before.characters[j] == p.characters[j]
    ensures var run := CastOne(svc, before, n, draw);
            && StoppedAt(svc, p, run.project, if run.ok then n + 1 else n)
            && (run.ok ==> forall j :: n + 1 <= j < |p.characters| ==> run.project.characters[j] == p.characters[j])
  {
    CastOneSettles(svc, before, n, draw);
  }

  /** A crash loses at most the character in flight, and of that one only its approval and its refusal note. */
  lemma {:induction false} CrashesLoseOneSheet(svc: Service, p: Project, script: nat -> View -> Answer, n: nat)
    returns (m: nat)
    requires n <= |p.characters|
    ensures m <= n && StoppedAt(svc, p, CastUpTo(svc, p, script, n).project, m)
    ensures CastUpTo(svc, p, script, n).ok ==> m == n && forall j :: n <= j < |p.characters| ==>
              CastUpTo(svc, p, script, n).project.characters[j] == p.characters[j]
  {
    if n == 0 { return 0; }
    m := CrashesLoseOneSheet(svc, p, script, n - 1);
    var before := CastUpTo(svc, p, script, n - 1);
    if before.ok {
      OneSheetFurther(svc, p, before.project, n - 1, script(n - 1));
      if CastOne(svc, before.project, n - 1, script(n - 1)).ok { m := n; }
    }
  }

  /** A casting run that succeeds leaves every sheet finished or refused, and the cast up for review. */
  lemma SuccessfulRunsCastEveryone(svc: Service, p: Project, provider: ReferenceProvider, script: nat -> View -> Answer,
                                   lives: nat)
    requires GenerateReferences(svc, p, provider, script, lives).ok
    ensures var q := GenerateReferences(svc, p, provider, script, lives).project;
            && q.status == CharacterReview && |q.characters| == |p.characters|
            && forall c :: c in q.characters ==> Done(svc, q, c)
  {
    var m := CrashesLoseOneSheet(svc, p, script, |p.characters|);
  }

  // ---- reuse -----------------------------------------------------------------------------------------------

  lemma {:induction false} RefusedPassesWereRefused(character: string, draw: View -> Answer, k: nat)
    requires k <= |VIEWS|
    ensures RunPass(character, draw, k).end.RefusedPass? ==> exists v :: draw(v).RefusedByPolicy?
    ensures RunPass(character, draw, k).end.DeadPass? ==> exists v :: draw(v).Died?
  {
    if k > 0 { RefusedPassesWereRefused(character, draw, k - 1); }
  }

  ghost predicate NeverRefuses(draw: View -> Answer) {
    forall v :: !draw(v).RefusedByPolicy?
  }

  /** A sheet drawn without an exception has been asked for its face, and for every view when none is refused. */
  lemma UnfinishedSheetIsDrawn(svc: Service, p: Project, i: nat, draw: View -> Answer, k: nat)
    requires i < |p.characters| && !Finished(svc, p, p.characters[i]) && CastOne(svc, p, i, draw).ok
    requires k < |VIEWS| && (k == 0 || NeverRefuses(draw))
    ensures AskedFor(CastOne(svc, p, i, draw).log, p.characters[i].name, VIEWS[k])
  {
    var name := p.characters[i].name;
    var pass := RunPass(name, draw, |VIEWS|);
    RefusedPassesWereRefused(name, draw, |VIEWS|);
    PassIsChained(name, draw, |VIEWS|);
    AlwaysAsksForTheFace(name, draw, |VIEWS|);
    assert Chained(pass.requests, name, draw, k);
    assert pass.requests[k] in pass.requests;
  }

  lemma AskedInEither(log: seq<ImageRequest>, more: seq<ImageRequest>, name: string, view: View)
    requires AskedFor(log, name, view) || AskedFor(more, name, view)
    ensures AskedFor(log + more, name, view)
  {
    var r :| (r in log || r in more) && r.character == name && r.view == view;
    assert r in log + more;
  }

  /** A casting run that gets past an unfinished sheet has drawn it. */
  lemma {:induction false} UnfinishedSheetsAreDrawn(svc: Service, p: Project, script: nat -> View -> Answer, n: nat,
                                                    j: nat, k: nat)
    requires j < n <= |p.characters| && !Finished(svc, p, p.characters[j]) && CastUpTo(svc, p, script, n).ok
    requires k < |VIEWS| && (k == 0 || NeverRefuses(script(j)))
    ensures AskedFor(CastUpTo(svc, p, script, n).log, p.characters[j].name, VIEWS[k])
  {
    var before := CastUpTo(svc, p, script, n - 1);
    if j < n - 1 {
      UnfinishedSheetsAreDrawn(svc, p, script, n - 1, j, k);
    } else {
      CastingKeepsNames(svc, p, script, n - 1);
      UnfinishedSheetIsDrawn(svc, before.project, j, script(j), k);
    }
    AskedInEither(before.log, CastOne(svc, before.project, n - 1, script(n - 1)).log, p.characters[j].name, VIEWS[k]);
  }

  lemma {:induction false} AlwaysAsksForTheFace(character: string, draw: View -> Answer, k: nat)
    requires 0 < k <= |VIEWS|
    ensures RunPass(character, draw, k).requests != []
  {
    if k > 1 { AlwaysAsksForTheFace(character, draw, k - 1); }
  }

  /** Where a reused actor's row is. */
  lemma RecastAt(p: Project, source: Character) returns (j: nat)
    requires ReuseCharacter(p, source).ok
    ensures var rows := ReuseCharacter(p, source).project.characters;
            j < |rows| && rows[j] == Recast(source)
  {
    match Namesake(p.characters, source.name)
    case Some(i) => j := i;
    case None => j := |p.characters|;
  }

  lemma RedrawnAtOnce(svc: Service, p: Project, provider: ReferenceProvider, script: nat -> View -> Answer, lives: nat,
                      j: nat)
    requires j < |p.characters| && !Finished(svc, p, p.characters[j])
    requires GenerateReferences(svc, p, provider, script, lives).ok
    ensures var log := GenerateReferences(svc, p, provider, script, lives).log;
            && AskedFor(log, p.characters[j].name, VIEWS[0])
            && (NeverRefuses(script(j)) ==> AllViewsAskedFor(log, p.characters[j].name))
  {
    UnfinishedSheetsAreDrawn(svc, p, script, |p.characters|, j, 0);
    if NeverRefuses(script(j)) {
      forall k | 0 <= k < |VIEWS|
        ensures AskedFor(GenerateReferences(svc, p, provider, script, lives).log, p.characters[j].name, VIEWS[k])
      {
        UnfinishedSheetsAreDrawn(svc, p, script, |p.characters|, j, k);
      }
    }
  }

  /** The sheet already describes this actor in a film of this style. */
  predicate Describes(svc: Service, c: Character, style: string) {
    c.fingerprint == Some(svc.fingerprint(c.name, c.bible, style))
  }

  /**
   Reusing an actor is documented as free. The row itself is; but the next casting run leaves the actor alone exactly
   when the sheet's fingerprint describes the actor in this film. If it does, no run asks for anything and the shared
   sheet stays; if not, a run that completes asks for the face, and for all five views unless the provider refuses one.
   */
  lemma ReuseIsFreeExactlyWhen(svc: Service, p: Project, source: Character, provider: ReferenceProvider,
                               script: nat -> View -> Answer, lives: nat) returns (j: nat)
    requires Sound(p) && ReuseCharacter(p, source).ok
    ensures var after := ReuseCharacter(p, source).project;
            var run := GenerateReferences(svc, after, provider, script, lives);
            && j < |after.characters| && after.characters[j] == Recast(source)
            && (Describes(svc, source, p.style) ==>
                  !Asked(run.log, source.name) && HasSheet(svc, run.project, Recast(source)))
            && (run.ok ==> (!Asked(run.log, source.name) <==> Describes(svc, source, p.style)))
            && (run.ok && !Describes(svc, source, p.style) ==>
                  && AskedFor(run.log, source.name, VIEWS[0])
                  && (NeverRefuses(script(j)) ==> AllViewsAskedFor(run.log, source.name)))
  {
    j := RecastAt(p, source);
    var after := ReuseCharacter(p, source).project;
    PutKeepsNames(p.characters, Recast(source));
    if Describes(svc, source, p.style) {
      RunSparesFinished(svc, after, provider, script, lives, Recast(source), j);
    } else if GenerateReferences(svc, after, provider, script, lives).ok {
      RedrawnAtOnce(svc, after, provider, script, lives, j);
    }
  }

  /** Sheets of one character in two visual styles share a fingerprint only if the styles are the same. */
  ghost predicate StyleMatters(svc: Service) {
    forall name, bible, s, t :: svc.fingerprint(name, bible, s) == svc.fingerprint(name, bible, t) ==> s == t
  }

  /** A sheet that is finished in its own film is reused for free exactly in films of the same style. */
  lemma FinishedSheetsAreFreeInTheirStyle(svc: Service, p: Project, q: Project, source: Character,
                                          provider: ReferenceProvider, script: nat -> View -> Answer, lives: nat)
    requires StyleMatters(svc) && Sound(p) && ReuseCharacter(p, source).ok && Finished(svc, q, source)
    ensures var run := GenerateReferences(svc, ReuseCharacter(p, source).project, provider, script, lives);
            run.ok ==> (!Asked(run.log, source.name) <==> p.style == q.style)
  {
    var j := ReuseIsFreeExactlyWhen(svc, p, source, provider, script, lives);
  }

  // ---- a reused actor who is drawn again --------------------------------------------------------------------

  const SHEET: map<View, MediaPath> := map[Face := "face.png", ThreeQuarter := "three_quarter.png",
                                           FullBody := "full_body.png", Wardrobe := "wardrobe.png", Back := "back.png"]

  /** An actor whose sheet is finished and approved. */
  function Approved(name: string, bible: string, fingerprint: string): Character {
    Character(name, bible, true, SHEET, Some(fingerprint), true, false, None)
  }

  /** A film whose story is approved, with nobody in it but these. */
  function FilmToCast(style: string, cast: seq<Character>): Project {
    Project(Casting, Some("input"), style, 1, cast, [], Budget(None, None, 0), None)
  }

  const FREE_PROVIDER := ReferenceProvider(false, None)

  function DrawsAnything(): nat -> View -> Answer {
    i => v => Image("view.png", None)
  }

  lemma FreeCastingCompletes(svc: Service, style: string, c: Character)
    ensures GenerateReferences(svc, FilmToCast(style, [c]), FREE_PROVIDER, DrawsAnything(), 2).ok
  {
    var p := FilmToCast(style, [c]);
    PassKeepsItsImages(c.name, DrawsAnything()(0), |VIEWS|);
    assert CastUpTo(svc, p, DrawsAnything(), 0) == CastingRun(p, true, []);
    assert CastOne(svc, p, 0, DrawsAnything()(0)).ok;
    assert CastUpTo(svc, p, DrawsAnything(), 1).ok;
    CastingKeepsTheStatus(svc, p, DrawsAnything(), 1);
  }

  /** A finished sheet that was rejected and approved again is approved and whole, and describes nobody any more. */
  lemma ReapprovalForgetsTheFingerprint(svc: Service, p: Project, i: nat)
    requires i < |p.characters| && Complete(p.characters[i].images)
    ensures var rejected := RejectReference(p, i).project;
            var again := ApproveReference(rejected, i);
            && again.ok && again.project.characters[i] == p.characters[i].(approved := true, fingerprint := None)
            && forall style :: !Describes(svc, again.project.characters[i], style)
  {
  }

  /** Reused into a film of the very same style, such a sheet is drawn again. */
  lemma ReapprovedSheetsAreDrawnAgain(svc: Service, bible: string, style: string)
    ensures var mina := Approved("Mina", bible, svc.fingerprint("Mina", bible, style));
            var own := FilmToCast(style, [mina]);
            var source := ApproveReference(RejectReference(own, 0).project, 0).project.characters[0];
            var reused := ReuseCharacter(FilmToCast(style, []), source);
            var run := GenerateReferences(svc, reused.project, FREE_PROVIDER, DrawsAnything(), 2);
            && Sound(own) && Finished(svc, own, mina) && SheetSound(source) && reused.ok
            && run.ok && AskedFor(run.log, "Mina", VIEWS[0])
  {
    var mina := Approved("Mina", bible, svc.fingerprint("Mina", bible, style));
    var own := FilmToCast(style, [mina]);
    assert Face in SHEET && Complete(SHEET);
    ReapprovalForgetsTheFingerprint(svc, own, 0);
    var source := ApproveReference(RejectReference(own, 0).project, 0).project.characters[0];
    var film := FilmToCast(style, []);
    assert Sound(film);
    assert ReuseCharacter(film, source).project == FilmToCast(style, [Recast(source)]);
    FreeCastingCompletes(svc, style, Recast(source));
    var j := ReuseIsFreeExactlyWhen(svc, film, source, FREE_PROVIDER, DrawsAnything(), 2);
  }
}
