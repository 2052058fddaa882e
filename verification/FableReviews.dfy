/**
 What every decision a person makes changes, and what it leaves alone: sheets, actors, shots and takes.
 core/fable_service.py:698-853, 973-1141.
 */
module FableReviews {
  import opened Prelude
  import opened CinematicState
  import opened CostService
  import opened ReferenceSlots
  import opened FableModel
  import opened FableInvariants

  /** Only the cast changed, and in it only this row. */
  ghost predicate OnlyRow(p: Project, q: Project, i: nat) {
    && q == p.(characters := q.characters) && |q.characters| == |p.characters|
    && forall k :: 0 <= k < |p.characters| && k != i ==> q.characters[k] == p.characters[k]
  }

  /** Only the status and this shot changed. */
  ghost predicate OnlyShot(p: Project, q: Project, i: nat) {
    && q == p.(status := q.status, shots := q.shots) && |q.shots| == |p.shots|
    && forall k :: 0 <= k < |p.shots| && k != i ==> q.shots[k] == p.shots[k]
  }

  lemma ViewsAreAll(images: map<View, MediaPath>)
    ensures Complete(images) <==> forall v: View :: v in images
  {
    forall v: View ensures v in VIEWS {
      match v
      case Face => assert VIEWS[0] == v;
      case ThreeQuarter => assert VIEWS[1] == v;
      case FullBody => assert VIEWS[2] == v;
      case Wardrobe => assert VIEWS[3] == v;
      case Back => assert VIEWS[4] == v;
    }
  }

  /** A sheet is approved exactly when all five views are on it; deciding about it never changes what was drawn. */
  lemma SheetDecisions(p: Project, i: nat)
    ensures var yes, no := ApproveReference(p, i), RejectReference(p, i);
            && (yes.ok <==> i < |p.characters| && forall v: View :: v in p.characters[i].images)
            && (no.ok <==> i < |p.characters|)
            && OnlyRow(p, yes.project, i) && OnlyRow(p, no.project, i)
            && (yes.ok ==> yes.project.characters[i] == p.characters[i].(approved := true))
            // The sheet will be drawn again: it no longer describes anyone.
            && (no.ok ==> no.project.characters[i] == p.characters[i].(approved := false, fingerprint := None))
            && (!yes.ok ==> yes.project == p) && (!no.ok ==> no.project == p)
  {
    if i < |p.characters| { ViewsAreAll(p.characters[i].images); }
  }

  /** An approved actor is cast while the film is, in place of a namesake: not yet approved here, and free. */
  lemma ReuseDecides(p: Project, source: Character)
    requires Sound(p)
    ensures var r := ReuseCharacter(p, source);
            && (r.ok <==> p.status == Casting && source.approved && source.images != map[])
            && (!r.ok ==> r.project == p)
            && (r.ok ==>
                  && r.project == p.(characters := r.project.characters) && HasName(r.project.characters, source.name)
                  && (forall c :: c in r.project.characters && c.name == source.name ==>
                        c == source.(approved := false, refused := false, cost := None))
                  && (forall k :: 0 <= k < |p.characters| && p.characters[k].name != source.name ==>
                        k < |r.project.characters| && r.project.characters[k] == p.characters[k])
                  && (forall c :: c in r.project.characters && c.name != source.name ==> c in p.characters))
  {
    if ReuseCharacter(p, source).ok {
      var row := source.(approved := false, refused := false, cost := None);
      PutKeepsNames(p.characters, row);
      var put := PutByName(p.characters, row);
      forall c | c in put && c.name == source.name ensures c == row { SameNameSameRow(put, c, row); }
    }
  }

  lemma SameNameSameRow(rows: seq<Character>, c: Character, d: Character)
    requires UniqueNames(rows) && c in rows && d in rows && c.name == d.name
    ensures c == d
  {
    var i :| 0 <= i < |rows| && rows[i] == c;
    var j :| 0 <= j < |rows| && rows[j] == d;
  }

  /** A character goes exactly when no shot is about it, and nobody else does. */
  lemma DeletionDecides(p: Project, i: nat)
    ensures var r := DeleteCharacter(p, i);
            && (r.ok <==> i < |p.characters| && forall s :: s in p.shots ==> s.subject != p.characters[i].name)
            && (!r.ok ==> r.project == p)
            && (r.ok ==>
                  && r.project == p.(characters := r.project.characters)
                  && |r.project.characters| == |p.characters| - 1
                  && forall k :: 0 <= k < |p.characters| && k != i ==>
                       r.project.characters[if k < i then k else k - 1] == p.characters[k])
  {
  }

  /** Approving the shots readies the planned ones, and only those. */
  lemma ShotApprovalReadies(svc: Service, p: Project, pricing: Pricing)
    requires ApproveShots(svc, p, pricing).ok
    ensures var q := ApproveShots(svc, p, pricing).project;
            && q == p.(status := Generating, shots := q.shots) && |q.shots| == |p.shots|
            && forall i :: 0 <= i < |p.shots| ==>
                 q.shots[i] == if p.shots[i].status == Planned then p.shots[i].(status := Ready) else p.shots[i]
  {
  }

  /** The chosen take is the only selected one of its shot; the film is cut when it was the last choice to be made. */
  lemma ChoiceIsTheOnlyOne(p: Project, i: nat, k: nat)
    requires SelectTake(p, i, k).ok
    ensures var q := SelectTake(p, i, k).project;
            && i < |p.shots| && k < |p.shots[i].takes| && OnlyShot(p, q, i)
            && var before, after := p.shots[i], q.shots[i];
               && after == before.(status := Selected, takes := after.takes) && |after.takes| == |before.takes|
               && (forall j :: 0 <= j < |before.takes| ==> after.takes[j] == before.takes[j].(selected := (j == k)))
               && q.status == (if p.status == TakeReview
                                  && forall j :: 0 <= j < |p.shots| && j != i ==> p.shots[j].status == Selected
                               then Editing else p.status)
  {
    var shots := SelectTake(p, i, k).project.shots;
    assert forall j :: 0 <= j < |shots| ==> shots[j] in shots;
  }

  /** Taking a choice back puts its shot under review again, and changes nothing else. */
  lemma TakingBack(p: Project, i: nat, k: nat)
    requires DeselectTake(p, i, k).ok && p.status == TakeReview
    ensures var q := DeselectTake(p, i, k).project;
            && i < |p.shots| && k < |p.shots[i].takes| && OnlyShot(p, q, i) && q.status == TakeReview
            && var before, after := p.shots[i], q.shots[i];
               && after == before.(status := ShotStatus.ReviewRequired, takes := after.takes)
               && after.takes == before.takes[k := before.takes[k].(selected := false)]
  {
  }

  /** What the worker writes when a take ends: on that take alone, and on the running total. */
  lemma SettlementWrites(p: Project, i: nat, k: nat, how: Settlement)
    requires WorkerSettles(p, i, k, how).ok
    ensures i < |p.shots| && k < |p.shots[i].takes| && p.shots[i].takes[k].status == TakeSubmitted
    ensures var q, before := WorkerSettles(p, i, k, how).project, p.shots[i];
            && OnlyShot(p.(budget := q.budget), q, i) && q.status == p.status
            && q.shots[i] == before.(takes := before.takes[k := q.shots[i].takes[k]])
            && q.shots[i].takes[k].selected == before.takes[k].selected
            && match how
               case Moderate => q.shots[i].takes[k] == before.takes[k].(status := TakeModerated) && q.budget == p.budget
               case Fail => q.shots[i].takes[k] == before.takes[k].(status := TakeFailed) && q.budget == p.budget
               case Download(media, cost) =>
                 && q.shots[i].takes[k] ==
                      before.takes[k].(status := Downloaded, media := Some(media), cost := cost)
                 && q.budget == if RecordSpend(p.budget, cost).None? then p.budget
                                else p.budget.(spent := p.budget.spent + Amount(cost))
  {
  }

  /** Generation ends exactly when no shot is waiting for a take or on its way to one. */
  lemma GenerationEndsExactlyWhen(p: Project)
    ensures WorkerAdvances(p).ok <==>
              && p.status == Generating
              && forall s :: s in p.shots ==>
                   s.status !in {Ready, Submitted, ShotGenerating, Downloading, ShotStatus.Validating}
    ensures WorkerAdvances(p).project == if WorkerAdvances(p).ok then p.(status := TakeReview) else p
  {
  }
}
