/**
 What a casting run leaves on file: for every character it got past, exactly the pictures the provider drew for that
 character in this run, its refusal, its fingerprint and its bill, whatever was on the sheet before.
 core/fable_service.py:559-696.
 */
module FableSheets {
  import opened Prelude
  import opened CinematicState
  import opened CostService
  import opened ReferenceSlots
  import opened FableModel
  import opened FableInvariants
  import opened FableCasting

  // ---- one sheet, by its answers alone ---------------------------------------------------------------------

  /** How many views are drawn, asking in order, before one is refused or lost. */
  function DrawnViews(draw: View -> Answer, from: nat := 0): (n: nat)
    requires from <= |VIEWS|
    ensures from <= n <= |VIEWS| && forall k :: from <= k < n ==> draw(VIEWS[k]).Image?
    ensures n < |VIEWS| ==> !draw(VIEWS[n]).Image?
    decreases |VIEWS| - from
  {
    if from < |VIEWS| && draw(VIEWS[from]).Image? then DrawnViews(draw, from + 1) else from
  }

  /** What the provider reports for the first n views. */
  function Costs(draw: View -> Answer, n: nat): seq<Option<Charge>>
    requires n <= |VIEWS| && forall k :: 0 <= k < n ==> draw(VIEWS[k]).Image?
  {
    seq(n, k requires 0 <= k < n => draw(VIEWS[k]).cost)
  }

  /** The currency of the first bill that names one. */
  function CurrencyOf(costs: seq<Option<Charge>>): (currency: Option<string>)
    ensures currency.None? ==> forall k :: 0 <= k < |costs| && costs[k].Some? ==> costs[k].value.currency.None?
    ensures currency.Some? ==>
              exists k :: 0 <= k < |costs| && costs[k].Some? && costs[k].value.currency == currency
                          && forall j :: 0 <= j < k && costs[j].Some? ==> costs[j].value.currency.None?
  {
    if costs == [] then None
    else
      var last := costs[|costs| - 1];
      assert costs == costs[..|costs| - 1] + [last];
      var before := CurrencyOf(costs[..|costs| - 1]);
      if before.Some? || last.None? then before else last.value.currency
  }

  function Bill(draw: View -> Answer): (bill: nat) {
    AmountsAddUp(Costs(draw, DrawnViews(draw)));
    Sum(Amounts(Costs(draw, DrawnViews(draw))))
  }

  lemma {:induction false} AmountsAddUp(costs: seq<Option<Charge>>)
    ensures Sum(Amounts(costs)) >= 0
  {
    if costs != [] {
      AmountsAddUp(costs[..|costs| - 1]);
      assert Amounts(costs)[..|costs| - 1] == Amounts(costs[..|costs| - 1]);
    }
  }

  /** The bill cannot be booked: it is in another currency than the project's. */
  predicate BilledAbroad(b: Budget, draw: View -> Answer) {
    var currency := CurrencyOf(Costs(draw, DrawnViews(draw)));
    Bill(draw) > 0 && currency.Some? && b.currency.Some? && currency != b.currency
  }

  /** Nothing raised: every view came back or one was refused by policy, and the bill could be booked. */
  predicate GoesThrough(b: Budget, draw: View -> Answer) {
    var n := DrawnViews(draw);
    (n == |VIEWS| || draw(VIEWS[n]).RefusedByPolicy?) && !BilledAbroad(b, draw)
  }

  /** `after` is the actor of `before`, with the sheet this pass drew and no trace of the one before. */
  ghost predicate HoldsDrawing(before: Character, after: Character, draw: View -> Answer, fingerprint: string) {
    var n := DrawnViews(draw);
    && after.name == before.name && after.bible == before.bible && after.adult == before.adult && !after.approved
    && (forall k :: 0 <= k < |VIEWS| ==> (VIEWS[k] in after.images <==> k < n))
    && (forall v :: v in after.images ==> draw(v).Image? && after.images[v] == draw(v).path)
    && after.refused == (n < |VIEWS|)
    && after.fingerprint == (if n == |VIEWS| then Some(fingerprint) else None)
    && after.cost == if Bill(draw) > 0 then Some(Charge(Bill(draw), CurrencyOf(Costs(draw, n)))) else before.cost
  }

  lemma ViewsAreDistinct(j: nat, k: nat)
    requires j < k < |VIEWS|
    ensures VIEWS[j] != VIEWS[k]
  {
    assert VIEWS[0] == Face && VIEWS[1] == ThreeQuarter && VIEWS[2] == FullBody && VIEWS[3] == Wardrobe
           && VIEWS[4] == Back;
  }

  lemma OneMoreCost(draw: View -> Answer, n: nat)
    requires n < |VIEWS| && forall k :: 0 <= k <= n ==> draw(VIEWS[k]).Image?
    ensures Costs(draw, n + 1) == Costs(draw, n) + [draw(VIEWS[n]).cost]
    ensures Sum(Amounts(Costs(draw, n + 1))) == Sum(Amounts(Costs(draw, n))) + Amount(draw(VIEWS[n]).cost)
    ensures var before := CurrencyOf(Costs(draw, n));
            CurrencyOf(Costs(draw, n + 1)) ==
              if before.Some? || draw(VIEWS[n]).cost.None? then before else draw(VIEWS[n]).cost.value.currency
  {
    var costs := Costs(draw, n + 1);
    assert costs[..n] == Costs(draw, n);
    assert Amounts(costs)[..n] == Amounts(Costs(draw, n));
  }

  lemma OneMoreImage(name: string, draw: View -> Answer, k: nat)
    requires k < |VIEWS| && RunPass(name, draw, k).end.Whole? && draw(VIEWS[k]).Image?
    ensures var before, after, cost := RunPass(name, draw, k), RunPass(name, draw, k + 1), draw(VIEWS[k]).cost;
            && after.end.Whole? && after.images == before.images[VIEWS[k] := draw(VIEWS[k]).path]
            && after.cost == before.cost + Amount(cost)
            && after.currency == if before.currency.Some? || cost.None? then before.currency else cost.value.currency
  {
  }

  /** A pass of k views, as long as nothing stops it: its bill so far. */
  lemma {:induction false} PassAddsUp(name: string, draw: View -> Answer, k: nat)
    requires k <= DrawnViews(draw)
    ensures var pass := RunPass(name, draw, k);
            && pass.end.Whole? && pass.cost == Sum(Amounts(Costs(draw, k)))
            && pass.currency == CurrencyOf(Costs(draw, k))
  {
    if k > 0 {
      PassAddsUp(name, draw, k - 1);
      OneMoreImage(name, draw, k - 1);
      OneMoreCost(draw, k - 1);
    }
  }

  /** And the views it has so far. */
  lemma {:induction false} PassShows(name: string, draw: View -> Answer, k: nat, j: nat)
    requires k <= DrawnViews(draw) && j < |VIEWS|
    ensures VIEWS[j] in RunPass(name, draw, k).images <==> j < k
  {
    if k > 0 {
      PassShows(name, draw, k - 1, j);
      PassAddsUp(name, draw, k - 1);
      OneMoreImage(name, draw, k - 1);
      if j < k - 1 { ViewsAreDistinct(j, k - 1); } else if j > k - 1 { ViewsAreDistinct(k - 1, j); }
    }
  }

  lemma {:induction false} EndedPassesStayEnded(name: string, draw: View -> Answer, k: nat, n: nat)
    requires k <= n <= |VIEWS| && !RunPass(name, draw, k).end.Whole?
    ensures RunPass(name, draw, n) == RunPass(name, draw, k)
  {
    if k < n { EndedPassesStayEnded(name, draw, k, n - 1); }
  }

  /** What stops a pass leaves what was drawn before it. */
  lemma PassStops(name: string, draw: View -> Answer)
    requires DrawnViews(draw) < |VIEWS|
    ensures var n, pass := DrawnViews(draw), RunPass(name, draw, |VIEWS|);
            var drawn := RunPass(name, draw, n);
            && pass.images == drawn.images && pass.cost == drawn.cost && pass.currency == drawn.currency
            && pass.end == if draw(VIEWS[n]).RefusedByPolicy? then RefusedPass else DeadPass
  {
    var n := DrawnViews(draw);
    PassAddsUp(name, draw, n);
    assert RunPass(name, draw, n + 1) == OneView(RunPass(name, draw, n), name, n, draw(VIEWS[n]));
    EndedPassesStayEnded(name, draw, n + 1, |VIEWS|);
  }

  lemma WholePass(name: string, draw: View -> Answer)
    ensures var n, pass := DrawnViews(draw), RunPass(name, draw, |VIEWS|);
            && pass.cost == Bill(draw) && pass.currency == CurrencyOf(Costs(draw, n))
            && (forall j :: 0 <= j < |VIEWS| ==> (VIEWS[j] in pass.images <==> j < n))
            && (forall v :: v in pass.images ==> draw(v).Image? && pass.images[v] == draw(v).path)
            && pass.end == if n == |VIEWS| then Whole
                           else if draw(VIEWS[n]).RefusedByPolicy? then RefusedPass else DeadPass
  {
    var n := DrawnViews(draw);
    PassAddsUp(name, draw, n);
    forall j | 0 <= j < |VIEWS| ensures VIEWS[j] in RunPass(name, draw, n).images <==> j < n {
      PassShows(name, draw, n, j);
    }
    if n < |VIEWS| { PassStops(name, draw); }
    PassKeepsItsImages(name, draw, |VIEWS|);
  }

  lemma PassHoldsDrawing(c: Character, draw: View -> Answer, fingerprint: string)
    ensures var pass := RunPass(c.name, draw, |VIEWS|);
            && (pass.end.DeadPass? <==> DrawnViews(draw) < |VIEWS| && !draw(VIEWS[DrawnViews(draw)]).RefusedByPolicy?)
            && (!pass.end.DeadPass? ==> HoldsDrawing(c, Filed(Reopened(c), pass, fingerprint), draw, fingerprint))
  {
    WholePass(c.name, draw);
  }

  lemma PassIsBooked(b: Budget, name: string, draw: View -> Answer)
    ensures var booked := RecordSpend(b, PassCharge(RunPass(name, draw, |VIEWS|)));
            && (booked.None? <==> BilledAbroad(b, draw))
            && (booked.Some? ==> booked.value == b.(spent := b.spent + Bill(draw)))
  {
    WholePass(name, draw);
    BookedExactlyWhen(b, PassCharge(RunPass(name, draw, |VIEWS|)));
  }

  /** One unfinished sheet: when it goes through, what is then on file and what is booked, and what a crash leaves. */
  lemma SheetIsFiledAsDrawn(svc: Service, p: Project, i: nat, draw: View -> Answer)
    requires i < |p.characters| && !Finished(svc, p, p.characters[i])
    ensures var run, c := CastOne(svc, p, i, draw), p.characters[i];
            var d := run.project.characters[i];
            && (run.ok <==> GoesThrough(p.budget, draw))
            && (run.ok ==> HoldsDrawing(c, d, draw, svc.fingerprint(c.name, c.bible, p.style)))
            && (!run.ok ==> d == c.(approved := false, refused := false))
            && run.project == p.(characters := p.characters[i := d], budget := p.budget.(
                                   spent := p.budget.spent + if run.ok then Bill(draw) else 0))
  {
    var c := p.characters[i];
    PassHoldsDrawing(c, draw, svc.fingerprint(c.name, c.bible, p.style));
    PassIsBooked(p.budget, c.name, draw);
  }

  // ---- a whole run -----------------------------------------------------------------------------------------

  /** What a run that got past a character owes it: a finished sheet is spared, any other is filed as drawn. */
  ghost predicate Settles(svc: Service, p: Project, c: Character, d: Character, draw: View -> Answer) {
    if Finished(svc, p, c) then d == c
    else HoldsDrawing(c, d, draw, svc.fingerprint(c.name, c.bible, p.style))
  }

  /** The bills of the unfinished sheets among the first n. */
  function Bills(svc: Service, p: Project, script: nat -> View -> Answer, n: nat): nat
    requires n <= |p.characters|
  {
    if n == 0 then 0
    else Bills(svc, p, script, n - 1) + if Finished(svc, p, p.characters[n - 1]) then 0 else Bill(script(n - 1))
  }

  /** The first m sheets are settled, the rest untouched, but for the one in flight, which lost approval. */
  ghost predicate RowsSettled(svc: Service, p: Project, rows: seq<Character>, script: nat -> View -> Answer, m: nat) {
    && m <= |p.characters| == |rows|
    && (forall j :: 0 <= j < m ==> Settles(svc, p, p.characters[j], rows[j], script(j)))
    && (forall j :: m < j < |p.characters| ==> rows[j] == p.characters[j])
    && (m < |p.characters| ==> rows[m] in {p.characters[m], p.characters[m].(approved := false, refused := false)})
  }

  /** Nothing else changed but the spending, by exactly the bills of the settled sheets. */
  ghost predicate SettledUpTo(svc: Service, p: Project, q: Project, script: nat -> View -> Answer, m: nat) {
    && RowsSettled(svc, p, q.characters, script, m)
    && q == p.(characters := q.characters, budget := p.budget.(spent := p.budget.spent + Bills(svc, p, script, m)))
  }

  /** The next sheet of a run is one the run has not touched yet. */
  lemma NextSheet(svc: Service, p: Project, before: Project, i: nat, draw: View -> Answer)
    requires i < |p.characters| == |before.characters| && before.characters[i] == p.characters[i]
    requires before.style == p.style && before.budget.currency == p.budget.currency
    ensures var run, c := CastOne(svc, before, i, draw), p.characters[i];
            var d := run.project.characters[i];
            && (run.ok <==> Finished(svc, p, c) || GoesThrough(p.budget, draw))
            && (run.ok ==> Settles(svc, p, c, d, draw))
            && (!run.ok ==> d == c.(approved := false, refused := false))
            && run.project == before.(characters := before.characters[i := d], budget := before.budget.(
                 spent := before.budget.spent + if run.ok && !Finished(svc, p, c) then Bill(draw) else 0))
  {
    if !Finished(svc, p, p.characters[i]) { SheetIsFiledAsDrawn(svc, before, i, draw); }
  }

  lemma OneMoreRow(svc: Service, p: Project, rows: seq<Character>, script: nat -> View -> Answer, i: nat, d: Character,
                   ok: bool)
    requires i < |p.characters| && RowsSettled(svc, p, rows, script, i)
    requires if ok then Settles(svc, p, p.characters[i], d, script(i))
             else d == p.characters[i].(approved := false, refused := false)
    ensures RowsSettled(svc, p, rows[i := d], script, if ok then i + 1 else i)
  {
    forall j | 0 <= j < (if ok then i + 1 else i) ensures Settles(svc, p, p.characters[j], rows[i := d][j], script(j)) {
      assert j < i ==> Settles(svc, p, p.characters[j], rows[j], script(j));
    }
  }

  /** Nothing stops a run in one of the first n sheets. */
  ghost predicate AllGoThrough(svc: Service, p: Project, script: nat -> View -> Answer, n: nat)
    requires n <= |p.characters|
  {
    forall j :: 0 <= j < n ==> Finished(svc, p, p.characters[j]) || GoesThrough(p.budget, script(j))
  }

  lemma {:induction false} CastingOnlySpends(svc: Service, p: Project, script: nat -> View -> Answer, n: nat)
    requires n <= |p.characters|
    ensures var b := CastUpTo(svc, p, script, n).project.budget; b == p.budget.(spent := b.spent)
  {
    if n > 0 { CastingOnlySpends(svc, p, script, n - 1); }
  }

  lemma RunGetsTo(svc: Service, p: Project, script: nat -> View -> Answer, n: nat)
    requires n < |p.characters|
    ensures var q := CastUpTo(svc, p, script, n).project;
            q.characters[n] == p.characters[n] && q.style == p.style && q.budget.currency == p.budget.currency
  {
    CastingKeepsNames(svc, p, script, n);
    CastingOnlySpends(svc, p, script, n);
  }

  /** From one sheet of a run to the next. */
  ghost predicate OneFurther(svc: Service, p: Project, script: nat -> View -> Answer, i: nat, before: CastingRun,
                             run: CastingRun)
    requires i < |p.characters| == |before.project.characters| == |run.project.characters|
  {
    var c, d := p.characters[i], run.project.characters[i];
    if !before.ok then !run.ok && run.project == before.project
    else
      && before.project.characters[i] == c
      && (run.ok <==> Finished(svc, p, c) || GoesThrough(p.budget, script(i)))
      && (if run.ok then Settles(svc, p, c, d, script(i)) else d == c.(approved := false, refused := false))
      && run.project == WithSheet(before.project, i, d, if run.ok && !Finished(svc, p, c) then Bill(script(i)) else 0)
  }

  function WithSheet(p: Project, i: nat, d: Character, bill: nat): Project
    requires i < |p.characters|
  {
    p.(characters := p.characters[i := d], budget := p.budget.(spent := p.budget.spent + bill))
  }

  lemma RunUnfolds(svc: Service, p: Project, script: nat -> View -> Answer, i: nat)
    requires i < |p.characters|
    ensures var before, run := CastUpTo(svc, p, script, i), CastUpTo(svc, p, script, i + 1);
            if !before.ok then run == before
            else var one := CastOne(svc, before.project, i, script(i)); run.project == one.project && run.ok == one.ok
  {
  }

  lemma RunGoesOn(svc: Service, p: Project, script: nat -> View -> Answer, i: nat, before: CastingRun, run: CastingRun)
    requires i < |p.characters|
    requires before == CastUpTo(svc, p, script, i) && run == CastUpTo(svc, p, script, i + 1)
    ensures OneFurther(svc, p, script, i, before, run)
  {
    RunUnfolds(svc, p, script, i);
    RunGetsTo(svc, p, script, i);
    if before.ok { NextSheet(svc, p, before.project, i, script(i)); }
  }

  /** One sheet further settles one sheet more, unless the run has stopped or stops there. */
  lemma OneFurtherSettles(svc: Service, p: Project, script: nat -> View -> Answer, i: nat, before: CastingRun,
                          run: CastingRun, m: nat) returns (now: nat)
    requires i < |p.characters| == |before.project.characters| == |run.project.characters|
    requires OneFurther(svc, p, script, i, before, run)
    requires m <= i && SettledUpTo(svc, p, before.project, script, m) && (before.ok ==> m == i)
    ensures now <= i + 1 && SettledUpTo(svc, p, run.project, script, now) && (run.ok ==> now == i + 1)
  {
    now := m;
    if before.ok {
      OneMoreRow(svc, p, before.project.characters, script, i, run.project.characters[i], run.ok);
      if run.ok { now := i + 1; }
    }
  }

  lemma {:induction false} SheetsAddUp(svc: Service, p: Project, script: nat -> View -> Answer, run: nat -> CastingRun,
                                       n: nat) returns (m: nat)
    requires n <= |p.characters| && run(0).ok && run(0).project == p
    requires forall i :: 0 <= i <= n ==> |run(i).project.characters| == |p.characters|
    requires forall i :: 0 <= i < n ==> OneFurther(svc, p, script, i, run(i), run(i + 1))
    ensures m <= n && SettledUpTo(svc, p, run(n).project, script, m)
    ensures run(n).ok ==> m == n
  {
    if n == 0 { return 0; }
    var before := SheetsAddUp(svc, p, script, run, n - 1);
    m := OneFurtherSettles(svc, p, script, n - 1, run(n - 1), run(n), before);
  }

  lemma {:induction false} RunsGoThrough(svc: Service, p: Project, script: nat -> View -> Answer,
                                         run: nat -> CastingRun, n: nat)
    requires n <= |p.characters| && run(0).ok
    requires forall i :: 0 <= i <= n ==> |run(i).project.characters| == |p.characters|
    requires forall i :: 0 <= i < n ==> OneFurther(svc, p, script, i, run(i), run(i + 1))
    ensures run(n).ok <==> AllGoThrough(svc, p, script, n)
  {
    if n > 0 {
      RunsGoThrough(svc, p, script, run, n - 1);
      OneMoreGoesThrough(svc, p, script, n);
      assert OneFurther(svc, p, script, n - 1, run(n - 1), run(n));
    }
  }

  lemma OneMoreGoesThrough(svc: Service, p: Project, script: nat -> View -> Answer, n: nat)
    requires 0 < n <= |p.characters|
    ensures AllGoThrough(svc, p, script, n) <==>
              && AllGoThrough(svc, p, script, n - 1)
              && (Finished(svc, p, p.characters[n - 1]) || GoesThrough(p.budget, script(n - 1)))
  {
  }

  /** Wherever a run stops, what it got past is on file exactly as drawn, and exactly that was booked. */
  lemma RunsFileWhatWasDrawn(svc: Service, p: Project, script: nat -> View -> Answer, n: nat) returns (m: nat)
    requires n <= |p.characters|
    ensures m <= n && SettledUpTo(svc, p, CastUpTo(svc, p, script, n).project, script, m)
    ensures CastUpTo(svc, p, script, n).ok <==> AllGoThrough(svc, p, script, n)
    ensures CastUpTo(svc, p, script, n).ok ==> m == n
  {
    var run: nat -> CastingRun :=
      (i: nat) => if i <= |p.characters| then CastUpTo(svc, p, script, i) else CastingRun(p, false, []);
    forall i | 0 <= i < n ensures OneFurther(svc, p, script, i, run(i), run(i + 1)) {
      RunGoesOn(svc, p, script, i, run(i), run(i + 1));
    }
    m := SheetsAddUp(svc, p, script, run, n);
    RunsGoThrough(svc, p, script, run, n);
  }

  /** The gate before the first request, over the whole cast: five images each. */
  predicate MayCast(svc: Service, p: Project, provider: ReferenceProvider) {
    && p.status == Casting && p.characters != []
    && (provider.charges ==> svc.allowPaid && p.budget.limit.Some?)
    && (p.budget.limit.Some? ==>
          && provider.quote.Some?
          && (provider.quote.value.currency.Some? && p.budget.currency.Some? ==>
                provider.quote.value.currency == p.budget.currency)
          && p.budget.spent + provider.quote.value.amount * |p.characters| * 5 <= p.budget.limit.value)
  }

  lemma GateIsOpenExactlyWhen(svc: Service, p: Project, provider: ReferenceProvider)
    ensures MayCast(svc, p, provider) <==>
              p.status == Casting && p.characters != [] && ReferencesAffordable(svc, p, provider)
  {
  }

  lemma OpenGateCasts(svc: Service, p: Project, provider: ReferenceProvider, script: nat -> View -> Answer, lives: nat)
    requires p.status == Casting && p.characters != [] && ReferencesAffordable(svc, p, provider)
    ensures var cast := CastUpTo(svc, p, script, if lives < |p.characters| then lives else |p.characters|);
            && cast.project.status == Casting
            && GenerateReferences(svc, p, provider, script, lives) ==
                 if cast.ok && lives > |p.characters|
                 then CastingRun(cast.project.(status := CharacterReview), true, cast.log)
                 else cast.(ok := false)
  {
    CastingKeepsTheStatus(svc, p, script, if lives < |p.characters| then lives else |p.characters|);
  }

  /**
   A casting run, in full. It starts exactly when the gate is open; it completes exactly when the process lives and no
   unfinished sheet raises; and wherever it stops, the sheets it got past hold what was drawn for them in this run --
   every picture this run's, every view before the first refusal and no other -- and exactly their bills are booked.
   */
  lemma CastingFilesWhatWasDrawn(svc: Service, p: Project, provider: ReferenceProvider, script: nat -> View -> Answer,
                                 lives: nat) returns (m: nat)
    ensures var run := GenerateReferences(svc, p, provider, script, lives);
            var q := run.project;
            && (!MayCast(svc, p, provider) ==> run == CastingRun(p, false, []))
            && (run.ok <==> MayCast(svc, p, provider) && lives > |p.characters|
                            && AllGoThrough(svc, p, script, |p.characters|))
            && (run.ok ==> m == |p.characters| && q.status == CharacterReview)
            && (!run.ok ==> q.status == p.status)
            && (MayCast(svc, p, provider) ==> SettledUpTo(svc, p, q.(status := p.status), script, m))
  {
    m := 0;
    GateIsOpenExactlyWhen(svc, p, provider);
    if MayCast(svc, p, provider) {
      OpenGateCasts(svc, p, provider, script, lives);
      var n := |p.characters|;
      m := RunsFileWhatWasDrawn(svc, p, script, if lives < n then lives else n);
    }
  }

  /** A sheet whose every view is drawn is all this run's: five pictures, no refusal, and a fingerprint that fits. */
  lemma WholeSheetsAreNew(svc: Service, p: Project, c: Character, d: Character, draw: View -> Answer)
    requires !Finished(svc, p, c) && Settles(svc, p, c, d, draw) && forall v :: draw(v).Image?
    ensures Complete(d.images) && Finished(svc, p, d) && !d.refused
    ensures forall v :: v in VIEWS ==> d.images[v] == draw(v).path
  {
    forall v | v in VIEWS ensures v in d.images {
      var k :| 0 <= k < |VIEWS| && VIEWS[k] == v;
      assert VIEWS[k] in d.images;
    }
    assert VIEWS[0] in VIEWS;
  }
}
