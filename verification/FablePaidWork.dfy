/**
 Paid work: whenever a provider that charges is asked for anything, in any run from creation, the operator's switch is
 on, the project has a limit that an accepted set_budget put there and nothing changed since, and the price fits.
 core/cost_service.py:200-255, core/fable_service.py:855-905, worker/fable_runner.py:433-457.
 */
module FablePaidWork {
  import opened Prelude
  import opened CinematicState
  import opened CostService
  import opened ReferenceSlots
  import opened FableModel
  import opened FableInvariants
  import opened FableLedger
  import opened FableCasting
  import opened FableSheets
  import opened FableGates

  /** This step sets paid work going: it prices the film, orders a take, or asks for an image. */
  ghost predicate SetsPaidWorkGoing(svc: Service, p: Project, a: Action) {
    match a
    case ShotsApproved(pricing) => pricing.PricedBy? && pricing.provider.charges && Step(svc, p, a).ok
    case TakeOrdered(_, charges, _) => charges && Step(svc, p, a).ok
    case ReferencesGenerated(provider, _, _) => provider.charges && Requests(svc, p, a) != []
    case _ => false
  }

  /** No exchange rates are invented: a price in a named currency is in the project's. */
  predicate SameCurrency(quote: Charge, b: Budget) {
    quote.currency.Some? && b.currency.Some? ==> quote.currency == b.currency
  }

  /** What is about to be asked for has a price, and with what was spent already it stays within the limit. */
  ghost predicate PriceFits(svc: Service, p: Project, a: Action)
    requires p.budget.limit.Some?
  {
    match a
    case ShotsApproved(_) => PaidForAt(svc, p, a)
    case TakeOrdered(_, _, quote) =>
      quote.Some? && SameCurrency(quote.value, p.budget) && p.budget.spent + quote.value.amount <= p.budget.limit.value
    case ReferencesGenerated(provider, _, _) =>
      && provider.quote.Some? && SameCurrency(provider.quote.value, p.budget)
      && p.budget.spent + provider.quote.value.amount * |p.characters| * 5 <= p.budget.limit.value
    case _ => true
  }

  lemma PaidWorkIsAllowed(svc: Service, p: Project, a: Action)
    requires SetsPaidWorkGoing(svc, p, a)
    ensures svc.allowPaid && p.budget.limit.Some? && PriceFits(svc, p, a)
  {
    match a
    case ShotsApproved(_) => ShotApprovalMeansPaidFor(svc, p, a);
    case TakeOrdered(_, _, _) =>
    case ReferencesGenerated(_, _, _) =>
  }

  // ---- where a limit comes from ----------------------------------------------------------------------------

  /** Nothing but an accepted set_budget changes a limit or its currency. */
  lemma OnlySetBudgetMovesTheLimit(svc: Service, p: Project, a: Action)
    ensures var b := Step(svc, p, a).project.budget;
            if a.BudgetIsSet? && Step(svc, p, a).ok
            then b.limit == a.limit && (a.limit.Some? ==> b.currency == a.currency && a.currency.Some?)
            else b.limit == p.budget.limit && b.currency == p.budget.currency
  {
    if a.ReferencesGenerated? {
      CastingOnlySpends(svc, p, a.script, if a.lives < |p.characters| then a.lives else |p.characters|);
    } else if Quiet(a) {
      QuietStepsKeepTheBudget(svc, p, a);
    }
  }

  /** The m-th action set the limit in force before the n-th, and no accepted set_budget came between them. */
  ghost predicate LimitSetAt(svc: Service, p: Project, actions: seq<Action>, m: nat, n: nat) {
    && m < n <= |actions| && actions[m].BudgetIsSet? && Accepted(svc, p, actions, m)
    && (actions[m].limit.Some? ==>
          After(svc, p, actions, n).budget.currency == actions[m].currency && actions[m].currency.Some?)
    && After(svc, p, actions, n).budget.limit == actions[m].limit
    && forall k :: m < k < n && actions[k].BudgetIsSet? ==> !Accepted(svc, p, actions, k)
  }

  lemma LimitAfterOneMore(svc: Service, p: Project, actions: seq<Action>, k: nat)
    requires k < |actions|
    ensures var before, after := After(svc, p, actions, k).budget, After(svc, p, actions, k + 1).budget;
            if actions[k].BudgetIsSet? && Accepted(svc, p, actions, k) then
              && after.limit == actions[k].limit
              && (actions[k].limit.Some? ==> after.currency == actions[k].currency && actions[k].currency.Some?)
            else after.limit == before.limit && after.currency == before.currency
  {
    AfterOneMore(svc, p, actions, k);
    OnlySetBudgetMovesTheLimit(svc, After(svc, p, actions, k), actions[k]);
  }

  lemma LimitStays(svc: Service, p: Project, actions: seq<Action>, m: nat, n: nat)
    requires n < |actions| && LimitSetAt(svc, p, actions, m, n)
    requires !(actions[n].BudgetIsSet? && Accepted(svc, p, actions, n))
    ensures LimitSetAt(svc, p, actions, m, n + 1)
  {
    LimitAfterOneMore(svc, p, actions, n);
  }

  lemma LimitIsSetHere(svc: Service, p: Project, actions: seq<Action>, m: nat)
    requires m < |actions| && actions[m].BudgetIsSet? && Accepted(svc, p, actions, m)
    ensures LimitSetAt(svc, p, actions, m, m + 1)
  {
    LimitAfterOneMore(svc, p, actions, m);
  }

  lemma BeginsAtTheStart(svc: Service, p: Project, actions: seq<Action>)
    ensures After(svc, p, actions, 0) == p
  {
  }

  /** A project that began without a limit has none but what a set_budget named. */
  lemma {:induction false} LimitsAreSet(svc: Service, p: Project, actions: seq<Action>, n: nat) returns (m: nat)
    requires p.budget.limit.None? && n <= |actions| && After(svc, p, actions, n).budget.limit.Some?
    ensures LimitSetAt(svc, p, actions, m, n)
  {
    BeginsAtTheStart(svc, p, actions);
    if actions[n - 1].BudgetIsSet? && Accepted(svc, p, actions, n - 1) {
      LimitIsSetHere(svc, p, actions, n - 1);
      m := n - 1;
    } else {
      LimitAfterOneMore(svc, p, actions, n - 1);
      m := LimitsAreSet(svc, p, actions, n - 1);
      LimitStays(svc, p, actions, m, n - 1);
    }
  }

  /**
   The double gate over every run from creation: wherever paid work is set going, the operator's switch is on, the
   project's own limit was set before by an accepted set_budget that still holds, and the price fits under it.
   */
  lemma PaidWorkWasAllowed(svc: Service, takes: Option<nat>, actions: seq<Action>, n: nat) returns (m: nat)
    requires n < |actions|
    requires SetsPaidWorkGoing(svc, After(svc, NewProject(takes), actions, n), actions[n])
    ensures svc.allowPaid && LimitSetAt(svc, NewProject(takes), actions, m, n) && actions[m].limit.Some?
    ensures PriceFits(svc, After(svc, NewProject(takes), actions, n), actions[n])
  {
    PaidWorkIsAllowed(svc, After(svc, NewProject(takes), actions, n), actions[n]);
    m := LimitsAreSet(svc, NewProject(takes), actions, n);
  }

  /** One switch alone is not enough: without either one, a charging provider is refused everywhere. */
  lemma NeitherSwitchImpliesTheOther(svc: Service, p: Project, provider: VideoProvider, i: nat, quote: Option<Charge>,
                                     images: ReferenceProvider, script: nat -> View -> Answer, lives: nat)
    requires provider.charges && images.charges && !(svc.allowPaid && p.budget.limit.Some?)
    ensures !ApproveShots(svc, p, PricedBy(provider)).ok && !WorkerOrders(svc, p, i, true, quote).ok
    ensures GenerateReferences(svc, p, images, script, lives) == CastingRun(p, false, [])
  {
  }
}
