/** The bounded repair loop of core/adaptation_service.py. */
module AdaptationService {
  import opened Prelude
  import opened AdaptationParser

  /** JSON extraction and the field-level schema are not part of this model: they reject a reply or yield a document. */
  datatype Decoded = Decoded(doc: Document) | Malformed

  datatype Problem = RuleBroken(error: Error) | SchemaRejected

  datatype Outcome =
    | Accepted(doc: Document, attempts: nat, repairs: seq<seq<Problem>>)
    | EmptyResponse
    | Exhausted(problems: seq<Problem>)

  const SHOT_SECONDS := 8

  /** max(1, round(seconds / 8)): to nearest, ties to even. */
  function TargetShots(seconds: nat): (n: nat)
    ensures n >= 1
    ensures seconds >= 4 ==> 8 * n - 4 <= seconds <= 8 * n + 4
    ensures seconds % 8 == 0 && seconds > 0 ==> 8 * n == seconds
    // Half a shot goes to the even count; a runtime too short for one shot still gets one.
    ensures seconds % 8 == 4 && seconds > 4 ==> n % 2 == 0
    ensures seconds <= 4 ==> n == 1
  {
    var whole, rest := seconds / SHOT_SECONDS, seconds % SHOT_SECONDS;
    var n := if rest < 4 || (rest == 4 && whole % 2 == 0) then whole else whole + 1;
    if n < 1 then 1 else n
  }

  /** What the project asked for; the validator is told the shot count its runtime needs. */
  datatype Brief = Brief(source: string, keepEnding: bool, targetSeconds: nat)

  function RequestFor(b: Brief): Request {
    Request(b.source, b.keepEnding, TargetShots(b.targetSeconds))
  }

  /** A reply the loop accepts. */
  ghost predicate Good(text: string, decode: string -> Decoded, q: Request) {
    !Blank(text) && decode(text).Decoded? && Meets(decode(text).doc, q)
  }

  /** The list that sends a reply back for repair: why it did not decode, or every rule it breaks. */
  ghost predicate Explains(problems: seq<Problem>, text: string, decode: string -> Decoded, q: Request) {
    match decode(text)
    case Malformed => problems == [SchemaRejected]
    case Decoded(doc) => forall p :: p in problems <==> p.RuleBroken? && Violates(doc, q, p.error)
  }

  /** parse_adaptation: no problems, or why not. */
  method ParseAdaptation(text: string, decode: string -> Decoded, q: Request) returns (problems: seq<Problem>)
    ensures Explains(problems, text, decode, q)
    ensures problems == [] <==> decode(text).Decoded? && Meets(decode(text).doc, q)
  {
    match decode(text) {
      case Malformed => return [SchemaRejected];
      case Decoded(doc) =>
        var errors := AdaptationErrors(doc, q);
        problems := [];
        for i := 0 to |errors|
          invariant |problems| == i
          invariant forall p :: p in problems <==> p.RuleBroken? && p.error in errors[..i]
        {
          assert errors[..i + 1] == errors[..i] + [errors[i]];
          problems := problems + [RuleBroken(errors[i])];
        }
        assert errors[..|errors|] == errors;
    }
  }

  /**
   The director's k-th call returns director(k); what it returns is arbitrary. The outcome is the first good
   reply among the allowed calls, unless an empty reply or the end of the budget comes first.
   */
  method RunAdaptation(director: nat -> string, decode: string -> Decoded, b: Brief, maxRepairs: nat)
    returns (outcome: Outcome, calls: nat)
    ensures 1 <= calls <= maxRepairs + 1
    // Every reply before the last was answered with its own complete list of problems.
    ensures forall k: nat :: k < calls - 1 ==> !Blank(director(k)) && !Good(director(k), decode, RequestFor(b))
    ensures match outcome
            case Accepted(doc, attempts, repairs) =>
              && Good(director(calls - 1), decode, RequestFor(b))
              && decode(director(calls - 1)) == Decoded(doc) && Meets(doc, RequestFor(b))
              && attempts == calls == |repairs| + 1
              && forall k: nat :: k < |repairs| ==>
                                    repairs[k] != [] && Explains(repairs[k], director(k), decode, RequestFor(b))
            case EmptyResponse => Blank(director(calls - 1))
            case Exhausted(problems) =>
              && calls == maxRepairs + 1 && !Blank(director(calls - 1)) && problems != []
              && Explains(problems, director(calls - 1), decode, RequestFor(b))
    // Accepted exactly when some reply within the budget is good and no earlier one is empty.
    ensures outcome.Accepted? <==>
              exists k: nat :: k <= maxRepairs && Good(director(k), decode, RequestFor(b))
                               && forall j: nat :: j < k ==> !Blank(director(j))
  {
    var q := RequestFor(b);
    var text := director(0);
    calls := 1;
    var repairs: seq<seq<Problem>> := [];
    for attempt := 0 to maxRepairs + 1
      invariant calls == attempt + 1 && |repairs| == attempt && attempt <= maxRepairs && text == director(attempt)
      invariant forall k: nat :: k < attempt ==>
                  && !Blank(director(k)) && !Good(director(k), decode, q)
                  && repairs[k] != [] && Explains(repairs[k], director(k), decode, q)
    {
      if Blank(text) { return EmptyResponse, calls; }
      var problems := ParseAdaptation(text, decode, q);
      if problems == [] { return Accepted(decode(text).doc, attempt + 1, repairs), calls; }
      if attempt >= maxRepairs { return Exhausted(problems), calls; }
      repairs := repairs + [problems];
      text := director(attempt + 1);
      calls := calls + 1;
    }
    assert false;
  }

  /** What acceptance buys the database: declared subjects, and orders that satisfy the unique constraints. */
  lemma AcceptedDocumentsAreStorable(doc: Document, q: Request)
    requires Meets(doc, q)
    ensures forall i, k :: 0 <= i < |doc.scenes| && 0 <= k < |doc.scenes[i].shots| ==>
              doc.scenes[i].shots[k].subject in Names(doc)
    ensures forall i, j :: 0 <= i < j < |doc.scenes| ==> doc.scenes[i].order != doc.scenes[j].order
    ensures forall i, j, k :: 0 <= i < |doc.scenes| && 0 <= j < k < |doc.scenes[i].shots| ==>
              doc.scenes[i].shots[j].order != doc.scenes[i].shots[k].order
  {
    forall i, k | 0 <= i < |doc.scenes| && 0 <= k < |doc.scenes[i].shots|
      ensures doc.scenes[i].shots[k].subject in Names(doc)
    {
      assert !Violates(doc, q, UndeclaredSubject(i, k));
      assert !SceneViolation(doc, i, UndeclaredSubject(i, k));
    }
    assert !Violates(doc, q, SceneOrder);
    forall i, j | 0 <= i < j < |doc.scenes| ensures doc.scenes[i].order != doc.scenes[j].order {
      NumberedOrdersAreDistinct(SceneOrders(doc), i, j);
      assert SceneOrders(doc)[i] == doc.scenes[i].order && SceneOrders(doc)[j] == doc.scenes[j].order;
    }
    forall i, j, k | 0 <= i < |doc.scenes| && 0 <= j < k < |doc.scenes[i].shots|
      ensures doc.scenes[i].shots[j].order != doc.scenes[i].shots[k].order
    {
      assert !Violates(doc, q, ShotOrder(i));
      NumberedOrdersAreDistinct(ShotOrders(doc.scenes[i]), j, k);
      assert ShotOrders(doc.scenes[i])[j] == doc.scenes[i].shots[j].order;
      assert ShotOrders(doc.scenes[i])[k] == doc.scenes[i].shots[k].order;
    }
  }
}
