/** Which reference stills a shot is generated with: pipeline/generation_plan.py. */
module ReferenceSlots {
  import opened Prelude

  datatype View = Face | ThreeQuarter | FullBody | Wardrobe | Back

  /** The order views are generated in, and the priority they are sent in. */
  const VIEWS: seq<View> := [Face, ThreeQuarter, FullBody, Wardrobe, Back]

  datatype Actor = Actor(name: string, approved: bool, images: map<View, string>)
  datatype Capabilities = Capabilities(characterReference: bool, maxReferences: int, multipleReferences: bool)
  datatype Shot = Shot(subject: string, action: string, blocking: string)

  // ---- sharing the slots -----------------------------------------------------------------------------------

  lemma DivModUnique(a: int, n: int, q: int, r: int)
    requires n > 0 && a == q * n + r && 0 <= r < n
    ensures a / n == q && a % n == r
  {
    var d := a / n - q;
    assert d * n == r - a % n;
    assert d >= 1 ==> d * n >= n;
    assert d <= -1 ==> d * n <= -n;
  }

  lemma OneMore(a: nat, n: nat)
    requires n > 0
    ensures (a + 1) / n == (if a % n + 1 == n then a / n + 1 else a / n)
    ensures (a + 1) % n == (if a % n + 1 == n then 0 else a % n + 1)
  {
    var q, r := a / n, a % n;
    if r + 1 == n {
      assert a + 1 == (q + 1) * n;
      DivModUnique(a + 1, n, q + 1, 0);
    } else {
      DivModUnique(a + 1, n, q, r + 1);
    }
  }

  function Min(a: int, b: int): int {
    if a < b then a else b
  }

  /** Dealing `limit` slots round and round to n people: everyone the same, the first few one more. */
  function Share(n: nat, limit: nat, i: nat): nat
    requires n > 0
  {
    limit / n + if i < limit % n then 1 else 0
  }

  method SplitReferenceSlots(count: int, limit: int) returns (share: seq<nat>)
    ensures count <= 0 || limit <= 0 ==> share == []
    ensures count > 0 && limit > 0 ==>
              && |share| == Min(count, limit)
              && forall i :: 0 <= i < |share| ==> share[i] == Share(Min(count, limit), limit, i)
  {
    if count <= 0 || limit <= 0 { return []; }
    var n := Min(count, limit);
    share := seq(n, _ => 1);
    DivModUnique(n, n, 1, 0);
    for index := 0 to limit - n
      invariant |share| == n && forall i :: 0 <= i < n ==> share[i] == Share(n, n + index, i)
    {
      var at := index % n;
      DivModUnique(n + index, n, index / n + 1, at);
      OneMore(n + index, n);
      share := share[at := share[at] + 1];
    }
  }

  lemma {:induction false} SharesSumUpTo(n: nat, limit: nat, share: seq<nat>, i: nat)
    requires n > 0 && i <= n == |share| && forall k :: 0 <= k < n ==> share[k] == Share(n, limit, k)
    ensures Sum(share[..i]) == i * (limit / n) + Min(i, limit % n)
  {
    if i > 0 {
      SharesSumUpTo(n, limit, share, i - 1);
      assert share[..i][..i - 1] == share[..i - 1];
    }
  }

  /** Nothing is lost and nobody on screen goes without while there is a slot: the law of the split. */
  lemma SharesAreFair(count: int, limit: int, share: seq<nat>)
    requires count > 0 && limit > 0 && |share| == Min(count, limit)
    requires forall i :: 0 <= i < |share| ==> share[i] == Share(Min(count, limit), limit, i)
    ensures Sum(share) == limit
    ensures forall i :: 0 <= i < |share| ==> share[i] >= 1
    ensures forall i, j :: 0 <= i <= j < |share| ==> share[j] <= share[i] <= share[j] + 1
  {
    var n := |share|;
    SharesSumUpTo(n, limit, share, n);
    assert share[..n] == share;
    var q, r := limit / n, limit % n;
    assert limit == n * q + r;
    assert q <= 0 ==> n * q <= 0;
  }

  // ---- who is in the frame -----------------------------------------------------------------------------------

  ghost predicate DistinctNames(roster: seq<Actor>) {
    forall i, j :: 0 <= i < j < |roster| ==> roster[i].name != roster[j].name
  }

  function Position(roster: seq<Actor>, name: string): (at: Option<nat>)
    ensures at.Some? ==> at.value < |roster| && roster[at.value].name == name
    ensures at.None? ==> forall c :: c in roster ==> c.name != name
  {
    if roster == [] then None
    else if roster[|roster| - 1].name == name then Some(|roster| - 1)
    else Position(roster[..|roster| - 1], name)
  }

  /** d[c.name] = c: a later namesake takes the place of an earlier one. */
  function Put(roster: seq<Actor>, c: Actor): (updated: seq<Actor>)
    requires DistinctNames(roster)
    ensures DistinctNames(updated) && c in updated
    ensures forall r :: r in updated ==> r == c || (r in roster && r.name != c.name)
    ensures forall r :: r in roster && r.name != c.name ==> r in updated
  {
    match Position(roster, c.name)
    case None => roster + [c]
    case Some(i) =>
      assert roster[i := c][i] == c;
      assert forall k :: 0 <= k < |roster| && k != i ==> roster[i := c][k] == roster[k];
      roster[i := c]
  }

  /** {c.name: c for c in actors if c.name} */
  function Named(actors: seq<Actor>): (roster: seq<Actor>)
    ensures DistinctNames(roster)
    ensures forall c :: c in roster ==> c in actors && c.name != ""
  {
    if actors == [] then []
    else
      var last := actors[|actors| - 1];
      if last.name == "" then Named(actors[..|actors| - 1]) else Put(Named(actors[..|actors| - 1]), last)
  }

  /** Nobody with a name is lost, and where names are distinct nobody is replaced. */
  lemma {:induction false} NamedKeepsEveryName(actors: seq<Actor>, c: Actor)
    requires c in actors && c.name != ""
    ensures exists r :: r in Named(actors) && r.name == c.name
    ensures DistinctNames(actors) ==> c in Named(actors)
  {
    var n := |actors| - 1;
    var last := actors[n];
    assert actors == actors[..n] + [last];
    if c != last {
      NamedKeepsEveryName(actors[..n], c);
      var r :| r in Named(actors[..n]) && r.name == c.name;
      assert r.name == last.name ==> last in Named(actors);
    } else {
      assert last in Named(actors);
    }
  }

  /** What is on screen: the subject, and whoever the action or the blocking names. Lines are not searched. */
  datatype Screen = Screen(subject: string, mentioned: string -> bool)

  function OnScreen(shot: Shot): Screen {
    Screen(Strip(shot.subject), name => Contains(shot.action + " " + shot.blocking, name))
  }

  predicate InFrame(screen: Screen, c: Actor) {
    c.name == screen.subject || screen.mentioned(c.name)
  }

  ghost predicate SubjectLeads(screen: Screen, people: seq<Actor>) {
    forall i :: 0 < i < |people| ==> people[i].name != screen.subject
  }

  lemma NamesTellApart(roster: seq<Actor>, present: seq<Actor>, c: Actor)
    requires DistinctNames(roster) && c in roster && c !in present
    requires forall p :: p in present ==> p in roster
    ensures forall p :: p in present ==> p.name != c.name
  {
    var j :| 0 <= j < |roster| && roster[j] == c;
    forall p | p in present ensures p.name != c.name {
      var i :| 0 <= i < |roster| && roster[i] == p;
    }
  }

  /** Everyone in the frame of a shot, the subject first. */
  method CharactersInShot(shot: Shot, actors: seq<Actor>) returns (present: seq<Actor>)
    ensures forall c :: c in present <==> c in Named(actors) && InFrame(OnScreen(shot), c)
    ensures forall c :: c in present <==>
              && c in Named(actors)
              && (c.name == Strip(shot.subject) || Contains(shot.action + " " + shot.blocking, c.name))
    ensures DistinctNames(present) && SubjectLeads(OnScreen(shot), present)
  {
    present := CharactersOn(OnScreen(shot), actors);
  }

  method CharactersOn(screen: Screen, actors: seq<Actor>) returns (present: seq<Actor>)
    ensures forall c :: c in present <==> c in Named(actors) && InFrame(screen, c)
    ensures DistinctNames(present) && SubjectLeads(screen, present)
  {
    var roster := Named(actors);
    var lead := Position(roster, screen.subject);
    present := if lead.Some? then [roster[lead.value]] else [];
    for k := 0 to |roster|
      invariant forall c :: c in present ==> c in roster && InFrame(screen, c)
      invariant forall c :: c in roster && c.name == screen.subject ==> c in present
      invariant forall c :: c in roster[..k] && InFrame(screen, c) ==> c in present
      invariant DistinctNames(present) && SubjectLeads(screen, present)
    {
      var c := roster[k];
      if c !in present && screen.mentioned(c.name) {
        NamesTellApart(roster, present, c);
        present := present + [c];
      }
    }
  }

  // ---- the stills ----------------------------------------------------------------------------------------

  /** The views of an actor that are recorded and still on disk, in priority order, among the first k views. */
  function Available(c: Actor, onDisk: string -> bool, k: nat): seq<string>
    requires k <= |VIEWS|
  {
    if k == 0 then []
    else
      var view := VIEWS[k - 1];
      Available(c, onDisk, k - 1)
      + if view in c.images && c.images[view] != "" && onDisk(c.images[view]) then [c.images[view]] else []
  }

  /** This view is recorded, and its file is still there. */
  predicate OnFile(c: Actor, onDisk: string -> bool, view: View) {
    view in c.images && c.images[view] != "" && onDisk(c.images[view])
  }

  /** How many views come before the k-th and are on file. */
  function EarlierOnFile(c: Actor, onDisk: string -> bool, k: nat): set<nat>
    requires k <= |VIEWS|
  {
    set j: nat | j < k && OnFile(c, onDisk, VIEWS[j])
  }

  lemma OneMoreView(c: Actor, onDisk: string -> bool, k: nat)
    requires k < |VIEWS|
    ensures |EarlierOnFile(c, onDisk, k + 1)| ==
            |EarlierOnFile(c, onDisk, k)| + if OnFile(c, onDisk, VIEWS[k]) then 1 else 0
  {
    var before, after := EarlierOnFile(c, onDisk, k), EarlierOnFile(c, onDisk, k + 1);
    assert k !in before && (k in after <==> OnFile(c, onDisk, VIEWS[k]));
    assert after - {k} == before;
  }

  /** Exactly the views on file, each at the place that is the number of better views on file. */
  lemma {:induction false} AvailableInPriorityOrder(c: Actor, onDisk: string -> bool, k: nat)
    requires k <= |VIEWS|
    ensures |Available(c, onDisk, k)| == |EarlierOnFile(c, onDisk, k)|
    ensures forall j :: 0 <= j < k && OnFile(c, onDisk, VIEWS[j]) ==>
              var at := |EarlierOnFile(c, onDisk, j)|;
              at < |Available(c, onDisk, k)| && Available(c, onDisk, k)[at] == c.images[VIEWS[j]]
  {
    if k > 0 {
      AvailableInPriorityOrder(c, onDisk, k - 1);
      OneMoreView(c, onDisk, k - 1);
    }
  }

  function Take(paths: seq<string>, n: nat): seq<string> {
    if |paths| <= n then paths else paths[..n]
  }

  method ViewsFor(c: Actor, limit: nat, onDisk: string -> bool) returns (chosen: seq<string>)
    ensures chosen == Take(Available(c, onDisk, |VIEWS|), limit)
  {
    chosen := [];
    for k := 0 to |VIEWS|
      invariant chosen == Available(c, onDisk, k) && |chosen| <= limit
    {
      if |chosen| >= limit {
        AvailableGrows(c, onDisk, k, |VIEWS|);
        return;
      }
      var view := VIEWS[k];
      if view in c.images && c.images[view] != "" {
        var path := c.images[view];
        if onDisk(path) { chosen := chosen + [path]; }
      }
    }
  }

  lemma {:induction false} AvailableGrows(c: Actor, onDisk: string -> bool, j: nat, k: nat)
    requires j <= k <= |VIEWS|
    ensures Available(c, onDisk, j) <= Available(c, onDisk, k)
  {
    if j < k { AvailableGrows(c, onDisk, j, k - 1); }
  }

  /** Everybody's own share of their best views, one person after another. */
  function Stills(present: seq<Actor>, share: seq<nat>, onDisk: string -> bool): seq<string>
    requires |share| <= |present|
  {
    if share == [] then []
    else
      var k := |share| - 1;
      Stills(present, share[..k], onDisk) + Take(Available(present[k], onDisk, |VIEWS|), share[k])
  }

  lemma {:induction false} StillsFitTheShares(present: seq<Actor>, share: seq<nat>, onDisk: string -> bool)
    requires |share| <= |present|
    ensures |Stills(present, share, onDisk)| <= Sum(share)
  {
    if share != [] { StillsFitTheShares(present, share[..|share| - 1], onDisk); }
  }

  /** How many stills the provider accepts. */
  function Limit(caps: Capabilities): (limit: int)
    ensures limit <= caps.maxReferences
    ensures caps.multipleReferences ==> limit == caps.maxReferences
    ensures !caps.multipleReferences ==> limit <= 1 && (caps.maxReferences >= 1 ==> limit == 1)
  {
    if caps.multipleReferences then caps.maxReferences else Min(caps.maxReferences, 1)
  }

  method ApprovedOnly(screen: Screen, present: seq<Actor>) returns (people: seq<Actor>)
    requires SubjectLeads(screen, present)
    ensures forall c :: c in people <==> c in present && c.approved
    ensures SubjectLeads(screen, people)
  {
    people := [];
    for k := 0 to |present|
      invariant forall c :: c in people <==> c in present[..k] && c.approved
      invariant SubjectLeads(screen, people)
    {
      assert people != [] ==> people[0] in present[..k];
      if present[k].approved { people := people + [present[k]]; }
    }
    assert present[..|present|] == present;
  }

  /** The slots dealt to the first people of a frame: as evenly as they go round, the first ones one more. */
  predicate FairShares(share: seq<nat>, people: nat, limit: nat) {
    && |share| == Min(people, limit)
    && (forall i :: 0 <= i < |share| ==> share[i] == Share(|share|, limit, i) && share[i] >= 1)
    && (share != [] ==> Sum(share) == limit)
  }

  method SelectReferenceImagesForShot(shot: Shot, actors: seq<Actor>, caps: Capabilities, onDisk: string -> bool)
    returns (paths: seq<string>, people: seq<Actor>, share: seq<nat>)
    ensures |paths| <= if Limit(caps) > 0 then Limit(caps) else 0
    ensures !caps.characterReference || Limit(caps) <= 0 ==> paths == []
    // Only approved people in the frame, the subject first, each in turn with their own share of their best views.
    ensures forall c :: c in people ==> c.approved && c in Named(actors) && InFrame(OnScreen(shot), c)
    ensures SubjectLeads(OnScreen(shot), people)
    ensures |share| <= |people| && paths == Stills(people, share, onDisk)
    // Nobody approved and in the frame is passed over while slots remain, and the slots are dealt fairly.
    ensures caps.characterReference && Limit(caps) > 0 ==>
              && (forall c :: c in Named(actors) && InFrame(OnScreen(shot), c) && c.approved ==> c in people)
              && FairShares(share, |people|, Limit(caps))
  {
    if !caps.characterReference || Limit(caps) <= 0 { return [], [], []; }
    var present := CharactersInShot(shot, actors);
    people := ApprovedOnly(OnScreen(shot), present);
    paths, share := StillsOf(people, Limit(caps), onDisk);
  }

  method StillsOf(people: seq<Actor>, limit: nat, onDisk: string -> bool)
    returns (paths: seq<string>, share: seq<nat>)
    requires limit > 0
    ensures FairShares(share, |people|, limit)
    ensures |share| <= |people| && paths == Stills(people, share, onDisk) && |paths| <= limit
  {
    if people == [] { return [], []; }
    share := SplitReferenceSlots(|people|, limit);
    SharesAreFair(|people|, limit, share);
    paths := [];
    for k := 0 to |share|
      invariant paths == Stills(people, share[..k], onDisk)
    {
      var views := ViewsFor(people[k], share[k], onDisk);
      assert share[..k + 1][..k] == share[..k];
      paths := paths + views;
    }
    assert share[..|share|] == share;
    // The final slice drops nothing.
    StillsFitTheShares(people, share, onDisk);
    paths := Take(paths, limit);
  }
}
