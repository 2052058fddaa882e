/**
 Idempotent creation under a unique constraint: create_job (core/service.py), create_publication
 (core/publish_service.py) and create_project (core/fable_service.py) run the same steps.

 Any number of callers interleave, each database statement is one step, and a caller may die between any two.
 The table is the list of committed rows; the unique constraint is what the commit step checks.
 */
module CreationRace {
  import opened Prelude

  /** `settled` is false between the insert's commit and the second commit that moves the row on. */
  datatype DbRow<K> = DbRow(key: K, creator: nat, settled: bool)

  datatype Progress =
    | Starting
    | FoundNothing               // the first look-up came back empty: about to insert
    | LostRace                   // the insert's commit hit the constraint and was rolled back
    | Inserted(at: nat)          // the insert committed; the follow-up commit is still to come
    | Returned(at: nat, replay: bool)
    | Crashed

  datatype World<K> = World(rows: seq<DbRow<K>>, callers: seq<Progress>)

  /** The two statements a caller can still execute, or its death. */
  datatype Move = Advance | Die

  predicate Pending(c: Progress) {
    !c.Returned? && !c.Crashed?
  }

  /** SELECT ... WHERE key: the position of the row, if there is one. */
  function Find<K(==)>(rows: seq<DbRow<K>>, key: K): (found: Option<nat>)
    ensures found.Some? ==> found.value < |rows| && rows[found.value].key == key
    ensures found.None? ==> forall i :: 0 <= i < |rows| ==> rows[i].key != key
  {
    if rows == [] then None
    else if rows[|rows| - 1].key == key then Some(|rows| - 1)
    else Find(rows[..|rows| - 1], key)
  }

  /** One step of caller `c`, whose request carries `key`. None: the re-read of a lost race came back empty. */
  function Step<K(==)>(w: World<K>, c: nat, key: K, move: Move): Option<World<K>>
    requires c < |w.callers|
  {
    if !Pending(w.callers[c]) then Some(w)
    else if move == Die then Some(w.(callers := w.callers[c := Crashed]))
    else
      match w.callers[c]
      case Starting =>
        (match Find(w.rows, key)
         case Some(i) => Some(w.(callers := w.callers[c := Returned(i, true)]))
         case None => Some(w.(callers := w.callers[c := FoundNothing])))
      case FoundNothing =>
        if Find(w.rows, key).Some? then Some(w.(callers := w.callers[c := LostRace]))
        else Some(World(w.rows + [DbRow(key, c, false)], w.callers[c := Inserted(|w.rows|)]))
      case LostRace =>
        (match Find(w.rows, key)
         case Some(i) => Some(w.(callers := w.callers[c := Returned(i, true)]))
         case None => None)
      case Inserted(i) =>
        if i < |w.rows| then
          Some(World(w.rows[i := w.rows[i].(settled := true)], w.callers[c := Returned(i, false)]))
        else None
  }

  /** Which caller moves, and how. */
  datatype Scheduled = Scheduled(caller: nat, move: Move)

  ghost predicate Fits<K(!new)>(keys: seq<K>, schedule: seq<Scheduled>) {
    forall i :: 0 <= i < |schedule| ==> schedule[i].caller < |keys|
  }

  function Start<K>(n: nat): World<K> {
    World([], seq(n, _ => Starting))
  }

  /** Caller i asks for keys[i]; the schedule is any interleaving, of any length. */
  ghost predicate Reaches<K(!new)>(keys: seq<K>, schedule: seq<Scheduled>, w: World<K>)
    requires Fits(keys, schedule)
    decreases |schedule|
  {
    if schedule == [] then w == Start(|keys|)
    else
      var last := schedule[|schedule| - 1];
      exists before: World<K> ::
        && Reaches(keys, schedule[..|schedule| - 1], before)
        && last.caller < |before.callers|
        && Step(before, last.caller, keys[last.caller], last.move) == Some(w)
  }

  ghost predicate HasRow<K(!new)>(rows: seq<DbRow<K>>, key: K) {
    exists i :: 0 <= i < |rows| && rows[i].key == key
  }

  /**
   The row was inserted by a caller who asked for its key, and who is past its insert or dead; it is settled exactly
   when that caller has returned.
   */
  ghost predicate RowSound<K(!new)>(keys: seq<K>, w: World<K>, i: nat)
    requires i < |w.rows| && |w.callers| == |keys|
  {
    var r := w.rows[i];
    && r.creator < |keys| && keys[r.creator] == r.key
    && (r.settled <==> w.callers[r.creator] == Returned(i, false))
    && (w.callers[r.creator] == Inserted(i) || w.callers[r.creator] == Returned(i, false)
        || w.callers[r.creator] == Crashed)
  }

  /** What caller c believes about the table is true. */
  ghost predicate CallerSound<K(!new)>(keys: seq<K>, w: World<K>, c: nat)
    requires c < |keys| && |w.callers| == |keys|
  {
    match w.callers[c]
    case LostRace => HasRow(w.rows, keys[c])
    case Inserted(i) => i < |w.rows| && w.rows[i].key == keys[c] && w.rows[i].creator == c
    case Returned(i, replay) =>
      && i < |w.rows| && w.rows[i].key == keys[c]
      && (!replay <==> w.rows[i].creator == c)
      && (!replay ==> w.rows[i].settled)
    case _ => true
  }

  ghost predicate DistinctKeys<K(!new)>(rows: seq<DbRow<K>>) {
    forall i, j :: 0 <= i < j < |rows| ==> rows[i].key != rows[j].key
  }

  ghost predicate Sound<K(!new)>(keys: seq<K>, w: World<K>) {
    && |w.callers| == |keys|
    && DistinctKeys(w.rows)
    && (forall i :: 0 <= i < |w.rows| ==> RowSound(keys, w, i))
    && (forall c :: 0 <= c < |keys| ==> CallerSound(keys, w, c))
  }

  /** Later tables keep every earlier row's key and creator, and never un-settle a row. */
  ghost predicate Grows<K(!new)>(earlier: seq<DbRow<K>>, later: seq<DbRow<K>>) {
    && |earlier| <= |later|
    && forall i :: 0 <= i < |earlier| ==>
         && later[i].key == earlier[i].key && later[i].creator == earlier[i].creator
         && (earlier[i].settled ==> later[i].settled)
  }

  lemma BystandersStaySound<K(!new)>(keys: seq<K>, w: World<K>, v: World<K>, d: nat)
    requires Sound(keys, w) && |v.callers| == |keys| && d < |keys|
    requires Grows(w.rows, v.rows) && v.callers[d] == w.callers[d]
    ensures CallerSound(keys, v, d)
  {
    assert CallerSound(keys, w, d);
    if w.callers[d] == LostRace {
      var i :| 0 <= i < |w.rows| && w.rows[i].key == keys[d];
      assert v.rows[i].key == keys[d];
    }
  }

  /** A step is sound if the table grows, the moving caller is sound, and the rows it made or left are. */
  lemma MoveKeepsSound<K(!new)>(keys: seq<K>, w: World<K>, v: World<K>, c: nat)
    requires Sound(keys, w) && c < |keys| && |v.callers| == |keys|
    requires forall d :: 0 <= d < |keys| && d != c ==> v.callers[d] == w.callers[d]
    requires Grows(w.rows, v.rows) && DistinctKeys(v.rows)
    requires forall i :: 0 <= i < |w.rows| && w.rows[i].creator != c ==> v.rows[i] == w.rows[i]
    requires CallerSound(keys, v, c)
    requires forall i :: 0 <= i < |v.rows| && (i >= |w.rows| || v.rows[i].creator == c) ==> RowSound(keys, v, i)
    ensures Sound(keys, v)
  {
    forall d | 0 <= d < |keys| ensures CallerSound(keys, v, d) {
      if d != c { BystandersStaySound(keys, w, v, d); }
    }
    forall i | 0 <= i < |v.rows| ensures RowSound(keys, v, i) {
      if i < |w.rows| { assert RowSound(keys, w, i); }
    }
  }

  /** A look-up, a re-read and a death leave the table alone. */
  lemma LookingKeepsSound<K(!new)>(keys: seq<K>, w: World<K>, c: nat, move: Move)
    requires Sound(keys, w) && c < |keys| && Pending(w.callers[c]) && CallerSound(keys, w, c)
    requires move == Die || w.callers[c].Starting? || w.callers[c].LostRace?
    ensures Step(w, c, keys[c], move).Some? && Sound(keys, Step(w, c, keys[c], move).value)
  {
    forall i | 0 <= i < |w.rows| && w.rows[i].creator == c ensures RowSound(keys, w, i) { }
    MoveKeepsSound(keys, w, Step(w, c, keys[c], move).value, c);
  }

  /** The insert, won or lost, and the commit after it. */
  lemma WritingKeepsSound<K(!new)>(keys: seq<K>, w: World<K>, c: nat, move: Move)
    requires Sound(keys, w) && c < |keys| && move == Advance && CallerSound(keys, w, c)
    requires w.callers[c].FoundNothing? || w.callers[c].Inserted?
    ensures Step(w, c, keys[c], move).Some? && Sound(keys, Step(w, c, keys[c], move).value)
  {
    forall i | 0 <= i < |w.rows| && w.rows[i].creator == c ensures RowSound(keys, w, i) { }
    var v := Step(w, c, keys[c], move).value;
    if v.callers[c] == LostRace {
      assert v.rows[Find(w.rows, keys[c]).value].key == keys[c];
    }
    MoveKeepsSound(keys, w, v, c);
  }

  lemma StepKeepsSound<K(!new)>(keys: seq<K>, w: World<K>, c: nat, move: Move)
    requires Sound(keys, w) && c < |keys|
    ensures Step(w, c, keys[c], move).Some? && Sound(keys, Step(w, c, keys[c], move).value)
  {
    assert CallerSound(keys, w, c);
    if Pending(w.callers[c]) {
      if move == Die || w.callers[c].Starting? || w.callers[c].LostRace? { LookingKeepsSound(keys, w, c, move); }
      else { WritingKeepsSound(keys, w, c, move); }
    }
  }

  lemma {:induction false} ReachableIsSound<K(!new)>(keys: seq<K>, schedule: seq<Scheduled>, w: World<K>)
    requires Fits(keys, schedule) && Reaches(keys, schedule, w)
    ensures Sound(keys, w)
    decreases |schedule|
  {
    if schedule != [] {
      var last := schedule[|schedule| - 1];
      var before :| Reaches(keys, schedule[..|schedule| - 1], before) && last.caller < |before.callers|
                    && Step(before, last.caller, keys[last.caller], last.move) == Some(w);
      ReachableIsSound(keys, schedule[..|schedule| - 1], before);
      StepKeepsSound(keys, before, last.caller, last.move);
    }
  }

  /**
   The contract of idempotent creation, in every reachable world: one row per key; finished callers with the
   same key hold the same row; at most one of them reports a fresh creation.
   */
  lemma CreationIsIdempotent<K(!new)>(keys: seq<K>, schedule: seq<Scheduled>, w: World<K>)
    requires Fits(keys, schedule) && Reaches(keys, schedule, w)
    ensures forall i, j :: 0 <= i < j < |w.rows| ==> w.rows[i].key != w.rows[j].key
    ensures |w.callers| == |keys|
    ensures forall c, d :: 0 <= c < d < |keys| && keys[c] == keys[d] && w.callers[c].Returned? && w.callers[d].Returned?
              ==> w.callers[c].at == w.callers[d].at && (w.callers[c].replay || w.callers[d].replay)
  {
    ReachableIsSound(keys, schedule, w);
    forall c, d | 0 <= c < d < |keys| && keys[c] == keys[d] && w.callers[c].Returned? && w.callers[d].Returned?
      ensures w.callers[c].at == w.callers[d].at && (w.callers[c].replay || w.callers[d].replay)
    {
      assert CallerSound(keys, w, c) && CallerSound(keys, w, d);
    }
  }

  /** A finished caller holds a row of its own key; it says fresh exactly of its own row, and then has settled it. */
  lemma CallersHoldTheirRow<K(!new)>(keys: seq<K>, schedule: seq<Scheduled>, w: World<K>, c: nat)
    requires Fits(keys, schedule) && Reaches(keys, schedule, w)
    requires c < |keys| && |w.callers| == |keys| && w.callers[c].Returned?
    ensures w.callers[c].at < |w.rows|
    ensures var r := w.rows[w.callers[c].at];
            && r.key == keys[c] && (r.creator == c <==> !w.callers[c].replay) && (r.creator == c ==> r.settled)
  {
    ReachableIsSound(keys, schedule, w);
    assert CallerSound(keys, w, c);
  }

  /** A row is settled exactly when the caller that made it has come home with it. */
  lemma SettledByItsCreator<K(!new)>(keys: seq<K>, schedule: seq<Scheduled>, w: World<K>, i: nat)
    requires Fits(keys, schedule) && Reaches(keys, schedule, w) && i < |w.rows|
    ensures |w.callers| == |keys| && w.rows[i].creator < |keys| && keys[w.rows[i].creator] == w.rows[i].key
    ensures w.rows[i].settled <==> w.callers[w.rows[i].creator] == Returned(i, false)
  {
    ReachableIsSound(keys, schedule, w);
    assert RowSound(keys, w, i);
  }

  /** Whoever finds the row at the first look takes it at once, and writes nothing. */
  lemma ReplaysAtOnce<K(!new)>(keys: seq<K>, w: World<K>, c: nat)
    requires Sound(keys, w) && c < |keys| && w.callers[c].Starting? && HasRow(w.rows, keys[c])
    ensures var after := Step(w, c, keys[c], Advance);
            && after.Some? && after.value.rows == w.rows && |after.value.callers| == |keys|
            && after.value.callers[c].Returned? && after.value.callers[c].replay
  {
  }

  /**
   No caller is ever stuck: whatever the others do, its next statement has an answer -- in particular a lost
   race always re-reads a row -- and three statements in a row bring any pending caller home.
   */
  lemma EveryCallerCanFinish<K(!new)>(keys: seq<K>, schedule: seq<Scheduled>, w: World<K>, c: nat)
    requires Fits(keys, schedule) && Reaches(keys, schedule, w) && c < |keys|
    ensures |w.callers| == |keys| && Step(w, c, keys[c], Advance).Some?
    ensures var w1 := Step(w, c, keys[c], Advance).value;
            |w1.callers| == |keys| && Step(w1, c, keys[c], Advance).Some? &&
            var w2 := Step(w1, c, keys[c], Advance).value;
            |w2.callers| == |keys| && Step(w2, c, keys[c], Advance).Some? &&
            var w3 := Step(w2, c, keys[c], Advance).value;
            |w3.callers| == |keys| && !Pending(w3.callers[c])
  {
    ReachableIsSound(keys, schedule, w);
    StepKeepsSound(keys, w, c, Advance);
    var w1 := Step(w, c, keys[c], Advance).value;
    StepKeepsSound(keys, w1, c, Advance);
    var w2 := Step(w1, c, keys[c], Advance).value;
    StepKeepsSound(keys, w2, c, Advance);
  }
}
