/**
 The whole-document validator of pipeline/adaptation_parser.py. Each rule is stated once, declaratively, as the
 violation it reports; the checking methods are proved to report exactly the violations.
 */
module AdaptationParser {
  import opened Prelude

  datatype DialogueLine = DialogueLine(speaker: string, line: string)
  datatype ShotModel = ShotModel(order: int, subject: string, angle: string, movement: string,
                                 line: Option<string>, durationMs: nat)
  datatype SceneModel = SceneModel(order: int, location: string, sourceBeat: string,
                                   dialogue: seq<DialogueLine>, shots: seq<ShotModel>)
  datatype CharacterModel = CharacterModel(name: string, bible: string)
  datatype Document = Document(characters: seq<CharacterModel>, locations: seq<string>, scenes: seq<SceneModel>,
                               endingSummary: string, visualStyle: string)

  datatype Request = Request(source: string, keepEnding: bool, targetShots: nat)

  datatype Error =
    | UndeclaredLocation(scene: nat)
    | UndeclaredSpeaker(scene: nat, speaker: string)
    | UndeclaredSubject(scene: nat, shot: nat)
    | ForeignLine(scene: nat, shot: nat)
    | RepeatedSubject(scene: nat, shot: nat)
    | SceneOrder
    | ShotOrder(scene: nat)
    | UnmatchedBeat(scene: nat)
    | MissingEnding
    | WrongShotCount
    | SpeechDropped
    | ThinScenes
    | TooFewLines
    | OneAngle
    | CameraNeverMoves

  // ---- the rules -----------------------------------------------------------------------------------------

  function Names(doc: Document): set<string> {
    set c | c in doc.characters :: c.name
  }

  function Speakers(scene: SceneModel): set<string> {
    set d | d in scene.dialogue :: d.speaker
  }

  predicate HasLine(shot: ShotModel) {
    shot.line.Some? && !Blank(shot.line.value)
  }

  function AllShots(scenes: seq<SceneModel>): seq<ShotModel> {
    if scenes == [] then [] else AllShots(scenes[..|scenes| - 1]) + scenes[|scenes| - 1].shots
  }

  /** The values are 1..n in some order. */
  predicate Numbered(orders: seq<int>) {
    forall k :: 1 <= k <= |orders| ==> k in orders
  }

  function SceneOrders(doc: Document): seq<int> {
    seq(|doc.scenes|, i requires 0 <= i < |doc.scenes| => doc.scenes[i].order)
  }

  function ShotOrders(scene: SceneModel): seq<int> {
    seq(|scene.shots|, i requires 0 <= i < |scene.shots| => scene.shots[i].order)
  }

  predicate SceneViolation(doc: Document, i: nat, e: Error)
    requires i < |doc.scenes|
  {
    var scene := doc.scenes[i];
    match e
    case UndeclaredLocation(s) => s == i && scene.location !in doc.locations
    case UndeclaredSpeaker(s, who) => s == i && who in Speakers(scene) && who !in Names(doc)
    case UndeclaredSubject(s, k) => s == i && k < |scene.shots| && scene.shots[k].subject !in Names(doc)
    case ForeignLine(s, k) =>
      && s == i && k < |scene.shots| && scene.dialogue != []
      && scene.shots[k].line.Some? && scene.shots[k].line.value != ""
      && DialogueLine(scene.shots[k].subject, scene.shots[k].line.value) !in scene.dialogue
    case RepeatedSubject(s, k) =>
      && s == i && 0 < k < |scene.shots| && scene.shots[k].subject == scene.shots[k - 1].subject
      && exists a, b :: a in Speakers(scene) && b in Speakers(scene) && a != b
    case _ => false
  }

  predicate SemanticViolation(doc: Document, e: Error) {
    match e
    case SceneOrder => !Numbered(SceneOrders(doc))
    case ShotOrder(s) => s < |doc.scenes| && !Numbered(ShotOrders(doc.scenes[s]))
    case _ => exists i :: 0 <= i < |doc.scenes| && SceneViolation(doc, i, e)
  }

  function Normalize(text: string): string {
    if text == "" then ""
    else Normalize(text[..|text| - 1]) + if IsSpace(text[|text| - 1]) then "" else [text[|text| - 1]]
  }

  lemma {:induction false} NormalizeEndsWith(a: string, b: string)
    ensures Normalize(a + b) == Normalize(a) + Normalize(b)
  {
    if b == "" {
      assert a + b == a;
    } else {
      var n := |b| - 1;
      NormalizeEndsWith(a, b[..n]);
      assert (a + b)[..|a| + n] == a + b[..n];
    }
  }

  /** Text by text, in order: everything but the white space. */
  lemma NormalizeDropsSpacesOnly(a: string, b: string, c: char)
    ensures Normalize(a + b) == Normalize(a) + Normalize(b)
    ensures Normalize([c]) == if IsSpace(c) then "" else [c]
  {
    NormalizeEndsWith(a, b);
    assert [c][..0] == "" && Normalize("") == "";
  }

  function Bigrams(text: string): set<string> {
    set i: nat | i < |text| - 1 :: Slice(text, i, 2)
  }

  function Jaccard(a: set<string>, b: set<string>): real {
    if a + b == {} then 0.0 else |a * b| as real / |a + b| as real
  }

  lemma Cardinalities<T>(a: set<T>, b: set<T>)
    ensures |a * b| <= |a + b| && (a == b <==> |a * b| == |a + b|) && (a + b == {} <==> |a + b| == 0)
    ensures a * b == b * a && a + b == b + a
  {
    assert a + b == (a * b) + ((a + b) - a * b);
    if a != b { assert (a + b) - a * b != {}; }
  }

  /** The share of what they have in common: one for equal sets, nothing for disjoint ones, and the same either way. */
  lemma JaccardIsAShare(a: set<string>, b: set<string>)
    ensures 0.0 <= Jaccard(a, b) <= 1.0 && Jaccard(a, b) == Jaccard(b, a)
    ensures Jaccard(a, b) * |a + b| as real == |a * b| as real
    ensures Jaccard(a, b) == 1.0 <==> a == b != {}
  {
    Cardinalities(a, b);
    if a + b != {} { Quotient(|a * b| as real, |a + b| as real); }
  }

  lemma Quotient(part: real, whole: real)
    requires 0.0 <= part <= whole && whole > 0.0
    ensures 0.0 <= part / whole <= 1.0 && (part / whole) * whole == part && (part / whole == 1.0 <==> part == whole)
  {
  }

  /** How well windows of the source match the beat. */
  function Score(beat: string): string -> real {
    window => Jaccard(Bigrams(beat), Bigrams(window))
  }

  /** The windows looked at from `start` on, one every `step` characters, below `bound`. */
  function WindowsFrom(source: string, start: nat, bound: nat, size: nat, step: nat): seq<string>
    requires step > 0
    decreases bound - start
  {
    if start >= bound then [] else [Slice(source, start, size)] + WindowsFrom(source, start + step, bound, size, step)
  }

  /** Windows as long as the beat, half a beat apart. */
  function Windows(size: nat, source: string): seq<string> {
    WindowsFrom(source, 0, if |source| >= size then |source| - size + 1 else 1, size, if size >= 2 then size / 2 else 1)
  }

  /** k steps on from the start. */
  function Stepped(start: nat, step: nat, k: nat): nat
    decreases k
  {
    if k == 0 then start else Stepped(start + step, step, k - 1)
  }

  lemma {:induction false} WindowStartsAt(source: string, start: nat, bound: nat, size: nat, step: nat, w: string)
    returns (k: nat)
    requires step > 0 && w in WindowsFrom(source, start, bound, size, step)
    ensures Stepped(start, step, k) < bound && w == Slice(source, Stepped(start, step, k), size)
    decreases bound - start
  {
    k := 0;
    if w != Slice(source, start, size) {
      var before := WindowStartsAt(source, start + step, bound, size, step, w);
      k := before + 1;
    }
  }

  lemma {:induction false} SteppingGoesOn(start: nat, step: nat, k: nat)
    ensures Stepped(start, step, k) >= start
    decreases k
  {
    if k > 0 { SteppingGoesOn(start + step, step, k - 1); }
  }

  lemma {:induction false} WindowIsLookedAt(source: string, start: nat, bound: nat, size: nat, step: nat, k: nat)
    requires step > 0 && Stepped(start, step, k) < bound
    ensures Slice(source, Stepped(start, step, k), size) in WindowsFrom(source, start, bound, size, step)
    decreases k
  {
    SteppingGoesOn(start, step, k);
    if k > 0 { WindowIsLookedAt(source, start + step, bound, size, step, k - 1); }
  }

  /** Windows as long as the beat begin every half beat, as long as a whole one fits; a source too short has one. */
  lemma WindowsAreEverywhere(size: nat, source: string, w: string)
    requires size >= 2
    ensures w in Windows(size, source) <==>
              exists k: nat :: (Stepped(0, size / 2, k) + size <= |source| || k == 0)
                               && w == Slice(source, Stepped(0, size / 2, k), size)
  {
    var step := size / 2;
    var bound := if |source| >= size then |source| - size + 1 else 1;
    if w in Windows(size, source) {
      var k := WindowStartsAt(source, 0, bound, size, step, w);
      if k > 0 { SteppingGoesOn(step, step, k - 1); }
    }
    if k: nat :| (Stepped(0, step, k) + size <= |source| || k == 0) && w == Slice(source, Stepped(0, step, k), size) {
      WindowIsLookedAt(source, 0, bound, size, step, k);
    }
  }

  /** The scene quotes the source: verbatim, or closely enough in one of the windows. */
  predicate BeatMatches(beat: string, source: string) {
    var b, s := Normalize(beat), Normalize(source);
    && b != "" && s != ""
    && (Contains(s, b)
        || exists w :: w in Windows(|b|, s) && Score(b)(w) >= 0.35)
  }

  predicate FidelityViolation(doc: Document, q: Request, e: Error) {
    match e
    case UnmatchedBeat(s) => s < |doc.scenes| && !BeatMatches(doc.scenes[s].sourceBeat, q.source)
    case MissingEnding => q.keepEnding && Blank(doc.endingSummary)
    case _ => false
  }

  const OPENING: set<char> := {'\U{201C}', '"', '\U{2018}', '\U{300C}', '\U{300E}'}
  const CLOSING: set<char> := {'\U{201D}', '"', '\U{2019}', '\U{300D}', '\U{300F}'}

  /** An opening quote mark followed by at least two characters that do not close it. */
  predicate QuotesSpeech(source: string) {
    exists i :: 0 <= i < |source| - 2 && source[i] in OPENING && source[i + 1] !in CLOSING && source[i + 2] !in CLOSING
  }

  function SpokenShots(shots: seq<ShotModel>): set<int> {
    set i | 0 <= i < |shots| && HasLine(shots[i])
  }

  predicate NobodySpeaks(shots: seq<ShotModel>) {
    forall s :: s in shots ==> !HasLine(s)
  }

  predicate OneAngleOnly(shots: seq<ShotModel>) {
    forall s, t :: s in shots && t in shots ==> s.angle == t.angle
  }

  predicate NeverMoves(shots: seq<ShotModel>) {
    forall s :: s in shots ==> s.movement == "locked"
  }

  predicate HasThinScene(scenes: seq<SceneModel>) {
    exists s :: s in scenes && |s.shots| < 2
  }

  predicate CraftViolation(doc: Document, q: Request, e: Error) {
    var shots := AllShots(doc.scenes);
    shots != [] &&
    match e
    case WrongShotCount => q.targetShots > 0 && |shots| != q.targetShots
    case SpeechDropped => QuotesSpeech(q.source) && NobodySpeaks(shots)
    case ThinScenes => |doc.scenes| > 1 && HasThinScene(doc.scenes)
    case TooFewLines => |shots| >= 2 && |SpokenShots(shots)| < |shots| / 2
    case OneAngle => |shots| >= 3 && OneAngleOnly(shots)
    case CameraNeverMoves => |shots| >= 3 && NeverMoves(shots)
    case _ => false
  }

  predicate Violates(doc: Document, q: Request, e: Error) {
    SemanticViolation(doc, e) || FidelityViolation(doc, q, e) || CraftViolation(doc, q, e)
  }

  /** The declarative specification: no rule is violated. */
  ghost predicate Meets(doc: Document, q: Request) {
    forall e :: !Violates(doc, q, e)
  }

  // ---- order values --------------------------------------------------------------------------------------

  function Insert(x: int, sorted: seq<int>): seq<int> {
    if sorted == [] || x <= sorted[0] then [x] + sorted else [sorted[0]] + Insert(x, sorted[1..])
  }

  function Sort(xs: seq<int>): seq<int> {
    if xs == [] then [] else Insert(xs[0], Sort(xs[1..]))
  }

  function OneTo(n: nat): seq<int> {
    seq(n, i => i + 1)
  }

  ghost predicate Ascending(xs: seq<int>) {
    |xs| >= 2 ==> xs[0] <= xs[1] && Ascending(xs[1..])
  }

  lemma {:induction false} HeadIsLeast(xs: seq<int>, y: int)
    requires Ascending(xs) && y in xs
    ensures xs[0] <= y
  {
    if y != xs[0] {
      assert xs == [xs[0]] + xs[1..];
      HeadIsLeast(xs[1..], y);
    }
  }

  lemma {:induction false} InsertKeeps(x: int, xs: seq<int>)
    ensures multiset(Insert(x, xs)) == multiset(xs) + multiset{x}
  {
    if xs != [] && x > xs[0] {
      InsertKeeps(x, xs[1..]);
      assert xs == [xs[0]] + xs[1..];
    }
  }

  lemma {:induction false} InsertSorts(x: int, xs: seq<int>)
    requires Ascending(xs)
    ensures Ascending(Insert(x, xs))
    ensures Insert(x, xs)[0] == if xs == [] || x <= xs[0] then x else xs[0]
  {
    if xs == [] || x <= xs[0] {
      assert ([x] + xs)[1..] == xs;
    } else {
      InsertSorts(x, xs[1..]);
      assert Insert(x, xs)[1..] == Insert(x, xs[1..]);
    }
  }

  lemma {:induction false} SortKeeps(xs: seq<int>)
    ensures multiset(Sort(xs)) == multiset(xs)
  {
    if xs != [] {
      SortKeeps(xs[1..]);
      InsertKeeps(xs[0], Sort(xs[1..]));
      assert xs == [xs[0]] + xs[1..];
    }
  }

  lemma {:induction false} SortSorts(xs: seq<int>)
    ensures Ascending(Sort(xs))
  {
    if xs != [] {
      SortSorts(xs[1..]);
      InsertSorts(xs[0], Sort(xs[1..]));
    }
  }

  lemma HeadAndTail(xs: seq<int>)
    requires xs != []
    ensures multiset(xs[1..]) == multiset(xs) - multiset{xs[0]} && xs[0] in multiset(xs)
  {
    assert xs == [xs[0]] + xs[1..];
  }

  lemma {:induction false} AscendingIsUnique(xs: seq<int>, ys: seq<int>)
    requires Ascending(xs) && Ascending(ys) && multiset(xs) == multiset(ys)
    ensures xs == ys
  {
    if xs != [] { HeadAndTail(xs); }
    if ys != [] { HeadAndTail(ys); }
    if xs != [] && ys != [] {
      SameHeads(xs, ys);
      AscendingIsUnique(xs[1..], ys[1..]);
      assert xs == [xs[0]] + xs[1..] && ys == [ys[0]] + ys[1..];
    }
  }

  lemma SameHeads(xs: seq<int>, ys: seq<int>)
    requires xs != [] && ys != [] && Ascending(xs) && Ascending(ys) && multiset(xs) == multiset(ys)
    ensures xs[0] == ys[0]
  {
    assert ys[0] in multiset(ys) && xs[0] in multiset(xs);
    HeadIsLeast(xs, ys[0]);
    HeadIsLeast(ys, xs[0]);
  }

  lemma {:induction false} OneToAscends(from: nat, n: nat)
    requires from <= n
    ensures Ascending(OneTo(n)[from..])
    decreases n - from
  {
    if from < n {
      OneToAscends(from + 1, n);
      assert OneTo(n)[from..][1..] == OneTo(n)[from + 1..];
    }
  }

  /** n values that include all of 1..n are exactly 1..n. */
  lemma {:induction false} NumberedIsPermutation(xs: seq<int>)
    requires Numbered(xs)
    ensures multiset(xs) == multiset(OneTo(|xs|))
  {
    var n := |xs|;
    if n > 0 {
      assert n in xs;
      var j :| 0 <= j < n && xs[j] == n;
      var rest := xs[..j] + xs[j + 1..];
      WithoutOne(xs, j);
      NumberedIsPermutation(rest);
      assert OneTo(n) == OneTo(n - 1) + [n];
    }
  }

  lemma WithoutOne(xs: seq<int>, j: nat)
    requires j < |xs|
    ensures var rest := xs[..j] + xs[j + 1..];
            && multiset(xs) == multiset(rest) + multiset{xs[j]}
            && forall x :: x in xs && x != xs[j] ==> x in rest
  {
    var rest := xs[..j] + xs[j + 1..];
    assert xs == xs[..j] + [xs[j]] + xs[j + 1..];
    forall x | x in xs && x != xs[j] ensures x in rest {
      var i :| 0 <= i < |xs| && xs[i] == x;
      assert rest[if i < j then i else i - 1] == x;
    }
  }

  lemma SortedTestIsNumbered(xs: seq<int>)
    ensures Sort(xs) == OneTo(|xs|) <==> Numbered(xs)
  {
    SortSorts(xs);
    SortKeeps(xs);
    if Numbered(xs) {
      NumberedIsPermutation(xs);
      OneToAscends(0, |xs|);
      assert OneTo(|xs|)[0..] == OneTo(|xs|);
      AscendingIsUnique(Sort(xs), OneTo(|xs|));
    }
    if Sort(xs) == OneTo(|xs|) {
      forall k | 1 <= k <= |xs| ensures k in xs {
        assert OneTo(|xs|)[k - 1] == k;
        assert k in multiset(Sort(xs));
      }
    }
  }

  /** Numbered orders never collide, which is what the unique constraints on the rows need. */
  lemma NumberedOrdersAreDistinct(xs: seq<int>, i: nat, j: nat)
    requires Numbered(xs) && i < j < |xs|
    ensures xs[i] != xs[j] && 1 <= xs[i] <= |xs|
  {
    NumberedIsPermutation(xs);
    assert xs[i] in multiset(xs) && xs[i] in OneTo(|xs|);
    assert xs == xs[..i] + [xs[i]] + xs[i + 1..j] + [xs[j]] + xs[j + 1..];
    if xs[i] == xs[j] {
      assert multiset(xs)[xs[i]] >= 2;
      OneToHasEachOnce(|xs|, xs[i]);
    }
  }

  lemma {:induction false} OneToHasEachOnce(n: nat, x: int)
    ensures multiset(OneTo(n))[x] == if 1 <= x <= n then 1 else 0
  {
    if n > 0 {
      OneToHasEachOnce(n - 1, x);
      assert OneTo(n) == OneTo(n - 1) + [n];
    }
  }

  // ---- the checks ----------------------------------------------------------------------------------------

  method SceneErrors(doc: Document, i: nat) returns (errors: seq<Error>)
    requires i < |doc.scenes|
    ensures forall e :: e in errors <==> SceneViolation(doc, i, e)
  {
    var scene := doc.scenes[i];
    errors := [];
    if scene.location !in doc.locations { errors := [UndeclaredLocation(i)]; }
    var names, speakers := Names(doc), Speakers(scene);
    var left := speakers;
    while left != {}
      invariant left <= speakers
      invariant forall e :: e in errors <==>
                  if e.UndeclaredSpeaker? then SceneViolation(doc, i, e) && e.speaker !in left
                  else e.UndeclaredLocation? && SceneViolation(doc, i, e)
    {
      var speaker :| speaker in left;
      if speaker !in names { errors := errors + [UndeclaredSpeaker(i, speaker)]; }
      left := left - {speaker};
    }
    TwoSpeakers(scene);
    var previous: Option<string> := None;
    for k := 0 to |scene.shots|
      invariant previous == if k == 0 then None else Some(scene.shots[k - 1].subject)
      invariant forall e :: e in errors <==>
                  && SceneViolation(doc, i, e)
                  && (e.UndeclaredSubject? || e.ForeignLine? || e.RepeatedSubject? ==> e.shot < k)
    {
      var shot := scene.shots[k];
      ghost var before := errors;
      if shot.subject !in names { errors := errors + [UndeclaredSubject(i, k)]; }
      if shot.line.Some? && shot.line.value != "" {
        if scene.dialogue != [] && DialogueLine(shot.subject, shot.line.value) !in scene.dialogue {
          errors := errors + [ForeignLine(i, k)];
        }
      }
      if |speakers| >= 2 && previous == Some(shot.subject) { errors := errors + [RepeatedSubject(i, k)]; }
      previous := Some(shot.subject);
      assert forall e :: e in errors ==>
                           e in before || e in {UndeclaredSubject(i, k), ForeignLine(i, k), RepeatedSubject(i, k)};
    }
  }

  lemma TwoSpeakers(scene: SceneModel)
    ensures |Speakers(scene)| >= 2 <==> exists a, b :: a in Speakers(scene) && b in Speakers(scene) && a != b
  {
    TwoElements(Speakers(scene));
  }

  lemma TwoElements<T>(s: set<T>)
    ensures |s| >= 2 <==> exists a, b :: a in s && b in s && a != b
  {
    if |s| >= 2 {
      var a :| a in s;
      assert |s - {a}| == |s| - 1;
      var b :| b in s - {a};
    }
    if a, b :| a in s && b in s && a != b { Subset({a, b}, s); }
  }

  lemma Subset<T>(a: set<T>, b: set<T>)
    requires a <= b
    ensures |a| <= |b|
  {
    assert b == a + (b - a);
  }

  method SemanticErrors(doc: Document) returns (errors: seq<Error>)
    ensures forall e :: e in errors <==> SemanticViolation(doc, e)
  {
    errors := [];
    for i := 0 to |doc.scenes|
      invariant forall e :: e in errors <==> exists j :: 0 <= j < i && SceneViolation(doc, j, e)
    {
      var found := SceneErrors(doc, i);
      errors := errors + found;
    }
    SortedTestIsNumbered(SceneOrders(doc));
    if Sort(SceneOrders(doc)) != OneTo(|doc.scenes|) { errors := errors + [SceneOrder]; }
    for i := 0 to |doc.scenes|
      invariant forall e :: e in errors <==> SemanticViolation(doc, e) && (e.ShotOrder? ==> e.scene < i)
    {
      SortedTestIsNumbered(ShotOrders(doc.scenes[i]));
      if Sort(ShotOrders(doc.scenes[i])) != OneTo(|doc.scenes[i].shots|) { errors := errors + [ShotOrder(i)]; }
    }
  }

  /** The highest score among some windows, and no less than zero. */
  function Best(score: string -> real, windows: seq<string>): real {
    if windows == [] then 0.0
    else
      var before, last := Best(score, windows[..|windows| - 1]), score(windows[|windows| - 1]);
      if last > before then last else before
  }

  lemma {:induction false} BestIsHighest(score: string -> real, windows: seq<string>)
    ensures forall w :: w in windows ==> score(w) <= Best(score, windows)
    ensures Best(score, windows) == 0.0 || exists w :: w in windows && score(w) == Best(score, windows)
  {
    if windows != [] {
      BestIsHighest(score, windows[..|windows| - 1]);
      assert windows == windows[..|windows| - 1] + [windows[|windows| - 1]];
    }
  }

  /** A text of one character has no bigram, so it can only match verbatim. */
  lemma ShortTextsHaveNoBigrams(text: string)
    ensures Bigrams(text) == {} <==> |text| < 2
    ensures |text| < 2 ==> forall w :: Score(text)(w) == 0.0
  {
    if |text| >= 2 { assert Slice(text, 0, 2) in Bigrams(text); }
    if |text| < 2 {
      forall w ensures Score(text)(w) == 0.0 { assert Bigrams(text) * Bigrams(w) == {}; }
    }
  }

  method BestWindow(score: string -> real, size: nat, source: string) returns (best: real)
    ensures best == Best(score, Windows(size, source))
  {
    var step := if size >= 2 then size / 2 else 1;
    var bound := if |source| >= size then |source| - size + 1 else 1;
    var start := 0;
    best := 0.0;
    ghost var seen: seq<string> := [];
    while start < bound
      invariant Windows(size, source) == seen + WindowsFrom(source, start, bound, size, step)
      invariant best == Best(score, seen)
      decreases bound - start
    {
      var overlap := score(Slice(source, start, size));
      if overlap > best { best := overlap; }
      OneMoreWindow(score, seen, source, start, bound, size, step);
      seen := seen + [Slice(source, start, size)];
      start := start + step;
    }
    assert seen + [] == seen;
  }

  lemma OneMoreWindow(score: string -> real, seen: seq<string>, source: string, start: nat, bound: nat, size: nat,
                      step: nat)
    requires step > 0 && start < bound
    ensures var window := Slice(source, start, size);
            && seen + WindowsFrom(source, start, bound, size, step)
               == seen + [window] + WindowsFrom(source, start + step, bound, size, step)
            && Best(score, seen + [window]) ==
                 if score(window) > Best(score, seen) then score(window) else Best(score, seen)
  {
    var window := Slice(source, start, size);
    assert (seen + [window])[..|seen|] == seen;
    assert WindowsFrom(source, start, bound, size, step)
           == [window] + WindowsFrom(source, start + step, bound, size, step);
  }

  /** The best window, or 1.0 for a verbatim quote. */
  method BeatSimilarity(beat: string, source: string) returns (best: real)
    ensures best >= 0.35 <==> BeatMatches(beat, source)
    ensures var b, s := Normalize(beat), Normalize(source);
            best == if b == "" || s == "" then 0.0
                    else if Contains(s, b) then 1.0
                    else Best(Score(b), Windows(|b|, s))
  {
    var b, s := Normalize(beat), Normalize(source);
    if b == "" || s == "" { return 0.0; }
    if Contains(s, b) { return 1.0; }
    BestIsHighest(Score(b), Windows(|b|, s));
    if Bigrams(b) == {} {
      ShortTextsHaveNoBigrams(b);
      return 0.0;
    }
    best := BestWindow(Score(b), |b|, s);
  }

  method FidelityErrors(doc: Document, q: Request) returns (errors: seq<Error>)
    ensures forall e :: e in errors <==> FidelityViolation(doc, q, e)
  {
    errors := [];
    for i := 0 to |doc.scenes|
      invariant forall e :: e in errors <==> e.UnmatchedBeat? && e.scene < i && FidelityViolation(doc, q, e)
    {
      var similarity := BeatSimilarity(doc.scenes[i].sourceBeat, q.source);
      if similarity < 0.35 { errors := errors + [UnmatchedBeat(i)]; }
    }
    if q.keepEnding && Blank(doc.endingSummary) { errors := errors + [MissingEnding]; }
  }

  method CountSpoken(shots: seq<ShotModel>) returns (spoken: nat)
    ensures spoken == |SpokenShots(shots)|
  {
    spoken := 0;
    ghost var speaking: set<int> := {};
    for i := 0 to |shots|
      invariant speaking == set j | 0 <= j < i && HasLine(shots[j])
      invariant spoken == |speaking|
    {
      if HasLine(shots[i]) { spoken := spoken + 1; speaking := speaking + {i}; }
    }
    assert speaking == SpokenShots(shots);
  }

  lemma NobodySpeaksExactlyWhen(shots: seq<ShotModel>)
    ensures |SpokenShots(shots)| == 0 <==> NobodySpeaks(shots)
  {
    if s :| s in shots && HasLine(s) {
      var i :| 0 <= i < |shots| && shots[i] == s;
      assert i in SpokenShots(shots);
    }
    if i :| i in SpokenShots(shots) { assert shots[i] in shots; }
  }

  method SameAngle(shots: seq<ShotModel>) returns (same: bool)
    ensures same <==> OneAngleOnly(shots)
  {
    var angles := set s | s in shots :: s.angle;
    TwoElements(angles);
    if s, t :| s in shots && t in shots && s.angle != t.angle {
      assert s.angle in angles && t.angle in angles;
    }
    return |angles| < 2;
  }

  method AllLocked(shots: seq<ShotModel>) returns (locked: bool)
    requires shots != []
    ensures locked <==> NeverMoves(shots)
  {
    var movements := set s | s in shots :: s.movement;
    assert shots[0] in shots && shots[0].movement in movements;
    assert forall s :: s in shots ==> s.movement in movements;
    return movements == {"locked"};
  }

  method CraftErrors(doc: Document, q: Request) returns (errors: seq<Error>)
    ensures forall e :: e in errors <==> CraftViolation(doc, q, e)
  {
    errors := [];
    var shots := AllShots(doc.scenes);
    if shots == [] { return; }
    var spoken := CountSpoken(shots);
    NobodySpeaksExactlyWhen(shots);
    if q.targetShots > 0 && |shots| != q.targetShots { errors := [WrongShotCount]; }
    if QuotesSpeech(q.source) && spoken == 0 { errors := errors + [SpeechDropped]; }
    if |doc.scenes| > 1 && HasThinScene(doc.scenes) { errors := errors + [ThinScenes]; }
    if |shots| >= 2 && spoken < |shots| / 2 { errors := errors + [TooFewLines]; }
    if |shots| >= 3 {
      var same := SameAngle(shots);
      if same { errors := errors + [OneAngle]; }
      var locked := AllLocked(shots);
      if locked { errors := errors + [CameraNeverMoves]; }
    }
  }

  /** The list handed back to the director names every violated rule and nothing else. */
  method AdaptationErrors(doc: Document, q: Request) returns (errors: seq<Error>)
    ensures forall e :: e in errors <==> Violates(doc, q, e)
    ensures errors == [] <==> Meets(doc, q)
  {
    errors := SemanticErrors(doc);
    var fidelity := FidelityErrors(doc, q);
    var craft := CraftErrors(doc, q);
    errors := errors + fidelity + craft;
    if errors != [] { assert errors[0] in errors; }
  }
}
