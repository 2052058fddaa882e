/** The search query of a scene and how it is relaxed: pipeline/asset_query.py. */
module AssetQuery {
  import opened Prelude

  /** Everything about a search that is never relaxed. */
  datatype Conditions = Conditions(orientation: string, minDuration: real, maxDuration: real,
                                   minWidth: int, minHeight: int, safeSearch: bool)

  datatype Query = Query(text: string, conditions: Conditions, level: nat)

  /** How many leading words survive at each level; None leaves the text alone. */
  const LADDER: seq<Option<nat>> := [None, Some(4), Some(2)]
  const MAX_LEVEL := |LADDER| - 1

  function Min(a: real, b: real): real {
    if a < b then a else b
  }

  function Max(a: real, b: real): real {
    if a < b then b else a
  }

  /** `sanitized` is the cleaned-up visual query; the duration hint only ever raises the lower bound. */
  function BuildSceneQuery(sanitized: string, hint: real, c: Conditions): (q: Query)
    ensures q.level == 0 && q.conditions == c.(minDuration := q.conditions.minDuration)
    ensures q.text != "" && (sanitized != "" ==> q.text == sanitized) && (sanitized == "" ==> q.text == "video")
    // Within the policy's bounds the lower one is the hint itself, and otherwise the bound it passes.
    ensures c.minDuration <= c.maxDuration ==>
              q.conditions.minDuration ==
                if hint <= 0.0 || hint <= c.minDuration then c.minDuration
                else if hint <= c.maxDuration then hint else c.maxDuration
  {
    var least := if hint > 0.0 then Min(Max(hint, c.minDuration), c.maxDuration) else c.minDuration;
    Query(if sanitized == "" then "video" else sanitized, c.(minDuration := least), 0)
  }

  // ---- words -----------------------------------------------------------------------------------------------

  /** text.split(" ") */
  function Split(text: string): (words: seq<string>)
    ensures words != [] && forall w :: w in words ==> ' ' !in w
  {
    if text == "" then [""]
    else
      var n := |text| - 1;
      var words, last := Split(text[..n]), text[n];
      if last == ' ' then words + [""]
      else words[..|words| - 1] + [words[|words| - 1] + [last]]
  }

  /** " ".join(words) */
  function Join(words: seq<string>): string {
    if words == [] then ""
    else if |words| == 1 then words[0]
    else Join(words[..|words| - 1]) + " " + words[|words| - 1]
  }

  lemma {:induction false} JoinExtends(words: seq<string>, last: string, c: char)
    ensures Join(words + [last + [c]]) == Join(words + [last]) + [c]
  {
    assert (words + [last + [c]])[..|words|] == words && (words + [last])[..|words|] == words;
    if words != [] {
      assert Join(words) + " " + (last + [c]) == Join(words) + " " + last + [c];
    }
  }

  lemma {:induction false} JoinInvertsSplit(text: string)
    ensures Join(Split(text)) == text
  {
    if text != "" {
      var n := |text| - 1;
      var words := Split(text[..n]);
      JoinInvertsSplit(text[..n]);
      assert text == text[..n] + [text[n]];
      if text[n] == ' ' {
        assert (words + [""])[..|words|] == words;
        assert Join(words + [""]) == Join(words) + " " + "";
      } else {
        var m := |words| - 1;
        JoinExtends(words[..m], words[m], text[n]);
        assert words[..m] + [words[m]] == words;
      }
    }
  }

  lemma {:induction false} SplitWord(text: string, word: string)
    requires ' ' !in word
    ensures Split(text + " " + word) == Split(text) + [word]
  {
    var whole := text + " " + word;
    var n := |whole| - 1;
    if word == "" {
      assert whole[..n] == text && whole[n] == ' ';
    } else {
      var m := |word| - 1;
      assert whole[..n] == text + " " + word[..m] && whole[n] == word[m];
      SplitWord(text, word[..m]);
      assert word == word[..m] + [word[m]];
      assert (Split(text) + [word[..m]])[..|Split(text)|] == Split(text);
    }
  }

  lemma {:induction false} SplitOneWord(word: string)
    requires ' ' !in word
    ensures Split(word) == [word]
  {
    if word != "" {
      var m := |word| - 1;
      SplitOneWord(word[..m]);
      assert word == word[..m] + [word[m]];
    }
  }

  lemma {:induction false} SplitInvertsJoin(words: seq<string>)
    requires words != [] && forall w :: w in words ==> ' ' !in w
    ensures Split(Join(words)) == words
  {
    var n := |words| - 1;
    assert words == words[..n] + [words[n]];
    if n == 0 {
      SplitOneWord(words[0]);
    } else {
      SplitInvertsJoin(words[..n]);
      SplitWord(Join(words[..n]), words[n]);
    }
  }

  lemma {:induction false} FewerWordsAreAPrefix(words: seq<string>, k: nat)
    requires 0 < k < |words|
    ensures Join(words[..k]) < Join(words)
  {
    var n := |words| - 1;
    if k < n {
      FewerWordsAreAPrefix(words[..n], k);
      assert words[..n][..k] == words[..k];
    }
  }

  // ---- relaxation ------------------------------------------------------------------------------------------

  function RelaxQuery(q: Query): Option<Query>
    decreases MAX_LEVEL - q.level
  {
    var next := q.level + 1;
    if next > MAX_LEVEL then None
    else
      var words := Split(q.text);
      if LADDER[next].None? || LADDER[next].value >= |words| then RelaxQuery(q.(level := next))
      else Some(q.(text := Join(words[..LADDER[next].value]), level := next))
  }

  /** The words that come first, fewer of them, and nothing else changed. */
  ghost predicate Broadens(q: Query, r: Query) {
    && r.conditions == q.conditions && q.level < r.level <= MAX_LEVEL
    && 0 < |Split(r.text)| < |Split(q.text)| && Split(r.text) <= Split(q.text)
    && r.text < q.text
  }

  /** A relaxed query is broader in its words alone; there is none exactly when no rung above has fewer words. */
  lemma {:induction false} RelaxationBroadens(q: Query)
    ensures RelaxQuery(q).Some? ==> Broadens(q, RelaxQuery(q).value)
    // Four words survive the first relaxation and two the second.
    ensures RelaxQuery(q).Some? ==>
              var r, words := RelaxQuery(q).value, Split(q.text);
              var kept := if r.level == 1 then 4 else 2;
              r.level in {1, 2} && kept < |words| && Split(r.text) == words[..kept]
    ensures RelaxQuery(q).None? <==>
              forall next :: q.level < next <= MAX_LEVEL && LADDER[next].Some? ==> LADDER[next].value >= |Split(q.text)|
    decreases MAX_LEVEL - q.level
  {
    var next := q.level + 1;
    if next <= MAX_LEVEL {
      var words := Split(q.text);
      if LADDER[next].None? || LADDER[next].value >= |words| {
        RelaxationBroadens(q.(level := next));
      } else {
        var k := LADDER[next].value;
        JoinInvertsSplit(q.text);
        SplitInvertsJoin(words[..k]);
        FewerWordsAreAPrefix(words, k);
      }
    }
  }
}

/** Which candidate is chosen: pipeline/asset_selection.py. Scores are exact rationals here. */
module AssetSelection {
  import opened Prelude

  datatype Candidate = Candidate(id: string, license: Option<string>, commercial: bool, modifiable: bool,
                                 contentType: Option<string>, width: Option<int>, height: Option<int>,
                                 duration: Option<real>, rank: int)

  datatype Policy = Policy(minWidth: int, minHeight: int, minDuration: real, maxDuration: real,
                           needsCommercial: bool, needsModification: bool, typePrefix: Option<string>,
                           orientation: string)

  predicate PassesHardFilters(c: Candidate, p: Policy, excluded: set<string>) {
    && c.id !in excluded
    && c.license.Some?
    && (p.needsCommercial ==> c.commercial)
    && (p.needsModification ==> c.modifiable)
    && (p.typePrefix.Some? && c.contentType.Some? ==> p.typePrefix.value <= c.contentType.value)
    && (c.width.Some? ==> c.width.value >= p.minWidth)
    && (c.height.Some? ==> c.height.value >= p.minHeight)
    && (c.duration.Some? ==> p.minDuration <= c.duration.value <= p.maxDuration)
  }

  function Positive(x: real): real {
    if x < 0.0 then 0.0 else x
  }

  function Distance(x: real, y: real): real {
    if x < y then y - x else x - y
  }

  function TargetRatio(orientation: string): real {
    if orientation == "landscape" then 16.0 / 9.0 else if orientation == "square" then 1.0 else 9.0 / 16.0
  }

  function Score(c: Candidate, p: Policy): real {
    var size :=
      if c.width.Some? && c.height.Some? && c.width.value != 0 && c.height.value != 0 then
        var (w, h) := (c.width.value as real, c.height.value as real);
        Positive(1.0 - Distance(w / h, TargetRatio(p.orientation))) * 50.0
        + (if h < 2160.0 then h else 2160.0) / 2160.0 * 20.0
      else 0.0;
    var length :=
      if c.duration.Some? then
        var span := if p.maxDuration - p.minDuration < 1.0 then 1.0 else p.maxDuration - p.minDuration;
        Positive(1.0 - Distance(c.duration.value, (p.minDuration + p.maxDuration) / 2.0) / span) * 20.0
      else 0.0;
    size + length + Positive(10.0 - c.rank as real)
  }

  // ---- what the criteria are worth ---------------------------------------------------------------------------

  /** A candidate of which nothing is known but its place among the results. */
  function Unmeasured(c: Candidate): Candidate {
    c.(width := None, height := None, duration := None)
  }

  /** Late enough among the results that its place counts for nothing. */
  function Late(c: Candidate): Candidate {
    c.(rank := 10)
  }

  /** Picture size, length and place among the results count separately. */
  lemma CriteriaAddUp(c: Candidate, p: Policy)
    ensures Score(c, p) == Score(Late(c).(duration := None), p) + Score(Late(c).(width := None), p)
                           + Score(Unmeasured(c), p)
  {
  }

  /** The place is worth ten points at the top, one less each further down, and nothing from the eleventh on. */
  lemma PlacePoints(c: Candidate, p: Policy)
    ensures Score(Unmeasured(c), p) == if c.rank < 10 then 10.0 - c.rank as real else 0.0
  {
  }

  /** The length is worth 20 points in the middle of the allowed range and nothing a whole range, or second, away. */
  lemma LengthPoints(c: Candidate, p: Policy, length: real)
    ensures var middle, wide := (p.minDuration + p.maxDuration) / 2.0, p.maxDuration - p.minDuration;
            var range := if wide < 1.0 then 1.0 else wide;
            var points := Score(Late(Unmeasured(c)).(duration := Some(length)), p);
            && (length == middle ==> points == 20.0) && 0.0 <= points <= 20.0
            && (middle - range <= length <= middle ==> points * range == 20.0 * (range - (middle - length)))
            && (middle <= length <= middle + range ==> points * range == 20.0 * (range - (length - middle)))
            && (length <= middle - range || length >= middle + range ==> points == 0.0)
  {
    var middle, wide := (p.minDuration + p.maxDuration) / 2.0, p.maxDuration - p.minDuration;
    var range := if wide < 1.0 then 1.0 else wide;
    Share(Distance(length, middle), range);
    var share := Distance(length, middle) / range;
    assert Score(Late(Unmeasured(c)).(duration := Some(length)), p) == Positive(1.0 - share) * 20.0;
    Scaled(share, range, Distance(length, middle));
  }

  lemma Share(x: real, whole: real)
    requires x >= 0.0 && whole > 0.0
    ensures x / whole >= 0.0 && (x / whole) * whole == x
    ensures x >= whole ==> x / whole >= 1.0
    ensures x <= whole ==> x / whole <= 1.0
    ensures x == 0.0 ==> x / whole == 0.0
  {
  }

  lemma Scaled(share: real, whole: real, x: real)
    requires share * whole == x
    ensures ((1.0 - share) * 20.0) * whole == 20.0 * (whole - x)
  {
  }

  lemma Ratio(w: real, h: real, x: real)
    requires h > 0.0 && w == h * x
    ensures w / h == x
  {
  }

  /** What one criterion gives for being so far off the shape, and for so many lines. */
  lemma ShapeAndLines(c: Candidate, p: Policy, width: int, height: int, off: real)
    requires width > 0 && height > 0 && width as real / height as real == off + TargetRatio(p.orientation)
    ensures var points := Score(Late(Unmeasured(c)).(width := Some(width), height := Some(height)), p);
            var shape := if off < -1.0 || off > 1.0 then 0.0 else if off < 0.0 then 1.0 + off else 1.0 - off;
            points == shape * 50.0 + (if height < 2160 then height as real else 2160.0) / 2160.0 * 20.0
  {
    assert Distance(off + TargetRatio(p.orientation), TargetRatio(p.orientation)) == if off < 0.0 then -off else off;
  }

  /** The size is worth 50 points for the very shape asked for, less the farther off it is, and up to 20 for height. */
  lemma SizePoints(c: Candidate, p: Policy, width: int, height: int, off: real)
    requires width > 0 && height > 0
    requires width as real == height as real * (off + match p.orientation
                                                      case "landscape" => 16.0 / 9.0
                                                      case "square" => 1.0
                                                      case _ => 9.0 / 16.0)
    ensures var points := Score(Late(Unmeasured(c)).(width := Some(width), height := Some(height)), p);
            var shape := if off < -1.0 || off > 1.0 then 0.0 else if off < 0.0 then 1.0 + off else 1.0 - off;
            points * 2160.0 == 50.0 * 2160.0 * shape + 20.0 * if height < 2160 then height as real else 2160.0
  {
    Ratio(width as real, height as real, off + TargetRatio(p.orientation));
    ShapeAndLines(c, p, width, height, off);
  }

  /** Strings compare by code point, a prefix before its extensions. */
  predicate Before(a: string, b: string) {
    if b == "" then false
    else if a == "" then true
    else a[0] < b[0] || (a[0] == b[0] && Before(a[1..], b[1..]))
  }

  lemma {:induction false} BeforeIsTotal(a: string, b: string)
    ensures a != b ==> (Before(a, b) <==> !Before(b, a))
    ensures a == b ==> !Before(a, b)
  {
    if a != "" && b != "" {
      BeforeIsTotal(a[1..], b[1..]);
      assert a == [a[0]] + a[1..] && b == [b[0]] + b[1..];
    }
  }

  lemma {:induction false} BeforeIsTransitive(a: string, b: string, c: string)
    requires Before(a, b) && Before(b, c)
    ensures Before(a, c)
  {
    if a != "" && a[0] == b[0] == c[0] { BeforeIsTransitive(a[1..], b[1..], c[1..]); }
  }

  /** The sort key (-score, id). */
  predicate Better(score: Candidate -> real, a: Candidate, b: Candidate) {
    score(a) > score(b) || (score(a) == score(b) && Before(a.id, b.id))
  }

  function Eligible(candidates: seq<Candidate>, p: Policy, excluded: set<string>): (eligible: seq<Candidate>)
    ensures forall c :: c in eligible <==> c in candidates && PassesHardFilters(c, p, excluded)
  {
    if candidates == [] then []
    else
      var n := |candidates| - 1;
      assert candidates == candidates[..n] + [candidates[n]];
      Eligible(candidates[..n], p, excluded)
      + if PassesHardFilters(candidates[n], p, excluded) then [candidates[n]] else []
  }

  /** The first of the candidates in key order. */
  function First(score: Candidate -> real, ranked: seq<Candidate>): (first: Candidate)
    requires ranked != []
    ensures first in ranked
  {
    var n := |ranked| - 1;
    if n == 0 then ranked[0]
    else
      var first := First(score, ranked[..n]);
      if Better(score, ranked[n], first) then ranked[n] else first
  }

  function SelectAsset(candidates: seq<Candidate>, p: Policy, excluded: set<string>): Option<Candidate> {
    var eligible := Eligible(candidates, p, excluded);
    if eligible == [] then None else Some(First(c => Score(c, p), eligible))
  }

  lemma BetterIsTransitive(score: Candidate -> real, a: Candidate, b: Candidate, c: Candidate)
    ensures Better(score, a, b) && Better(score, b, c) ==> Better(score, a, c)
  {
    if Before(a.id, b.id) && Before(b.id, c.id) { BeforeIsTransitive(a.id, b.id, c.id); }
  }

  lemma {:induction false} FirstIsBest(score: Candidate -> real, ranked: seq<Candidate>)
    requires ranked != []
    ensures forall c :: c in ranked ==> !Better(score, c, First(score, ranked))
  {
    var n := |ranked| - 1;
    BeforeIsTotal(ranked[n].id, ranked[n].id);
    if n > 0 {
      FirstIsBest(score, ranked[..n]);
      forall c | c in ranked ensures !Better(score, c, First(score, ranked)) {
        assert c == ranked[n] || c in ranked[..n];
        BetterIsTransitive(score, c, ranked[n], First(score, ranked[..n]));
      }
    }
  }

  /** Nothing is chosen exactly when nothing passes; what is chosen passes, and nothing that passes is better. */
  lemma SelectedIsBest(candidates: seq<Candidate>, p: Policy, excluded: set<string>)
    ensures SelectAsset(candidates, p, excluded).None?
            <==> forall c :: c in candidates ==> !PassesHardFilters(c, p, excluded)
    ensures SelectAsset(candidates, p, excluded).Some? ==>
              var chosen := SelectAsset(candidates, p, excluded).value;
              && chosen in candidates && PassesHardFilters(chosen, p, excluded)
              && forall c :: c in candidates && PassesHardFilters(c, p, excluded) ==>
                               !Better(x => Score(x, p), c, chosen)
  {
    var eligible := Eligible(candidates, p, excluded);
    if eligible != [] {
      assert eligible[0] in eligible;
      FirstIsBest(x => Score(x, p), eligible);
    } else {
      forall c | c in candidates ensures !PassesHardFilters(c, p, excluded) {
        assert c !in eligible;
      }
    }
  }

  lemma BestIsUnique(score: Candidate -> real, a: Candidate, b: Candidate)
    requires !Better(score, a, b) && !Better(score, b, a)
    ensures a.id == b.id
  {
    BeforeIsTotal(a.id, b.id);
  }

  /** With distinct ids the choice does not depend on the order the provider answers in. */
  lemma OrderDoesNotMatter(xs: seq<Candidate>, ys: seq<Candidate>, p: Policy, excluded: set<string>)
    requires forall c :: c in xs <==> c in ys
    requires forall c, d :: c in xs && d in xs && c.id == d.id ==> c == d
    ensures SelectAsset(xs, p, excluded) == SelectAsset(ys, p, excluded)
  {
    SelectedIsBest(xs, p, excluded);
    SelectedIsBest(ys, p, excluded);
    var a, b := SelectAsset(xs, p, excluded), SelectAsset(ys, p, excluded);
    if a.Some? && b.Some? { BestIsUnique(x => Score(x, p), a.value, b.value); }
  }
}

/** Search, choose and exclude, scene by scene: pipeline/stages.py:97-196. */
module AssetFetching {
  import opened Prelude
  import opened AssetQuery
  import opened AssetSelection

  datatype Scene = Scene(visualQuery: string, hint: real)

  /** What the provider answers to a search made for a scene, with these ids excluded: anything at all. */
  type Stock = (nat, Query, set<string>) -> seq<Candidate>

  datatype Fetch = Fetch(chosen: Candidate, queryText: string, score: real)

  datatype Outcome = AllFetched | AssetNotFound(scene: nat)

  /** Consecutive searches relax the one before. */
  ghost predicate Ladder(asked: seq<Query>) {
    asked != [] && forall k :: 0 <= k < |asked| - 1 ==> RelaxQuery(asked[k]) == Some(asked[k + 1])
  }

  lemma {:induction false} LaddersBroaden(asked: seq<Query>, j: nat, k: nat)
    requires Ladder(asked) && j < k < |asked|
    ensures Broadens(asked[j], asked[k]) && k <= asked[k].level
  {
    RelaxationBroadens(asked[k - 1]);
    if j < k - 1 {
      LaddersBroaden(asked, j, k - 1);
    } else if j > 0 {
      LaddersBroaden(asked, j - 1, j);
    }
  }

  /** The searches of one scene: each without an eligible candidate, except for the last when something was chosen. */
  ghost predicate Searched(stock: Stock, p: Policy, scene: nat, used: set<string>, asked: seq<Query>,
                           chosen: Option<Candidate>)
  {
    && Ladder(asked) && |asked| <= 3
    && (forall k :: 0 <= k < |asked| - 1 ==> SelectAsset(stock(scene, asked[k], used), p, used).None?)
    && SelectAsset(stock(scene, asked[|asked| - 1], used), p, used) == chosen
    && (chosen.None? ==> RelaxQuery(asked[|asked| - 1]).None?)
  }

  method SearchScene(stock: Stock, p: Policy, scene: nat, used: set<string>, query: Query)
    returns (chosen: Option<Candidate>, asked: seq<Query>)
    requires query.level == 0
    ensures Searched(stock, p, scene, used, asked, chosen) && asked[0] == query
  {
    var current := query;
    asked := [current];
    chosen := SelectAsset(stock(scene, current, used), p, used);
    while chosen.None? && RelaxQuery(current).Some?
      invariant Ladder(asked) && asked[0] == query && asked[|asked| - 1] == current
      invariant |asked| - 1 <= current.level <= MAX_LEVEL
      invariant forall k :: 0 <= k < |asked| - 1 ==> SelectAsset(stock(scene, asked[k], used), p, used).None?
      invariant chosen == SelectAsset(stock(scene, current, used), p, used)
      decreases MAX_LEVEL - current.level
    {
      RelaxationBroadens(current);
      current := RelaxQuery(current).value;
      asked := asked + [current];
      chosen := SelectAsset(stock(scene, current, used), p, used);
    }
  }

  function Ids(fetched: seq<Fetch>): set<string> {
    set f | f in fetched :: f.chosen.id
  }

  /** What the i-th scene was given: the best eligible candidate of its last search, excluding every earlier choice. */
  ghost predicate SceneFetched(stock: Stock, p: Policy, scenes: seq<Scene>, c: Conditions, fetched: seq<Fetch>,
                               asked: seq<seq<Query>>, i: nat)
    requires i < |scenes| && i < |fetched| && i < |asked|
  {
    var query := BuildSceneQuery(scenes[i].visualQuery, scenes[i].hint, c);
    && Searched(stock, p, i, Ids(fetched[..i]), asked[i], Some(fetched[i].chosen)) && asked[i][0] == query
    && fetched[i].queryText == query.text && fetched[i].score == Score(fetched[i].chosen, p)
  }

  lemma LaterScenesChangeNothing(stock: Stock, p: Policy, scenes: seq<Scene>, c: Conditions, before: seq<Fetch>,
                                 askedBefore: seq<seq<Query>>, fetched: seq<Fetch>, asked: seq<seq<Query>>)
    requires before <= fetched && |before| <= |scenes| && |before| == |askedBefore| && askedBefore <= asked
    requires forall i :: 0 <= i < |before| ==> SceneFetched(stock, p, scenes, c, before, askedBefore, i)
    ensures forall i :: 0 <= i < |before| ==> SceneFetched(stock, p, scenes, c, fetched, asked, i)
  {
    forall i | 0 <= i < |before| ensures SceneFetched(stock, p, scenes, c, fetched, asked, i) {
      assert SceneFetched(stock, p, scenes, c, before, askedBefore, i);
      assert fetched[..i] == before[..i];
    }
  }

  method RunAssetFetching(stock: Stock, p: Policy, scenes: seq<Scene>, c: Conditions)
    returns (outcome: Outcome, fetched: seq<Fetch>, asked: seq<seq<Query>>)
    ensures |fetched| <= |asked| && |fetched| <= |scenes|
    ensures forall i :: 0 <= i < |fetched| ==> SceneFetched(stock, p, scenes, c, fetched, asked, i)
    ensures outcome.AllFetched? ==> |fetched| == |scenes| == |asked|
    ensures outcome.AssetNotFound? ==>
              && outcome.scene == |fetched| < |scenes| && |asked| == |fetched| + 1
              && Searched(stock, p, |fetched|, Ids(fetched), asked[|fetched|], None)
  {
    fetched, asked := [], [];
    var used: set<string> := {};
    for i := 0 to |scenes|
      invariant |fetched| == |asked| == i && used == Ids(fetched)
      invariant forall j :: 0 <= j < i ==> SceneFetched(stock, p, scenes, c, fetched, asked, j)
    {
      var query := BuildSceneQuery(scenes[i].visualQuery, scenes[i].hint, c);
      var chosen, searches := SearchScene(stock, p, i, used, query);
      ghost var before, askedBefore := fetched, asked;
      asked := asked + [searches];
      LaterScenesChangeNothing(stock, p, scenes, c, before, askedBefore, fetched, asked);
      if chosen.None? { return AssetNotFound(i), fetched, asked; }
      used := used + {chosen.value.id};
      fetched := fetched + [Fetch(chosen.value, query.text, Score(chosen.value, p))];
      LaterScenesChangeNothing(stock, p, scenes, c, before, askedBefore, fetched, asked);
      assert fetched[..i] == before && SceneFetched(stock, p, scenes, c, fetched, asked, i);
    }
    return AllFetched, fetched, asked;
  }

  /**
   What fetching promises: assets pairwise different, each past every hard filter, after at most three searches whose
   texts are ever shorter beginnings of the scene's own query and whose other conditions never change.
   */
  lemma FetchedAssetsAreEligibleAndDifferent(stock: Stock, p: Policy, scenes: seq<Scene>, c: Conditions,
                                             fetched: seq<Fetch>, asked: seq<seq<Query>>)
    requires |fetched| <= |asked| && |fetched| <= |scenes|
    requires forall i :: 0 <= i < |fetched| ==> SceneFetched(stock, p, scenes, c, fetched, asked, i)
    ensures forall i, j :: 0 <= i < j < |fetched| ==> fetched[i].chosen.id != fetched[j].chosen.id
    ensures forall i :: 0 <= i < |fetched| ==> PassesHardFilters(fetched[i].chosen, p, {}) && Relaxes(asked[i])
    // What is known about an asset never breaks the policy, and its license is always known.
    ensures forall i :: 0 <= i < |fetched| ==>
              var c := fetched[i].chosen;
              && c.license.Some? && (p.needsCommercial ==> c.commercial) && (p.needsModification ==> c.modifiable)
              && (c.width.Some? ==> c.width.value >= p.minWidth)
              && (c.height.Some? ==> c.height.value >= p.minHeight)
              && (c.duration.Some? ==> p.minDuration <= c.duration.value <= p.maxDuration)
              && (p.typePrefix.Some? && c.contentType.Some? ==> p.typePrefix.value <= c.contentType.value)
  {
    forall i | 0 <= i < |fetched|
      ensures PassesHardFilters(fetched[i].chosen, p, Ids(fetched[..i])) && Relaxes(asked[i])
    {
      assert SceneFetched(stock, p, scenes, c, fetched, asked, i);
      var last := asked[i][|asked[i]| - 1];
      SelectedIsBest(stock(i, last, Ids(fetched[..i])), p, Ids(fetched[..i]));
      LadderRelaxes(asked[i]);
    }
    forall i, j | 0 <= i < j < |fetched| ensures fetched[i].chosen.id != fetched[j].chosen.id {
      assert PassesHardFilters(fetched[j].chosen, p, Ids(fetched[..j]));
      assert fetched[..j][i] in fetched[..j];
      assert fetched[i].chosen.id in Ids(fetched[..j]);
    }
  }

  /** At most three searches, each a shorter beginning of every one before it. */
  ghost predicate Relaxes(asked: seq<Query>) {
    1 <= |asked| <= 3 && forall j, k :: 0 <= j < k < |asked| ==> Broadens(asked[j], asked[k])
  }

  lemma LadderRelaxes(asked: seq<Query>)
    requires Ladder(asked) && |asked| <= 3
    ensures Relaxes(asked)
  {
    forall j, k | 0 <= j < k < |asked| ensures Broadens(asked[j], asked[k]) {
      LaddersBroaden(asked, j, k);
    }
  }
}
