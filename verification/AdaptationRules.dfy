/**
 The rules of pipeline/adaptation_parser.py in plain words: an adaptation is accepted exactly when its scenes and its
 film keep them. The validator itself knows them only as the violations it reports.
 */
module AdaptationRules {
  import opened Prelude
  import opened AdaptationParser

  predicate Declared(doc: Document, name: string) {
    exists c :: c in doc.characters && c.name == name
  }

  predicate TwoSpeak(scene: SceneModel) {
    exists d, e :: d in scene.dialogue && e in scene.dialogue && d.speaker != e.speaker
  }

  /** A shot says nothing, or a line its subject has in the scene's dialogue; a scene without dialogue is free. */
  predicate SaysItsLine(scene: SceneModel, s: ShotModel) {
    scene.dialogue == [] || s.line.None? || s.line.value == ""
    || exists d :: d in scene.dialogue && d.speaker == s.subject && d.line == s.line.value
  }

  /** Everything a scene shows is declared, and where two speak no two shots in a row show the same one. */
  predicate SceneKeepsRules(doc: Document, scene: SceneModel) {
    && scene.location in doc.locations
    && (forall d :: d in scene.dialogue ==> Declared(doc, d.speaker))
    && (forall s :: s in scene.shots ==> Declared(doc, s.subject) && SaysItsLine(scene, s))
    && (TwoSpeak(scene) ==> forall k :: 0 < k < |scene.shots| ==> scene.shots[k].subject != scene.shots[k - 1].subject)
  }

  /** Scenes, and the shots of each scene, are numbered from one without a gap or a repeat. */
  predicate WellOrdered(doc: Document) {
    && (forall n :: 1 <= n <= |doc.scenes| ==> HasScene(doc, n))
    && forall i :: 0 <= i < |doc.scenes| ==> ShotsOrdered(doc.scenes[i])
  }

  predicate ShotsOrdered(scene: SceneModel) {
    forall n :: 1 <= n <= |scene.shots| ==> HasShot(scene, n)
  }

  predicate HasScene(doc: Document, n: int) {
    exists s :: s in doc.scenes && s.order == n
  }

  predicate HasShot(scene: SceneModel, n: int) {
    exists s :: s in scene.shots && s.order == n
  }

  predicate StaysFaithful(doc: Document, q: Request) {
    && (forall s :: s in doc.scenes ==> BeatMatches(s.sourceBeat, q.source))
    && (q.keepEnding ==> exists c :: c in doc.endingSummary && !IsSpace(c))
  }

  /** The film has the length asked for, enough of it speaks, and its camera does not stand still. */
  predicate IsWellMade(doc: Document, q: Request) {
    var shots := AllShots(doc.scenes);
    shots != [] ==>
    && (q.targetShots == 0 || |shots| == q.targetShots)
    && (QuotesSpeech(q.source) ==> exists s :: s in shots && HasLine(s))
    && (|doc.scenes| >= 2 ==> forall s :: s in doc.scenes ==> |s.shots| >= 2)
    && (|shots| >= 2 ==> 2 * |SpokenShots(shots)| >= |shots| - 1)
    && (|shots| >= 3 ==> exists s, t :: s in shots && t in shots && s.angle != t.angle)
    && (|shots| >= 3 ==> exists s :: s in shots && s.movement != "locked")
  }

  lemma NamesAreDeclared(doc: Document, name: string)
    ensures name in Names(doc) <==> Declared(doc, name)
  {
  }

  lemma SpeakersDiffer(scene: SceneModel)
    ensures TwoSpeak(scene) <==> exists a, b :: a in Speakers(scene) && b in Speakers(scene) && a != b
  {
    if d, e :| d in scene.dialogue && e in scene.dialogue && d.speaker != e.speaker {
      assert d.speaker in Speakers(scene) && e.speaker in Speakers(scene);
    }
  }

  lemma SaysItsLineExactlyWhen(doc: Document, i: nat, k: nat)
    requires i < |doc.scenes| && k < |doc.scenes[i].shots|
    ensures SceneViolation(doc, i, ForeignLine(i, k)) <==> !SaysItsLine(doc.scenes[i], doc.scenes[i].shots[k])
  {
    var scene, s := doc.scenes[i], doc.scenes[i].shots[k];
    if s.line.Some? && DialogueLine(s.subject, s.line.value) in scene.dialogue {
      var d := DialogueLine(s.subject, s.line.value);
      assert d in scene.dialogue && d.speaker == s.subject && d.line == s.line.value;
    }
  }

  lemma CleanScenesKeepRules(doc: Document, i: nat)
    requires i < |doc.scenes| && forall e :: !SceneViolation(doc, i, e)
    ensures SceneKeepsRules(doc, doc.scenes[i])
  {
    var scene := doc.scenes[i];
    SpeakersDiffer(scene);
    assert !SceneViolation(doc, i, UndeclaredLocation(i));
    forall d | d in scene.dialogue ensures Declared(doc, d.speaker) {
      assert d.speaker in Speakers(scene) && !SceneViolation(doc, i, UndeclaredSpeaker(i, d.speaker));
    }
    forall s | s in scene.shots ensures Declared(doc, s.subject) && SaysItsLine(scene, s) {
      var k :| 0 <= k < |scene.shots| && scene.shots[k] == s;
      assert !SceneViolation(doc, i, UndeclaredSubject(i, k)) && !SceneViolation(doc, i, ForeignLine(i, k));
      SaysItsLineExactlyWhen(doc, i, k);
    }
    if TwoSpeak(scene) {
      forall k | 0 < k < |scene.shots| ensures scene.shots[k].subject != scene.shots[k - 1].subject {
        assert !SceneViolation(doc, i, RepeatedSubject(i, k));
      }
    }
  }

  lemma RulesKeepScenesClean(doc: Document, i: nat, e: Error)
    requires i < |doc.scenes| && SceneKeepsRules(doc, doc.scenes[i])
    ensures !SceneViolation(doc, i, e)
  {
    var scene := doc.scenes[i];
    match e
    case UndeclaredSpeaker(_, who) =>
      if who in Speakers(scene) {
        var d :| d in scene.dialogue && d.speaker == who;
        NamesAreDeclared(doc, who);
      }
    case UndeclaredSubject(_, k) => if k < |scene.shots| { NamesAreDeclared(doc, scene.shots[k].subject); }
    case ForeignLine(_, k) => if k < |scene.shots| { SaysItsLineExactlyWhen(doc, i, k); }
    case RepeatedSubject(_, _) => SpeakersDiffer(scene);
    case _ =>
  }

  lemma SceneIsNumbered(doc: Document, n: int)
    ensures n in SceneOrders(doc) <==> HasScene(doc, n)
  {
    var orders := SceneOrders(doc);
    if n in orders {
      var i :| 0 <= i < |orders| && orders[i] == n;
      assert doc.scenes[i] in doc.scenes;
    }
    if HasScene(doc, n) {
      var s :| s in doc.scenes && s.order == n;
      var i :| 0 <= i < |doc.scenes| && doc.scenes[i] == s;
      assert orders[i] == n;
    }
  }

  lemma ShotIsNumbered(scene: SceneModel, n: int)
    ensures n in ShotOrders(scene) <==> HasShot(scene, n)
  {
    var orders := ShotOrders(scene);
    if n in orders {
      var i :| 0 <= i < |orders| && orders[i] == n;
      assert scene.shots[i] in scene.shots;
    }
    if HasShot(scene, n) {
      var s :| s in scene.shots && s.order == n;
      var i :| 0 <= i < |scene.shots| && scene.shots[i] == s;
      assert orders[i] == n;
    }
  }

  lemma NumbersAreOrders(doc: Document)
    ensures Numbered(SceneOrders(doc)) <==> forall n :: 1 <= n <= |doc.scenes| ==> HasScene(doc, n)
  {
    forall n ensures n in SceneOrders(doc) <==> HasScene(doc, n) { SceneIsNumbered(doc, n); }
  }

  lemma NumbersAreShotOrders(scene: SceneModel)
    ensures Numbered(ShotOrders(scene)) <==> ShotsOrdered(scene)
  {
    forall n ensures n in ShotOrders(scene) <==> HasShot(scene, n) { ShotIsNumbered(scene, n); }
  }

  lemma CleanDocumentsKeepSceneRules(doc: Document)
    requires forall e :: !SemanticViolation(doc, e)
    ensures WellOrdered(doc) && forall s :: s in doc.scenes ==> SceneKeepsRules(doc, s)
  {
    forall s | s in doc.scenes ensures SceneKeepsRules(doc, s) {
      var i :| 0 <= i < |doc.scenes| && doc.scenes[i] == s;
      forall e ensures !SceneViolation(doc, i, e) { assert !SemanticViolation(doc, e); }
      CleanScenesKeepRules(doc, i);
    }
    assert !SemanticViolation(doc, SceneOrder);
    NumbersAreOrders(doc);
    forall i | 0 <= i < |doc.scenes| ensures ShotsOrdered(doc.scenes[i]) {
      assert !SemanticViolation(doc, ShotOrder(i));
      NumbersAreShotOrders(doc.scenes[i]);
    }
  }

  lemma SceneRulesKeepDocumentsClean(doc: Document, e: Error)
    requires WellOrdered(doc) && forall s :: s in doc.scenes ==> SceneKeepsRules(doc, s)
    ensures !SemanticViolation(doc, e)
  {
    NumbersAreOrders(doc);
    if e.ShotOrder? && e.scene < |doc.scenes| { NumbersAreShotOrders(doc.scenes[e.scene]); }
    forall i | 0 <= i < |doc.scenes| ensures !SceneViolation(doc, i, e) { RulesKeepScenesClean(doc, i, e); }
  }

  lemma FaithfulExactlyWhen(doc: Document, q: Request)
    ensures StaysFaithful(doc, q) <==> forall e :: !FidelityViolation(doc, q, e)
  {
    if forall e :: !FidelityViolation(doc, q, e) {
      assert !FidelityViolation(doc, q, MissingEnding);
      forall s | s in doc.scenes ensures BeatMatches(s.sourceBeat, q.source) {
        var i :| 0 <= i < |doc.scenes| && doc.scenes[i] == s;
        assert !FidelityViolation(doc, q, UnmatchedBeat(i));
      }
    }
  }

  lemma WellMadeExactlyWhen(doc: Document, q: Request)
    ensures IsWellMade(doc, q) <==> forall e :: !CraftViolation(doc, q, e)
  {
    if forall e :: !CraftViolation(doc, q, e) {
      assert !CraftViolation(doc, q, WrongShotCount) && !CraftViolation(doc, q, SpeechDropped);
      assert !CraftViolation(doc, q, ThinScenes) && !CraftViolation(doc, q, TooFewLines);
      assert !CraftViolation(doc, q, OneAngle) && !CraftViolation(doc, q, CameraNeverMoves);
    }
  }

  /** What the validator accepts, in plain words. */
  lemma MeetsExactlyWhen(doc: Document, q: Request)
    ensures Meets(doc, q) <==>
              && WellOrdered(doc) && (forall s :: s in doc.scenes ==> SceneKeepsRules(doc, s))
              && StaysFaithful(doc, q) && IsWellMade(doc, q)
  {
    FaithfulExactlyWhen(doc, q);
    WellMadeExactlyWhen(doc, q);
    if Meets(doc, q) {
      forall e ensures !SemanticViolation(doc, e) && !FidelityViolation(doc, q, e) && !CraftViolation(doc, q, e) {
        assert !Violates(doc, q, e);
      }
      CleanDocumentsKeepSceneRules(doc);
    }
    if WellOrdered(doc) && (forall s :: s in doc.scenes ==> SceneKeepsRules(doc, s)) {
      forall e ensures !SemanticViolation(doc, e) { SceneRulesKeepDocumentsClean(doc, e); }
    }
  }

  /** Every shot of every scene, and no other. */
  lemma {:induction false} AllShotsAreTheirs(scenes: seq<SceneModel>, s: ShotModel)
    ensures s in AllShots(scenes) <==> exists scene :: scene in scenes && s in scene.shots
  {
    if scenes != [] {
      var n := |scenes| - 1;
      AllShotsAreTheirs(scenes[..n], s);
      assert scenes == scenes[..n] + [scenes[n]];
      if s in scenes[n].shots { assert scenes[n] in scenes; }
    }
  }
}
