/**
 * The shooter projectile: a one-shot hit latch, the fixed sequence of
 * commands a first hit issues, single-target and area (explosion) hit
 * resolution with per-actor deduplication, the owner-damage gate, deferred
 * destruction, and the field-by-field exchange with a data-table row.
 */
module Projectile {
  import opened Engine
  import opened ProjectileTable

  /** Upper bound the projectile itself declares for its destruction delay, in seconds. */
  const MaxDeferredDestructionTime: real := 10.0

  /** What a projectile keeps of a row: everything except the name and the description. */
  function Retained(d: ProjectileData): (r: ProjectileData)
    ensures r.projectileName == DefaultName && r.description == ""
    ensures r.(projectileName := d.projectileName, description := d.description) == d
  {
    d.(projectileName := DefaultName, description := "")
  }

  /** The row a handle designates: none when the table is absent or the row is missing. */
  function Lookup(handle: RowHandle): Option<ProjectileData>
  {
    if handle.table.Some? then FindRow(handle.table.value, handle.rowName) else None
  }

  // ---------------------------------------------------------------------
  // Deduplication of an overlap list, as the explosion loop performs it.
  // ---------------------------------------------------------------------

  /** The actors of a list of overlaps, position by position. */
  function ActorsOf(hits: seq<Overlap>): (r: seq<Actor>)
    ensures |r| == |hits|
    ensures forall k :: 0 <= k < |hits| ==> r[k] == hits[k].actor
  {
    if hits == [] then [] else ActorsOf(hits[..|hits| - 1]) + [hits[|hits| - 1].actor]
  }

  lemma ActorsOfSnoc(hits: seq<Overlap>, o: Overlap)
    ensures ActorsOf(hits + [o]) == ActorsOf(hits) + [o.actor]
  {
    assert (hits + [o])[..|hits|] == hits;
  }

  /**
   * The overlaps the explosion processes: an overlap is kept when no earlier
   * kept overlap has the same actor.
   */
  function FirstHits(overlaps: seq<Overlap>): (r: seq<Overlap>)
    ensures |r| <= |overlaps|
  {
    if overlaps == [] then []
    else
      var prior := FirstHits(overlaps[..|overlaps| - 1]);
      var current := overlaps[|overlaps| - 1];
      if current.actor in ActorsOf(prior) then prior else prior + [current]
  }

  lemma WholePrefix(overlaps: seq<Overlap>)
    ensures overlaps[..|overlaps|] == overlaps
  {
  }

  lemma FirstHitsStep(overlaps: seq<Overlap>, o: Overlap)
    ensures FirstHits(overlaps + [o])
      == if o.actor in ActorsOf(FirstHits(overlaps)) then FirstHits(overlaps) else FirstHits(overlaps) + [o]
  {
    assert (overlaps + [o])[..|overlaps|] == overlaps;
  }

  lemma FirstHitsAt(overlaps: seq<Overlap>, i: nat)
    requires i < |overlaps|
    ensures FirstHits(overlaps[..i + 1])
      == if overlaps[i].actor in ActorsOf(FirstHits(overlaps[..i])) then FirstHits(overlaps[..i])
         else FirstHits(overlaps[..i]) + [overlaps[i]]
  {
    assert overlaps[..i + 1] == overlaps[..i] + [overlaps[i]];
    FirstHitsStep(overlaps[..i], overlaps[i]);
  }

  /** The position of the first overlap of actor `a`. */
  function FirstIndex(overlaps: seq<Overlap>, a: Actor): (i: nat)
    requires a in ActorsOf(overlaps)
    ensures i < |overlaps| && overlaps[i].actor == a
    ensures forall j :: 0 <= j < i ==> overlaps[j].actor != a
  {
    var prefix := overlaps[..|overlaps| - 1];
    if a in ActorsOf(prefix) then FirstIndex(prefix, a) else |overlaps| - 1
  }

  lemma FirstIndexSnoc(overlaps: seq<Overlap>, o: Overlap, a: Actor)
    requires a in ActorsOf(overlaps + [o])
    ensures a in ActorsOf(overlaps) ==> FirstIndex(overlaps + [o], a) == FirstIndex(overlaps, a)
    ensures a !in ActorsOf(overlaps) ==> a == o.actor && FirstIndex(overlaps + [o], a) == |overlaps|
  {
    assert (overlaps + [o])[..|overlaps|] == overlaps;
    ActorsOfSnoc(overlaps, o);
  }

  predicate NoDuplicates(actors: seq<Actor>)
  {
    forall j, k :: 0 <= j < k < |actors| ==> actors[j] != actors[k]
  }

  lemma NoDuplicatesSnoc(actors: seq<Actor>, a: Actor)
    requires NoDuplicates(actors) && a !in actors
    ensures NoDuplicates(actors + [a])
  {
  }

  /** Every entry of `hits` is the first overlap of its actor in `overlaps`. */
  ghost predicate AllFirstOccurrences(overlaps: seq<Overlap>, hits: seq<Overlap>)
  {
    forall k :: 0 <= k < |hits| ==>
      hits[k].actor in ActorsOf(overlaps) && hits[k] == overlaps[FirstIndex(overlaps, hits[k].actor)]
  }

  /** Both actors occur in `overlaps`, and `a` occurs first before `b` does. */
  ghost predicate FirstBefore(overlaps: seq<Overlap>, a: Actor, b: Actor)
  {
    a in ActorsOf(overlaps) && b in ActorsOf(overlaps) && FirstIndex(overlaps, a) < FirstIndex(overlaps, b)
  }

  /** The actors of `hits` occur in `overlaps`, first occurrences in increasing position. */
  ghost predicate InFirstOccurrenceOrder(overlaps: seq<Overlap>, hits: seq<Overlap>)
  {
    forall j, k :: 0 <= j < k < |hits| ==> FirstBefore(overlaps, hits[j].actor, hits[k].actor)
  }

  /** How many entries of `hits` are overlaps of actor `a`. */
  function HitsOn(hits: seq<Overlap>, a: Actor): nat
  {
    if hits == [] then 0
    else HitsOn(hits[..|hits| - 1], a) + (if hits[|hits| - 1].actor == a then 1 else 0)
  }

  /** An actor is processed exactly when it occurs in the overlap list. */
  lemma {:induction false} FirstHitsCover(overlaps: seq<Overlap>, a: Actor)
    ensures a in ActorsOf(FirstHits(overlaps)) <==> a in ActorsOf(overlaps)
  {
    if overlaps != [] {
      var n := |overlaps|;
      var prefix, current := overlaps[..n - 1], overlaps[n - 1];
      assert prefix + [current] == overlaps;
      var prior := FirstHits(prefix);
      FirstHitsStep(prefix, current);
      FirstHitsCover(prefix, a);
      FirstHitsCover(prefix, current.actor);
      ActorsOfSnoc(prefix, current);
      ActorsOfSnoc(prior, current);
    }
  }

  /** The list of damaged actors the explosion builds contains no actor twice. */
  lemma {:induction false} FirstHitsDistinct(overlaps: seq<Overlap>)
    ensures NoDuplicates(ActorsOf(FirstHits(overlaps)))
  {
    if overlaps != [] {
      var n := |overlaps|;
      var prefix, current := overlaps[..n - 1], overlaps[n - 1];
      assert prefix + [current] == overlaps;
      var prior := FirstHits(prefix);
      FirstHitsStep(prefix, current);
      FirstHitsDistinct(prefix);
      if current.actor !in ActorsOf(prior) {
        ActorsOfSnoc(prior, current);
        NoDuplicatesSnoc(ActorsOf(prior), current.actor);
      }
    }
  }

  /** An actor kept from the prefix keeps the first position it had in the prefix. */
  lemma PriorSlot(prefix: seq<Overlap>, current: Overlap, j: nat)
    requires j < |FirstHits(prefix)|
    ensures var a := FirstHits(prefix)[j].actor;
      && a in ActorsOf(prefix) && a in ActorsOf(prefix + [current])
      && FirstIndex(prefix + [current], a) == FirstIndex(prefix, a) < |prefix|
  {
    var a := FirstHits(prefix)[j].actor;
    assert ActorsOf(FirstHits(prefix))[j] == a;
    FirstHitsCover(prefix, a);
    ActorsOfSnoc(prefix, current);
    FirstIndexSnoc(prefix, current, a);
  }

  /** An actor new to the prefix first occurs at the position of the appended overlap. */
  lemma NewSlot(prefix: seq<Overlap>, current: Overlap)
    requires current.actor !in ActorsOf(FirstHits(prefix))
    ensures current.actor in ActorsOf(prefix + [current])
    ensures FirstIndex(prefix + [current], current.actor) == |prefix|
  {
    FirstHitsCover(prefix, current.actor);
    ActorsOfSnoc(prefix, current);
    FirstIndexSnoc(prefix, current, current.actor);
  }

  lemma FirstOccurrencesSnoc(prefix: seq<Overlap>, current: Overlap)
    requires AllFirstOccurrences(prefix, FirstHits(prefix))
    ensures AllFirstOccurrences(prefix + [current], FirstHits(prefix + [current]))
  {
    var overlaps, prior := prefix + [current], FirstHits(prefix);
    FirstHitsStep(prefix, current);
    var r := FirstHits(overlaps);
    forall k | 0 <= k < |r|
      ensures r[k].actor in ActorsOf(overlaps) && r[k] == overlaps[FirstIndex(overlaps, r[k].actor)]
    {
      if k < |prior| {
        var a := prior[k].actor;
        assert r[k] == prior[k];
        PriorSlot(prefix, current, k);
        assert prior[k] == prefix[FirstIndex(prefix, a)];
        assert prefix[FirstIndex(prefix, a)] == overlaps[FirstIndex(prefix, a)];
      } else {
        assert r[k] == current;
        NewSlot(prefix, current);
      }
    }
  }

  /** Every processed overlap is the first overlap of its actor. */
  lemma {:induction false} FirstHitsAreFirstOccurrences(overlaps: seq<Overlap>)
    ensures AllFirstOccurrences(overlaps, FirstHits(overlaps))
  {
    if overlaps != [] {
      var n := |overlaps|;
      var prefix, current := overlaps[..n - 1], overlaps[n - 1];
      assert prefix + [current] == overlaps;
      FirstHitsAreFirstOccurrences(prefix);
      FirstOccurrencesSnoc(prefix, current);
    }
  }

  /** Appending an overlap keeps the positions, and so the order, of the overlaps kept so far. */
  lemma KeepOrderSkip(prefix: seq<Overlap>, current: Overlap)
    requires InFirstOccurrenceOrder(prefix, FirstHits(prefix))
    ensures InFirstOccurrenceOrder(prefix + [current], FirstHits(prefix))
  {
    var overlaps, prior := prefix + [current], FirstHits(prefix);
    forall j, k | 0 <= j < k < |prior|
      ensures FirstBefore(overlaps, prior[j].actor, prior[k].actor)
    {
      assert FirstBefore(prefix, prior[j].actor, prior[k].actor);
      PriorSlot(prefix, current, j);
      PriorSlot(prefix, current, k);
    }
  }

  /** An overlap with a new actor is kept last, after every earlier first occurrence. */
  lemma KeepOrderAdd(prefix: seq<Overlap>, current: Overlap)
    requires InFirstOccurrenceOrder(prefix, FirstHits(prefix))
    requires current.actor !in ActorsOf(FirstHits(prefix))
    ensures InFirstOccurrenceOrder(prefix + [current], FirstHits(prefix) + [current])
  {
    var overlaps, prior := prefix + [current], FirstHits(prefix);
    KeepOrderSkip(prefix, current);
    NewSlot(prefix, current);
    forall j | 0 <= j < |prior|
      ensures FirstBefore(overlaps, prior[j].actor, current.actor)
    {
      PriorSlot(prefix, current, j);
    }
    OrderSnoc(overlaps, prior, current);
  }

  /** Appending an entry whose actor first occurs after all the others keeps the order. */
  lemma OrderSnoc(overlaps: seq<Overlap>, hits: seq<Overlap>, o: Overlap)
    requires InFirstOccurrenceOrder(overlaps, hits)
    requires forall j :: 0 <= j < |hits| ==> FirstBefore(overlaps, hits[j].actor, o.actor)
    ensures InFirstOccurrenceOrder(overlaps, hits + [o])
  {
    var r := hits + [o];
    forall j, k | 0 <= j < k < |r|
      ensures FirstBefore(overlaps, r[j].actor, r[k].actor)
    {
      assert r[j] == hits[j];
      if k < |hits| {
        assert r[k] == hits[k];
      }
    }
  }

  lemma KeepOrderSnoc(prefix: seq<Overlap>, current: Overlap)
    requires InFirstOccurrenceOrder(prefix, FirstHits(prefix))
    ensures InFirstOccurrenceOrder(prefix + [current], FirstHits(prefix + [current]))
  {
    FirstHitsStep(prefix, current);
    if current.actor in ActorsOf(FirstHits(prefix)) {
      KeepOrderSkip(prefix, current);
    } else {
      KeepOrderAdd(prefix, current);
    }
  }

  /** Processed overlaps keep the order in which their actors first occur. */
  lemma {:induction false} FirstHitsKeepOrder(overlaps: seq<Overlap>)
    ensures InFirstOccurrenceOrder(overlaps, FirstHits(overlaps))
  {
    if overlaps != [] {
      var n := |overlaps|;
      var prefix, current := overlaps[..n - 1], overlaps[n - 1];
      assert prefix + [current] == overlaps;
      FirstHitsKeepOrder(prefix);
      KeepOrderSnoc(prefix, current);
    }
  }

  /** Each distinct actor of the overlap list is processed exactly once. */
  lemma {:induction false} FirstHitsOncePerActor(overlaps: seq<Overlap>, a: Actor)
    ensures HitsOn(FirstHits(overlaps), a) == if a in ActorsOf(overlaps) then 1 else 0
  {
    if overlaps != [] {
      var n := |overlaps|;
      var prefix, current := overlaps[..n - 1], overlaps[n - 1];
      assert prefix + [current] == overlaps;
      var prior := FirstHits(prefix);
      FirstHitsStep(prefix, current);
      FirstHitsOncePerActor(prefix, a);
      FirstHitsCover(prefix, current.actor);
      ActorsOfSnoc(prefix, current);
      if current.actor !in ActorsOf(prior) {
        assert (prior + [current])[..|prior|] == prior;
      }
    }
  }

  // ---------------------------------------------------------------------
  // Effect-log bookkeeping.
  // ---------------------------------------------------------------------

  /** How many damage applications to `a` a log holds. */
  function DamageTo(es: seq<Effect>, a: Actor): nat
  {
    if es == [] then 0
    else DamageTo(es[..|es| - 1], a) + (if es[|es| - 1].ApplyDamage? && es[|es| - 1].target == a then 1 else 0)
  }

  lemma {:induction false} DamageToAppend(xs: seq<Effect>, ys: seq<Effect>, a: Actor)
    ensures DamageTo(xs + ys, a) == DamageTo(xs, a) + DamageTo(ys, a)
  {
    if ys == [] {
      assert xs + ys == xs;
    } else {
      var m := |ys|;
      assert (xs + ys)[..|xs + ys| - 1] == xs + ys[..m - 1];
      assert (xs + ys)[|xs + ys| - 1] == ys[m - 1];
      DamageToAppend(xs, ys[..m - 1], a);
    }
  }

  /** A log with no damage to `a` holds no damage command targeting `a`. */
  lemma {:induction false} DamageToZero(es: seq<Effect>, a: Actor)
    requires DamageTo(es, a) == 0
    ensures forall k :: 0 <= k < |es| ==> !(es[k].ApplyDamage? && es[k].target == a)
  {
    if es != [] {
      var m := |es|;
      DamageToZero(es[..m - 1], a);
      assert forall k :: 0 <= k < m - 1 ==> es[k] == es[..m - 1][k];
    }
  }

  lemma AppendAssoc(xs: seq<Effect>, ys: seq<Effect>, zs: seq<Effect>)
    ensures (xs + ys) + zs == xs + (ys + zs)
  {
  }

  lemma HitSequenceShape(start: seq<Effect>, opening: seq<Effect>, resolution: seq<Effect>, hook: Effect, teardown: Effect)
    requires |opening| == 2
    ensures start + [opening[0]] + [opening[1]] + resolution + [hook] + [teardown]
      == start + (opening + resolution + [hook, teardown])
  {
  }

  /** Effects issued by hit resolution: damage and impulses only. */
  predicate IsResolution(e: Effect)
  {
    e.ApplyDamage? || e.AddImpulse?
  }

  /** The commands that end a hit: scheduling the destruction timer or destroying now. */
  predicate IsTeardown(e: Effect)
  {
    e.SetTimer? || e.Destroy?
  }

  // ---------------------------------------------------------------------
  // Hit resolution, as a function of what the projectile reads.
  // ---------------------------------------------------------------------

  /** The projectile's identity, owner and instigator, and its configuration. */
  datatype HitContext = HitContext(selfActor: Actor, owner: Option<Actor>, instigator: Option<Actor>, config: ProjectileData)

  /** Whether a hit on `target` applies damage: a character that is not the owner, or owner damage on. */
  predicate DamageGate(c: HitContext, target: Actor)
  {
    target.isCharacter && (c.owner != Some(target) || c.config.damageOwner)
  }

  /** The damage command a hit on `target` issues. */
  function DamageOf(c: HitContext, target: Actor): Effect
  {
    ApplyDamage(target, c.config.hitDamage, c.config.hitDamageType, c.instigator)
  }

  /** The impulse command a hit on `comp` issues. */
  function ImpulseOf(c: HitContext, comp: Comp, location: Vec, direction: Direction): Effect
  {
    AddImpulse(comp, direction, c.config.physicsForce, location)
  }

  /** What processing one hit issues: damage through the gate, then an impulse on a simulating component. */
  function HitEffects(c: HitContext, target: Actor, comp: Comp, location: Vec, direction: Direction): seq<Effect>
  {
    (if DamageGate(c, target) then [DamageOf(c, target)] else [])
    + (if comp.simulatesPhysics then [ImpulseOf(c, comp, location, direction)] else [])
  }

  /**
   * Damage is applied exactly through the gate, the impulse exactly when the
   * component simulates physics, each at most once and damage first.
   */
  lemma HitEffectsGates(c: HitContext, target: Actor, comp: Comp, location: Vec, direction: Direction)
    ensures var r := HitEffects(c, target, comp, location, direction);
      && (DamageOf(c, target) in r <==> target.isCharacter && (c.owner != Some(target) || c.config.damageOwner))
      && (ImpulseOf(c, comp, location, direction) in r <==> comp.simulatesPhysics)
      && |r| == (if DamageGate(c, target) then 1 else 0) + (if comp.simulatesPhysics then 1 else 0)
      && (forall e :: e in r ==> e == DamageOf(c, target) || e == ImpulseOf(c, comp, location, direction))
      && (DamageGate(c, target) ==> r[0] == DamageOf(c, target))
  {
  }

  /** The actors the explosion query ignores: this projectile, and the instigator unless owner damage is on. */
  function QueryIgnored(c: HitContext): (ignored: set<Actor>)
    ensures c.selfActor in ignored
    ensures forall a :: a in ignored <==> a == c.selfActor || (!c.config.damageOwner && c.instigator == Some(a))
  {
    {c.selfActor} + (if !c.config.damageOwner && c.instigator.Some? then {c.instigator.value} else {})
  }

  /** Processing of the deduplicated overlaps, each pushed away from the projectile's location. */
  function ExplosionHits(c: HitContext, hits: seq<Overlap>, actorLocation: Vec): seq<Effect>
  {
    if hits == [] then []
    else
      var last := hits[|hits| - 1];
      ExplosionHits(c, hits[..|hits| - 1], actorLocation)
      + HitEffects(c, last.actor, last.comp, actorLocation, AwayFrom(actorLocation))
  }

  lemma ExplosionHitsSnoc(c: HitContext, hits: seq<Overlap>, o: Overlap, actorLocation: Vec)
    ensures ExplosionHits(c, hits + [o], actorLocation)
      == ExplosionHits(c, hits, actorLocation) + HitEffects(c, o.actor, o.comp, actorLocation, AwayFrom(actorLocation))
  {
    assert (hits + [o])[..|hits|] == hits;
  }

  /** Processing one more kept overlap extends the actors and the log by that overlap's part. */
  lemma ExplosionStep(c: HitContext, queried: seq<Effect>, hits: seq<Overlap>, o: Overlap, actorLocation: Vec)
    ensures ActorsOf(hits + [o]) == ActorsOf(hits) + [o.actor]
    ensures queried + ExplosionHits(c, hits + [o], actorLocation)
      == (queried + ExplosionHits(c, hits, actorLocation)) + HitEffects(c, o.actor, o.comp, actorLocation, AwayFrom(actorLocation))
  {
    ActorsOfSnoc(hits, o);
    ExplosionHitsSnoc(c, hits, o, actorLocation);
    AppendAssoc(queried, ExplosionHits(c, hits, actorLocation), HitEffects(c, o.actor, o.comp, actorLocation, AwayFrom(actorLocation)));
  }

  /** How many damage applications one hit issues to `a`. */
  lemma HitDamageTo(c: HitContext, target: Actor, comp: Comp, location: Vec, direction: Direction, a: Actor)
    ensures DamageTo(HitEffects(c, target, comp, location, direction), a) == if target == a && DamageGate(c, a) then 1 else 0
  {
    var dmg := if DamageGate(c, target) then [DamageOf(c, target)] else [];
    var imp := if comp.simulatesPhysics then [ImpulseOf(c, comp, location, direction)] else [];
    DamageToAppend(dmg, imp, a);
    assert imp != [] ==> imp[..0] == [];
    assert dmg != [] ==> dmg[..0] == [];
  }

  /** An explosion processes each actor at most once and damages it exactly when it passes the gate. */
  lemma {:induction false} ExplosionDamagesOnce(c: HitContext, overlaps: seq<Overlap>, actorLocation: Vec, a: Actor)
    ensures DamageTo(ExplosionHits(c, FirstHits(overlaps), actorLocation), a)
      == if a in ActorsOf(overlaps) && DamageGate(c, a) then 1 else 0
  {
    if overlaps != [] {
      var n := |overlaps|;
      var prefix, current := overlaps[..n - 1], overlaps[n - 1];
      assert prefix + [current] == overlaps;
      var prior := FirstHits(prefix);
      ExplosionDamagesOnce(c, prefix, actorLocation, a);
      FirstHitsStep(prefix, current);
      FirstHitsCover(prefix, current.actor);
      ActorsOfSnoc(prefix, current);
      if current.actor !in ActorsOf(prior) {
        ExplosionHitsSnoc(c, prior, current, actorLocation);
        var step := HitEffects(c, current.actor, current.comp, actorLocation, AwayFrom(actorLocation));
        DamageToAppend(ExplosionHits(c, prior, actorLocation), step, a);
        HitDamageTo(c, current.actor, current.comp, actorLocation, AwayFrom(actorLocation), a);
      }
    }
  }

  /** Resolution issues only damage and impulses. */
  lemma {:induction false} ExplosionHitsAreResolution(c: HitContext, hits: seq<Overlap>, actorLocation: Vec)
    ensures forall e :: e in ExplosionHits(c, hits, actorLocation) ==> IsResolution(e)
  {
    if hits != [] {
      ExplosionHitsAreResolution(c, hits[..|hits| - 1], actorLocation);
    }
  }

  /** The area resolution: one overlap query, then one hit per distinct overlapped actor. */
  function ExplosionEffects(c: HitContext, explosionCenter: Vec, actorLocation: Vec, overlaps: seq<Overlap>): seq<Effect>
  {
    [OverlapQuery(explosionCenter, c.config.explosionRadius, QueryIgnored(c))]
    + ExplosionHits(c, FirstHits(overlaps), actorLocation)
  }

  /**
   * When the query honours its ignored set, as the engine's overlap query
   * does, an explosion damages no ignored actor: neither the projectile nor,
   * with owner damage off, the instigator.
   */
  lemma ExplosionSparesIgnored(c: HitContext, explosionCenter: Vec, actorLocation: Vec, overlaps: seq<Overlap>)
    requires forall k :: 0 <= k < |overlaps| ==> overlaps[k].actor !in QueryIgnored(c)
    ensures forall e :: e in ExplosionEffects(c, explosionCenter, actorLocation, overlaps) && e.ApplyDamage? ==>
      e.target !in QueryIgnored(c)
  {
    var query := OverlapQuery(explosionCenter, c.config.explosionRadius, QueryIgnored(c));
    var hits := ExplosionHits(c, FirstHits(overlaps), actorLocation);
    assert ExplosionEffects(c, explosionCenter, actorLocation, overlaps) == [query] + hits;
    forall e | e in ExplosionEffects(c, explosionCenter, actorLocation, overlaps) && e.ApplyDamage?
      ensures e.target !in QueryIgnored(c)
    {
      assert e in hits;
      if e.target in QueryIgnored(c) {
        assert e.target !in ActorsOf(overlaps);
        ExplosionDamagesOnce(c, overlaps, actorLocation, e.target);
        DamageToZero(hits, e.target);
        assert false;
      }
    }
  }

  /** Single-target or area resolution of a hit, as the explode-on-hit flag selects. */
  function Resolution(c: HitContext, other: Actor, otherComp: Comp, hit: Hit, actorLocation: Vec, overlaps: seq<Overlap>): seq<Effect>
  {
    if c.config.explodeOnHit then ExplosionEffects(c, actorLocation, actorLocation, overlaps)
    else HitEffects(c, other, otherComp, hit.impactPoint, Along(Neg(hit.impactNormal)))
  }

  /** The command that ends a hit: a one-shot destruction timer, or destruction right away. */
  function Teardown(c: HitContext): Effect
  {
    var delay := c.config.deferredDestructionTime;
    if delay > 0.0 then SetTimer(ProjectileDestruction, delay) else Destroy
  }

  /** The noise a hit makes at the projectile's location. */
  function NoiseOf(c: HitContext, actorLocation: Vec): Effect
  {
    MakeNoise(c.config.noiseLoudness, c.instigator, actorLocation, c.config.noiseRange, c.config.noiseTag)
  }

  /** Everything a first hit issues, in order. */
  function HitSequence(c: HitContext, other: Actor, otherComp: Comp, hit: Hit, actorLocation: Vec, overlaps: seq<Overlap>): seq<Effect>
  {
    [DisableCollision(ProjectileSphere), NoiseOf(c, actorLocation)]
    + Resolution(c, other, otherComp, hit, actorLocation, overlaps)
    + [OnProjectileHit(hit), Teardown(c)]
  }

  /**
   * A first hit disables collision, makes the configured noise, resolves,
   * calls the hook and then issues exactly one teardown command, last: a
   * timer when the delay is positive, destruction otherwise.
   */
  lemma HitSequenceOrder(c: HitContext, other: Actor, otherComp: Comp, hit: Hit, actorLocation: Vec, overlaps: seq<Overlap>)
    ensures var r := HitSequence(c, other, otherComp, hit, actorLocation, overlaps);
      && |r| >= 4
      && r[0] == DisableCollision(ProjectileSphere)
      && r[1] == MakeNoise(c.config.noiseLoudness, c.instigator, actorLocation, c.config.noiseRange, c.config.noiseTag)
      && r[2..|r| - 2] == Resolution(c, other, otherComp, hit, actorLocation, overlaps)
      && r[|r| - 2] == OnProjectileHit(hit)
      && (c.config.deferredDestructionTime > 0.0 ==> r[|r| - 1] == SetTimer(ProjectileDestruction, c.config.deferredDestructionTime))
      && (c.config.deferredDestructionTime <= 0.0 ==> r[|r| - 1] == Destroy)
      && (forall k :: 0 <= k < |r| - 1 ==> !IsTeardown(r[k]))
  {
    var res := Resolution(c, other, otherComp, hit, actorLocation, overlaps);
    ResolutionKinds(c, other, otherComp, hit, actorLocation, overlaps);
    var r := HitSequence(c, other, otherComp, hit, actorLocation, overlaps);
    assert r == [DisableCollision(ProjectileSphere), NoiseOf(c, actorLocation)] + res + [OnProjectileHit(hit), Teardown(c)];
    forall k | 2 <= k < 2 + |res| ensures !IsTeardown(r[k]) {
      assert r[k] == res[k - 2];
    }
  }

  /**
   * With explode-on-hit the resolution is one explosion query at the
   * projectile's location followed by damage and impulses only; without it,
   * only `other` is damaged and only `otherComp` is pushed, against the
   * impact normal at the impact point.
   */
  lemma ResolutionKinds(c: HitContext, other: Actor, otherComp: Comp, hit: Hit, actorLocation: Vec, overlaps: seq<Overlap>)
    ensures var r := Resolution(c, other, otherComp, hit, actorLocation, overlaps);
      && (c.config.explodeOnHit ==>
            && |r| >= 1
            && r[0] == OverlapQuery(actorLocation, c.config.explosionRadius, QueryIgnored(c))
            && forall k :: 1 <= k < |r| ==> IsResolution(r[k]))
      && (!c.config.explodeOnHit ==>
            forall e :: e in r ==>
              || e == ApplyDamage(other, c.config.hitDamage, c.config.hitDamageType, c.instigator)
              || e == AddImpulse(otherComp, Along(Neg(hit.impactNormal)), c.config.physicsForce, hit.impactPoint))
  {
    if c.config.explodeOnHit {
      var hits := ExplosionHits(c, FirstHits(overlaps), actorLocation);
      ExplosionHitsAreResolution(c, FirstHits(overlaps), actorLocation);
      var r := Resolution(c, other, otherComp, hit, actorLocation, overlaps);
      assert r == [OverlapQuery(actorLocation, c.config.explosionRadius, QueryIgnored(c))] + hits;
      forall k | 1 <= k < |r| ensures IsResolution(r[k]) {
        assert r[k] == hits[k - 1];
      }
    }
  }

  class ShooterProjectile {
    /** This projectile as an actor of the scene. */
    const selfActor: Actor
    /** `GetOwner()`: compared against by the owner-damage gate. */
    const owner: Option<Actor>
    /** `GetInstigator()`: the pawn that fired; excluded from explosion queries. */
    const instigator: Option<Actor>
    /** The designer-assigned data-table row, read at begin-play. */
    const dataHandle: RowHandle

    var noiseLoudness: real
    var noiseRange: real
    var noiseTag: string
    var physicsForce: real
    var hitDamage: real
    var hitDamageType: DamageType
    var damageOwner: bool
    var explodeOnHit: bool
    var explosionRadius: real
    /** True once this projectile has hit something. */
    var hasHit: bool
    var deferredDestructionTime: real
    /** Whether the destruction timer handle is set. */
    var destructionTimerSet: bool

    // settings held by the collision sphere and the movement component
    var sphereRadius: real
    var initialSpeed: real
    var maxSpeed: real
    var shouldBounce: bool

    /** Commands issued to engine services, oldest first. */
    var effects: seq<Effect>

    /** The destruction timer is only ever set by a hit. */
    predicate Valid()
      reads this`hasHit, this`destructionTimerSet
    {
      destructionTimerSet ==> hasHit
    }

    /** The clamp ranges declared on the projectile's own fields. */
    predicate InDeclaredRanges()
      reads this`noiseLoudness, this`noiseRange, this`physicsForce, this`hitDamage,
            this`explosionRadius, this`deferredDestructionTime
    {
      && 0.0 <= noiseLoudness <= 100.0
      && 0.0 <= noiseRange <= 100000.0
      && 0.0 <= physicsForce <= 50000.0
      && 0.0 <= hitDamage <= 1000.0
      && 0.0 <= explosionRadius <= 5000.0
      && 0.0 <= deferredDestructionTime <= MaxDeferredDestructionTime
    }

    constructor (selfActor: Actor, owner: Option<Actor>, instigator: Option<Actor>, dataHandle: RowHandle)
      ensures this.selfActor == selfActor && this.owner == owner
      ensures this.instigator == instigator && this.dataHandle == dataHandle
      ensures !hasHit && !destructionTimerSet && effects == []
      ensures Valid() && InDeclaredRanges()
      ensures GetProjectileData() == DefaultRow()
    {
      this.selfActor, this.owner, this.instigator, this.dataHandle := selfActor, owner, instigator, dataHandle;
      noiseLoudness := 3.0;
      noiseRange := 3000.0;
      noiseTag := "Projectile";
      physicsForce := 100.0;
      hitDamage := 25.0;
      damageOwner := false;
      explodeOnHit := false;
      explosionRadius := 500.0;
      hasHit := false;
      deferredDestructionTime := 5.0;
      destructionTimerSet := false;
      sphereRadius := 16.0;
      initialSpeed := 3000.0;
      maxSpeed := 3000.0;
      shouldBounce := true;
      hitDamageType := Generic;
      effects := [];
    }

    /** The current configuration as a row; the collision radius is read at unit scale. */
    function GetProjectileData(): (d: ProjectileData)
      reads this`noiseLoudness, this`noiseRange, this`noiseTag, this`physicsForce, this`hitDamage,
            this`hitDamageType, this`damageOwner, this`explodeOnHit, this`explosionRadius,
            this`deferredDestructionTime, this`sphereRadius, this`initialSpeed, this`maxSpeed,
            this`shouldBounce
      ensures d.projectileName == DefaultName && d.description == ""
    {
      ProjectileData(
        projectileName := DefaultName,
        hitDamage := hitDamage,
        hitDamageType := hitDamageType,
        physicsForce := physicsForce,
        initialSpeed := initialSpeed,
        maxSpeed := maxSpeed,
        shouldBounce := shouldBounce,
        explodeOnHit := explodeOnHit,
        explosionRadius := explosionRadius,
        collisionRadius := sphereRadius,
        deferredDestructionTime := deferredDestructionTime,
        noiseLoudness := noiseLoudness,
        noiseRange := noiseRange,
        noiseTag := noiseTag,
        damageOwner := damageOwner,
        description := "")
    }

    /** Copies every configurable field of the row, without clamping, group by group. */
    method ApplyProjectileData(d: ProjectileData)
      modifies this`noiseLoudness, this`noiseRange, this`noiseTag, this`physicsForce, this`hitDamage,
               this`hitDamageType, this`damageOwner, this`explodeOnHit, this`explosionRadius,
               this`deferredDestructionTime, this`sphereRadius, this`initialSpeed, this`maxSpeed,
               this`shouldBounce
      ensures GetProjectileData() == Retained(d)
    {
      ApplyHitSettings(d);
      ApplyLifetimeSettings(d);
      ApplyComponentSettings(d);
    }

    /** The damage, explosion and owner-damage settings. */
    method ApplyHitSettings(d: ProjectileData)
      modifies this`hitDamage, this`hitDamageType, this`physicsForce, this`damageOwner,
               this`explodeOnHit, this`explosionRadius
      ensures hitDamage == d.hitDamage && hitDamageType == d.hitDamageType && physicsForce == d.physicsForce
      ensures damageOwner == d.damageOwner && explodeOnHit == d.explodeOnHit && explosionRadius == d.explosionRadius
    {
      hitDamage := d.hitDamage;
      hitDamageType := d.hitDamageType;
      physicsForce := d.physicsForce;
      damageOwner := d.damageOwner;
      explodeOnHit := d.explodeOnHit;
      explosionRadius := d.explosionRadius;
    }

    /** The destruction delay and the noise settings. */
    method ApplyLifetimeSettings(d: ProjectileData)
      modifies this`deferredDestructionTime, this`noiseLoudness, this`noiseRange, this`noiseTag
      ensures deferredDestructionTime == d.deferredDestructionTime
      ensures noiseLoudness == d.noiseLoudness && noiseRange == d.noiseRange && noiseTag == d.noiseTag
    {
      deferredDestructionTime := d.deferredDestructionTime;
      noiseLoudness := d.noiseLoudness;
      noiseRange := d.noiseRange;
      noiseTag := d.noiseTag;
    }

    /** The collision sphere's radius and the movement component's settings. */
    method ApplyComponentSettings(d: ProjectileData)
      modifies this`sphereRadius, this`initialSpeed, this`maxSpeed, this`shouldBounce
      ensures sphereRadius == d.collisionRadius
      ensures initialSpeed == d.initialSpeed && maxSpeed == d.maxSpeed && shouldBounce == d.shouldBounce
    {
      sphereRadius := d.collisionRadius;
      initialSpeed := d.initialSpeed;
      maxSpeed := d.maxSpeed;
      shouldBounce := d.shouldBounce;
    }

    method InitializeWithData(d: ProjectileData)
      modifies this`noiseLoudness, this`noiseRange, this`noiseTag, this`physicsForce, this`hitDamage,
               this`hitDamageType, this`damageOwner, this`explodeOnHit, this`explosionRadius,
               this`deferredDestructionTime, this`sphereRadius, this`initialSpeed, this`maxSpeed,
               this`shouldBounce
      ensures GetProjectileData() == Retained(d)
    {
      ApplyProjectileData(d);
    }

    /** Applies the designated row; an absent table or a missing row changes nothing. */
    method InitializeWithDataTableRow(handle: RowHandle)
      modifies this`noiseLoudness, this`noiseRange, this`noiseTag, this`physicsForce, this`hitDamage,
               this`hitDamageType, this`damageOwner, this`explodeOnHit, this`explosionRadius,
               this`deferredDestructionTime, this`sphereRadius, this`initialSpeed, this`maxSpeed,
               this`shouldBounce
      ensures Lookup(handle).Some? ==> GetProjectileData() == Retained(Lookup(handle).value)
      ensures Lookup(handle).None? ==> unchanged(this)
    {
      if handle.table.Some? {
        var row := FindRow(handle.table.value, handle.rowName);
        if row.Some? {
          ApplyProjectileData(row.value);
        }
      }
    }

    /** Begin-play: applies the designer-assigned row when a table and a row name are set. */
    method BeginPlay()
      modifies this`noiseLoudness, this`noiseRange, this`noiseTag, this`physicsForce, this`hitDamage,
               this`hitDamageType, this`damageOwner, this`explodeOnHit, this`explosionRadius,
               this`deferredDestructionTime, this`sphereRadius, this`initialSpeed, this`maxSpeed,
               this`shouldBounce
      ensures Lookup(dataHandle).Some? ==> GetProjectileData() == Retained(Lookup(dataHandle).value)
      ensures Lookup(dataHandle).None? ==> unchanged(this)
    {
      if dataHandle.table.Some? && dataHandle.rowName.Some? {
        InitializeWithDataTableRow(dataHandle);
      }
    }

    /** End-play: clears the destruction timer, so no destruction is pending. */
    method EndPlay()
      modifies this`destructionTimerSet, this`effects
      ensures !destructionTimerSet && Valid()
      ensures effects == old(effects) + [ClearTimer(ProjectileDestruction)]
    {
      effects := effects + [ClearTimer(ProjectileDestruction)];
      destructionTimerSet := false;
    }

    /** The timer callback: destroys the projectile. */
    method OnDeferredDestruction()
      modifies this`effects
      ensures effects == old(effects) + [Destroy]
    {
      effects := effects + [Destroy];
    }

    // -------------------------------------------------------------------
    // Hit resolution
    // -------------------------------------------------------------------

    /** What hit resolution reads of this projectile. */
    function Context(): (c: HitContext)
      reads this`noiseLoudness, this`noiseRange, this`noiseTag, this`physicsForce, this`hitDamage,
            this`hitDamageType, this`damageOwner, this`explodeOnHit, this`explosionRadius,
            this`deferredDestructionTime, this`sphereRadius, this`initialSpeed, this`maxSpeed,
            this`shouldBounce
      ensures c.selfActor == selfActor && c.owner == owner && c.instigator == instigator
      ensures c.config == GetProjectileData()
    {
      HitContext(selfActor, owner, instigator, GetProjectileData())
    }

    /** Processes one hit target: damage through the gate, then an impulse on a simulating component. */
    method ProcessHit(target: Actor, comp: Comp, location: Vec, direction: Direction)
      modifies this`effects
      ensures effects == old(effects) + HitEffects(Context(), target, comp, location, direction)
    {
      if target.isCharacter {
        if owner != Some(target) || damageOwner {
          effects := effects + [ApplyDamage(target, hitDamage, hitDamageType, instigator)];
        }
      }
      if comp.simulatesPhysics {
        effects := effects + [AddImpulse(comp, direction, physicsForce, location)];
      }
    }

    /**
     * Queries the overlaps (given here as `overlaps`, possibly with several
     * entries per actor) and processes the first overlap of each actor.
     */
    method ExplosionCheck(explosionCenter: Vec, actorLocation: Vec, overlaps: seq<Overlap>)
      modifies this`effects
      ensures effects == old(effects) + ExplosionEffects(Context(), explosionCenter, actorLocation, overlaps)
    {
      ghost var c := Context();
      effects := effects + [OverlapQuery(explosionCenter, explosionRadius, QueryIgnored(Context()))];
      ghost var queried := effects;
      ghost var hits: seq<Overlap> := [];
      var damagedActors: seq<Actor> := [];
      var i := 0;
      while i < |overlaps|
        invariant 0 <= i <= |overlaps|
        invariant Context() == c
        invariant hits == FirstHits(overlaps[..i])
        invariant damagedActors == ActorsOf(hits)
        invariant effects == queried + ExplosionHits(c, hits, actorLocation)
      {
        var current := overlaps[i];
        FirstHitsAt(overlaps, i);
        // the damaged list is searched before the overlap is processed
        if current.actor !in damagedActors {
          ExplosionStep(c, queried, hits, current, actorLocation);
          damagedActors := damagedActors + [current.actor];
          ProcessHit(current.actor, current.comp, actorLocation, AwayFrom(actorLocation));
          hits := hits + [current];
        }
        i := i + 1;
      }
      WholePrefix(overlaps);
      AppendAssoc(old(effects), [OverlapQuery(explosionCenter, explosionRadius, QueryIgnored(c))],
        ExplosionHits(c, FirstHits(overlaps), actorLocation));
    }

    /** Collision notification: ignored after the first hit, otherwise the whole hit sequence. */
    method NotifyHit(other: Actor, otherComp: Comp, hit: Hit, actorLocation: Vec, overlaps: seq<Overlap>)
      requires Valid()
      modifies this`hasHit, this`destructionTimerSet, this`effects
      ensures Valid() && hasHit
      ensures old(hasHit) ==> unchanged(this)
      ensures !old(hasHit) ==> effects == old(effects) + HitSequence(Context(), other, otherComp, hit, actorLocation, overlaps)
      ensures !old(hasHit) ==> destructionTimerSet == (deferredDestructionTime > 0.0)
    {
      if hasHit {
        return;
      }
      hasHit := true;
      ghost var start := effects;
      effects := effects + [DisableCollision(ProjectileSphere)];
      effects := effects + [MakeNoise(noiseLoudness, instigator, actorLocation, noiseRange, noiseTag)];
      ghost var announced := effects;
      if explodeOnHit {
        ExplosionCheck(actorLocation, actorLocation, overlaps);
      } else {
        ProcessHit(other, otherComp, hit.impactPoint, Along(Neg(hit.impactNormal)));
      }
      assert effects == announced + Resolution(Context(), other, otherComp, hit, actorLocation, overlaps);
      effects := effects + [OnProjectileHit(hit)];
      if deferredDestructionTime > 0.0 {
        effects := effects + [SetTimer(ProjectileDestruction, deferredDestructionTime)];
        destructionTimerSet := true;
      } else {
        effects := effects + [Destroy];
      }
      HitSequenceShape(start, [DisableCollision(ProjectileSphere), MakeNoise(noiseLoudness, instigator, actorLocation, noiseRange, noiseTag)],
        Resolution(Context(), other, otherComp, hit, actorLocation, overlaps), OnProjectileHit(hit), Teardown(Context()));
    }
  }

  // ---------------------------------------------------------------------
  // Scenarios on freshly spawned projectiles.
  // ---------------------------------------------------------------------

  /** The row defaults equal the projectile defaults: applying a default row to a fresh projectile changes nothing. */
  method DefaultRowIsNeutral(selfActor: Actor, owner: Option<Actor>, instigator: Option<Actor>)
    returns (before: ProjectileData, after: ProjectileData)
    ensures before == after == DefaultRow()
  {
    var p := new ShooterProjectile(selfActor, owner, instigator, RowHandle(None, None));
    before := p.GetProjectileData();
    p.InitializeWithData(DefaultRow());
    after := p.GetProjectileData();
  }

  /** Configuring from a row and reading the configuration back returns the row, except its name and description. */
  method ConfigureAndRead(selfActor: Actor, d: ProjectileData) returns (back: ProjectileData)
    ensures back.projectileName == DefaultName && back.description == ""
    ensures back.(projectileName := d.projectileName, description := d.description) == d
  {
    var p := new ShooterProjectile(selfActor, None, None, RowHandle(None, None));
    p.InitializeWithData(d);
    back := p.GetProjectileData();
  }

  /** A row name that the table lacks leaves a fresh projectile at its defaults. */
  method MissingRowKeepsDefaults(selfActor: Actor, table: map<string, ProjectileData>, rowName: string)
    returns (after: ProjectileData)
    requires rowName !in table
    ensures after == DefaultRow()
  {
    var p := new ShooterProjectile(selfActor, None, None, RowHandle(Some(table), Some(rowName)));
    p.BeginPlay();
    after := p.GetProjectileData();
  }

  /** The row's own range admits destruction delays above the projectile's cap. */
  lemma RowRangeExceedsProjectileCap()
    ensures exists d :: RowInRange(d) && d.deferredDestructionTime > MaxDeferredDestructionTime
  {
    assert RowInRange(DefaultRow().(deferredDestructionTime := 20.0));
  }

  /** Such a row is copied without clamping and leaves the projectile outside its declared ranges. */
  method OverlongDelayIsNotClamped(selfActor: Actor, d: ProjectileData) returns (delay: real, inRange: bool)
    requires RowInRange(d) && d.deferredDestructionTime > MaxDeferredDestructionTime
    ensures delay == d.deferredDestructionTime
    ensures !inRange
  {
    var p := new ShooterProjectile(selfActor, None, None, RowHandle(None, None));
    p.InitializeWithData(d);
    delay := p.deferredDestructionTime;
    inRange := p.InDeclaredRanges();
  }

  /**
   * A default projectile that hits a physics-simulating character twice:
   * only the first notification has effects, with one damage, one impulse
   * against the normal, one hook and one five-second destruction timer.
   */
  method HitTwice(shooter: Actor, target: Actor, comp: Comp, hit: Hit, actorLocation: Vec)
    returns (log: seq<Effect>, timerSet: bool)
    requires target.isCharacter && target != shooter && comp.simulatesPhysics
    ensures log == [
      DisableCollision(ProjectileSphere),
      MakeNoise(3.0, Some(shooter), actorLocation, 3000.0, "Projectile"),
      ApplyDamage(target, 25.0, Generic, Some(shooter)),
      AddImpulse(comp, Along(Neg(hit.impactNormal)), 100.0, hit.impactPoint),
      OnProjectileHit(hit),
      SetTimer(ProjectileDestruction, 5.0)]
    ensures timerSet
  {
    var p := new ShooterProjectile(Actor(0, false), Some(shooter), Some(shooter), RowHandle(None, None));
    p.NotifyHit(target, comp, hit, actorLocation, []);
    p.NotifyHit(target, comp, hit, actorLocation, []);
    log := p.effects;
    timerSet := p.destructionTimerSet;
  }

  /** The deduplication of a list naming one actor twice keeps its first overlap only. */
  lemma DedupExample(o1: Overlap, o2: Overlap, o3: Overlap)
    requires o1.actor != o2.actor && o3.actor == o1.actor
    ensures FirstHits([o1, o2, o3]) == [o1, o2]
  {
    assert FirstHits([o1]) == [o1] by {
      FirstHitsStep([], o1);
      assert [] + [o1] == [o1];
    }
    assert FirstHits([o1, o2]) == [o1, o2] by {
      FirstHitsStep([o1], o2);
      assert [o1] + [o2] == [o1, o2];
    }
    assert o3.actor in ActorsOf([o1, o2]);
    FirstHitsStep([o1, o2], o3);
    assert [o1, o2] + [o3] == [o1, o2, o3];
  }

  /** The context of a default projectile switched to explode on hit, fired by `shooter`. */
  function ExplodingContext(shooter: Actor): HitContext
  {
    HitContext(Actor(0, false), Some(shooter), Some(shooter), Retained(DefaultRow().(explodeOnHit := true)))
  }

  /** The explosion part of the scenario below: one damage and one impulse per distinct actor. */
  lemma DuplicateExplosionHits(shooter: Actor, o1: Overlap, o2: Overlap, here: Vec)
    requires o1.actor.isCharacter && o1.actor != shooter && !o2.actor.isCharacter
    requires o1.comp.simulatesPhysics && o2.comp.simulatesPhysics
    ensures ExplosionHits(ExplodingContext(shooter), [o1, o2], here) == [
      ApplyDamage(o1.actor, 25.0, Generic, Some(shooter)),
      AddImpulse(o1.comp, AwayFrom(here), 100.0, here),
      AddImpulse(o2.comp, AwayFrom(here), 100.0, here)]
  {
    var c := ExplodingContext(shooter);
    ExplosionHitsSnoc(c, [], o1, here);
    assert [] + [o1] == [o1];
    ExplosionHitsSnoc(c, [o1], o2, here);
    assert [o1] + [o2] == [o1, o2];
  }

  /**
   * The whole sequence of the scenario below: the query ignores the
   * projectile and the shooter, and the duplicate overlap adds nothing.
   */
  lemma DuplicateHitSequence(shooter: Actor, target: Actor, crate: Actor, c1: Comp, c2: Comp, c3: Comp, hit: Hit, here: Vec)
    requires target.isCharacter && target != shooter && !crate.isCharacter && crate != target
    requires c1.simulatesPhysics && c2.simulatesPhysics
    ensures HitSequence(ExplodingContext(shooter), target, c3, hit, here,
        [Overlap(target, c1), Overlap(crate, c2), Overlap(target, c3)]) == [
      DisableCollision(ProjectileSphere),
      MakeNoise(3.0, Some(shooter), here, 3000.0, "Projectile"),
      OverlapQuery(here, 500.0, {Actor(0, false), shooter}),
      ApplyDamage(target, 25.0, Generic, Some(shooter)),
      AddImpulse(c1, AwayFrom(here), 100.0, here),
      AddImpulse(c2, AwayFrom(here), 100.0, here),
      OnProjectileHit(hit),
      SetTimer(ProjectileDestruction, 5.0)]
  {
    var c := ExplodingContext(shooter);
    var o1, o2, o3 := Overlap(target, c1), Overlap(crate, c2), Overlap(target, c3);
    DedupExample(o1, o2, o3);
    DuplicateExplosionHits(shooter, o1, o2, here);
    assert QueryIgnored(c) == {Actor(0, false), shooter};
  }

  /**
   * An exploding projectile whose overlap list names one character twice and
   * a physics crate once: the character is damaged and pushed once, through
   * its first component; the crate is pushed but not damaged.
   */
  method ExplodeOnDuplicates(shooter: Actor, target: Actor, crate: Actor, c1: Comp, c2: Comp, c3: Comp, hit: Hit, here: Vec)
    returns (log: seq<Effect>)
    requires target.isCharacter && target != shooter && !crate.isCharacter && crate != target
    requires c1.simulatesPhysics && c2.simulatesPhysics
    ensures log == [
      DisableCollision(ProjectileSphere),
      MakeNoise(3.0, Some(shooter), here, 3000.0, "Projectile"),
      OverlapQuery(here, 500.0, {Actor(0, false), shooter}),
      ApplyDamage(target, 25.0, Generic, Some(shooter)),
      AddImpulse(c1, AwayFrom(here), 100.0, here),
      AddImpulse(c2, AwayFrom(here), 100.0, here),
      OnProjectileHit(hit),
      SetTimer(ProjectileDestruction, 5.0)]
  {
    var p := new ShooterProjectile(Actor(0, false), Some(shooter), Some(shooter), RowHandle(None, None));
    p.InitializeWithData(DefaultRow().(explodeOnHit := true));
    var overlaps := [Overlap(target, c1), Overlap(crate, c2), Overlap(target, c3)];
    p.NotifyHit(target, c3, hit, here, overlaps);
    log := p.effects;
    assert p.Context() == ExplodingContext(shooter);
    DuplicateHitSequence(shooter, target, crate, c1, c2, c3, hit, here);
    assert log == [] + HitSequence(ExplodingContext(shooter), target, c3, hit, here, overlaps);
  }
}
