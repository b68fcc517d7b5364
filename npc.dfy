/**
 * The combat state of a non-player shooter character: hit points, a one-way
 * death transition that runs once, the shooting flag and aim target, and the
 * deterministic damage self-test. The weapon, the game mode's score board,
 * the capsule, the movement component, the ragdoll mesh and the timer
 * manager are engine collaborators; what the NPC asks of them is appended to
 * its effect log.
 */
module Npc {
  import opened Engine

  /** The team number is an unsigned byte. */
  type Byte = x: int | 0 <= x < 256

  /** The concrete kind of a damage event, as told by its type identifier. */
  datatype EventKind =
    | GenericEvent
    | PointEvent(hitLocation: Vec, shotDirection: Vec)
    | RadialEvent(origin: Vec, baseDamage: real, outerRadius: real)

  /** A damage event: its optional damage type class and its kind. */
  datatype DamageEvent = DamageEvent(damageType: Option<DamageType>, kind: EventKind)

  /**
   * The commands of the death transition: the team score (only when the
   * game mode keeps one), then capsule collision off, movement stopped,
   * ragdoll enabled on the mesh, and the destruction timer.
   */
  function DeathCommands(team: Byte, scoresTeams: bool, delay: real): (es: seq<Effect>)
    ensures |es| == (if scoresTeams then 8 else 7)
    ensures es[|es| - 1] == SetTimer(NpcDeath, delay)
  {
    (if scoresTeams then [IncrementTeamScore(team)] else [])
    + [ DisableCollision(Capsule), StopMovementImmediately, StopActiveMovement,
        SetRagdollProfile, SetSimulatePhysics(true), SetPhysicsBlendWeight(1.0),
        SetTimer(NpcDeath, delay)]
  }

  class ShooterNPC {
    /** The team whose score a death of this NPC raises. */
    const team: Byte
    /** The delay of the death timer, in seconds. */
    const deathDelay: real
    /** Whether the world's authority game mode is a shooter game mode (the score board exists). */
    const scoresTeams: bool

    var currentHP: real
    var isDead: bool
    var isShooting: bool
    var currentAimTarget: Option<Actor>
    /** Whether the death timer handle refers to a scheduled destruction (only for a positive delay). */
    var deathTimerSet: bool
    /** Commands given to engine services, in the order given. */
    var effects: seq<Effect>

    /** The death timer is only ever scheduled by the death transition. */
    predicate Valid()
      reads this`isDead, this`deathTimerSet
    {
      deathTimerSet ==> isDead
    }

    constructor(team: Byte, deathDelay: real, scoresTeams: bool, initialHP: real)
      ensures this.team == team && this.deathDelay == deathDelay && this.scoresTeams == scoresTeams
      ensures currentHP == initialHP && !isDead && !isShooting && currentAimTarget == None
      ensures !deathTimerSet && effects == []
      ensures Valid()
    {
      this.team := team;
      this.deathDelay := deathDelay;
      this.scoresTeams := scoresTeams;
      currentHP := initialHP;
      isDead := false;
      isShooting := false;
      currentAimTarget := None;
      deathTimerSet := false;
      effects := [];
    }

    /** The one-way death transition; a second call does nothing. */
    method Die()
      requires Valid()
      modifies this`isDead, this`deathTimerSet, this`effects
      ensures Valid() && isDead
      ensures old(isDead) ==> unchanged(this)
      ensures !old(isDead) ==> deathTimerSet == (deathDelay > 0.0)
      ensures !old(isDead) ==> effects == old(effects) + DeathCommands(team, scoresTeams, deathDelay)
    {
      if isDead {
        return;
      }
      isDead := true;
      effects := effects + DeathCommands(team, scoresTeams, deathDelay);
      // The timer manager schedules only a positive rate; a rate of zero or below clears the handle.
      deathTimerSet := deathDelay > 0.0;
    }

    /**
     * Damage taken from any source. A dead NPC ignores it and reports zero;
     * a live one loses exactly `damage` hit points, with no clamping, reports
     * `damage`, and dies when its hit points reach zero or below. The event
     * only feeds diagnostics.
     */
    method TakeDamage(damage: real, event: DamageEvent) returns (applied: real)
      requires Valid()
      modifies this`currentHP, this`isDead, this`deathTimerSet, this`effects
      ensures Valid()
      ensures old(isDead) ==> isDead
      ensures old(isDead) ==> applied == 0.0 && unchanged(this)
      ensures !old(isDead) ==> applied == damage && currentHP == old(currentHP) - damage
      ensures !old(isDead) ==> (isDead <==> currentHP <= 0.0) && deathTimerSet == (isDead && deathDelay > 0.0)
      ensures !old(isDead) && isDead ==> effects == old(effects) + DeathCommands(team, scoresTeams, deathDelay)
      ensures !old(isDead) && !isDead ==> effects == old(effects)
    {
      if isDead {
        return 0.0;
      }
      currentHP := currentHP - damage;
      if currentHP <= 0.0 {
        Die();
      }
      return damage;
    }

    /** The death timer's callback. */
    method DeferredDestruction()
      modifies this`effects
      ensures effects == old(effects) + [Destroy]
    {
      effects := effects + [Destroy];
    }

    /** Leaving play clears the death timer, so no destruction is pending afterwards. */
    method EndPlay()
      requires Valid()
      modifies this`deathTimerSet, this`effects
      ensures Valid() && !deathTimerSet
      ensures effects == old(effects) + [ClearTimer(NpcDeath)]
    {
      effects := effects + [ClearTimer(NpcDeath)];
      deathTimerSet := false;
    }

    /** Remembers the aim target, raises the shooting flag and tells the weapon to fire once. */
    method StartShooting(target: Option<Actor>)
      modifies this`currentAimTarget, this`isShooting, this`effects
      ensures currentAimTarget == target && isShooting
      ensures effects == old(effects) + [StartFiring]
    {
      currentAimTarget := target;
      isShooting := true;
      effects := effects + [StartFiring];
    }

    /** Lowers the shooting flag and tells the weapon to stop; the aim target is kept. */
    method StopShooting()
      modifies this`isShooting, this`effects
      ensures !isShooting
      ensures effects == old(effects) + [StopFiring]
    {
      isShooting := false;
      effects := effects + [StopFiring];
    }

    /** A semi-automatic weapon's refire notification fires again only while shooting. */
    method OnSemiWeaponRefire()
      modifies this`effects
      ensures effects == old(effects) + (if isShooting then [StartFiring] else [])
    {
      if isShooting {
        effects := effects + [StartFiring];
      }
    }

    /**
     * The damage self-test: a live NPC is reset to 100 hit points and takes
     * 10 generic, 15 point and 20 radial damage, ending alive at 55. `here` is
     * the NPC's location, read from the scene.
     */
    method TestDamageTypes(here: Vec)
      requires Valid()
      modifies this`currentHP, this`isDead, this`deathTimerSet, this`effects
      ensures Valid()
      ensures old(isDead) ==> unchanged(this)
      ensures !old(isDead) ==> currentHP == 55.0 && !isDead && effects == old(effects)
      ensures deathTimerSet == old(deathTimerSet)
    {
      if isDead {
        return;
      }
      currentHP := 100.0;
      var basic := DamageEvent(Some(Generic), GenericEvent);
      var _ := TakeDamage(10.0, basic);
      var point := DamageEvent(Some(Generic), PointEvent(here, Vec(1.0, 0.0, 0.0)));
      var _ := TakeDamage(15.0, point);
      var radial := DamageEvent(Some(Generic), RadialEvent(Vec(here.x, here.y, here.z + 100.0), 20.0, 500.0));
      var _ := TakeDamage(20.0, radial);
    }
  }

  /** Number of times a command occurs in a log. */
  function Occurrences(es: seq<Effect>, e: Effect): (n: nat)
    ensures n <= |es|
    ensures n == 0 <==> e !in es
  {
    if es == [] then 0
    else Occurrences(es[..|es| - 1], e) + (if es[|es| - 1] == e then 1 else 0)
  }

  lemma {:induction false} OccurrencesAppend(xs: seq<Effect>, ys: seq<Effect>, e: Effect)
    ensures Occurrences(xs + ys, e) == Occurrences(xs, e) + Occurrences(ys, e)
  {
    if ys == [] {
      assert xs + ys == xs;
    } else {
      var m := |ys|;
      assert (xs + ys)[..|xs + ys| - 1] == xs + ys[..m - 1];
      assert (xs + ys)[|xs + ys| - 1] == ys[m - 1];
      OccurrencesAppend(xs, ys[..m - 1], e);
    }
  }

  /** A log of one command holds that command once and no other. */
  lemma OccurrencesSingle(e: Effect, f: Effect)
    ensures Occurrences([e], f) == if e == f then 1 else 0
  {
    assert [e][..0] == [];
  }

  /**
   * The death transition scores for the team exactly once when the game mode
   * keeps scores and never otherwise, and issues exactly one death-timer command.
   */
  lemma DeathCommandsCounts(team: Byte, scoresTeams: bool, delay: real)
    ensures Occurrences(DeathCommands(team, scoresTeams, delay), IncrementTeamScore(team)) == (if scoresTeams then 1 else 0)
    ensures Occurrences(DeathCommands(team, scoresTeams, delay), SetTimer(NpcDeath, delay)) == 1
  {
    var score: seq<Effect> := if scoresTeams then [IncrementTeamScore(team)] else [];
    var rest := DeathCommands(team, false, delay);
    var timer, inc := SetTimer(NpcDeath, delay), IncrementTeamScore(team);
    assert DeathCommands(team, scoresTeams, delay) == score + rest;
    assert rest[..|rest| - 1] == [DisableCollision(Capsule), StopMovementImmediately, StopActiveMovement,
      SetRagdollProfile, SetSimulatePhysics(true), SetPhysicsBlendWeight(1.0)];
    assert inc !in rest[..|rest| - 1] && timer !in rest[..|rest| - 1];
    assert inc !in rest;
    OccurrencesAppend(score, rest, inc);
    OccurrencesAppend(score, rest, timer);
    if scoresTeams {
      OccurrencesSingle(inc, inc);
      OccurrencesSingle(inc, timer);
    }
  }

  /** The death transition disables the capsule, stops movement and enables the ragdoll. */
  lemma DeathCommandsStopBody(team: Byte, scoresTeams: bool, delay: real)
    ensures var es := DeathCommands(team, scoresTeams, delay);
      && DisableCollision(Capsule) in es && StopMovementImmediately in es && StopActiveMovement in es
      && SetRagdollProfile in es && SetSimulatePhysics(true) in es && SetPhysicsBlendWeight(1.0) in es
  {
    var es := DeathCommands(team, scoresTeams, delay);
    var k := if scoresTeams then 1 else 0;
    assert es[k] == DisableCollision(Capsule) && es[k + 1] == StopMovementImmediately;
    assert es[k + 2] == StopActiveMovement && es[k + 3] == SetRagdollProfile;
    assert es[k + 4] == SetSimulatePhysics(true) && es[k + 5] == SetPhysicsBlendWeight(1.0);
  }

  /**
   * An NPC at 100 hit points takes 150 damage and dies at -50; a further 10
   * damage is refused and changes nothing. The team scores exactly once and
   * one death-timer command is issued.
   */
  method KillThenHitAgain(team: Byte, delay: real, event: DamageEvent)
    returns (first: real, second: real, hp: real, dead: bool, scores: nat, timers: nat)
    ensures first == 150.0 && second == 0.0 && hp == -50.0 && dead
    ensures scores == 1 && timers == 1
  {
    var npc := new ShooterNPC(team, delay, true, 100.0);
    first := npc.TakeDamage(150.0, event);
    second := npc.TakeDamage(10.0, event);
    hp, dead := npc.currentHP, npc.isDead;
    DeathCommandsCounts(team, true, delay);
    assert npc.effects == [] + DeathCommands(team, true, delay) == DeathCommands(team, true, delay);
    scores := Occurrences(npc.effects, IncrementTeamScore(team));
    timers := Occurrences(npc.effects, SetTimer(NpcDeath, delay));
  }

  /** Dying twice scores once and issues one timer command; the second call adds nothing. */
  method DieTwice(team: Byte, delay: real, scoresTeams: bool) returns (scores: nat, timers: nat, logLength: nat)
    ensures scores == (if scoresTeams then 1 else 0) && timers == 1
    ensures logLength == (if scoresTeams then 8 else 7)
  {
    var npc := new ShooterNPC(team, delay, scoresTeams, 100.0);
    npc.Die();
    npc.Die();
    DeathCommandsCounts(team, scoresTeams, delay);
    assert npc.effects == [] + DeathCommands(team, scoresTeams, delay) == DeathCommands(team, scoresTeams, delay);
    scores := Occurrences(npc.effects, IncrementTeamScore(team));
    timers := Occurrences(npc.effects, SetTimer(NpcDeath, delay));
    logLength := |npc.effects|;
  }

  /**
   * The death-timer command is issued whatever the delay, but a delay of zero
   * or below leaves no destruction pending, while a positive one does.
   */
  method DeathDelayDecidesTimer(delay: real) returns (timers: nat, pending: bool)
    ensures timers == 1
    ensures pending <==> delay > 0.0
  {
    var npc := new ShooterNPC(0, delay, false, 1.0);
    var _ := npc.TakeDamage(1.0, DamageEvent(None, GenericEvent));
    DeathCommandsCounts(0, false, delay);
    assert npc.effects == [] + DeathCommands(0, false, delay) == DeathCommands(0, false, delay);
    timers := Occurrences(npc.effects, SetTimer(NpcDeath, delay));
    pending := npc.deathTimerSet;
  }

  /** Stopping keeps the aim target; a refire after stopping fires nothing. */
  method ShootStopRefire(target: Actor) returns (aim: Option<Actor>, shooting: bool, log: seq<Effect>)
    ensures aim == Some(target) && !shooting
    ensures log == [StartFiring, StartFiring, StopFiring]
  {
    var npc := new ShooterNPC(0, 5.0, true, 100.0);
    npc.StartShooting(Some(target));
    npc.OnSemiWeaponRefire();
    npc.StopShooting();
    npc.OnSemiWeaponRefire();
    aim, shooting, log := npc.currentAimTarget, npc.isShooting, npc.effects;
  }

  /** The self-test on a live NPC leaves it alive at 55 hit points, whatever it had before. */
  method SelfTestOutcome(initialHP: real, here: Vec) returns (hp: real, dead: bool, log: seq<Effect>)
    ensures hp == 55.0 && !dead && log == []
  {
    var npc := new ShooterNPC(1, 5.0, true, initialHP);
    npc.TestDamageTypes(here);
    hp, dead, log := npc.currentHP, npc.isDead, npc.effects;
  }

  /** The self-test on a dead NPC does nothing: its hit points stay where death left them. */
  method SelfTestWhenDead(here: Vec) returns (hp: real, dead: bool)
    ensures hp == -5.0 && dead
  {
    var npc := new ShooterNPC(1, 5.0, true, 20.0);
    var _ := npc.TakeDamage(25.0, DamageEvent(None, GenericEvent));
    npc.TestDamageTypes(here);
    hp, dead := npc.currentHP, npc.isDead;
  }
}
