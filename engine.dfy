/**
 * The engine collaborators the gameplay module talks to, reduced to the
 * values it passes them. Nothing here is implemented: scene-graph actors and
 * components are opaque identities, vectors are carried but never normalised,
 * and every command given to a service (collision, timers, noise, damage,
 * physics, scoring, weapon, visual-scripting hook) is an `Effect` value that
 * the calling object appends to its own effect log.
 */
module Engine {

  datatype Option<+T> = None | Some(value: T)

  /** A world-space vector; only negation is ever computed on it. */
  datatype Vec = Vec(x: real, y: real, z: real)

  function Neg(v: Vec): Vec
  {
    Vec(-v.x, -v.y, -v.z)
  }

  /** An actor of the scene; `isCharacter` is the outcome of `Cast<ACharacter>`. */
  datatype Actor = Actor(id: nat, isCharacter: bool)

  /** A primitive component; `simulatesPhysics` is `IsSimulatingPhysics()`. */
  datatype Comp = Comp(id: nat, simulatesPhysics: bool)

  /** One entry of a sphere-overlap query result: the actor and the component overlapped. */
  datatype Overlap = Overlap(actor: Actor, comp: Comp)

  /** The part of a collision notification the projectile reads. */
  datatype Hit = Hit(impactPoint: Vec, impactNormal: Vec)

  /**
   * The damage type class carried with a hit. The catalogue of physical
   * parameters behind each type is read only by the engine's damage system.
   */
  datatype DamageType = Generic | Fire | Ice | Poison | Lightning | Explosive

  /**
   * Direction of an impulse: a vector given exactly, or the safe-normalised
   * direction from `origin` to the pushed actor's location (not computed).
   */
  datatype Direction = Along(v: Vec) | AwayFrom(origin: Vec)

  /** Components whose collision the core switches off. */
  datatype Part = ProjectileSphere | Capsule

  /** The two one-shot timer handles of the core. */
  datatype TimerId = ProjectileDestruction | NpcDeath

  /** One command issued to an engine service, in the order issued. */
  datatype Effect =
    | DisableCollision(part: Part)
    | MakeNoise(loudness: real, instigator: Option<Actor>, location: Vec, range: real, tag: string)
    | OverlapQuery(center: Vec, radius: real, ignored: set<Actor>)
    | ApplyDamage(target: Actor, amount: real, damageType: DamageType, instigator: Option<Actor>)
    | AddImpulse(comp: Comp, direction: Direction, magnitude: real, location: Vec)
    | OnProjectileHit(hit: Hit)
    | SetTimer(timer: TimerId, delay: real)
    | ClearTimer(timer: TimerId)
    | Destroy
    | IncrementTeamScore(team: int)
    | StopMovementImmediately
    | StopActiveMovement
    | SetRagdollProfile
    | SetSimulatePhysics(enabled: bool)
    | SetPhysicsBlendWeight(weight: real)
    | StartFiring
    | StopFiring
}
