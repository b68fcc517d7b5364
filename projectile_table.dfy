/**
 * The data-table row that configures a projectile archetype, its defaults
 * and the ranges its editor declares, and the keyed table it is looked up in.
 */
module ProjectileTable {
  import opened Engine

  /** One row of a projectile data table; value semantics. */
  datatype ProjectileData = ProjectileData(
    projectileName: string,
    hitDamage: real,
    hitDamageType: DamageType,
    physicsForce: real,
    initialSpeed: real,
    maxSpeed: real,
    shouldBounce: bool,
    explodeOnHit: bool,
    explosionRadius: real,
    collisionRadius: real,
    deferredDestructionTime: real,
    noiseLoudness: real,
    noiseRange: real,
    noiseTag: string,
    damageOwner: bool,
    description: string)

  const DefaultName: string := "Standard Projectile"

  /** Upper bound the row declares for the delay before self-destruction, in seconds. */
  const RowMaxDeferredDestructionTime: real := 30.0

  /** The clamp ranges declared on the row's numeric fields. */
  predicate RowInRange(d: ProjectileData)
  {
    && 0.0 <= d.hitDamage <= 1000.0
    && 0.0 <= d.physicsForce <= 50000.0
    && 0.0 <= d.initialSpeed <= 20000.0
    && 0.0 <= d.maxSpeed <= 20000.0
    && 0.0 <= d.explosionRadius <= 5000.0
    && 1.0 <= d.collisionRadius <= 100.0
    && 0.0 <= d.deferredDestructionTime <= RowMaxDeferredDestructionTime
    && 0.0 <= d.noiseLoudness <= 100.0
    && 0.0 <= d.noiseRange <= 100000.0
  }

  /** A default-constructed row; its description is the empty string. */
  function DefaultRow(): (d: ProjectileData)
    ensures RowInRange(d)
    ensures d.projectileName == DefaultName && d.description == ""
  {
    ProjectileData(
      projectileName := DefaultName,
      hitDamage := 25.0,
      hitDamageType := Generic,
      physicsForce := 100.0,
      initialSpeed := 3000.0,
      maxSpeed := 3000.0,
      shouldBounce := true,
      explodeOnHit := false,
      explosionRadius := 500.0,
      collisionRadius := 16.0,
      deferredDestructionTime := 5.0,
      noiseLoudness := 3.0,
      noiseRange := 3000.0,
      noiseTag := "Projectile",
      damageOwner := false,
      description := "")
  }

  /**
   * A handle naming one row of one table. An absent table is a null table
   * pointer; an absent row name is the engine's "None" name. Row names are
   * engine names, which compare without regard to letter case; a `string`
   * here stands for such a name in one canonical spelling, so equal strings
   * are equal names.
   */
  datatype RowHandle = RowHandle(table: Option<map<string, ProjectileData>>, rowName: Option<string>)

  /** The keyed lookup of the data table: the row, or nothing when the key is unknown. */
  function FindRow(table: map<string, ProjectileData>, rowName: Option<string>): Option<ProjectileData>
  {
    if rowName.Some? && rowName.value in table then Some(table[rowName.value]) else None
  }
}
