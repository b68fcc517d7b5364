# Shooter projectile and NPC combat state, in Dafny

This project models two event-driven pieces of a first-person shooter gameplay module and proves the promises their code makes.

**The shooter projectile (`AShooterProjectile`).**
- A one-shot hit latch (`bHit`).
- The fixed order of commands a first hit issues:
  1. disable collision;
  2. make a perception noise;
  3. resolve the hit;
  4. call the visual-scripting hook;
  5. destroy now, or schedule a one-shot destruction timer.
- Hit resolution, in two forms:
  - single-target;
  - an area explosion that deduplicates the raw overlap list, so each distinct actor is processed once, through its first overlap.
- The per-target damage gate (character, and not the owner unless owner damage is on). The physics impulse is independent of this gate.
- The field-by-field exchange with a data-table row (`FProjectileData`), with its defaults and declared ranges.

**The shooter NPC (`AShooterNPC`).**
- Hit-point bookkeeping in `TakeDamage`.
- The one-way death transition `Die`, which runs once.
- The shooting flag and the aim target.
- The refire guard.
- The deterministic damage self-test.

Engine services are not implemented. Every command the code gives one (collision, noise, damage, impulses, the hook, timers, destruction, the team score, ragdoll physics, the weapon) is an `Effect` value appended to the object's `effects` log. The contracts state what this log becomes.

The sphere-overlap query's result is an input: a `seq<Overlap>` that may name an actor several times. The projectile's location is an input too.

Modules:
- `Engine`: the values exchanged with the engine and the `Effect` vocabulary.
- `ProjectileTable`: the row record, its defaults, its ranges and the keyed table lookup.
- `Projectile`: the class `ShooterProjectile`, plus the pure functions that specify its hit resolution and the lemmas about them.
- `Npc`: the class `ShooterNPC`, plus the death-command sequence and the lemmas about it.

Each state-changing method is proved against a specification function of the old state and the inputs. For example:
- `NotifyHit` appends `HitSequence(Context(), …)`.
- `ExplosionCheck` appends `ExplosionEffects(…)`. Its loop is proved against `FirstHits`, the deduplicated overlap list.

The properties the code promises are then lemmas about those functions.

The row and the projectile declare clamp ranges for their values, but `ApplyProjectileData` copies every value without clamping it or rejecting the row. The model follows the code; `RowRangeExceedsProjectileCap` and `OverlongDelayIsNotClamped` show the effect.

## Model

| member | source | states |
|---|---|---|
| ProjectileTable.DefaultRow | Source/FirstPersonCity/Variant_Shooter/Weapons/ProjectileData.h:19-88 | A default row is named "Standard Projectile", has an empty description, and lies within every declared row range. |
| Projectile.Retained | Source/FirstPersonCity/Variant_Shooter/Weapons/ShooterProjectile.cpp:84-98 | What a projectile keeps of a row: the name reverts to the default and the description becomes empty. Restoring those two gives back the original row, so no other field is lost. |
| Projectile.FirstHits | Source/FirstPersonCity/Variant_Shooter/Weapons/ShooterProjectile.cpp:209-227 | The overlaps the explosion loop processes are never more than the overlaps queried. |
| Projectile.FirstHitsCover | Source/FirstPersonCity/Variant_Shooter/Weapons/ShooterProjectile.cpp:212-218 | An actor is processed by the explosion if and only if the overlap list names it. |
| Projectile.FirstHitsDistinct | Source/FirstPersonCity/Variant_Shooter/Weapons/ShooterProjectile.cpp:216-218 | The damaged-actors list never holds an actor twice. |
| Projectile.FirstHitsAreFirstOccurrences | Source/FirstPersonCity/Variant_Shooter/Weapons/ShooterProjectile.cpp:212-224 | Every processed overlap is the first overlap of its actor, so its first component is the one pushed. |
| Projectile.FirstHitsKeepOrder | Source/FirstPersonCity/Variant_Shooter/Weapons/ShooterProjectile.cpp:212-227 | Actors are processed in the order of their first occurrence in the overlap list. |
| Projectile.FirstHitsOncePerActor | Source/FirstPersonCity/Variant_Shooter/Weapons/ShooterProjectile.cpp:212-227 | Each actor named in the overlap list is processed exactly once. An actor not named is never processed. |
| Projectile.HitEffectsGates | Source/FirstPersonCity/Variant_Shooter/Weapons/ShooterProjectile.cpp:233-248 | Processing a target damages it if and only if it is a character that is not the owner, or owner damage is on. It pushes the component if and only if the component simulates physics, whatever the damage gate decided. It issues nothing else, each command at most once, damage first. |
| Projectile.QueryIgnored | Source/FirstPersonCity/Variant_Shooter/Weapons/ShooterProjectile.cpp:200-205 | The explosion query always ignores the projectile itself. It ignores the instigator exactly when owner damage is off, and nothing else. |
| Projectile.ExplosionDamagesOnce | Source/FirstPersonCity/Variant_Shooter/Weapons/ShooterProjectile.cpp:209-227 | An explosion damages an actor exactly once when the overlap list names it and it passes the damage gate, and never otherwise, however many overlaps name it. |
| Projectile.ExplosionHitsAreResolution | Source/FirstPersonCity/Variant_Shooter/Weapons/ShooterProjectile.cpp:212-227 | Processing the deduplicated overlaps issues only damage and impulses. |
| Projectile.ExplosionSparesIgnored | Source/FirstPersonCity/Variant_Shooter/Weapons/ShooterProjectile.cpp:200-227 | When the overlap list honours the query's ignored set, as the engine's query does, an explosion damages no ignored actor: never the projectile itself, and never the instigator when owner damage is off. |
| Projectile.ResolutionKinds | Source/FirstPersonCity/Variant_Shooter/Weapons/ShooterProjectile.cpp:159-170 | With explode-on-hit, resolution starts with one overlap query at the projectile's location and radius, and the rest is damage and impulses. Without it, the only possible commands are damage to `Other` and an impulse on `OtherComp` at the impact point against the impact normal. |
| Projectile.HitSequenceOrder | Source/FirstPersonCity/Variant_Shooter/Weapons/ShooterProjectile.cpp:151-184 | A first hit issues, in order: collision off, then the configured noise, then resolution, then the hook, then exactly one teardown command, last. The teardown is a timer with the configured delay when that delay is positive, otherwise immediate destruction. |
| Projectile.ShooterProjectile.constructor | Source/FirstPersonCity/Variant_Shooter/Weapons/ShooterProjectile.h:40-83 | A new projectile has not hit, has no timer set and an empty log. It lies within its declared ranges, and its configuration reads back as the default row. |
| Projectile.ShooterProjectile.GetProjectileData | Source/FirstPersonCity/Variant_Shooter/Weapons/ShooterProjectile.cpp:82-100 | The configuration read back always has the default name and an empty description. |
| Projectile.ShooterProjectile.ApplyProjectileData | Source/FirstPersonCity/Variant_Shooter/Weapons/ShooterProjectile.cpp:102-134 | After applying a row, the configuration reads back as the row, except for its name and description, with no clamping. Only configuration fields change. |
| Projectile.ShooterProjectile.InitializeWithData | Source/FirstPersonCity/Variant_Shooter/Weapons/ShooterProjectile.cpp:62-65 | Same as applying the row. |
| Projectile.ShooterProjectile.InitializeWithDataTableRow | Source/FirstPersonCity/Variant_Shooter/Weapons/ShooterProjectile.cpp:67-80 | A row that is found is applied. An absent table or a missing row leaves the projectile unchanged. |
| Projectile.ShooterProjectile.BeginPlay | Source/FirstPersonCity/Variant_Shooter/Weapons/ShooterProjectile.cpp:40-52 | The designer-assigned row is applied when the table is set, the row name is set and the row is found. Otherwise nothing changes. |
| Projectile.ShooterProjectile.EndPlay | Source/FirstPersonCity/Variant_Shooter/Weapons/ShooterProjectile.cpp:54-60 | The destruction timer is cleared, so no destruction is pending afterwards. |
| Projectile.ShooterProjectile.OnDeferredDestruction | Source/FirstPersonCity/Variant_Shooter/Weapons/ShooterProjectile.cpp:251-255 | The timer callback issues exactly one destruction. |
| Projectile.ShooterProjectile.ProcessHit | Source/FirstPersonCity/Variant_Shooter/Weapons/ShooterProjectile.cpp:230-249 | The log grows by exactly the gated per-target commands (see HitEffectsGates). |
| Projectile.ShooterProjectile.ExplosionCheck | Source/FirstPersonCity/Variant_Shooter/Weapons/ShooterProjectile.cpp:187-228 | The log grows by one overlap query, then by the per-target commands for the first overlap of each distinct actor, in first-occurrence order. This is proved through the damaged-actors loop. |
| Projectile.ShooterProjectile.NotifyHit | Source/FirstPersonCity/Variant_Shooter/Weapons/ShooterProjectile.cpp:143-185 | Afterwards the projectile has hit. A call after the first changes nothing at all. The first call appends exactly the hit sequence, and sets the timer handle exactly when the delay is positive. |
| Projectile.DefaultRowIsNeutral | Source/FirstPersonCity/Variant_Shooter/Weapons/ProjectileData.h:19-36 | The row defaults equal the projectile defaults: applying a default row to a new projectile leaves its configuration unchanged. |
| Projectile.ConfigureAndRead | Source/FirstPersonCity/Variant_Shooter/Weapons/ShooterProjectile.cpp:84-134 | Applying any row, then reading the configuration back, returns the row except for its name and description. |
| Projectile.MissingRowKeepsDefaults | Source/FirstPersonCity/Variant_Shooter/Weapons/ShooterProjectile.cpp:69-79 | A row name missing from the table leaves a new projectile at its defaults. |
| Projectile.RowRangeExceedsProjectileCap | Source/FirstPersonCity/Variant_Shooter/Weapons/ProjectileData.h:78-80 | Some rows within the row's ranges have a destruction delay above the projectile's own cap of 10 seconds. |
| Projectile.OverlongDelayIsNotClamped | Source/FirstPersonCity/Variant_Shooter/Weapons/ShooterProjectile.cpp:114-115 | Such a row's delay is copied as is, and leaves the projectile outside its declared ranges. |
| Projectile.HitTwice | Source/FirstPersonCity/Variant_Shooter/Weapons/ShooterProjectile.cpp:146-184 | A default projectile hitting a physics-simulating character twice issues exactly six commands: collision off, noise (3, 3000, "Projectile"), 25 damage, 100 impulse, the hook, and a 5-second timer. The timer handle is set. |
| Projectile.DedupExample | Source/FirstPersonCity/Variant_Shooter/Weapons/ShooterProjectile.cpp:214-219 | Deduplicating a list that names one actor twice keeps only that actor's first overlap. |
| Projectile.ExplodeOnDuplicates | Source/FirstPersonCity/Variant_Shooter/Weapons/ShooterProjectile.cpp:143-227 | An exploding projectile whose overlaps name a character twice and a physics crate once damages and pushes the character once, and pushes but does not damage the crate. The query ignores the projectile and the shooter. The full eight-command log is given. |
| Npc.DeathCommands | Source/FirstPersonCity/Variant_Shooter/AI/ShooterNPC.cpp:253-272 | The death transition issues eight commands when the game mode keeps scores and seven otherwise. The death timer, with the configured delay, is the last. |
| Npc.DeathCommandsCounts | Source/FirstPersonCity/Variant_Shooter/AI/ShooterNPC.cpp:253-272 | The team score is raised exactly once when the game mode keeps scores, and never otherwise. Exactly one death-timer command is issued. |
| Npc.DeathCommandsStopBody | Source/FirstPersonCity/Variant_Shooter/AI/ShooterNPC.cpp:259-269 | The death transition disables capsule collision, stops movement both ways, and enables ragdoll physics with blend weight 1. |
| Npc.ShooterNPC.Die | Source/FirstPersonCity/Variant_Shooter/AI/ShooterNPC.cpp:242-273 | Afterwards the NPC is dead. A second call changes nothing. The first call appends exactly the death commands. The death-timer command is always among them, but the timer handle counts as pending only when the delay is positive: the timer manager clears a timer whose rate is zero or below. |
| Npc.ShooterNPC.TakeDamage | Source/FirstPersonCity/Variant_Shooter/AI/ShooterNPC.cpp:39-145 | A dead NPC returns 0 and changes nothing. A live NPC loses exactly `damage` hit points, with no clamping, and returns `damage`. It dies, issuing exactly the death commands, if and only if its new hit points are at most 0; otherwise the log is unchanged. A destruction is pending afterwards if and only if the NPC died here and the death delay is positive. Death is never undone. |
| Npc.ShooterNPC.DeferredDestruction | Source/FirstPersonCity/Variant_Shooter/AI/ShooterNPC.cpp:275-278 | The death timer's callback issues exactly one destruction. |
| Npc.ShooterNPC.EndPlay | Source/FirstPersonCity/Variant_Shooter/AI/ShooterNPC.cpp:31-37 | The death timer is cleared, so no destruction is pending afterwards. |
| Npc.ShooterNPC.StartShooting | Source/FirstPersonCity/Variant_Shooter/AI/ShooterNPC.cpp:280-290 | Sets the aim target and the shooting flag, and tells the weapon to fire exactly once. |
| Npc.ShooterNPC.StopShooting | Source/FirstPersonCity/Variant_Shooter/AI/ShooterNPC.cpp:292-299 | Lowers the shooting flag and tells the weapon to stop exactly once. The aim target is outside its frame, so it is kept. |
| Npc.ShooterNPC.OnSemiWeaponRefire | Source/FirstPersonCity/Variant_Shooter/AI/ShooterNPC.cpp:232-240 | Fires again if and only if the NPC is shooting, and changes nothing else. |
| Npc.ShooterNPC.TestDamageTypes | Source/FirstPersonCity/Variant_Shooter/AI/ShooterNPC.cpp:301-339 | A dead NPC is left unchanged. A live one ends alive at 55 hit points, whatever it had before, with no command issued. |
| Npc.KillThenHitAgain | Source/FirstPersonCity/Variant_Shooter/AI/ShooterNPC.cpp:39-145 | At 100 hit points, 150 damage returns 150 and leaves the NPC dead at -50. A further 10 damage returns 0 and leaves it at -50. The team scores once, and one death-timer command is issued. |
| Npc.DieTwice | Source/FirstPersonCity/Variant_Shooter/AI/ShooterNPC.cpp:242-273 | Dying twice raises the score at most once, issues one timer command, and logs only the first transition. |
| Npc.DeathDelayDecidesTimer | Source/FirstPersonCity/Variant_Shooter/AI/ShooterNPC.cpp:271-272 | A killed NPC always issues one death-timer command, and a destruction is pending if and only if the death delay is positive. |
| Npc.ShootStopRefire | Source/FirstPersonCity/Variant_Shooter/AI/ShooterNPC.cpp:232-299 | Start, refire, stop, refire issues fire, fire, stop. The aim target survives the stop. |
| Npc.SelfTestOutcome | Source/FirstPersonCity/Variant_Shooter/AI/ShooterNPC.cpp:316-336 | The self-test on a live NPC leaves it alive at 55 hit points, with no command issued. |
| Npc.SelfTestWhenDead | Source/FirstPersonCity/Variant_Shooter/AI/ShooterNPC.cpp:301-306 | The self-test on a dead NPC keeps the hit points death left it with. |

## Left out

- `GetWeaponTargetLocation` is not modelled: it uses random cone sampling, vector normalisation and a world line trace.
- Vector arithmetic is not modelled. The explosion's push direction is recorded as `AwayFrom(location)`, not as the safe-normalised difference. An impulse is recorded as its component, direction, force and location, not as the product vector.
- The sphere-overlap geometry, and the object channels it queries, are not modelled. The query's result is an input.
- Logging and on-screen debug text are not modelled: the damage report in `TakeDamage`, the configuration log line, the missing-row warning, and the self-test messages.
- `DamageEvent` is not modelled as an input to any computation: it only feeds diagnostics, so the damage type and event kind take a value but do not affect hit points.
- Weapon spawning in the NPC's `BeginPlay` and `AttachWeaponMeshes` are not modelled. The unused stubs (`PlayFiringMontage`, `AddWeaponRecoil`, `UpdateWeaponHUD`, `AddWeaponClass`, `OnWeaponActivated`, `OnWeaponDeactivated`) are not modelled either: they are engine plumbing or empty.
- The collision component's `IgnoreActorWhenMoving` call in the projectile's `BeginPlay` is not modelled. It only filters which collisions the engine later reports.
- Collision-component settings that have no effect on the logic are not modelled: collision responses and step-up rules.
- Projectile.ShooterProjectile.GetProjectileData reads the collision radius at unit scale. Component scale is not modelled, so the scaled radius equals the stored one.
- Projectile.ShooterProjectile.ProcessHit records the instigator actor as the damage instigator. The code passes that actor's controller, which is not modelled.
- The engine's null damage-type class is not modelled: the damage type is an enumeration without a null value.
- Null dereferences are not modelled. The code assumes the collision and movement components, the weapon, the instigator and world all exist. The `if (CollisionComponent)` and `if (ProjectileMovement)` guards in `ApplyProjectileData` are always taken.
- Timer expiry is not modelled. Scheduling is recorded, and the environment calls `OnDeferredDestruction` or `DeferredDestruction` to fire a timer. Actor destruction does not stop later calls, since actor lifetime is not modelled.
- Source/FirstPersonCity/Variant_Shooter/AI/ShooterNPC.h is not part of this model. Its initial hit points, team byte and death delay are constructor parameters. So is whether the world's game mode is a shooter game mode (the `Cast<AShooterGameMode>` outcome).
- Row names are not modelled as engine names. The engine's `FName` compares without regard to letter case, and any spelling of "None" is the empty name, so `FindRow` and `IsNone` fold case. The model keys the table by exact strings, which stand for names already in one canonical spelling. An absent row name (`None`) stands for every spelling of "None". A lookup that differs from the table key only in letter case is therefore outside the model: with canonical strings it cannot arise.
- Projectile.ShooterProjectile.ProcessHit takes the hit component's `simulatesPhysics` as its state at the moment the code tests it, which is after the damage call. Damage recipients are not modelled as writing back into the scene, so a hit that kills an NPC, whose death turns ragdoll physics on for its mesh, is covered only when the input already records that later state.
- Projectile.ShooterProjectile.NotifyHit assumes that the Blueprint hit hook and the damage recipients leave the projectile's own fields alone. The destruction delay is writable from Blueprints and is read after the hook runs; a hook that changes it is not modelled.
- Floating-point rounding is not modelled. Hit points, damage and configuration values are exact `real` numbers.
- The engine's actor and damage-type internals are not modelled: `EmotionReactActor`, the damage-type catalogue in `CustomDamageTypes`, and the module registration in `FirstPersonCity.cpp`. They hold no logic of the core.
