/** The template-driven spawner: a catalog of entity archetypes is filtered
    by dungeon level and expanded by integer frequency into a selection
    pool; one entry is drawn per spawn point and turned into an entity.

    The random draw is an input: `draws[i]` is the pool index the random
    source picks for the i-th spawn point. The entity store's command
    buffer is a list of entities appended to the world in one flush. */
module Templates {
  import opened Prelude
  import opened Components

  datatype EntityType = Enemy | Item

  /** One archetype of the catalog. */
  datatype Template = Template(
    entityType: EntityType,
    levels: set<nat>,
    frequency: Int32,
    name: string,
    glyph: char,
    provided: Option<seq<(string, Int32)>>,
    hp: Option<Int32>,
    baseDamage: Option<Int32>)

  /** The world as the list of entities it holds, in creation order. */
  type World = seq<Entity>

  /** An Enemy archetype without hit points makes spawning panic. */
  datatype SpawnError = MissingHitPoints

  // ---------------------------------------------------------------------
  // The weighted pool
  // ---------------------------------------------------------------------

  /** How many copies of `t` the pool for `level` receives: the loop
      `for _ in 0..frequency` runs `frequency` times, and not at all when
      the frequency is zero or negative. */
  function Weight(t: Template, level: nat): nat {
    if level in t.levels && t.frequency > 0 then t.frequency else 0
  }

  function Repeat<T>(x: T, n: nat): (r: seq<T>)
    ensures |r| == n
    ensures forall i :: 0 <= i < n ==> r[i] == x
  {
    if n == 0 then [] else [x] + Repeat(x, n - 1)
  }

  /** Reference definition of the pool: each template's copies, in catalog order. */
  function Pool(catalog: seq<Template>, level: nat): seq<Template> {
    if catalog == [] then []
    else Repeat(catalog[0], Weight(catalog[0], level)) + Pool(catalog[1..], level)
  }

  /** Sum of the weights of a catalog at one level. */
  function TotalWeight(catalog: seq<Template>, level: nat): nat {
    if catalog == [] then 0 else Weight(catalog[0], level) + TotalWeight(catalog[1..], level)
  }

  /** The pool of a concatenated catalog is the concatenation of the pools:
      blocks appear in catalog order. */
  lemma {:induction false} PoolAppend(a: seq<Template>, b: seq<Template>, level: nat)
    ensures Pool(a + b, level) == Pool(a, level) + Pool(b, level)
    decreases |a|
  {
    if a == [] {
      assert a + b == b;
    } else {
      assert (a + b)[1..] == a[1..] + b;
      PoolAppend(a[1..], b, level);
    }
  }

  /** A template enters the pool iff it is in the catalog, lists the level and
      has a positive frequency. */
  lemma {:induction false} PoolMembership(catalog: seq<Template>, level: nat)
    ensures forall t :: t in Pool(catalog, level) <==>
      (t in catalog && level in t.levels && t.frequency > 0)
    decreases |catalog|
  {
    if catalog != [] {
      PoolMembership(catalog[1..], level);
      var block := Repeat(catalog[0], Weight(catalog[0], level));
      assert Pool(catalog, level) == block + Pool(catalog[1..], level);
      assert forall t :: t in catalog <==> t == catalog[0] || t in catalog[1..];
      forall t
        ensures t in block <==> t == catalog[0] && Weight(catalog[0], level) > 0
      {
        if t == catalog[0] && Weight(catalog[0], level) > 0 {
          assert block[0] == t;
        }
      }
    }
  }

  /** Each template occurs in the pool exactly (its number of catalog
      entries) times its weight. */
  lemma {:induction false} PoolCount(catalog: seq<Template>, level: nat, t: Template)
    ensures multiset(Pool(catalog, level))[t] == multiset(catalog)[t] * Weight(t, level)
    decreases |catalog|
  {
    if catalog != [] {
      var head, rest := catalog[0], catalog[1..];
      var block := Repeat(head, Weight(head, level));
      var m := multiset(rest)[t];
      var hit := if head == t then 1 else 0;
      PoolCount(rest, level, t);
      assert multiset(catalog)[t] == hit + m by {
        assert catalog == [head] + rest;
      }
      assert multiset(block)[t] == hit * Weight(t, level) by {
        RepeatCount(head, Weight(head, level), t);
      }
      assert multiset(Pool(catalog, level))[t] == multiset(block)[t] + multiset(Pool(rest, level))[t];
      Distribute(hit, m, Weight(t, level));
    }
  }

  lemma Distribute(a: nat, b: nat, w: nat)
    ensures (a + b) * w == a * w + b * w
  {
  }

  lemma {:induction false} RepeatCount<T>(x: T, n: nat, y: T)
    ensures multiset(Repeat(x, n))[y] == if x == y then n else 0
    decreases n
  {
    if n > 0 {
      RepeatCount(x, n - 1, y);
      assert Repeat(x, n) == [x] + Repeat(x, n - 1);
    }
  }

  /** The pool's size is the catalog's total weight at the level. */
  lemma {:induction false} PoolSize(catalog: seq<Template>, level: nat)
    ensures |Pool(catalog, level)| == TotalWeight(catalog, level)
    decreases |catalog|
  {
    if catalog != [] {
      PoolSize(catalog[1..], level);
    }
  }

  /** Builds the pool as the source does: filter the catalog by level, then
      push each eligible template once per unit of frequency. */
  method BuildPool(catalog: seq<Template>, level: nat) returns (pool: seq<Template>)
    ensures pool == Pool(catalog, level)
  {
    pool := [];
    var i := 0;
    while i < |catalog|
      invariant 0 <= i <= |catalog|
      invariant pool == Pool(catalog[..i], level)
    {
      var t := catalog[i];
      if level in t.levels {
        pool := PushCopies(pool, t, t.frequency);
      }
      PoolExtend(catalog, i, level);
      i := i + 1;
    }
    assert catalog[..|catalog|] == catalog;
  }

  /** The loop `for _ in 0..frequency { pool.push(t) }`. */
  method PushCopies(pool: seq<Template>, t: Template, frequency: Int32) returns (out: seq<Template>)
    ensures out == pool + Repeat(t, if frequency > 0 then frequency else 0)
  {
    out := pool;
    var k: int := 0;
    while k < frequency
      invariant 0 <= k <= (if frequency > 0 then frequency else 0)
      invariant out == pool + Repeat(t, k)
    {
      out := out + [t];
      k := k + 1;
    }
  }

  /** The pool of one more catalog entry is the old pool plus that entry's copies. */
  lemma PoolExtend(catalog: seq<Template>, i: nat, level: nat)
    requires i < |catalog|
    ensures Pool(catalog[..i + 1], level) ==
      Pool(catalog[..i], level) + Repeat(catalog[i], Weight(catalog[i], level))
  {
    var t := catalog[i];
    assert catalog[..i + 1] == catalog[..i] + [t];
    assert Pool([t], level) == Repeat(t, Weight(t, level)) + Pool([], level);
    PoolAppend(catalog[..i], [t], level);
  }

  // ---------------------------------------------------------------------
  // One draw per spawn point
  // ---------------------------------------------------------------------

  /** One call of the pluggable `spawn_entity` capability. */
  datatype SpawnCall = SpawnCall(point: Point, template: Template)

  /** One draw per spawn point, each a valid index when the pool is non-empty. */
  predicate ValidDraws(pool: seq<Template>, points: seq<Point>, draws: seq<nat>) {
    |draws| == |points| && forall i :: 0 <= i < |draws| ==> pool == [] || draws[i] < |pool|
  }

  /** The calls the spawn pass makes: an empty pool yields no entry, so no call. */
  function SpawnCalls(pool: seq<Template>, points: seq<Point>, draws: seq<nat>): (r: seq<SpawnCall>)
    requires ValidDraws(pool, points, draws)
    ensures |r| == if pool == [] then 0 else |points|
    ensures forall i :: 0 <= i < |r| ==> r[i].point == points[i] && r[i].template == pool[draws[i]]
    decreases |points|
  {
    if points == [] || pool == [] then []
    else [SpawnCall(points[0], pool[draws[0]])] + SpawnCalls(pool, points[1..], draws[1..])
  }

  // ---------------------------------------------------------------------
  // Materializing one template
  // ---------------------------------------------------------------------

  function Effects(t: Template): seq<(string, Int32)> {
    match t.provided
    case None => []
    case Some(effects) => effects
  }

  /** One declared effect: a known name attaches its component; any other
      name only prints a warning. */
  function ApplyEffect(e: Entity, effect: (string, Int32)): Entity {
    if effect.0 == "Healing" then Add(e, ProvidesHealing(effect.1))
    else if effect.0 == "MagicMap" then Add(e, ProvidesDungeonMap)
    else e
  }

  /** The amount of the last "Healing" effect, which is the one that stays
      attached when several are declared. */
  function LastHealing(effects: seq<(string, Int32)>): Option<Int32>
    decreases |effects|
  {
    if effects == [] then None
    else if effects[|effects| - 1].0 == "Healing" then Some(effects[|effects| - 1].1)
    else LastHealing(effects[..|effects| - 1])
  }

  predicate NamesMagicMap(effects: seq<(string, Int32)>) {
    exists i :: 0 <= i < |effects| && effects[i].0 == "MagicMap"
  }

  /** The declared effects applied in order. Only effect components change;
      an unknown name neither adds anything nor stops later effects. */
  function ApplyEffects(e: Entity, effects: seq<(string, Int32)>): (r: Entity)
    ensures forall x: Component :: !x.ProvidesHealing? && !x.ProvidesDungeonMap? ==> (x in r <==> x in e)
    ensures ProvidesDungeonMap in r <==> ProvidesDungeonMap in e || NamesMagicMap(effects)
    ensures forall n: Int32 :: ProvidesHealing(n) in r <==>
      match LastHealing(effects)
      case Some(m) => n == m
      case None => ProvidesHealing(n) in e
    ensures OnePerType(e) ==> OnePerType(r)
    decreases |effects|
  {
    if effects == [] then e
    else
      var prefix := effects[..|effects| - 1];
      assert forall i :: 0 <= i < |prefix| ==> prefix[i] == effects[i];
      ApplyEffect(ApplyEffects(e, prefix), effects[|effects| - 1])
  }

  /** Dropping an effect whose name is neither "Healing" nor "MagicMap"
      changes nothing: an unknown name is skipped and the effects around it
      still apply. */
  lemma UnknownEffectIsSkipped(e: Entity, pre: seq<(string, Int32)>, unknown: (string, Int32),
                               post: seq<(string, Int32)>)
    requires unknown.0 != "Healing" && unknown.0 != "MagicMap"
    ensures ApplyEffects(e, pre + [unknown] + post) == ApplyEffects(e, pre + post)
  {
    var a := ApplyEffects(e, pre + [unknown] + post);
    var b := ApplyEffects(e, pre + post);
    LastHealingSkips(pre, unknown, post);
    MagicMapSkips(pre, unknown, post);
    assert forall x :: x in a <==> x in b;
  }

  lemma {:induction false} LastHealingSkips(pre: seq<(string, Int32)>, unknown: (string, Int32),
                                            post: seq<(string, Int32)>)
    requires unknown.0 != "Healing"
    ensures LastHealing(pre + [unknown] + post) == LastHealing(pre + post)
    decreases |post|
  {
    if post == [] {
      assert pre + [unknown] + post == pre + [unknown];
      assert (pre + [unknown])[..|pre|] == pre;
      assert pre + post == pre;
    } else {
      var last := post[|post| - 1];
      var init := post[..|post| - 1];
      assert post == init + [last];
      assert pre + [unknown] + post == (pre + [unknown] + init) + [last];
      assert pre + post == (pre + init) + [last];
      assert (pre + [unknown] + init + [last])[..|pre + [unknown] + init|] == pre + [unknown] + init;
      assert (pre + init + [last])[..|pre + init|] == pre + init;
      LastHealingSkips(pre, unknown, init);
    }
  }

  lemma MagicMapSkips(pre: seq<(string, Int32)>, unknown: (string, Int32), post: seq<(string, Int32)>)
    requires unknown.0 != "MagicMap"
    ensures NamesMagicMap(pre + [unknown] + post) <==> NamesMagicMap(pre + post)
  {
    var a := pre + [unknown] + post;
    var b := pre + post;
    if NamesMagicMap(a) {
      var i :| 0 <= i < |a| && a[i].0 == "MagicMap";
      if i < |pre| {
        assert b[i] == a[i];
      } else {
        assert b[i - 1] == a[i];
      }
    }
    if NamesMagicMap(b) {
      var i :| 0 <= i < |b| && b[i].0 == "MagicMap";
      if i < |pre| {
        assert a[i] == b[i];
      } else {
        assert a[i + 1] == b[i];
      }
    }
  }

  /** Declarative description of the entity a template materializes into at
      a point: the fixed set of components the source attaches, with no
      other component and no two of one type. */
  ghost predicate Materializes(pt: Point, t: Template, e: Entity) {
    && OnePerType(e)
    && CarriesBase(pt, t, e)
    && CarriesKind(t, e)
    && CarriesEffects(t, e)
    && CarriesDamage(t, e)
    && (forall c :: c in e ==> !c.Player? && !c.AmuletOfYala?)
  }

  /** Every spawned entity: the point, the template's glyph and its name. */
  ghost predicate CarriesBase(pt: Point, t: Template, e: Entity) {
    Position(pt) in e && Render(t.glyph) in e && Name(t.name) in e
  }

  /** An Item only gets the Item marker; an Enemy gets the Enemy marker,
      a field of view of radius 6, the chasing behaviour and full health. */
  ghost predicate CarriesKind(t: Template, e: Entity) {
    && (t.entityType == EntityType.Item ==>
          && Component.Item in e && Component.Enemy !in e && ChasingPlayer !in e
          && forall c :: c in e ==> !c.FieldOfView? && !c.Health?)
    && (t.entityType == EntityType.Enemy ==>
          && Component.Enemy in e && FieldOfView(6) in e && ChasingPlayer in e
          && t.hp.Some? && Health(t.hp.value, t.hp.value) in e
          && Component.Item !in e)
  }

  /** "MagicMap" grants the dungeon map; the last "Healing" sets the healing amount. */
  ghost predicate CarriesEffects(t: Template, e: Entity) {
    && (ProvidesDungeonMap in e <==> NamesMagicMap(Effects(t)))
    && (forall n: Int32 :: ProvidesHealing(n) in e <==> LastHealing(Effects(t)) == Some(n))
  }

  /** Damage iff a base damage is declared; Weapon iff moreover the template is an Item. */
  ghost predicate CarriesDamage(t: Template, e: Entity) {
    && (forall d: Int32 :: Damage(d) in e <==> t.baseDamage == Some(d))
    && (Weapon in e <==> t.entityType == EntityType.Item && t.baseDamage.Some?)
  }

  /** Components that neither the effects nor the base damage attach. */
  predicate FromBundle(x: Component) {
    !x.ProvidesHealing? && !x.ProvidesDungeonMap? && !x.Damage? && !x.Weapon?
  }

  /** True iff materializing `t` does not panic. */
  predicate CanMaterialize(t: Template) {
    t.entityType == EntityType.Item || t.hp.Some?
  }

  /** The base bundle (position, render, name), then the kind-specific
      components, the effects, and the damage/weapon pair. */
  function SpawnEntity(pt: Point, t: Template): (r: Result<Entity, SpawnError>)
    ensures r.Ok? <==> CanMaterialize(t)
    ensures r.Err? ==> r.error == MissingHitPoints
    ensures r.Ok? ==> Materializes(pt, t, r.value)
  {
    if !CanMaterialize(t) then Err(MissingHitPoints)
    else
      var e := WithDamage(ApplyEffects(KindedBundle(pt, t), Effects(t)), t);
      AssembledMaterializes(pt, t);
      Ok(e)
  }

  /** The assembled entity meets the declarative description. */
  lemma AssembledMaterializes(pt: Point, t: Template)
    requires CanMaterialize(t)
    ensures Materializes(pt, t, WithDamage(ApplyEffects(KindedBundle(pt, t), Effects(t)), t))
  {
    var k := KindedBundle(pt, t);
    var f := ApplyEffects(k, Effects(t));
    var e := WithDamage(f, t);
    assert forall x :: FromBundle(x) ==> (x in e <==> x in k);
    BundlePartsCarryOver(pt, t, k, e);
    EffectsOnBundle(k, t);
    DamageAfterEffects(f, t);
  }

  /** Effects applied to a bundle without effect or damage components. */
  lemma EffectsOnBundle(k: Entity, t: Template)
    requires forall x :: x in k ==> FromBundle(x)
    ensures CarriesEffects(t, ApplyEffects(k, Effects(t)))
    ensures forall x :: x in ApplyEffects(k, Effects(t)) ==> !x.Damage? && !x.Weapon?
  {
  }

  /** Damage and weapon attached after the effects leave the effects alone. */
  lemma DamageAfterEffects(f: Entity, t: Template)
    requires CarriesEffects(t, f)
    requires forall x :: x in f ==> !x.Damage? && !x.Weapon?
    ensures CarriesEffects(t, WithDamage(f, t)) && CarriesDamage(t, WithDamage(f, t))
  {
  }

  /** Base, kind and the absence of player parts only concern bundle components. */
  lemma BundlePartsCarryOver(pt: Point, t: Template, k: Entity, e: Entity)
    requires forall x :: FromBundle(x) ==> (x in e <==> x in k)
    requires forall x :: x in k ==> !x.Player? && !x.AmuletOfYala?
    requires CarriesBase(pt, t, k) && CarriesKind(t, k)
    ensures CarriesBase(pt, t, e) && CarriesKind(t, e)
    ensures forall x :: x in e ==> !x.Player? && !x.AmuletOfYala?
  {
  }

  /** The pushed bundle (position, render, name) plus the kind's components. */
  function KindedBundle(pt: Point, t: Template): (e: Entity)
    requires CanMaterialize(t)
    ensures OnePerType(e)
    ensures CarriesBase(pt, t, e) && CarriesKind(t, e)
    ensures forall x :: x in e ==> FromBundle(x) && !x.Player? && !x.AmuletOfYala?
  {
    var base := {Position(pt), Render(t.glyph), Name(t.name)};
    assert OnePerType(base);
    if t.entityType == EntityType.Item then Add(base, Component.Item)
    else
      var hp := t.hp.value;
      Add(Add(Add(Add(base, Component.Enemy), FieldOfView(6)), ChasingPlayer), Health(hp, hp))
  }

  /** A declared base damage attaches Damage; on an Item it also attaches Weapon. */
  function WithDamage(e: Entity, t: Template): (r: Entity)
    ensures forall x: Component :: !x.Damage? && !x.Weapon? ==> (x in r <==> x in e)
    ensures forall d: Int32 :: Damage(d) in r <==>
      (if t.baseDamage.Some? then d == t.baseDamage.value else Damage(d) in e)
    ensures Weapon in r <==> Weapon in e || (t.baseDamage.Some? && t.entityType == EntityType.Item)
    ensures OnePerType(e) ==> OnePerType(r)
  {
    match t.baseDamage
    case None => e
    case Some(d) =>
      var armed := Add(e, Damage(d));
      if t.entityType == EntityType.Item then Add(armed, Weapon) else armed
  }

  // ---------------------------------------------------------------------
  // The whole spawn pass
  // ---------------------------------------------------------------------

  /** Runs every call; a single panic means the buffer is never flushed. */
  function MaterializeAll(calls: seq<SpawnCall>): (r: Result<seq<Entity>, SpawnError>)
    ensures r.Ok? <==> forall i :: 0 <= i < |calls| ==> CanMaterialize(calls[i].template)
    ensures r.Ok? ==> |r.value| == |calls|
    ensures r.Ok? ==> forall i :: 0 <= i < |calls| ==>
      Materializes(calls[i].point, calls[i].template, r.value[i])
    decreases |calls|
  {
    if calls == [] then Ok([])
    else
      match SpawnEntity(calls[0].point, calls[0].template)
      case Err(e) => Err(e)
      case Ok(first) =>
        match MaterializeAll(calls[1..])
        case Err(e) => Err(e)
        case Ok(rest) => Ok([first] + rest)
  }

  /** `TemplateSpawner::spawn_entities` with the concrete spawner: build the
      pool, draw once per point, and append all new entities to the world
      in one flush, or panic. */
  function SpawnEntities(catalog: seq<Template>, world: World, level: nat,
                         points: seq<Point>, draws: seq<nat>): (r: Result<World, SpawnError>)
    requires ValidDraws(Pool(catalog, level), points, draws)
    ensures r.Err? <==> (Pool(catalog, level) != [] &&
      exists i :: 0 <= i < |points| && !CanMaterialize(Pool(catalog, level)[draws[i]]))
    ensures r.Ok? ==> |r.value| == |world| + (if Pool(catalog, level) == [] then 0 else |points|)
    ensures r.Ok? ==> r.value[..|world|] == world
    ensures r.Ok? && Pool(catalog, level) != [] ==> forall i :: 0 <= i < |points| ==>
      Materializes(points[i], Pool(catalog, level)[draws[i]], r.value[|world| + i])
  {
    var calls := SpawnCalls(Pool(catalog, level), points, draws);
    match MaterializeAll(calls)
    case Err(e) => Err(e)
    case Ok(spawned) => Ok(world + spawned)
  }

  /** Every entity a spawn pass creates comes from a template of the catalog
      that lists the level and has positive frequency. */
  lemma SpawnedTemplatesEligible(catalog: seq<Template>, level: nat,
                                 points: seq<Point>, draws: seq<nat>)
    requires ValidDraws(Pool(catalog, level), points, draws)
    ensures forall c :: c in SpawnCalls(Pool(catalog, level), points, draws) ==>
      c.template in catalog && level in c.template.levels && c.template.frequency > 0
  {
    PoolMembership(catalog, level);
  }

  // ---------------------------------------------------------------------
  // The module's unit test, as a lemma
  // ---------------------------------------------------------------------

  /** The archetype the test uses three times. */
  const TestPotion := Template(EntityType.Item, {0, 1, 2}, 5, "Test Potion", '/',
                               Some([("ProvidesHealing", 5)]), None, None)

  /** Three spawn points over the test catalog at level 0 make three calls,
      whatever the random source picks. */
  lemma TestSpawnsThree(draws: seq<nat>)
    requires ValidDraws(Pool([TestPotion, TestPotion, TestPotion], 0),
                        [Point(1, 1), Point(2, 2), Point(3, 3)], draws)
    ensures |SpawnCalls(Pool([TestPotion, TestPotion, TestPotion], 0),
                        [Point(1, 1), Point(2, 2), Point(3, 3)], draws)| == 3
  {
  }

  /** The test potion's effect name "ProvidesHealing" is not one the spawner
      knows, so the concrete spawner would give it no healing component. */
  lemma TestPotionHealsNothing(pt: Point)
    ensures SpawnEntity(pt, TestPotion).Ok?
    ensures forall n: Int32 :: ProvidesHealing(n) !in SpawnEntity(pt, TestPotion).value
  {
  }
}
