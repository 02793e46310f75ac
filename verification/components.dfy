/** The components an entity can carry, and an entity as the set of its
    components. The entity store keeps at most one component of each type
    per entity: adding a component of a type the entity already has
    replaces the old one. */
module Components {
  import opened Prelude

  datatype Component =
    | Position(point: Point)
    | Render(glyph: char)
    | Name(name: string)
    | Player(mapLevel: nat)
    | Item
    | Enemy
    | ChasingPlayer
    | AmuletOfYala
    | FieldOfView(radius: Int32)
    | Health(current: Int32, max: Int32)
    | Damage(damage: Int32)
    | Weapon
    | ProvidesHealing(amount: Int32)
    | ProvidesDungeonMap

  /** True iff `a` and `b` are components of the same Rust type. */
  predicate SameType(a: Component, b: Component) {
    match a
    case Position(_) => b.Position?
    case Render(_) => b.Render?
    case Name(_) => b.Name?
    case Player(_) => b.Player?
    case Item => b.Item?
    case Enemy => b.Enemy?
    case ChasingPlayer => b.ChasingPlayer?
    case AmuletOfYala => b.AmuletOfYala?
    case FieldOfView(_) => b.FieldOfView?
    case Health(_, _) => b.Health?
    case Damage(_) => b.Damage?
    case Weapon => b.Weapon?
    case ProvidesHealing(_) => b.ProvidesHealing?
    case ProvidesDungeonMap => b.ProvidesDungeonMap?
  }

  type Entity = set<Component>

  /** The store's invariant: no entity holds two components of one type. */
  predicate OnePerType(e: Entity) {
    forall a, b :: a in e && b in e && SameType(a, b) ==> a == b
  }

  /** Attach `c` to `e`, replacing any component of the same type. */
  function Add(e: Entity, c: Component): (r: Entity)
    ensures c in r
    ensures forall x :: x in r <==> x == c || (x in e && !SameType(x, c))
    ensures OnePerType(e) ==> OnePerType(r)
  {
    (set x | x in e && !SameType(x, c)) + {c}
  }
}
