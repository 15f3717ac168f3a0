/** The host entity framework, reduced to what the loaders rely on: spawning
    hands out a handle that was never handed out before, and despawning
    removes it. Each live entity carries the component the loader tags it
    with. */
module Host {

  type Entity = nat

  class Scene<Tag> {
    var tags: map<Entity, Tag>
    var next: Entity

    ghost predicate Valid()
      reads this
    {
      forall e | e in tags :: e < next
    }

    constructor ()
      ensures Valid() && tags == map[]
    {
      tags := map[];
      next := 0;
    }

    /** `commands.spawn(..).id()`: a fresh handle tagged with `t`. */
    method Spawn(t: Tag) returns (e: Entity)
      requires Valid()
      modifies this
      ensures Valid()
      ensures e == old(next) && next == old(next) + 1 && e !in old(tags)
      ensures tags == old(tags)[e := t]
    {
      e := next;
      next := next + 1;
      tags := tags[e := t];
    }

    /** `commands.entity(e).despawn()`. */
    method Despawn(e: Entity)
      requires Valid()
      modifies this
      ensures Valid() && next == old(next)
      ensures tags == old(tags) - {e}
    {
      tags := tags - {e};
    }
  }
}
