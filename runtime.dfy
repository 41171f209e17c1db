/**
 * The runtime registries the admin engine consumes: `FakePlayerManager` (the live fake
 * players by object id) and `CharNameTable` (the object ids whose names are reserved).
 * Both are process-wide singletons in the source; here they are the fields of one object
 * passed to every operation that reads or changes them.
 */
module Runtime {
  import opened Common

  /** What the admin engine reads of a live `FakePlayer`. */
  datatype LivePlayer = LivePlayer(
    name: Option<string>, classId: Option<ClassId>, level: int,
    x: int, y: int, z: int, action: Option<string>)

  class World {
    /** `FakePlayerManager`: the live players by object id. */
    var live: map<int, LivePlayer>
    /** `CharNameTable`: the object ids registered there. */
    var named: set<int>

    constructor (live: map<int, LivePlayer>, named: set<int>)
      ensures this.live == live && this.named == named
    {
      this.live := live;
      this.named := named;
    }

    /**
     * `FakePlayerFactory.create(classId, x, y, z)`: a new player of that class, at that
     * position, under an object id no live player has. The name, level and action it gets
     * are the factory's choice.
     */
    method Create(classId: ClassId, x: int, y: int, z: int) returns (id: int)
      modifies this
      ensures id > 0 && id !in old(live)
      ensures id in live && live == old(live)[id := live[id]]
      ensures live[id].classId == Some(classId) && live[id].x == x && live[id].y == y && live[id].z == z
      ensures named == old(named)
    {
      FreeIdExists(live.Keys);
      id :| id > 0 && id !in live.Keys;
      assert LivePlayer(None, Some(classId), 0, x, y, z, None).classId == Some(classId);
      var fp: LivePlayer :| fp.classId == Some(classId) && fp.x == x && fp.y == y && fp.z == z;
      live := live[id := fp];
    }

    /**
     * A restored player entering the world: `CharNameTable.register`, then
     * `FakePlayerManager.register` and `spawnMe`.
     */
    method Register(id: int, fp: LivePlayer)
      modifies this
      ensures live == old(live)[id := fp]
      ensures named == old(named) + {id}
    {
      named := named + {id};
      live := live[id := fp];
    }

    /** `teleToLocation(x, y, z, 0)`: the player moves, nothing else changes. */
    method Teleport(id: int, x: int, y: int, z: int)
      requires id in live
      modifies this
      ensures live == old(live)[id := old(live)[id].(x := x, y := y, z := z)]
      ensures named == old(named)
    {
      live := live[id := live[id].(x := x, y := y, z := z)];
    }

    /** `CharNameTable.unregister(id)`. */
    method Unregister(id: int)
      modifies this
      ensures named == old(named) - {id}
      ensures live == old(live)
    {
      named := named - {id};
    }

    /**
     * `abortAttack(); abortCast(); deleteMe()` on a live player: it leaves the world and the
     * live registry. The two aborts change nothing the model records.
     */
    method Despawn(id: int)
      requires id in live
      modifies this
      ensures live == old(live) - {id}
      ensures named == old(named)
    {
      live := live - {id};
    }
  }
}
