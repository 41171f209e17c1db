/**
 * The lifecycle commands of `FakeAdminService`: create fake players at a point, bring pinned
 * offline players back at a point, and take pinned players out of the world. Each validates
 * its arguments first and throws before any side effect; the random jitter is a
 * nondeterministic choice in `[-radius, radius]`.
 */
module Lifecycle {
  import opened Common
  import opened Runtime

  /** The rejection a command with no pinned targets throws. */
  const NoPinned: Failure := IllegalState("No pinned targets.")
  /** The rejection a command without a teleport point throws. */
  const NoPoint: Failure := IllegalArgument("Select a Point.")
  /** The rejection `createAtPoint` without a class throws. */
  const NoClass: Failure := IllegalArgument("Select a ClassId.")

  /** The rejection `createAtPoint` throws when no AI is registered for the class. */
  function NoAi(c: ClassId): Failure {
    IllegalState("No FakePlayer AI registered for: " + c.name)
  }

  /**
   * A position the jitter can produce around `base`: the height is the base height, and x
   * and y are the base's when `radius <= 0` and at most `radius` away from it otherwise.
   */
  predicate Within(base: Location, radius: int, x: int, y: int, z: int) {
    z == base.z
    && (radius <= 0 ==> x == base.x && y == base.y)
    && (radius > 0 ==> base.x - radius <= x <= base.x + radius && base.y - radius <= y <= base.y + radius)
  }

  /** The jittered position both commands compute: `base` plus `Rnd.get(-radius, radius)` on x and y when `radius > 0`. */
  method Jitter(base: Location, radius: int) returns (x: int, y: int, z: int)
    ensures Within(base, radius, x, y, z)
  {
    x, y, z := base.x, base.y, base.z;
    if radius > 0 {
      var dx :| -radius <= dx <= radius;
      var dy :| -radius <= dy <= radius;
      x := x + dx;
      y := y + dy;
    }
  }

  /**
   * `createAtPoint`: `count` new players of the class, each at a jittered position around the
   * point. The created ids are fresh and distinct, and no player already live is touched.
   */
  method CreateAtPoint(world: World, point: Option<Location>, classId: Option<ClassId>, count: int, radius: int, ais: set<ClassId>)
    returns (r: Result<seq<int>>)
    modifies world
    ensures point.None? ==> r == Err(NoPoint) && world.live == old(world.live) && world.named == old(world.named)
    ensures point.Some? && classId.None? ==> r == Err(NoClass) && world.live == old(world.live) && world.named == old(world.named)
    ensures point.Some? && classId.Some? && count <= 0 ==> r == Ok([]) && world.live == old(world.live) && world.named == old(world.named)
    ensures point.Some? && classId.Some? && count > 0 && classId.value !in ais ==>
      r == Err(NoAi(classId.value)) && world.live == old(world.live) && world.named == old(world.named)
    ensures point.Some? && classId.Some? && count > 0 && classId.value in ais ==>
      r.Ok? && |r.value| == count && Distinct(r.value)
      && world.live.Keys == old(world.live).Keys + Elements(r.value)
      && (forall id :: id in old(world.live) ==> world.live[id] == old(world.live)[id])
      && (forall k :: 0 <= k < count ==>
            r.value[k] !in old(world.live) && r.value[k] in world.live
            && world.live[r.value[k]].classId == classId
            && Within(point.value, radius, world.live[r.value[k]].x, world.live[r.value[k]].y, world.live[r.value[k]].z))
      && world.named == old(world.named)
  {
    if point.None? {
      return Err(NoPoint);
    }
    if classId.None? {
      return Err(NoClass);
    }
    if count <= 0 {
      return Ok([]);
    }
    if classId.value !in ais {
      return Err(NoAi(classId.value));
    }
    var base := point.value;
    ghost var live0 := world.live;
    var created: seq<int> := [];
    for i := 0 to count
      invariant |created| == i && Distinct(created)
      invariant Grown(live0, world.live, Elements(created), base, radius)
      invariant forall k :: 0 <= k < i ==> world.live[created[k]].classId == classId
      invariant world.named == old(world.named)
    {
      var x, y, z := Jitter(base, radius);
      ghost var pre := world.live;
      var id := world.Create(classId.value, x, y, z);
      assert id !in Elements(created);
      GrowStep(live0, pre, Elements(created), base, radius, id, world.live[id]);
      ElementsAppend(created, id);
      created := created + [id];
    }
    return Ok(created);
  }

  /**
   * `restoreSingle`: a live player is returned as it is; otherwise `FakePlayer.restore` either
   * fails (the exception is swallowed and nothing changes) or yields a player that is
   * registered and spawned.
   */
  method RestoreSingle(world: World, objId: int) returns (ok: bool)
    modifies world
    ensures objId in old(world.live) ==> ok && world.live == old(world.live) && world.named == old(world.named)
    ensures objId !in old(world.live) && !ok ==> world.live == old(world.live) && world.named == old(world.named)
    ensures objId !in old(world.live) && ok ==>
      objId in world.live && world.live == old(world.live)[objId := world.live[objId]]
      && world.named == old(world.named) + {objId}
  {
    if objId in world.live {
      return true;
    }
    var restored: bool :| true;
    if !restored {
      return false;
    }
    var fake: LivePlayer :| true;
    world.Register(objId, fake);
    return true;
  }

  /**
   * `spawnPinnedOfflineToPoint`: every pinned id that is not live is restored and teleported
   * to a jittered position; live ids and failed restores are skipped. The count is the number
   * of players that entered the world.
   */
  method SpawnPinnedOfflineToPoint(world: World, pinned: set<int>, point: Option<Location>, radius: int)
    returns (r: Result<nat>)
    modifies world
    ensures pinned == {} ==> r == Err(NoPinned) && world.live == old(world.live) && world.named == old(world.named)
    ensures pinned != {} && point.None? ==> r == Err(NoPoint) && world.live == old(world.live) && world.named == old(world.named)
    ensures pinned != {} && point.Some? ==>
      var entered := world.live.Keys - old(world.live).Keys;
      r == Ok(|entered|) && r.value <= |pinned|
      && old(world.live).Keys <= world.live.Keys && entered <= pinned
      && (forall id :: id in old(world.live) ==> world.live[id] == old(world.live)[id])
      && (forall id :: id in entered ==>
            Within(point.value, radius, world.live[id].x, world.live[id].y, world.live[id].z))
      && world.named == old(world.named) + entered
  {
    if pinned == {} {
      return Err(NoPinned);
    }
    if point.None? {
      return Err(NoPoint);
    }
    var spawned := SpawnAll(world, pinned, point.value, radius);
    return Ok(spawned);
  }

  /** The loop of `spawnPinnedOfflineToPoint`, once the arguments are validated. */
  method SpawnAll(world: World, pinned: set<int>, base: Location, radius: int) returns (spawned: nat)
    modifies world
    ensures var entered := world.live.Keys - old(world.live).Keys;
      spawned == |entered| && spawned <= |pinned|
      && old(world.live).Keys <= world.live.Keys && entered <= pinned
      && (forall id :: id in old(world.live) ==> world.live[id] == old(world.live)[id])
      && (forall id :: id in entered ==> Within(base, radius, world.live[id].x, world.live[id].y, world.live[id].z))
      && world.named == old(world.named) + entered
  {
    ghost var live0, named0 := world.live, world.named;
    ghost var entered: set<int> := {};
    spawned := 0;
    var remaining := pinned;
    while remaining != {}
      invariant remaining <= pinned && entered <= pinned && entered !! remaining
      invariant Grown(live0, world.live, entered, base, radius) && world.named == named0 + entered
      invariant spawned == |entered|
      decreases |remaining|
    {
      Inhabited(remaining);
      var objId :| objId in remaining;
      assert objId !in entered;
      remaining := remaining - {objId};
      var came := SpawnTracked(world, objId, base, radius, live0, named0, entered);
      if came {
        assert |entered + {objId}| == |entered| + 1;
        entered := entered + {objId};
        spawned := spawned + 1;
      }
    }
    SpawnFinal(live0, named0, world.live, world.named, entered, pinned, base, radius);
  }

  /** `SpawnOne`, with what it does to the loop's description of the registry. */
  method SpawnTracked(world: World, objId: int, base: Location, radius: int,
                      ghost live0: map<int, LivePlayer>, ghost named0: set<int>, ghost entered: set<int>)
    returns (came: bool)
    requires Grown(live0, world.live, entered, base, radius) && world.named == named0 + entered
    modifies world
    ensures var now := if came then entered + {objId} else entered;
      Grown(live0, world.live, now, base, radius) && world.named == named0 + now
  {
    ghost var pre, preNamed := world.live, world.named;
    came := SpawnOne(world, objId, base, radius);
    SpawnStep(live0, named0, pre, preNamed, world.live, world.named, entered, objId, came, base, radius);
  }

  /**
   * One pass of the spawn loop: a live id is skipped; otherwise the player is restored and,
   * when that succeeds, teleported to a jittered position around `base`.
   */
  method SpawnOne(world: World, objId: int, base: Location, radius: int) returns (came: bool)
    modifies world
    ensures !came ==> world.live == old(world.live) && world.named == old(world.named)
    ensures came ==>
      objId !in old(world.live) && objId in world.live
      && world.live == old(world.live)[objId := world.live[objId]]
      && Within(base, radius, world.live[objId].x, world.live[objId].y, world.live[objId].z)
      && world.named == old(world.named) + {objId}
    ensures objId in old(world.live) ==> !came
  {
    if objId in world.live {
      return false;
    }
    var ok := RestoreSingle(world, objId);
    if !ok {
      return false;
    }
    var x, y, z := Jitter(base, radius);
    world.Teleport(objId, x, y, z);
    return true;
  }

  /**
   * `despawnPinnedOnline`: every pinned id that is live leaves the world. The count is the
   * number of pinned ids that were live.
   */
  method DespawnPinnedOnline(world: World, pinned: set<int>) returns (r: Result<nat>)
    modifies world
    ensures pinned == {} ==> r == Err(NoPinned) && world.live == old(world.live) && world.named == old(world.named)
    ensures pinned != {} ==>
      r == Ok(|pinned * old(world.live).Keys|)
      && world.live == old(world.live) - pinned
      && world.named == old(world.named)
  {
    if pinned == {} {
      return Err(NoPinned);
    }
    ghost var live0, named0 := world.live, world.named;
    ghost var done: set<int> := {};
    var despawned := 0;
    var remaining := pinned;
    while remaining != {}
      invariant done + remaining == pinned && done !! remaining
      invariant world.live == live0 - done
      invariant despawned == |done * live0.Keys|
      invariant world.named == named0
      decreases |remaining|
    {
      Inhabited(remaining);
      var objId :| objId in remaining;
      CountStep(done, objId, live0.Keys);
      RemoveStep(live0, done, objId);
      remaining := remaining - {objId};
      done := done + {objId};
      if objId in world.live {
        world.Despawn(objId);
        despawned := despawned + 1;
      }
    }
    return Ok(despawned);
  }

  /** Removing one more id from a registry already stripped of `done` strips it of `done + {x}`. */
  lemma RemoveStep(m: map<int, LivePlayer>, done: set<int>, x: int)
    ensures (m - done) - {x} == m - (done + {x})
    ensures x !in m - done ==> m - done == m - (done + {x})
  {
  }

  /**
   * `live` is `live0` plus the players under the ids `added`, each within the jitter of
   * `base`, with every earlier player as it was.
   */
  ghost predicate Grown(live0: map<int, LivePlayer>, live: map<int, LivePlayer>, added: set<int>, base: Location, radius: int) {
    live.Keys == live0.Keys + added && added !! live0.Keys
    && (forall id :: id in live0 ==> live[id] == live0[id])
    && (forall id :: id in added ==> Within(base, radius, live[id].x, live[id].y, live[id].z))
  }

  /** One more player under a fresh id, placed within the jitter, keeps the registry grown. */
  lemma GrowStep(live0: map<int, LivePlayer>, live: map<int, LivePlayer>, added: set<int>, base: Location, radius: int, id: int, p: LivePlayer)
    requires Grown(live0, live, added, base, radius) && id !in live
    requires Within(base, radius, p.x, p.y, p.z)
    ensures Grown(live0, live[id := p], added + {id}, base, radius)
  {
  }

  /** One pass of the spawn loop keeps the registry grown by the players that entered. */
  lemma SpawnStep(live0: map<int, LivePlayer>, named0: set<int>, pre: map<int, LivePlayer>, preNamed: set<int>,
                  post: map<int, LivePlayer>, postNamed: set<int>, entered: set<int>, objId: int, came: bool,
                  base: Location, radius: int)
    requires Grown(live0, pre, entered, base, radius) && preNamed == named0 + entered
    requires !came ==> post == pre && postNamed == preNamed
    requires came ==> (objId !in pre && objId in post && post == pre[objId := post[objId]]
      && Within(base, radius, post[objId].x, post[objId].y, post[objId].z) && postNamed == preNamed + {objId})
    ensures var now := if came then entered + {objId} else entered;
      Grown(live0, post, now, base, radius) && postNamed == named0 + now
  {
    if came {
      GrowStep(live0, pre, entered, base, radius, objId, post[objId]);
    }
  }

  /** What the spawn loop's description of the registry gives once every pinned id is done. */
  lemma SpawnFinal(live0: map<int, LivePlayer>, named0: set<int>, live: map<int, LivePlayer>, named: set<int>,
                   entered: set<int>, pinned: set<int>, base: Location, radius: int)
    requires Grown(live0, live, entered, base, radius) && named == named0 + entered && entered <= pinned
    ensures var e := live.Keys - live0.Keys;
      e == entered && |e| <= |pinned| && live0.Keys <= live.Keys && e <= pinned
      && (forall id :: id in live0 ==> live[id] == live0[id])
      && (forall id :: id in e ==> Within(base, radius, live[id].x, live[id].y, live[id].z))
      && named == named0 + e
  {
    SubsetCardinality(entered, pinned);
    GrownFinal(live0, live, entered, base, radius);
  }

  /** What a grown registry says about the ids that entered and the players that were there. */
  lemma GrownFinal(live0: map<int, LivePlayer>, live: map<int, LivePlayer>, added: set<int>, base: Location, radius: int)
    requires Grown(live0, live, added, base, radius)
    ensures live.Keys - live0.Keys == added && live0.Keys <= live.Keys
  {
  }
}
