/** The chain follower: what one notification does to the store, the rate-limited
    retention sweep, and the bound it keeps on the stored window. */
module FollowerModel {
  import opened Types
  import opened Tables
  import opened StoreModel
  import opened StagingModel
  import opened Branches

  const EXPIRE_INTERVAL_DAA := 900
  const DAA_PER_DAY := 864_000

  /** Whether an apply that reached DAA `daa` triggers a sweep. */
  predicate Due(window: nat, last: nat, daa: nat) {
    window > 0 && daa > window && daa >= last + EXPIRE_INTERVAL_DAA
  }

  /** The store and the DAA of the last sweep. */
  datatype State = State(d: Database, last: nat)

  function FollowApply(f: State, gs: seq<Group>, window: nat, cx: Codec): State {
    var daa := StatsFor(f.d, gs, cx).checkpointDaa;
    if gs == [] then f
    else if Due(window, f.last, daa) then State(Expire(Apply(f.d, gs, cx), daa - window), daa)
    else State(Apply(f.d, gs, cx), f.last)
  }

  function AfterRemoval(f: State, removed: seq<string>): State {
    f.(d := f.d.(core := UnwindAll(f.d.core, removed)))
  }

  /** One `VirtualChainChanged`: unwind what was removed, then apply what was added. */
  function FollowNotice(f: State, removed: seq<string>, gs: seq<Group>, window: nat, cx: Codec): State {
    FollowApply(AfterRemoval(f, removed), gs, window, cx)
  }

  // --- the follower object ---

  class Follower {
    const store: Store
    const window: nat
    var lastExpire: nat
    var totalMisses: nat

    constructor (store: Store, windowDays: nat)
      ensures this.store == store && lastExpire == 0 && totalMisses == 0
      ensures window == if windowDays * DAA_PER_DAY < TWO64 then windowDays * DAA_PER_DAY else TWO64 - 1
    {
      this.store := store;
      window := if windowDays * DAA_PER_DAY < TWO64 then windowDays * DAA_PER_DAY else TWO64 - 1;
      lastExpire, totalMisses := 0, 0;
    }

    /** Apply a batch and sweep if one is due. */
    method ApplyGroups(groups: seq<Group>, misses: nat)
      requires store.Valid()
      modifies this, store
      ensures store.Valid()
      ensures State(store.db, lastExpire) == FollowApply(old(State(store.db, lastExpire)), groups, window, store.cx)
      ensures totalMisses == old(totalMisses) + if groups == [] then 0 else misses
      ensures var applied, daa := Apply(old(store.db), groups, store.cx),
                                  StatsFor(old(store.db), groups, store.cx).checkpointDaa;
        if groups != [] && window > 0 && daa > window && daa >= old(lastExpire) + 900
        then store.db == Expire(applied, daa - window) && lastExpire == daa
        else store.db == applied && lastExpire == old(lastExpire)
    {
      hide StatsFor, Apply, Expire;
      if groups == [] {
        ApplyNone(store.db, store.cx);
        return;
      }
      var stats := store.Apply(groups);
      totalMisses := totalMisses + misses;
      if window > 0 && stats.checkpointDaa > window && stats.checkpointDaa >= lastExpire + EXPIRE_INTERVAL_DAA {
        var _ := store.ExpireBelow(stats.checkpointDaa - window);
        lastExpire := stats.checkpointDaa;
      }
    }

    /** A live reorg or extension notification: unwind the removed blocks, join the acceptance
        lists with the staged bodies, apply. */
    method OnVirtualChainChanged(
      removed: seq<string>, accepted: seq<Acceptance>, staging: Staging, resolve: string -> nat)
      returns (groups: seq<Group>)
      requires store.Valid() && staging.Valid()
      modifies this, store
      ensures store.Valid() && staging.Valid() && |groups| == |accepted|
      ensures forall i :: 0 <= i < |groups| ==>
        Joins(groups[i], accepted[i], staging.txBodies.map_, staging.blockDaa.map_, resolve)
      ensures State(store.db, lastExpire)
           == FollowNotice(old(State(store.db, lastExpire)), removed, groups, window, store.cx)
      ensures CountTxs(groups) + totalMisses == CountIds(accepted) + old(totalMisses)
    {
      hide FollowApply, UnwindBlock, Joins, Resident, Holds, Keyed;
      ghost var start := store.db;
      for i := 0 to |removed|
        invariant store.Valid() && staging.Valid() && lastExpire == old(lastExpire) && totalMisses == old(totalMisses)
        invariant store.db == start.(core := UnwindAll(start.core, removed[..i]))
      {
        assert removed[..i + 1][..i] == removed[..i];
        var _ := store.UnwindChainBlock(removed[i]);
      }
      assert removed[..|removed|] == removed;
      var misses;
      groups, misses := BuildGroups(staging, accepted, resolve);
      CountsOfNothing(accepted);
      ApplyGroups(groups, misses);
    }

    /** The gap-fill after a (re)connect: it stages the blocks it fetched (none if the fetch
        failed), joins and applies the added blocks, and does nothing about removed ones. */
    method Backfill(fetched: seq<WireBlock>, accepted: seq<Acceptance>, staging: Staging, resolve: string -> nat)
      returns (groups: seq<Group>)
      requires store.Valid() && staging.Valid()
      modifies this, store, staging.blockDaa, staging.txBodies
      ensures store.Valid() && staging.Valid() && |groups| == |accepted|
      ensures staging.blockDaa.ops == old(staging.blockDaa.ops) + AllDaaInsertions(fetched)
      ensures staging.txBodies.ops == old(staging.txBodies.ops) + AllBodyInsertions(fetched)
      ensures forall i :: 0 <= i < |groups| ==>
        Joins(groups[i], accepted[i], staging.txBodies.map_, staging.blockDaa.map_, resolve)
      ensures State(store.db, lastExpire) == FollowApply(old(State(store.db, lastExpire)), groups, window, store.cx)
      ensures CountTxs(groups) + totalMisses == CountIds(accepted) + old(totalMisses)
    {
      hide Joins, Resident, Holds, Keyed, AllDaaInsertions, AllBodyInsertions, FollowApply;
      staging.StageBlocks(fetched);
      var misses;
      groups, misses := BuildGroups(staging, accepted, resolve);
      CountsOfNothing(accepted);
      ApplyGroups(groups, misses);
    }
  }
}
