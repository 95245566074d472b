/**
 * The depth-first walk over ally and enemy links. The exclusion store is
 * the visited set: a group's ID is appended before its relationships are
 * walked, which breaks cycles, and each newly visited available group is
 * reported after its neighbours, allies before enemies.
 */
module Relationships {
  import opened Types
  import opened Availability
  import opened Exclusion

  /**
   * How a visit ends: normally, saying whether the visited group was
   * reported (for a list of groups or a relationship walk, always
   * `false`), or aborted by a panic, which ends the whole process.
   */
  datatype Status = Finished(reported: bool) | Aborted

  /** The store's list, the reports emitted and the status after a visit. */
  datatype Walk = Walk(ids: seq<GroupId>, reports: seq<GroupId>, status: Status)

  /** The group IDs not yet in `ids`: the measure that bounds the walk. */
  ghost function Unvisited(ids: seq<GroupId>): set<int> {
    set x: int | 0 <= x < U32_LIMIT && x !in ids
  }

  lemma UnvisitedShrinks(ids: seq<GroupId>, id: GroupId)
    requires id !in ids
    ensures Unvisited(ids + [id]) < Unvisited(ids)
  {
    assert id in Unvisited(ids) && id !in Unvisited(ids + [id]);
  }

  lemma UnvisitedOfExtension(ids: seq<GroupId>, more: seq<GroupId>)
    requires ids <= more
    ensures Unvisited(more) <= Unvisited(ids)
  {
    forall x | x in ids ensures x in more {
      var k :| 0 <= k < |ids| && ids[k] == x;
      assert more[k] == x;
    }
  }

  /**
   * Two visits one after the other: the reports of `second` follow those
   * of `first`, and the pair ends normally unless `second` aborted.
   */
  function Then(first: Walk, second: Walk): (w: Walk) {
    Walk(second.ids, first.reports + second.reports, if second.status.Aborted? then Aborted else Finished(false))
  }

  /** `process_group` on `g`, starting from the store's list `ids`. */
  function VisitGroup(api: Api, cfg: Config, g: Group, ids: seq<GroupId>): (w: Walk)
    ensures ids <= w.ids
    decreases Unvisited(ids), 0, 0
  {
    if g.id in ids then Walk(ids, [], Finished(false))
    else
      UnvisitedShrinks(ids, g.id);
      var rel := VisitRelationships(api, cfg, g.id, ids + [g.id]);
      if rel.status.Aborted? then rel
      else if IsAvailable(g, cfg) then Walk(rel.ids, rel.reports + [g.id], Finished(true))
      else Walk(rel.ids, rel.reports, Finished(false))
  }

  /**
   * `process_relationships` for the group `id`: both pages are requested
   * first; a request that cannot be sent is an error (on which the caller
   * panics), a page that does not decode is skipped, and the allies are
   * walked before the enemies.
   */
  function VisitRelationships(api: Api, cfg: Config, id: GroupId, ids: seq<GroupId>): (w: Walk)
    ensures ids <= w.ids
    decreases Unvisited(ids), 3, 0
  {
    var allies := api.allies(id);
    var enemies := api.enemies(id);
    if allies.SendFailed? || enemies.SendFailed? then Walk(ids, [], Aborted)
    else
      var a := VisitPage(api, cfg, allies, ids);
      if a.status.Aborted? then a
      else
        UnvisitedOfExtension(ids, a.ids);
        Then(a, VisitPage(api, cfg, enemies, a.ids))
  }

  /** A relationship page that does not decode is skipped. */
  function VisitPage(api: Api, cfg: Config, page: Response<seq<Group>>, ids: seq<GroupId>): (w: Walk)
    ensures ids <= w.ids
    ensures w.status != Finished(true)
    decreases Unvisited(ids), 2, 0
  {
    if page.Decoded? then VisitEach(api, cfg, page.value, ids) else Walk(ids, [], Finished(false))
  }

  /**
   * The `for` loop over one relationship page: the groups in order, the
   * last one visited after the loop over the others, stopping at a panic.
   */
  function VisitEach(api: Api, cfg: Config, gs: seq<Group>, ids: seq<GroupId>): (w: Walk)
    ensures ids <= w.ids
    ensures w.status != Finished(true)
    decreases Unvisited(ids), 1, |gs|
  {
    if gs == [] then Walk(ids, [], Finished(false))
    else
      var done := VisitEach(api, cfg, gs[..|gs| - 1], ids);
      if done.status.Aborted? then done
      else
        UnvisitedOfExtension(ids, done.ids);
        Then(done, VisitGroup(api, cfg, gs[|gs| - 1], done.ids))
  }

  /** Once the loop over a prefix of the page panicked, the rest is not walked. */
  lemma {:induction false} AbortStopsEach(api: Api, cfg: Config, gs: seq<Group>, n: nat, ids: seq<GroupId>)
    requires n <= |gs| && VisitEach(api, cfg, gs[..n], ids).status.Aborted?
    ensures VisitEach(api, cfg, gs, ids) == VisitEach(api, cfg, gs[..n], ids)
    decreases |gs|
  {
    if n < |gs| {
      var init := gs[..|gs| - 1];
      assert init[..n] == gs[..n];
      AbortStopsEach(api, cfg, init, n, ids);
    } else {
      assert gs[..n] == gs;
    }
  }

  // ---------------------------------------------------------------------
  // What every walk guarantees
  // ---------------------------------------------------------------------

  /** The IDs a walk from `ids` appended to the store. */
  function Added(ids: seq<GroupId>, w: Walk): seq<GroupId>
    requires ids <= w.ids
  {
    w.ids[|ids|..]
  }

  /**
   * A walk from `ids` only appends, appends each ID at most once and only
   * IDs not already present, reports only IDs it appended, and reports
   * none twice.
   */
  ghost predicate Sound(ids: seq<GroupId>, w: Walk) {
    && ids <= w.ids
    && NoDup(Added(ids, w))
    && (forall x :: x in Added(ids, w) ==> x !in ids)
    && (forall x :: x in w.reports ==> x in Added(ids, w))
    && NoDup(w.reports)
  }

  lemma SoundThen(ids: seq<GroupId>, first: Walk, second: Walk)
    requires Sound(ids, first) && Sound(first.ids, second)
    ensures Sound(ids, Then(first, second))
  {
    var w := Then(first, second);
    var d1, d2 := Added(ids, first), Added(first.ids, second);
    assert Added(ids, w) == d1 + d2;
    forall x | x in d1 ensures x in first.ids {
      var k :| 0 <= k < |d1| && d1[k] == x;
      assert first.ids[|ids| + k] == x;
    }
    forall i, j | 0 <= i < j < |d1 + d2| ensures (d1 + d2)[i] != (d1 + d2)[j] {
      if i < |d1| && j >= |d1| {
        assert (d1 + d2)[i] in d1 && (d1 + d2)[j] in d2;
      }
    }
    forall i, j | 0 <= i < j < |w.reports| ensures w.reports[i] != w.reports[j] {
      if i < |first.reports| && j >= |first.reports| {
        assert w.reports[i] in first.reports && w.reports[j] in second.reports;
      }
    }
  }

  lemma SoundIdle(ids: seq<GroupId>, status: Status)
    ensures Sound(ids, Walk(ids, [], status))
  {
    assert Added(ids, Walk(ids, [], status)) == [];
  }

  /** Marking `id` and then walking from there, optionally reporting `id` last. */
  lemma SoundMark(ids: seq<GroupId>, id: GroupId, rel: Walk, w: Walk)
    requires id !in ids && Sound(ids + [id], rel)
    requires w.ids == rel.ids && (w.reports == rel.reports || w.reports == rel.reports + [id])
    ensures Sound(ids, w)
  {
    var ids1 := ids + [id];
    var d := Added(ids1, rel);
    assert Added(ids, w) == [id] + d;
    assert id in ids1;
    assert id !in d;
    forall x | x in w.reports ensures x in Added(ids, w) {
      if x != id {
        assert x in rel.reports;
      }
    }
    if w.reports != rel.reports {
      assert id !in rel.reports;
    }
  }

  lemma {:induction false} VisitGroupSound(api: Api, cfg: Config, g: Group, ids: seq<GroupId>)
    ensures Sound(ids, VisitGroup(api, cfg, g, ids))
    decreases Unvisited(ids), 0, 0
  {
    if g.id in ids {
      SoundIdle(ids, Finished(false));
    } else {
      UnvisitedShrinks(ids, g.id);
      VisitRelationshipsSound(api, cfg, g.id, ids + [g.id]);
      SoundMark(ids, g.id, VisitRelationships(api, cfg, g.id, ids + [g.id]), VisitGroup(api, cfg, g, ids));
    }
  }

  lemma {:induction false} VisitRelationshipsSound(api: Api, cfg: Config, id: GroupId, ids: seq<GroupId>)
    ensures Sound(ids, VisitRelationships(api, cfg, id, ids))
    decreases Unvisited(ids), 3, 0
  {
    var allies := api.allies(id);
    var enemies := api.enemies(id);
    if allies.SendFailed? || enemies.SendFailed? {
      SoundIdle(ids, Aborted);
    } else {
      VisitPageSound(api, cfg, allies, ids);
      var a := VisitPage(api, cfg, allies, ids);
      if !a.status.Aborted? {
        UnvisitedOfExtension(ids, a.ids);
        VisitPageSound(api, cfg, enemies, a.ids);
        SoundThen(ids, a, VisitPage(api, cfg, enemies, a.ids));
      }
    }
  }

  lemma {:induction false} VisitPageSound(api: Api, cfg: Config, page: Response<seq<Group>>, ids: seq<GroupId>)
    ensures Sound(ids, VisitPage(api, cfg, page, ids))
    decreases Unvisited(ids), 2, 0
  {
    if page.Decoded? {
      VisitEachSound(api, cfg, page.value, ids);
    } else {
      SoundIdle(ids, Finished(false));
    }
  }

  lemma {:induction false} VisitEachSound(api: Api, cfg: Config, gs: seq<Group>, ids: seq<GroupId>)
    ensures Sound(ids, VisitEach(api, cfg, gs, ids))
    decreases Unvisited(ids), 1, |gs|
  {
    if gs == [] {
      SoundIdle(ids, Finished(false));
    } else {
      var init := gs[..|gs| - 1];
      VisitEachSound(api, cfg, init, ids);
      var done := VisitEach(api, cfg, init, ids);
      if !done.status.Aborted? {
        UnvisitedOfExtension(ids, done.ids);
        VisitGroupSound(api, cfg, gs[|gs| - 1], done.ids);
        SoundThen(ids, done, VisitGroup(api, cfg, gs[|gs| - 1], done.ids));
      }
    }
  }

  /**
   * Over a whole walk the store only grows, each ID is appended at most
   * once, a duplicate-free store stays duplicate-free, and no ID is
   * reported twice.
   */
  lemma WalkKeepsStoreDuplicateFree(api: Api, cfg: Config, g: Group, ids: seq<GroupId>)
    ensures var w := VisitGroup(api, cfg, g, ids);
      && ids <= w.ids
      && NoDup(w.reports)
      && (forall x :: x in w.reports ==> x in w.ids && x !in ids)
      && (NoDup(ids) ==> NoDup(w.ids))
  {
    VisitGroupSound(api, cfg, g, ids);
    var w := VisitGroup(api, cfg, g, ids);
    var d := Added(ids, w);
    assert w.ids == ids + d;
    forall x | x in d ensures x in w.ids {
      var k :| 0 <= k < |d| && d[k] == x;
      assert w.ids[|ids| + k] == x;
    }
    if NoDup(ids) {
      forall i, j | 0 <= i < j < |w.ids| ensures w.ids[i] != w.ids[j] {
        if i < |ids| && j >= |ids| {
          assert w.ids[i] in ids && w.ids[j] in d;
        } else if i >= |ids| {
          assert w.ids[i] == d[i - |ids|] && w.ids[j] == d[j - |ids|];
        }
      }
    }
  }

  /**
   * The seed group: an already-excluded group changes nothing and reports
   * nothing; otherwise its ID is in the store afterwards, and it is
   * reported (last, after everything its neighbours reported) exactly when
   * it is available and no panic intervened.
   */
  lemma VisitGroupSeed(api: Api, cfg: Config, g: Group, ids: seq<GroupId>)
    ensures var w := VisitGroup(api, cfg, g, ids);
      && (g.id in ids ==> w == Walk(ids, [], Finished(false)))
      && g.id in w.ids
      && (w.status == Finished(true) <==> g.id !in ids && IsAvailable(g, cfg) && !w.status.Aborted?)
      && (w.status == Finished(true) ==> |w.reports| > 0 && w.reports[|w.reports| - 1] == g.id)
      && (!w.status.Aborted? && w.status != Finished(true) ==> g.id !in w.reports)
  {
    var w := VisitGroup(api, cfg, g, ids);
    if g.id !in ids {
      var ids1 := ids + [g.id];
      var rel := VisitRelationships(api, cfg, g.id, ids1);
      assert g.id in ids1 && ids1 <= w.ids;
      assert w.ids[|ids|] == g.id;
      VisitRelationshipsSound(api, cfg, g.id, ids1);
      if !IsAvailable(g, cfg) && !rel.status.Aborted? {
        assert w.reports == rel.reports;
        assert g.id !in Added(ids1, rel);
      }
    }
  }

  /**
   * Post-order: when `g` is new and no panic intervenes, the reports are
   * those of the walk over its allies' page, then those of the walk over
   * its enemies' page (a page that does not decode contributes nothing),
   * then `g` itself if it is available.
   */
  lemma VisitGroupPostOrder(api: Api, cfg: Config, g: Group, ids: seq<GroupId>)
    requires g.id !in ids
    ensures var w := VisitGroup(api, cfg, g, ids);
      var a := VisitPage(api, cfg, api.allies(g.id), ids + [g.id]);
      var e := VisitPage(api, cfg, api.enemies(g.id), a.ids);
      !w.status.Aborted? ==>
        w.reports == a.reports + e.reports + (if IsAvailable(g, cfg) then [g.id] else [])
  {
    var ids1 := ids + [g.id];
    var a := VisitPage(api, cfg, api.allies(g.id), ids1);
    if !api.allies(g.id).SendFailed? && !api.enemies(g.id).SendFailed? && !a.status.Aborted? {
      UnvisitedOfExtension(ids1, a.ids);
      var e := VisitPage(api, cfg, api.enemies(g.id), a.ids);
      assert VisitRelationships(api, cfg, g.id, ids1) == Then(a, e);
    }
  }

  /**
   * A cycle: two available groups that are each other's only ally. The
   * walk from the first visits each of them once, appends both IDs, and
   * reports the second before the first.
   */
  lemma MutualAlliesVisitedOnce(api: Api, cfg: Config, a: Group, b: Group)
    requires a.id != b.id && IsAvailable(a, cfg) && IsAvailable(b, cfg)
    requires api.allies(a.id) == Decoded([b]) && api.enemies(a.id) == Decoded([])
    requires api.allies(b.id) == Decoded([a]) && api.enemies(b.id) == Decoded([])
    ensures VisitGroup(api, cfg, a, []) == Walk([a.id, b.id], [b.id, a.id], Finished(true))
  {
    var ab := [a.id, b.id];
    assert [a][..0] == [] && [b][..0] == [];
    assert [] + [a.id] == [a.id] && [a.id] + [b.id] == ab;
    assert [b.id] + [] == [b.id] && [] + [b.id] == [b.id] && [b.id] + [a.id] == [b.id, a.id];
    assert VisitEach(api, cfg, [], ab) == Walk(ab, [], Finished(false));
    assert VisitEach(api, cfg, [], [a.id]) == Walk([a.id], [], Finished(false));
    assert VisitGroup(api, cfg, a, ab) == Walk(ab, [], Finished(false));
    assert VisitEach(api, cfg, [a], ab) == Walk(ab, [], Finished(false));
    assert VisitPage(api, cfg, api.enemies(b.id), ab) == Walk(ab, [], Finished(false));
    assert VisitRelationships(api, cfg, b.id, ab) == Walk(ab, [], Finished(false));
    assert VisitGroup(api, cfg, b, [a.id]) == Walk(ab, [b.id], Finished(true));
    assert VisitEach(api, cfg, [b], [a.id]) == Walk(ab, [b.id], Finished(false));
    assert VisitPage(api, cfg, api.enemies(a.id), ab) == Walk(ab, [], Finished(false));
    assert VisitRelationships(api, cfg, a.id, [a.id]) == Walk(ab, [b.id], Finished(false));
  }

  /**
   * An ally that is already in the store is neither walked nor reported:
   * the walk from `a` does not depend on anything the provider says about
   * `b`, and appends and reports only `a`.
   */
  lemma ExcludedAllyNotRevisited(api: Api, other: Api, cfg: Config, a: Group, b: Group, ids: seq<GroupId>)
    requires a.id !in ids && b.id in ids
    requires api.allies(a.id) == Decoded([b]) && api.enemies(a.id) == Decoded([])
    requires other.allies(a.id) == api.allies(a.id) && other.enemies(a.id) == api.enemies(a.id)
    ensures VisitGroup(api, cfg, a, ids) == VisitGroup(other, cfg, a, ids)
    ensures VisitGroup(api, cfg, a, ids) ==
      Walk(ids + [a.id], if IsAvailable(a, cfg) then [a.id] else [], Finished(IsAvailable(a, cfg)))
  {
    var ids1 := ids + [a.id];
    assert [b][..0] == [];
    assert b.id in ids1;
    assert VisitEach(api, cfg, [b], ids1) == Walk(ids1, [], Finished(false));
    assert VisitEach(other, cfg, [b], ids1) == Walk(ids1, [], Finished(false));
    assert VisitEach(api, cfg, [], ids1) == Walk(ids1, [], Finished(false));
    assert VisitEach(other, cfg, [], ids1) == Walk(ids1, [], Finished(false));
    assert VisitRelationships(api, cfg, a.id, ids1) == Walk(ids1, [], Finished(false));
    assert VisitRelationships(other, cfg, a.id, ids1) == Walk(ids1, [], Finished(false));
  }

  // ---------------------------------------------------------------------
  // The walker over the exclusion store
  // ---------------------------------------------------------------------

  /**
   * The state `process_group` works on: the provider and configuration,
   * the exclusion store, and the trace of reported group IDs.
   */
  class Walker {
    const api: Api
    const cfg: Config
    const store: ExclusionStore
    var output: seq<GroupId>

    constructor (api: Api, cfg: Config, store: ExclusionStore)
      ensures this.api == api && this.cfg == cfg && this.store == store && output == []
    {
      this.api := api;
      this.cfg := cfg;
      this.store := store;
      output := [];
    }

    /** `process_group`: returns whether `g` was newly found available. */
    method ProcessGroup(g: Group) returns (status: Status)
      modifies this, store
      ensures var w := VisitGroup(api, cfg, g, old(store.Ids()));
        store.file == Some(w.ids) && output == old(output) + w.reports && status == w.status
      decreases Unvisited(store.Ids()), 0, 0
    {
      var excluded := store.IsExcluded(g.id);
      if excluded {
        return Finished(false);
      }
      ghost var before := store.Ids();
      store.Exclude(g.id);
      UnvisitedShrinks(before, g.id);
      var ok := ProcessRelationships(g);
      if !ok {
        // the `expect` on the relationship walk panics
        return Aborted;
      }
      if !IsAvailable(g, cfg) {
        return Finished(false);
      }
      output := output + [g.id];
      status := Finished(true);
    }

    /** `process_relationships`: `ok` is false when the walk did not end normally. */
    method ProcessRelationships(g: Group) returns (ok: bool)
      requires store.file.Some?
      modifies this, store
      ensures var w := VisitRelationships(api, cfg, g.id, old(store.Ids()));
        store.file == Some(w.ids) && output == old(output) + w.reports && ok == !w.status.Aborted?
      decreases Unvisited(store.Ids()), 3, 0
    {
      var allies := api.allies(g.id);
      var enemies := api.enemies(g.id);
      if allies.SendFailed? || enemies.SendFailed? {
        return false;
      }
      ghost var start := store.Ids();
      ok := ProcessPage(allies);
      if !ok {
        return;
      }
      UnvisitedOfExtension(start, store.Ids());
      ok := ProcessPage(enemies);
    }

    /** `if let Ok(page) = page { for group in page { process_group(group) } }`. */
    method ProcessPage(page: Response<seq<Group>>) returns (ok: bool)
      requires store.file.Some?
      modifies this, store
      ensures var w := VisitPage(api, cfg, page, old(store.Ids()));
        store.file == Some(w.ids) && output == old(output) + w.reports && ok == !w.status.Aborted?
      decreases Unvisited(store.Ids()), 2, 0
    {
      if !page.Decoded? {
        return true;
      }
      var gs := page.value;
      ghost var start := store.Ids();
      ghost var emitted: seq<GroupId> := [];
      for i := 0 to |gs|
        invariant store.file.Some?
        invariant output == old(output) + emitted
        invariant VisitEach(api, cfg, gs[..i], start) == Walk(store.Ids(), emitted, Finished(false))
      {
        ghost var here := store.Ids();
        VisitEachSnoc(api, cfg, gs, i, start);
        UnvisitedOfExtension(start, here);
        var status := ProcessGroup(gs[i]);
        ghost var first := VisitGroup(api, cfg, gs[i], here);
        emitted := emitted + first.reports;
        if status.Aborted? {
          AbortStopsEach(api, cfg, gs, i + 1, start);
          return false;
        }
      }
      assert gs[..|gs|] == gs;
      ok := true;
    }
  }

  /** The loop over `gs[..i + 1]` is the loop over `gs[..i]` and then `gs[i]`. */
  lemma VisitEachSnoc(api: Api, cfg: Config, gs: seq<Group>, i: nat, ids: seq<GroupId>)
    requires i < |gs|
    ensures var done := VisitEach(api, cfg, gs[..i], ids);
      VisitEach(api, cfg, gs[..i + 1], ids) ==
        if done.status.Aborted? then done else Then(done, VisitGroup(api, cfg, gs[i], done.ids))
  {
    assert gs[..i + 1][..i] == gs[..i] && gs[..i + 1][i] == gs[i];
  }
}
