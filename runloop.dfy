/**
 * The body of `main`'s loop: select a candidate, fetch it, walk from it,
 * and stop only after a walk that reported its seed when the run is not
 * set to repeat.
 */
module RunLoop {
  import opened Types
  import opened Selector
  import opened Relationships

  /**
   * Where the loop stands after an attempt: still looking, stopped by the
   * `break`, aborted by a panic, or left through the `?` on the request
   * for the candidate's group (which makes `main` return an error).
   */
  datatype LoopState = Searching | Stopped | Panicked | Exited

  /** The store's list, the reports and the loop state after one attempt. */
  datatype Step = Step(ids: seq<GroupId>, reports: seq<GroupId>, next: LoopState)

  /** The outcomes `get_random_group_id(&args, None, ..)` allows. */
  predicate Selectable(api: Api, cfg: Config, r: Outcome<GroupId>)
    requires cfg.query.Some? ==> PagesChain(api.search)
  {
    if cfg.query.None? then
      if cfg.min <= cfg.max then r.Ok? && cfg.min <= r.value <= cfg.max else r == Panic
    else Allows(SearchFrom(api, cfg, 0), r)
  }

  /**
   * One attempt given the selector's outcome: an `Err` or a panic of the
   * selector panics (`unwrap`); a candidate whose request cannot be sent
   * leaves `main`; one that does not decode is skipped; otherwise the walk
   * from it decides.
   */
  function Attempt(api: Api, cfg: Config, selected: Outcome<GroupId>, ids: seq<GroupId>): (s: Step)
    ensures ids <= s.ids
    ensures !selected.Ok? || s.next == Exited ==> s.ids == ids && s.reports == []
    ensures s.next == Stopped ==> !cfg.repeat
  {
    if !selected.Ok? then Step(ids, [], Panicked)
    else
      match api.group(selected.value)
      case SendFailed => Step(ids, [], Exited)
      case DecodeFailed => Step(ids, [], Searching)
      case Decoded(g) =>
        var w := VisitGroup(api, cfg, g, ids);
        Step(w.ids, w.reports, match w.status
          case Aborted => Panicked
          case Finished(reported) => if reported && !cfg.repeat then Stopped else Searching)
  }

  /**
   * The loop stops exactly after an attempt whose candidate decoded and
   * whose walk reported it, while `repeat` is off; the candidate's group is
   * then the last one reported. A failed fetch or an unreported walk leads to
   * another attempt.
   */
  lemma StopCondition(api: Api, cfg: Config, selected: Outcome<GroupId>, ids: seq<GroupId>)
    ensures var s := Attempt(api, cfg, selected, ids);
      && (s.next == Stopped <==>
            && !cfg.repeat
            && selected.Ok?
            && api.group(selected.value).Decoded?
            && VisitGroup(api, cfg, api.group(selected.value).value, ids).status == Finished(true))
      && (s.next == Stopped ==>
            |s.reports| > 0 && s.reports[|s.reports| - 1] == api.group(selected.value).value.id)
      && (cfg.repeat ==> s.next != Stopped)
      && (selected.Ok? && api.group(selected.value).DecodeFailed? ==> s == Step(ids, [], Searching))
  {
    if selected.Ok? && api.group(selected.value).Decoded? {
      var g := api.group(selected.value).value;
      VisitGroupSeed(api, cfg, g, ids);
    }
  }

  /**
   * An attempt only appends to the store, keeps it duplicate-free, and
   * reports distinct IDs that it appended.
   */
  lemma AttemptSound(api: Api, cfg: Config, selected: Outcome<GroupId>, ids: seq<GroupId>)
    ensures var s := Attempt(api, cfg, selected, ids);
      && ids <= s.ids
      && NoDup(s.reports)
      && (forall x :: x in s.reports ==> x in s.ids && x !in ids)
      && (NoDup(ids) ==> NoDup(s.ids))
  {
    if selected.Ok? && api.group(selected.value).Decoded? {
      WalkKeepsStoreDuplicateFree(api, cfg, api.group(selected.value).value, ids);
    }
  }

  /**
   * What a run from `start` has done so far: the store only grew, and the
   * reports are distinct IDs that the run itself appended.
   */
  ghost predicate RunSoFar(start: seq<GroupId>, ids: seq<GroupId>, reported: seq<GroupId>) {
    && start <= ids
    && NoDup(reported)
    && (forall x :: x in reported ==> x in ids && x !in start)
  }

  lemma RunSoFarStep(start: seq<GroupId>, ids: seq<GroupId>, reported: seq<GroupId>, s: Step)
    requires RunSoFar(start, ids, reported)
    requires ids <= s.ids && NoDup(s.reports) && (forall x :: x in s.reports ==> x in s.ids && x !in ids)
    ensures RunSoFar(start, s.ids, reported + s.reports)
  {
    forall x | x in start ensures x in ids {
      var k :| 0 <= k < |start| && start[k] == x;
      assert ids[k] == x;
    }
    forall x | x in ids ensures x in s.ids {
      var k :| 0 <= k < |ids| && ids[k] == x;
      assert s.ids[k] == x;
    }
    var all := reported + s.reports;
    forall i, j | 0 <= i < j < |all| ensures all[i] != all[j] {
      if i < |reported| && j >= |reported| {
        assert all[i] in reported && all[j] in s.reports;
      }
    }
  }

  /** One pass through the loop body of `main`. */
  method RunAttempt(walker: Walker) returns (next: LoopState, ghost selected: Outcome<GroupId>)
    requires walker.cfg.query.Some? ==> PagesChain(walker.api.search)
    modifies walker, walker.store
    ensures Selectable(walker.api, walker.cfg, selected)
    ensures var s := Attempt(walker.api, walker.cfg, selected, old(walker.store.Ids()));
      walker.store.Ids() == s.ids && walker.output == old(walker.output) + s.reports && next == s.next
  {
    var r := GetRandomGroupId(walker.api, walker.cfg, 0);
    selected := r;
    if !r.Ok? {
      // `unwrap` on the selector's result
      next := Panicked;
      return;
    }
    var response := walker.api.group(r.value);
    match response {
      case SendFailed =>
        next := Exited;
      case DecodeFailed =>
        next := Searching;
      case Decoded(group) =>
        var status := walker.ProcessGroup(group);
        next := match status
          case Aborted => Panicked
          case Finished(reported) => if reported && !walker.cfg.repeat then Stopped else Searching;
    }
  }

  /**
   * The attempts of a run, replayed from the store's list `ids`: each
   * selection's attempt starts from the list the previous ones left, and
   * the replay ends at the first attempt after which the loop does not go
   * on searching; the reports of all attempts are concatenated.
   */
  ghost function Replay(api: Api, cfg: Config, sels: seq<Outcome<GroupId>>, ids: seq<GroupId>): (s: Step)
    ensures ids <= s.ids
    decreases |sels|
  {
    if sels == [] then Step(ids, [], Searching)
    else
      var before := Replay(api, cfg, sels[..|sels| - 1], ids);
      if before.next != Searching then before
      else
        var a := Attempt(api, cfg, sels[|sels| - 1], before.ids);
        Step(a.ids, before.reports + a.reports, a.next)
  }

  lemma ReplaySnoc(api: Api, cfg: Config, sels: seq<Outcome<GroupId>>, sel: Outcome<GroupId>, ids: seq<GroupId>)
    requires Replay(api, cfg, sels, ids).next == Searching
    ensures var before := Replay(api, cfg, sels, ids);
      var a := Attempt(api, cfg, sel, before.ids);
      Replay(api, cfg, sels + [sel], ids) == Step(a.ids, before.reports + a.reports, a.next)
  {
    assert (sels + [sel])[..|sels|] == sels && (sels + [sel])[|sels|] == sel;
  }

  /**
   * A replay that ends stopped ends with an attempt, taken from the list
   * the earlier attempts left while they all went on searching, whose
   * candidate decoded and whose walk reported it with `repeat` off; that
   * candidate's group is the last report of the run.
   */
  lemma {:induction false} ReplayStops(api: Api, cfg: Config, sels: seq<Outcome<GroupId>>, ids: seq<GroupId>)
    requires Replay(api, cfg, sels, ids).next == Stopped
    ensures exists k :: 0 <= k < |sels| && StopsAt(api, cfg, sels, ids, k)
    decreases |sels|
  {
    var init := sels[..|sels| - 1];
    var before := Replay(api, cfg, init, ids);
    if before.next != Searching {
      ReplayStops(api, cfg, init, ids);
      var k :| 0 <= k < |init| && StopsAt(api, cfg, init, ids, k);
      assert Replay(api, cfg, sels, ids) == before;
      assert init[..k] == sels[..k] && init[k] == sels[k];
      assert StopsAt(api, cfg, sels, ids, k);
    } else {
      var k := |sels| - 1;
      assert sels[..k] == init;
      StopCondition(api, cfg, sels[k], before.ids);
      assert StopsAt(api, cfg, sels, ids, k);
    }
  }

  /**
   * Attempt `k` of the replay stops the loop: the attempts before it all
   * went on searching, its candidate decoded, the walk from the list they
   * left returned `Finished(true)` while `repeat` is off, and that group's
   * ID is the last report of the whole replay.
   */
  ghost predicate StopsAt(api: Api, cfg: Config, sels: seq<Outcome<GroupId>>, ids: seq<GroupId>, k: nat)
    requires k < |sels|
  {
    var before := Replay(api, cfg, sels[..k], ids);
    var reports := Replay(api, cfg, sels, ids).reports;
    && before.next == Searching
    && !cfg.repeat
    && sels[k].Ok?
    && api.group(sels[k].value).Decoded?
    && VisitGroup(api, cfg, api.group(sels[k].value).value, before.ids).status == Finished(true)
    && |reports| > 0
    && reports[|reports| - 1] == api.group(sels[k].value).value.id
  }

  /**
   * `main`'s loop, cut off after `maxAttempts` attempts. `selections` are
   * the selector's outcomes, one per attempt; the store, the reports and
   * the final state are exactly those of replaying them from the initial
   * store, so the loop stops only as `ReplayStops` describes. Over the
   * whole run the store only grows and stays duplicate-free, and no group
   * is reported twice.
   */
  method Run(walker: Walker, maxAttempts: nat)
      returns (state: LoopState, attempts: nat,
               ghost reported: seq<GroupId>, ghost selections: seq<Outcome<GroupId>>)
    requires walker.cfg.query.Some? ==> PagesChain(walker.api.search)
    modifies walker, walker.store
    ensures attempts <= maxAttempts
    ensures state == Searching ==> attempts == maxAttempts
    ensures |selections| == attempts
    ensures forall i :: 0 <= i < |selections| ==> Selectable(walker.api, walker.cfg, selections[i])
    ensures Replay(walker.api, walker.cfg, selections, old(walker.store.Ids())) ==
      Step(walker.store.Ids(), reported, state)
    ensures walker.output == old(walker.output) + reported
    ensures RunSoFar(old(walker.store.Ids()), walker.store.Ids(), reported)
    ensures NoDup(old(walker.store.Ids())) ==> NoDup(walker.store.Ids())
  {
    ghost var start := walker.store.Ids();
    state, attempts, reported, selections := Searching, 0, [], [];
    assert start <= start;
    while state == Searching && attempts < maxAttempts
      invariant attempts <= maxAttempts
      invariant |selections| == attempts
      invariant forall i :: 0 <= i < |selections| ==> Selectable(walker.api, walker.cfg, selections[i])
      invariant Replay(walker.api, walker.cfg, selections, start) == Step(walker.store.Ids(), reported, state)
      invariant walker.output == old(walker.output) + reported
      invariant RunSoFar(start, walker.store.Ids(), reported)
      invariant NoDup(start) ==> NoDup(walker.store.Ids())
      decreases maxAttempts - attempts
    {
      ghost var ids := walker.store.Ids();
      var next, selected := RunAttempt(walker);
      ghost var s := Attempt(walker.api, walker.cfg, selected, ids);
      AttemptSound(walker.api, walker.cfg, selected, ids);
      RunSoFarStep(start, ids, reported, s);
      ReplaySnoc(walker.api, walker.cfg, selections, selected, start);
      reported := reported + s.reports;
      selections := selections + [selected];
      state := next;
      attempts := attempts + 1;
    }
  }
}
