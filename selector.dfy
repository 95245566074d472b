/**
 * Choosing a candidate group ID: a uniform draw from the configured
 * range, or a walk through the keyword-search pages that picks among the
 * available groups of the first page that has any.
 */
module Selector {
  import opened Types
  import opened Availability

  // ---------------------------------------------------------------------
  // Fetching the groups of a search page
  // ---------------------------------------------------------------------

  /**
   * The groups that fetching `ids` one after the other yields: groups
   * that decode are kept in order, the others are skipped, and a request
   * that cannot be sent ends the whole fetch with `None`.
   */
  function Fetched(fetch: GroupId -> Response<Group>, ids: seq<GroupId>): (r: Option<seq<Group>>)
    ensures r.Some? ==> |r.value| <= |ids|
  {
    if ids == [] then Some([])
    else
      match fetch(ids[0])
      case SendFailed => None
      case DecodeFailed => Fetched(fetch, ids[1..])
      case Decoded(g) =>
        match Fetched(fetch, ids[1..])
        case None => None
        case Some(gs) => Some([g] + gs)
  }

  /** `groups` followed by whatever `rest` yields. */
  function Attach(groups: seq<Group>, rest: Option<seq<Group>>): (r: Option<seq<Group>>)
  {
    match rest
    case None => None
    case Some(gs) => Some(groups + gs)
  }

  /** The loop of `fetch_groups`: one request per ID, in order. */
  method FetchGroups(fetch: GroupId -> Response<Group>, ids: seq<GroupId>) returns (r: Outcome<seq<Group>>)
    ensures r.Ok? <==> Fetched(fetch, ids).Some?
    ensures r.Ok? ==> Fetched(fetch, ids) == Some(r.value)
    ensures !r.Panic?
  {
    var groups: seq<Group> := [];
    assert ids[0..] == ids;
    AttachNothing(Fetched(fetch, ids));
    for i := 0 to |ids|
      invariant Fetched(fetch, ids) == Attach(groups, Fetched(fetch, ids[i..]))
    {
      assert ids[i..][0] == ids[i] && ids[i..][1..] == ids[i + 1..];
      var response := fetch(ids[i]);
      match response {
        case SendFailed =>
          return Err;
        case DecodeFailed =>
        case Decoded(group) =>
          AttachTwice(groups, group, Fetched(fetch, ids[i + 1..]));
          groups := groups + [group];
      }
    }
    assert ids[|ids|..] == [] && groups + [] == groups;
    r := Ok(groups);
  }

  lemma AttachNothing(rest: Option<seq<Group>>)
    ensures Attach([], rest) == rest
  {
    if rest.Some? {
      assert [] + rest.value == rest.value;
    }
  }

  lemma AttachTwice(groups: seq<Group>, g: Group, rest: Option<seq<Group>>)
    ensures Attach(groups, Attach([g], rest)) == Attach(groups + [g], rest)
  {
    if rest.Some? {
      assert groups + ([g] + rest.value) == (groups + [g]) + rest.value;
    }
  }

  /** Some request for one of `ids` could not be sent. */
  ghost predicate SomeSendFailed(fetch: GroupId -> Response<Group>, ids: seq<GroupId>) {
    exists i :: 0 <= i < |ids| && fetch(ids[i]).SendFailed?
  }

  lemma {:induction false} FetchedFailsIff(fetch: GroupId -> Response<Group>, ids: seq<GroupId>)
    ensures Fetched(fetch, ids).None? <==> SomeSendFailed(fetch, ids)
  {
    if ids != [] {
      FetchedFailsIff(fetch, ids[1..]);
      if SomeSendFailed(fetch, ids[1..]) {
        var i :| 0 <= i < |ids[1..]| && fetch(ids[1..][i]).SendFailed?;
        assert fetch(ids[i + 1]).SendFailed?;
      }
      if SomeSendFailed(fetch, ids) && !fetch(ids[0]).SendFailed? {
        var i :| 0 <= i < |ids| && fetch(ids[i]).SendFailed?;
        assert fetch(ids[1..][i - 1]).SendFailed?;
      }
    }
  }

  /** The positions of `ids` whose group decodes, in increasing order. */
  function DecodedPositions(fetch: GroupId -> Response<Group>, ids: seq<GroupId>, from: nat): (ps: seq<nat>)
    decreases |ids|
  {
    if ids == [] then []
    else if fetch(ids[0]).Decoded? then [from] + DecodedPositions(fetch, ids[1..], from + 1)
    else DecodedPositions(fetch, ids[1..], from + 1)
  }

  /**
   * A successful fetch keeps exactly the groups that decode, in the order
   * of their IDs: the result is the subsequence of the per-ID results at
   * the positions where a group decoded, so it is no longer than `ids`.
   */
  lemma FetchedIsOrderedSubsequence(fetch: GroupId -> Response<Group>, ids: seq<GroupId>, from: nat)
    requires Fetched(fetch, ids).Some?
    ensures |Fetched(fetch, ids).value| == |DecodedPositions(fetch, ids, from)| <= |ids|
    ensures forall j :: 0 <= j < |DecodedPositions(fetch, ids, from)| ==>
      && from <= DecodedPositions(fetch, ids, from)[j] < from + |ids|
      && fetch(ids[DecodedPositions(fetch, ids, from)[j] - from]) == Decoded(Fetched(fetch, ids).value[j])
    ensures forall j, k :: 0 <= j < k < |DecodedPositions(fetch, ids, from)| ==>
      DecodedPositions(fetch, ids, from)[j] < DecodedPositions(fetch, ids, from)[k]
  {
    FetchedLength(fetch, ids, from);
    DecodedPositionsIncreasing(fetch, ids, from);
    forall j | 0 <= j < |DecodedPositions(fetch, ids, from)|
      ensures fetch(ids[DecodedPositions(fetch, ids, from)[j] - from]) == Decoded(Fetched(fetch, ids).value[j])
    {
      FetchedAt(fetch, ids, from, j);
    }
  }

  lemma {:induction false} FetchedLength(fetch: GroupId -> Response<Group>, ids: seq<GroupId>, from: nat)
    requires Fetched(fetch, ids).Some?
    ensures |Fetched(fetch, ids).value| == |DecodedPositions(fetch, ids, from)| <= |ids|
  {
    if ids != [] {
      FetchedLength(fetch, ids[1..], from + 1);
    }
  }

  /** The positions are increasing and lie within `ids`. */
  lemma {:induction false} DecodedPositionsIncreasing(fetch: GroupId -> Response<Group>, ids: seq<GroupId>, from: nat)
    ensures forall j :: 0 <= j < |DecodedPositions(fetch, ids, from)| ==>
      from <= DecodedPositions(fetch, ids, from)[j] < from + |ids|
    ensures forall j, k :: 0 <= j < k < |DecodedPositions(fetch, ids, from)| ==>
      DecodedPositions(fetch, ids, from)[j] < DecodedPositions(fetch, ids, from)[k]
  {
    if ids != [] {
      var ps' := DecodedPositions(fetch, ids[1..], from + 1);
      DecodedPositionsIncreasing(fetch, ids[1..], from + 1);
      assert |ids[1..]| == |ids| - 1;
      if fetch(ids[0]).Decoded? {
        var ps := DecodedPositions(fetch, ids, from);
        assert ps == [from] + ps';
        forall j | 0 < j < |ps| ensures ps[j] == ps'[j - 1] && from < ps[j] {
        }
      }
    }
  }

  lemma {:induction false} FetchedAt(fetch: GroupId -> Response<Group>, ids: seq<GroupId>, from: nat, j: nat)
    requires Fetched(fetch, ids).Some?
    requires j < |DecodedPositions(fetch, ids, from)|
    ensures |Fetched(fetch, ids).value| == |DecodedPositions(fetch, ids, from)|
    ensures from <= DecodedPositions(fetch, ids, from)[j] < from + |ids|
    ensures fetch(ids[DecodedPositions(fetch, ids, from)[j] - from]) == Decoded(Fetched(fetch, ids).value[j])
  {
    FetchedLength(fetch, ids, from);
    DecodedPositionsIncreasing(fetch, ids, from);
    var tail := ids[1..];
    var ps' := DecodedPositions(fetch, tail, from + 1);
    DecodedPositionsIncreasing(fetch, tail, from + 1);
    if fetch(ids[0]).Decoded? {
      assert DecodedPositions(fetch, ids, from) == [from] + ps';
      assert Fetched(fetch, ids).value == [fetch(ids[0]).value] + Fetched(fetch, tail).value;
      if j > 0 {
        FetchedAt(fetch, tail, from + 1, j - 1);
        assert fetch(tail[ps'[j - 1] - (from + 1)]) == Decoded(Fetched(fetch, tail).value[j - 1]);
      }
    } else {
      assert DecodedPositions(fetch, ids, from) == ps';
      FetchedAt(fetch, tail, from + 1, j);
      assert fetch(tail[ps'[j] - (from + 1)]) == Decoded(Fetched(fetch, tail).value[j]);
    }
  }

  /** No group that decodes is left out of the positions. */
  lemma {:induction false} DecodedPositionsComplete(fetch: GroupId -> Response<Group>, ids: seq<GroupId>, from: nat)
    ensures forall i :: 0 <= i < |ids| && fetch(ids[i]).Decoded? ==> from + i in DecodedPositions(fetch, ids, from)
  {
    if ids != [] {
      var tail := ids[1..];
      DecodedPositionsComplete(fetch, tail, from + 1);
      forall i | 0 < i < |ids| && fetch(ids[i]).Decoded?
        ensures from + i in DecodedPositions(fetch, ids, from)
      {
        assert fetch(tail[i - 1]).Decoded?;
      }
    }
  }

  // ---------------------------------------------------------------------
  // Filtering by availability
  // ---------------------------------------------------------------------

  /** The available groups of `gs`, in their order. */
  function AvailableGroups(gs: seq<Group>, cfg: Config): (r: seq<Group>)
    ensures |r| <= |gs|
    ensures forall g :: g in r <==> g in gs && IsAvailable(g, cfg)
  {
    if gs == [] then []
    else if IsAvailable(gs[0], cfg) then [gs[0]] + AvailableGroups(gs[1..], cfg)
    else AvailableGroups(gs[1..], cfg)
  }

  // ---------------------------------------------------------------------
  // Search mode
  // ---------------------------------------------------------------------

  /**
   * The search pages form a finite chain: there is a first page, and a
   * page that carries a next cursor is followed by another page.
   */
  predicate PagesChain(pages: seq<Response<SearchPage>>) {
    |pages| > 0 &&
    forall k :: 0 <= k < |pages| && pages[k].Decoded? && pages[k].value.hasNextCursor ==> k + 1 < |pages|
  }

  /**
   * What the search yields from page `k` on: either a non-empty pool of
   * available groups found on page `page`, one of which is then drawn at
   * random, or a fixed outcome.
   */
  datatype Search = Among(page: nat, pool: seq<Group>) | Settled(result: Outcome<GroupId>)

  function SearchFrom(api: Api, cfg: Config, k: nat): (r: Search)
    requires PagesChain(api.search) && k < |api.search|
    ensures r.Among? ==> k <= r.page < |api.search| && r.pool != []
    decreases |api.search| - k
  {
    match api.search[k]
    case SendFailed => Settled(Err)
    case DecodeFailed => Settled(Ok(0))
    case Decoded(p) =>
      if p.errors.Some? || p.data.None? then Settled(Panic)
      else
        match Fetched(api.group, p.data.value)
        case None => Settled(Ok(0))
        case Some(gs) =>
          var pool := AvailableGroups(gs, cfg);
          if pool != [] then Among(k, pool)
          else if p.hasNextCursor then SearchFrom(api, cfg, k + 1)
          else Settled(Ok(0))
  }

  /** The outcomes a search result allows. */
  predicate Allows(s: Search, r: Outcome<GroupId>) {
    match s
    case Among(_, pool) => r.Ok? && exists j :: 0 <= j < |pool| && pool[j].id == r.value
    case Settled(o) => r == o
  }

  /**
   * Page `q` decodes without an `errors` payload, its groups are all
   * fetched, and none of them is available.
   */
  ghost predicate Barren(api: Api, cfg: Config, q: nat)
    requires q < |api.search|
  {
    && api.search[q].Decoded?
    && api.search[q].value.errors.None?
    && api.search[q].value.data.Some?
    && Fetched(api.group, api.search[q].value.data.value).Some?
    && AvailableGroups(Fetched(api.group, api.search[q].value.data.value).value, cfg) == []
  }

  /**
   * A pool comes from the first page, at or after `k`, that has an
   * available group: every page before it was barren and had a next
   * cursor, and the pool is exactly the available fetched groups of that
   * page.
   */
  lemma {:induction false} SearchFollowsCursorOnlyWhenBarren(api: Api, cfg: Config, k: nat)
    requires PagesChain(api.search) && k < |api.search|
    ensures var s := SearchFrom(api, cfg, k);
      s.Settled? && s.result.Ok? ==> s.result.value == 0
    ensures var s := SearchFrom(api, cfg, k);
      s.Among? ==>
        && k <= s.page < |api.search|
        && s.pool != []
        && (forall q :: k <= q < s.page ==> Barren(api, cfg, q) && api.search[q].value.hasNextCursor)
        && api.search[s.page].Decoded?
        && api.search[s.page].value.errors.None?
        && api.search[s.page].value.data.Some?
        && var fetched := Fetched(api.group, api.search[s.page].value.data.value);
           fetched.Some? && s.pool == AvailableGroups(fetched.value, cfg)
    decreases |api.search| - k
  {
    if Barren(api, cfg, k) && api.search[k].value.hasNextCursor {
      assert SearchFrom(api, cfg, k) == SearchFrom(api, cfg, k + 1);
      SearchFollowsCursorOnlyWhenBarren(api, cfg, k + 1);
    }
  }

  /**
   * When the pages from `k` to `q` are barren, each before `q` has a next
   * cursor and `q` has none, the search settles on 0, whatever follows.
   */
  lemma {:induction false} SearchExhausted(api: Api, cfg: Config, k: nat, q: nat)
    requires PagesChain(api.search) && k <= q < |api.search|
    requires forall p :: k <= p <= q ==> Barren(api, cfg, p)
    requires forall p :: k <= p < q ==> api.search[p].Decoded? && api.search[p].value.hasNextCursor
    requires api.search[q].Decoded? && !api.search[q].value.hasNextCursor
    ensures SearchFrom(api, cfg, k) == Settled(Ok(0))
    decreases q - k
  {
    assert Barren(api, cfg, k);
    if k < q {
      SearchExhausted(api, cfg, k + 1, q);
    }
  }

  /**
   * The only fixed outcomes of a search are 0, a transport error and a
   * panic; any other ID is that of an available group fetched from one
   * of the pages.
   */
  lemma SearchResult(api: Api, cfg: Config, k: nat, r: Outcome<GroupId>)
    requires PagesChain(api.search) && k < |api.search|
    requires Allows(SearchFrom(api, cfg, k), r) && r.Ok? && r.value != 0
    ensures exists q, g :: k <= q < |api.search| && IsFetchedFrom(api, q, g) && IsAvailable(g, cfg) && g.id == r.value
  {
    SearchFollowsCursorOnlyWhenBarren(api, cfg, k);
    var s := SearchFrom(api, cfg, k);
    assert s.Among?;
    var j :| 0 <= j < |s.pool| && s.pool[j].id == r.value;
    assert s.pool[j] in s.pool;
    assert IsFetchedFrom(api, s.page, s.pool[j]);
  }

  /** `g` is one of the groups fetched for page `q`. */
  ghost predicate IsFetchedFrom(api: Api, q: nat, g: Group)
    requires q < |api.search|
  {
    && api.search[q].Decoded?
    && api.search[q].value.data.Some?
    && var fetched := Fetched(api.group, api.search[q].value.data.value);
       fetched.Some? && g in fetched.value
  }

  /**
   * `get_random_group_id`: without a query, a draw from `[min, max]`
   * (an empty range panics, as `gen_range` does); with a query, the
   * search result from page `page` on.
   */
  method GetRandomGroupId(api: Api, cfg: Config, page: nat) returns (r: Outcome<GroupId>)
    requires cfg.query.Some? ==> PagesChain(api.search) && page < |api.search|
    ensures cfg.query.None? && cfg.min <= cfg.max ==> r.Ok? && cfg.min <= r.value <= cfg.max
    ensures cfg.query.None? && cfg.min > cfg.max ==> r == Panic
    ensures cfg.query.Some? ==> Allows(SearchFrom(api, cfg, page), r)
    decreases |api.search| - page
  {
    if cfg.query.None? {
      if cfg.min > cfg.max {
        return Panic;
      }
      var id: GroupId :| cfg.min <= id <= cfg.max;
      return Ok(id);
    }
    match api.search[page] {
      case SendFailed =>
        return Err;
      case DecodeFailed =>
      case Decoded(results) =>
        if results.errors.Some? {
          return Panic;
        }
        if results.data.None? {
          return Panic;
        }
        var fetched := FetchGroups(api.group, results.data.value);
        if fetched.Ok? {
          var pool := AvailableGroups(fetched.value, cfg);
          if pool != [] {
            var j :| 0 <= j < |pool|;
            return Ok(pool[j].id);
          } else if results.hasNextCursor {
            r := GetRandomGroupId(api, cfg, page + 1);
            return;
          }
        }
    }
    r := Ok(0);
  }

  /** One plain, ownerless, unlocked group. */
  function Unclaimed(id: GroupId): Group {
    Group(id, "", "", None, None, 1, false, true, None, false)
  }

  /**
   * A single search page whose one item is an ownerless, unlocked group
   * yields that group's ID and nothing else.
   */
  lemma SinglePageWithUnclaimedGroup(cfg: Config, api: Api, id: GroupId)
    requires api.search == [Decoded(SearchPage(None, Some([id]), false))]
    requires api.group(id) == Decoded(Unclaimed(id))
    ensures forall r :: Allows(SearchFrom(api, cfg, 0), r) <==> r == Ok(id)
  {
    assert [id][0] == id && [id][1..] == [];
    assert Fetched(api.group, [id]) == Some([Unclaimed(id)] + []);
    assert AvailableGroups([Unclaimed(id)], cfg) == [Unclaimed(id)];
  }

  /**
   * A single search page whose only item is unavailable and that has no
   * next cursor settles on 0.
   */
  lemma SinglePageWithoutCandidates(cfg: Config, api: Api, g: Group)
    requires api.search == [Decoded(SearchPage(None, Some([g.id]), false))]
    requires api.group(g.id) == Decoded(g) && !IsAvailable(g, cfg)
    ensures SearchFrom(api, cfg, 0) == Settled(Ok(0))
  {
    assert [g.id][0] == g.id && [g.id][1..] == [];
    assert Fetched(api.group, [g.id]) == Some([g] + []);
    assert AvailableGroups([g], cfg) == [];
  }
}
