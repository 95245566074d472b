# rbx-reclaimer, modelled in Dafny

rbx-reclaimer hunts for unclaimed Roblox groups. A group is unclaimed when
it has no owner and no lock flag. Each attempt does four things:

- picks a candidate group ID, either at random from a range or
  from a keyword search;
- fetches that group;
- walks its ally and enemy links depth-first;
- reports every newly seen available group it meets.

A persisted list of group IDs, `groups.json` (the exclusion store), records
every group already visited. That list is the walk's visited set, and it
survives between runs.

The model covers `src/main.rs`, except what "## Left out" lists:

- `types.dfy`:
  - the records that are decoded: `User`, `Shout`, `Group`, the error
    records and a search page;
  - the command-line options (`Config`);
  - the remote service (`Api`). It is a value of total functions from a
    group ID to a `Response`, plus the sequence of search pages. A
    `Response` separates a request that could not be sent (`SendFailed`,
    which the source propagates with `?`) from a body that did not decode
    (`DecodeFailed`, which the source skips with `if let Ok`).
- `availability.dfy`: `is_group_available` as a predicate, characterised
  both ways.
- `exclusion.dfy`: `exclude_group` and `is_group_excluded` as methods of a
  class. The class holds the file's content: `None` while the file is
  missing, otherwise the decoded list.
- `selector.dfy`:
  - `fetch_groups` as a loop, proved against a recursive specification;
  - availability filtering;
  - `get_random_group_id`; the random choices become nondeterministic
    choices;
  - the search semantics as a function `SearchFrom`, with lemmas that
    say what it yields.
- `relationships.dfy`:
  - `process_group` and `process_relationships` as mutually recursive
    functions over the store's list (the specification);
  - a class `Walker` whose methods update the exclusion store in place
    and append reported IDs to an output trace. Each method is proved
    equal to the specification function.
  - Termination rests on the set of 32-bit IDs not yet in the store:
    each group's ID is appended before its relationships are walked.
- `runloop.dfy`: one pass of `main`'s loop, and the loop itself cut off
  after a given number of attempts.

A panic in the source is an explicit outcome in the model:

- `Panic` for the selector;
- `Aborted` for a walk, which ends the process;
- `Panicked` for the loop.

A failed send of the request for the candidate's group makes `main` return
an error. That is the `Exited` loop state.

## Model

| member | source | states |
|---|---|---|
| Availability.IsAvailable | src/main.rs:227-237 | a group is available exactly when it has no owner, no `isLocked` field, and, if closed groups are ignored, allows public entry and has a member |
| Availability.AvailabilityRule | src/main.rs:227-237 | each way to fail the rule (owner, any lock flag including `false`, closed, empty) and each way to pass it, separately |
| Exclusion.ExclusionStore.Initialize | src/main.rs:240-243 | a missing file is created holding the empty list; an existing list is left as it is |
| Exclusion.ExclusionStore.Exclude | src/main.rs:239-254 | the ID is appended to the stored list; the earlier entries are unchanged and the length grows by one |
| Exclusion.ExclusionStore.IsExcluded | src/main.rs:256-264 | the answer is true exactly when the ID is in the list; the list is unchanged (a missing file becomes an empty one) |
| Exclusion.ExcludeTwice | src/main.rs:247-248 | excluding an ID twice stores it twice; the following membership test returns true |
| Selector.Fetched | src/main.rs:209-224 | the specification of `fetch_groups`: a successful fetch returns no more groups than there are IDs |
| Selector.FetchGroups | src/main.rs:204-225 | the loop succeeds exactly when the recursive specification does and returns the same groups; it never panics |
| Selector.FetchedFailsIff | src/main.rs:211-221 | the fetch fails exactly when some request cannot be sent |
| Selector.FetchedIsOrderedSubsequence | src/main.rs:211-224 | a successful fetch returns, in order, the groups of the IDs whose response decoded; the positions are strictly increasing and the result is no longer than the input |
| Selector.DecodedPositionsComplete | src/main.rs:219-221 | every ID whose response decodes contributes its group |
| Selector.AvailableGroups | src/main.rs:182-186 | the filter keeps exactly the available groups and is no longer than its input |
| Selector.SearchFrom | src/main.rs:149-201 | the search semantics from page `k` on; a pool of candidates is non-empty and comes from a page at or after `k` |
| Selector.SearchFollowsCursorOnlyWhenBarren | src/main.rs:168-201 | the search's only fixed successful outcome is 0; a pool of candidates comes from the first page with an available group; every page before it decoded without errors, had all its groups fetched, had none available and had a next cursor; the pool is exactly that page's available groups |
| Selector.SearchExhausted | src/main.rs:188-201 | when pages `k` to `q` are barren, each before `q` has a next cursor and `q` has none, the search yields 0, whatever pages follow |
| Selector.SearchResult | src/main.rs:181-189 | a non-zero search result is the ID of an available group fetched from one of the pages |
| Selector.GetRandomGroupId | src/main.rs:143-202 | without a query: an ID within [min, max], or a panic when min > max; with a query: one of the outcomes the search semantics allows (a pool member's ID, 0, a transport error, or a panic on an `errors` payload or missing data) |
| Selector.SinglePageWithUnclaimedGroup | src/main.rs:168-189 | a single page whose one group is unclaimed yields exactly that group's ID |
| Selector.SinglePageWithoutCandidates | src/main.rs:188-201 | a single page without an available group and without a next cursor yields 0 |
| Relationships.VisitGroup | src/main.rs:266-313 | a walk only appends to the store's list |
| Relationships.VisitRelationships | src/main.rs:315-354 | a relationship walk only appends to the store's list |
| Relationships.VisitPage | src/main.rs:341-351 | a page walk only appends, and does not itself report a seed |
| Relationships.VisitEach | src/main.rs:342-344 | the loop over a page only appends, and does not itself report a seed |
| Relationships.AbortStopsEach | src/main.rs:342-349 | once a group of the page aborts, no later group is walked |
| Relationships.VisitGroupSound | src/main.rs:266-313 | a walk appends each ID at most once and only IDs that were absent; it reports only IDs it appended, none twice |
| Relationships.VisitRelationshipsSound | src/main.rs:315-354 | the same guarantee for the walk over allies then enemies |
| Relationships.VisitPageSound | src/main.rs:341-351 | the same guarantee for one relationship page |
| Relationships.VisitEachSound | src/main.rs:342-349 | the same guarantee for the loop over a page's groups |
| Relationships.WalkKeepsStoreDuplicateFree | src/main.rs:271-281 | over a whole walk the store only grows and stays duplicate-free; reports are distinct and newly appended |
| Relationships.VisitGroupSeed | src/main.rs:271-312 | an excluded group changes nothing; otherwise its ID is stored; the walk returns true exactly when the group was new and available and no panic intervened; it is then reported last; an unreported group is never reported |
| Relationships.VisitGroupPostOrder | src/main.rs:283-312 | unless a panic intervenes, a new group's reports are the allies' page walk, then the enemies' page walk (an undecodable page contributing nothing), then the group itself if available |
| Relationships.MutualAlliesVisitedOnce | src/main.rs:271-285 | two available groups that are each other's only ally are both stored once, and reported second then first |
| Relationships.ExcludedAllyNotRevisited | src/main.rs:271-278 | an ally already in the store is neither walked nor reported; nothing about it is requested |
| Relationships.Walker.ProcessGroup | src/main.rs:266-313 | the method leaves the store holding the walk's list, appends the walk's reports to the output, and returns the walk's status |
| Relationships.Walker.ProcessRelationships | src/main.rs:315-354 | the same correspondence for the relationship walk; false on a panic |
| Relationships.Walker.ProcessPage | src/main.rs:341-351 | the same correspondence for one relationship page |
| RunLoop.Attempt | src/main.rs:365-380 | the specification of one pass: the store only grows; a selector failure or an unsendable group request changes nothing; a stop needs `repeat` off |
| RunLoop.StopCondition | src/main.rs:364-380 | the loop breaks exactly when `repeat` is off, the candidate decoded and the walk from it reported it; its group is then the last report; with `repeat` on it never breaks; an undecodable candidate changes nothing |
| RunLoop.AttemptSound | src/main.rs:364-380 | an attempt only appends to the store and keeps it duplicate-free; its reports are distinct and were appended by this attempt |
| RunLoop.RunAttempt | src/main.rs:365-380 | one pass selects an outcome the selector allows; the store, output and next state are then those of the attempt's specification |
| RunLoop.Replay | src/main.rs:364-383 | the specification of the loop: attempts are taken in turn, each from the store the earlier ones left, up to the first that does not go on searching; the store only grows |
| RunLoop.ReplayStops | src/main.rs:374-378 | a replay that ends stopped ends with an attempt, taken while all earlier ones went on searching, whose candidate decoded and whose walk from the store they left returned `Finished(true)` with `repeat` off; that group is the run's last report |
| RunLoop.Run | src/main.rs:364-383 | the loop's store, reports and final state are exactly those of replaying its selections (one per attempt, each one the selector allows) from the initial store; it goes on searching only when the attempt bound is reached; across the run the store only grows and stays duplicate-free, and no group is reported twice |

## Left out

- HTTP requests, URLs and the `group_api_domain` option. The service is the `Api` value: each request's outcome is given in advance.
- JSON decoding with serde. Decoding yields either the record or `DecodeFailed`. Search items are reduced to their IDs, the only field the source uses.
- Search cursors. Pages are numbered in order, and the pages form a finite chain in which a page with a next cursor has a successor (`PagesChain`). The service could instead keep returning a next cursor, or lead back to an earlier page; `get_random_group_id` then recurses without end. The model excludes that input, which is what makes the search terminate.
- Relationship pages are the `related_groups` list only; the other `Relationships` fields are not used by the source.
- File-system failures of `groups.json` (create, read, parse, write). The source panics on these. The model keeps only the file's content.
- Randomness from `rand`. A random choice is a nondeterministic choice, and contracts hold for every choice.
- The async runtime, `thread::sleep`, and `env_logger`.
- Command-line parsing with clap. Its defaults (min 1, max 17064733) are not part of `Config`.
- Terminal output. Reports are group IDs appended to a trace; the table row and colours, and the "No groups to look through" line, are left out.
- Panic messages. A panic is an outcome without a message.
- RunLoop.Run: `main` loops forever; the model stops after `maxAttempts` attempts, so a run that never stops is not modelled. A bound keeps the loop terminating without an unbounded `decreases`.
- Exclusion.ExclusionStore.Exclude: the exclusion store is sometimes described as a set whose insert is idempotent. The code appends without checking, so a repeated insert stores the ID twice. The model follows the code; `ExcludeTwice` shows it. Within the program, `process_group` checks membership first, so the walk never stores an ID twice (`WalkKeepsStoreDuplicateFree`).
