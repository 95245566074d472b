/**
 * The persisted list of group IDs already visited (`groups.json`). Only
 * the content of the file is modelled: `file` is `None` while the file
 * does not exist, and otherwise holds the decoded array of IDs.
 */
module Exclusion {
  import opened Types

  class ExclusionStore {
    var file: Option<seq<GroupId>>

    /** The list the store stands for; a missing file is the empty list. */
    function Ids(): seq<GroupId>
      reads this
    {
      match file
      case None => []
      case Some(ids) => ids
    }

    constructor (initial: Option<seq<GroupId>>)
      ensures file == initial
    {
      file := initial;
    }

    /** Creates the file holding `[]` when it does not exist yet. */
    method Initialize()
      modifies this
      ensures file == Some(old(Ids()))
    {
      if file.None? {
        file := Some([]);
      }
    }

    /**
     * Appends `id` to the list and writes it back. There is no check
     * for an ID that is already present.
     */
    method Exclude(id: GroupId)
      modifies this
      ensures file == Some(old(Ids()) + [id])
    {
      Initialize();
      var groupIds := file.value;
      groupIds := groupIds + [id];
      file := Some(groupIds);
    }

    /** Whether `id` occurs in the list. */
    method IsExcluded(id: GroupId) returns (excluded: bool)
      modifies this
      ensures file == Some(old(Ids()))
      ensures excluded <==> id in Ids()
    {
      Initialize();
      excluded := id in file.value;
    }
  }

  /** A store used twice for the same ID holds it twice and still reports it. */
  method ExcludeTwice(store: ExclusionStore, id: GroupId) returns (excluded: bool)
    modifies store
    ensures store.Ids() == old(store.Ids()) + [id, id]
    ensures excluded
  {
    store.Exclude(id);
    store.Exclude(id);
    excluded := store.IsExcluded(id);
  }
}
