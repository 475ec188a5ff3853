/** The UI store of src/lib/store.ts: the search query and the add-modal flag. */
module UIStore {

  /** What the persistence middleware writes: only the search query. */
  datatype Persisted = Persisted(searchQuery: string)

  class UIState {
    var searchQuery: string
    var isAddModalOpen: bool

    constructor ()
      ensures searchQuery == "" && !isAddModalOpen
    {
      searchQuery := "";
      isAddModalOpen := false;
    }

    /** Sets the query and leaves the modal flag alone; a second identical call changes nothing. */
    method SetSearchQuery(query: string)
      modifies this
      ensures searchQuery == query
      ensures isAddModalOpen == old(isAddModalOpen)
    {
      searchQuery := query;
    }

    /** Sets the modal flag and leaves the query alone. */
    method SetIsAddModalOpen(isOpen: bool)
      modifies this
      ensures isAddModalOpen == isOpen
      ensures searchQuery == old(searchQuery)
    {
      isAddModalOpen := isOpen;
    }

    /** `partialize`: the persisted snapshot carries the query and nothing else. */
    function Partialize(): (p: Persisted)
      reads this
      ensures p.searchQuery == searchQuery
    {
      Persisted(searchQuery)
    }
  }

  /** The snapshot ignores the modal flag: two states with the same query persist alike. */
  lemma PartializeIgnoresModal(a: UIState, b: UIState)
    requires a.searchQuery == b.searchQuery
    ensures a.Partialize() == b.Partialize()
  {
  }
}
