/** The four loading flags of the table and their disjunction. */
module LoadingState {
  /** The flags the loading context exposes, read at one render. */
  datatype LoadingFlags = LoadingFlags(isQuerying: bool, isCreating: bool, isUpdating: bool, isDeleting: bool)

  /** `isAnyLoading`. */
  predicate AnyLoading(f: LoadingFlags) {
    f.isQuerying || f.isCreating || f.isUpdating || f.isDeleting
  }

  /** Nothing loads exactly when all four flags are down. */
  lemma NothingLoading(f: LoadingFlags)
    ensures !AnyLoading(f) <==> f == LoadingFlags(false, false, false, false)
  {
  }

  class LoadingStore {
    var isQuerying: bool
    var isCreating: bool
    var isUpdating: bool
    var isDeleting: bool

    /** All four flags start down. */
    constructor ()
      ensures !isQuerying && !isCreating && !isUpdating && !isDeleting
      ensures !AnyLoading(Flags())
    {
      isQuerying, isCreating, isUpdating, isDeleting := false, false, false, false;
    }

    /** The context value: the stored flags as they are. */
    function Flags(): (f: LoadingFlags)
      reads this
      ensures f.isQuerying == isQuerying && f.isCreating == isCreating
      ensures f.isUpdating == isUpdating && f.isDeleting == isDeleting
    {
      LoadingFlags(isQuerying, isCreating, isUpdating, isDeleting)
    }

    method SetQuerying(b: bool)
      modifies this`isQuerying
      ensures isQuerying == b
    {
      isQuerying := b;
    }

    method SetCreating(b: bool)
      modifies this`isCreating
      ensures isCreating == b
      ensures b ==> AnyLoading(Flags())
    {
      isCreating := b;
    }

    method SetUpdating(b: bool)
      modifies this`isUpdating
      ensures isUpdating == b
      ensures b ==> AnyLoading(Flags())
    {
      isUpdating := b;
    }

    method SetDeleting(b: bool)
      modifies this`isDeleting
      ensures isDeleting == b
      ensures b ==> AnyLoading(Flags())
    {
      isDeleting := b;
    }
  }
}
