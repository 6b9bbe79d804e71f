/**
 * The React state of `lib/hooks/useProperties.ts`, each hook a class whose
 * fields are its `useState` cells and whose methods are its callbacks. A request
 * to the property service is a parameter `Outcome`: the data it resolved to, or
 * the failure it raised (with its message when it is an `Error`). Storage writes
 * and the 500 ms delay of `expressInterest` are not modelled.
 */
module PropertyHooks {
  import opened Wrappers
  import opened Strings
  import opened Collections
  import opened PropertyTypes

  datatype Outcome<T> = Loaded(value: T) | Failed(errorMessage: Option<string>)

  /** `err instanceof Error ? err.message : fallback`. */
  function ErrorText<T>(o: Outcome<T>, fallback: string): string
    requires o.Failed?
  {
    o.errorMessage.GetOr(fallback)
  }

  // ---------------------------------------------------------------------------
  // Favourites
  // ---------------------------------------------------------------------------

  function Other(id: string): string -> bool {
    x => x != id
  }

  /** The list `toggleFavorite` computes from the previous one. */
  function Toggled(favorites: seq<string>, id: string): (r: seq<string>)
    ensures id in r <==> id !in favorites
    ensures forall x :: x != id ==> (x in r <==> x in favorites)
  {
    if id in favorites then
      FilterMembersAll(favorites, Other(id));
      Filter(favorites, Other(id))
    else favorites + [id]
  }

  lemma FilterMembersAll(s: seq<string>, p: string -> bool)
    ensures forall x :: x in Filter(s, p) <==> x in s && p(x)
  {
    forall x {
      FilterMembers(s, p, x);
    }
  }

  /** The other ids keep their relative order under a toggle. */
  lemma ToggleKeepsOthersInOrder(favorites: seq<string>, id: string)
    ensures Filter(Toggled(favorites, id), Other(id)) == Filter(favorites, Other(id))
  {
    if id in favorites {
      FilterAllPass(Filter(favorites, Other(id)), Other(id));
    } else {
      FilterSnoc(favorites, id, Other(id));
    }
  }

  /** A toggle keeps a list without repeats free of repeats. */
  lemma ToggleKeepsDistinct(favorites: seq<string>, id: string)
    requires Distinct(favorites)
    ensures Distinct(Toggled(favorites, id))
  {
    if id in favorites {
      FilterDistinct(favorites, Other(id));
    }
  }

  /**
   * Toggling twice restores a list that did not hold the id. A list that held it
   * ends with it instead: the id moves to the back, the others keep their order.
   */
  lemma ToggleTwice(favorites: seq<string>, id: string)
    ensures id !in favorites ==> Toggled(Toggled(favorites, id), id) == favorites
    ensures id in favorites ==> Toggled(Toggled(favorites, id), id) == Filter(favorites, Other(id)) + [id]
  {
    if id !in favorites {
      assert Toggled(favorites, id) == favorites + [id];
      FilterSnoc(favorites, id, Other(id));
      FilterAllPass(favorites, Other(id));
    }
  }

  /** `usePropertyInteractions`. */
  class Interactions {
    var favorites: seq<string>
    var loading: bool

    /** The mount effect: the saved list when storage holds one, else the empty list. */
    constructor(saved: Option<seq<string>>)
      ensures favorites == saved.GetOr([]) && !loading
    {
      favorites := saved.GetOr([]);
      loading := false;
    }

    /** `isFavorite`. */
    predicate IsFavorite(id: string)
      reads this
    {
      id in favorites
    }

    /** `toggleFavorite`: removes every copy of the id when present, otherwise appends it. */
    method ToggleFavorite(id: string)
      modifies this
      ensures favorites == Toggled(old(favorites), id)
      ensures IsFavorite(id) <==> !old(IsFavorite(id))
      ensures loading == old(loading)
    {
      favorites := Toggled(favorites, id);
    }

    /** `expressInterest`: marks the id as a favourite when it is not one yet, and answers true. */
    method ExpressInterest(id: string) returns (ok: bool)
      modifies this
      ensures ok && !loading && IsFavorite(id)
      ensures favorites == if id in old(favorites) then old(favorites) else old(favorites) + [id]
      ensures forall x :: x in old(favorites) ==> x in favorites
    {
      loading := true;
      if id !in favorites {
        ToggleFavorite(id);
      }
      ok := true;
      loading := false;
    }
  }

  // ---------------------------------------------------------------------------
  // Search
  // ---------------------------------------------------------------------------

  const SearchFailure: string := "Erreur lors de la recherche"

  /** `usePropertySearch`. */
  class Search {
    var properties: seq<Property>
    var loading: bool
    var error: Option<string>
    var query: string

    constructor()
      ensures properties == [] && !loading && error.None? && query == ""
    {
      properties := [];
      loading := false;
      error := None;
      query := "";
    }

    /**
     * `search(q)`: a blank query empties the results and the query (the error is
     * kept) and sends nothing; any other query is recorded and sent, and its
     * outcome replaces the results or sets the error, keeping the old results.
     */
    method Run(q: string, outcome: Outcome<seq<Property>>) returns (sent: bool)
      modifies this
      ensures sent <==> !IsBlank(q)
      ensures !sent ==> properties == [] && query == "" && error == old(error) && loading == old(loading)
      ensures sent ==> query == q && !loading
      ensures sent && outcome.Loaded? ==> properties == outcome.value && error.None?
      ensures sent && outcome.Failed? ==>
        properties == old(properties) && error == Some(ErrorText(outcome, SearchFailure))
    {
      if IsBlank(q) {
        properties := [];
        query := "";
        sent := false;
        return;
      }
      sent := true;
      loading := true;
      error := None;
      query := q;
      if outcome.Loaded? {
        properties := outcome.value;
      } else {
        error := Some(ErrorText(outcome, SearchFailure));
      }
      loading := false;
    }

    /** `clearSearch`: empties the results, the query and the error. */
    method Clear()
      modifies this
      ensures properties == [] && query == "" && error.None? && loading == old(loading)
    {
      properties := [];
      query := "";
      error := None;
    }
  }

  // ---------------------------------------------------------------------------
  // Fetch hooks
  // ---------------------------------------------------------------------------

  /**
   * The `data`/`loading`/`error` cells of `useProperties`, `useFilteredProperties`,
   * `useProperty` and `useFeaturedProperties`, with the hook's own fallback message.
   */
  class Fetch<T> {
    var data: T
    var loading: bool
    var error: Option<string>
    const fallbackMessage: string

    /** Every fetch hook starts loading, without an error. */
    constructor(initial: T, fallback: string)
      ensures data == initial && loading && error.None? && fallbackMessage == fallback
    {
      data := initial;
      loading := true;
      error := None;
      fallbackMessage := fallback;
    }

    /**
     * One fetch (the effect or `refetch`): success replaces the data and clears the
     * error; failure sets the error and keeps the data already shown. Either way
     * loading ends.
     */
    method Complete(outcome: Outcome<T>)
      modifies this
      ensures !loading
      ensures outcome.Loaded? ==> data == outcome.value && error.None?
      ensures outcome.Failed? ==> data == old(data) && error == Some(ErrorText(outcome, fallbackMessage))
    {
      loading := true;
      error := None;
      if outcome.Loaded? {
        data := outcome.value;
      } else {
        error := Some(ErrorText(outcome, fallbackMessage));
      }
      loading := false;
    }

    /** The effect of `useProperty(id)`: an empty id only ends loading and fetches nothing. */
    method LoadById(id: string, outcome: Outcome<T>) returns (fetched: bool)
      modifies this
      ensures fetched <==> id != ""
      ensures !loading
      ensures !fetched ==> data == old(data) && error == old(error)
      ensures fetched && outcome.Loaded? ==> data == outcome.value && error.None?
      ensures fetched && outcome.Failed? ==> data == old(data) && error == Some(ErrorText(outcome, fallbackMessage))
    {
      if id == "" {
        loading := false;
        fetched := false;
        return;
      }
      Complete(outcome);
      fetched := true;
    }
  }

  const ListFailure: string := "Erreur lors du chargement des biens"
  const OneFailure: string := "Erreur lors du chargement du bien"
  const FeaturedFailure: string := "Erreur lors du chargement des biens mis en avant"

  /** A failed refetch after a successful fetch keeps showing the first fetch's data. */
  method StaleDataAfterFailure(first: seq<Property>, message: Option<string>) returns (f: Fetch<seq<Property>>)
    ensures f.data == first && !f.loading
    ensures f.error == Some(message.GetOr(ListFailure))
  {
    f := new Fetch([], ListFailure);
    f.Complete(Loaded(first));
    f.Complete(Failed(message));
  }
}
