/** The search bar: a query text and a minimum-rating filter toggled by three buttons (2+, 3+, 4+). */
module SearchBar {
  import opened Wrappers
  import opened FrontendTypes

  /** The rating filter after clicking `value`: the same value clears it, another selects it. */
  function Toggled(minRating: Option<int>, value: int): (r: Option<int>)
    ensures r == Some(value) <==> minRating != Some(value)
    ensures r.None? <==> minRating == Some(value)
  {
    if minRating != Some(value) then Some(value) else None
  }

  /** Clicking a button twice selects it exactly when it was selected to begin with. */
  lemma ToggleTwice(minRating: Option<int>, value: int)
    ensures Toggled(Toggled(minRating, value), value) == (if minRating == Some(value) then Some(value) else None)
  {
  }

  class SearchBox {
    var query: string
    var minRating: Option<int>

    constructor ()
      ensures query == "" && minRating.None?
    {
      query := "";
      minRating := None;
    }

    /** A rating button is highlighted when the filter equals its value. */
    function Highlighted(value: int): bool
      reads this
    {
      minRating == Some(value)
    }

    method SetQuery(text: string)
      modifies this`query
      ensures query == text
    {
      query := text;
    }

    /** `handleSearch`: a search with the current text and rating filter; no state changes. */
    method HandleSearch() returns (params: SearchParams)
      ensures params == SearchParams(Some(query), minRating)
    {
      params := SearchParams(Some(query), minRating);
    }

    /**
     * `handleMinRatingFilter`: toggles the filter and searches with the current text and the new
     * filter.  Afterwards the clicked button is highlighted exactly when it was not before, and no
     * other button is.
     */
    method HandleMinRatingFilter(value: int) returns (params: SearchParams)
      modifies this`minRating
      ensures minRating == Toggled(old(minRating), value)
      ensures params == SearchParams(Some(query), minRating)
      ensures Highlighted(value) <==> !old(Highlighted(value))
      ensures forall other | other != value :: !Highlighted(other)
    {
      if minRating != Some(value) {
        minRating := Some(value);
        params := SearchParams(Some(query), Some(value));
      } else {
        minRating := None;
        params := SearchParams(Some(query), None);
      }
    }
  }

  /** At most one of the three buttons is highlighted, whatever the filter holds. */
  lemma AtMostOneHighlighted(box: SearchBox)
    ensures (if box.Highlighted(2) then 1 else 0) + (if box.Highlighted(3) then 1 else 0) + (if box.Highlighted(4) then 1 else 0) <= 1
  {
  }
}
