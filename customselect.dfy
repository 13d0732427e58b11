/**
 * The option navigation and default search filter of the planner's
 * selection box: moving the highlighted option up or down a list with wrap
 * around, and keeping the options whose search text contains the query.
 */
module CustomSelect {
  import opened Wrappers
  import opened Text
  import opened Seqs

  /** `Iterator::position`: the index of the first occurrence of `x`. */
  function Position<O(==)>(available: seq<O>, x: O): (r: Option<nat>)
    ensures r.None? <==> x !in available
    ensures r.Some? ==> r.value < |available| && available[r.value] == x && forall j :: 0 <= j < r.value ==> available[j] != x
  {
    if available == [] then None
    else if available[0] == x then Some(0)
    else
      match Position(available[1..], x)
      case None => None
      case Some(i) => Some(i + 1)
  }

  /** `slice::last`. */
  function Last<O>(available: seq<O>): Option<O>
  {
    if available == [] then None else Some(available[|available| - 1])
  }

  /** `slice::first`. */
  function First<O>(available: seq<O>): Option<O>
  {
    if available == [] then None else Some(available[0])
  }

  /** `select_previous`: the option before the current one, wrapping to the last. */
  function SelectPrevious<O(==)>(available: seq<O>, current: Option<O>): Option<O>
  {
    match current
    case None => Last(available)
    case Some(c) =>
      match Position(available, c)
      case None => Last(available)
      case Some(p) => if p >= 1 then Some(available[p - 1]) else Last(available)
  }

  /** `select_next`: the option after the current one, wrapping to the first. */
  function SelectNext<O(==)>(available: seq<O>, current: Option<O>): Option<O>
  {
    match current
    case None => First(available)
    case Some(c) =>
      match Position(available, c)
      case None => First(available)
      case Some(p) => if p + 1 < |available| then Some(available[p + 1]) else First(available)
  }

  /** `x` first occurs at index `i`. */
  predicate FirstAt<O(==)>(available: seq<O>, x: O, i: nat)
  {
    i < |available| && available[i] == x && forall j :: 0 <= j < i ==> available[j] != x
  }

  /**
   * Moving up gives the option before the first occurrence of the current
   * one; from the top, from no selection or from an option not in the list it
   * gives the last option. The result is None exactly when the list is empty,
   * and otherwise one of its options.
   */
  lemma SelectPreviousSpec<O>(available: seq<O>, current: Option<O>)
    ensures SelectPrevious(available, current).None? <==> available == []
    ensures SelectPrevious(available, current).Some? ==> SelectPrevious(available, current).value in available
    ensures forall i: nat :: current.Some? && 1 <= i && FirstAt(available, current.value, i) ==>
      SelectPrevious(available, current) == Some(available[i - 1])
    ensures available != [] && (current.None? || current.value !in available || FirstAt(available, current.value, 0)) ==>
      SelectPrevious(available, current) == Some(available[|available| - 1])
  {
    if current.Some? {
      var c := current.value;
      var r := Position(available, c);
      forall i: nat | 1 <= i && FirstAt(available, c, i)
        ensures r == Some(i)
      {
        assert r.Some?;
      }
      if FirstAt(available, c, 0) {
        assert r == Some(0);
      }
    }
  }

  /**
   * Moving down gives the option after the first occurrence of the current
   * one; from the bottom, from no selection or from an option not in the list
   * it gives the first option. The result is None exactly when the list is
   * empty, and otherwise one of its options.
   */
  lemma SelectNextSpec<O>(available: seq<O>, current: Option<O>)
    ensures SelectNext(available, current).None? <==> available == []
    ensures SelectNext(available, current).Some? ==> SelectNext(available, current).value in available
    ensures forall i: nat :: current.Some? && i + 1 < |available| && FirstAt(available, current.value, i) ==>
      SelectNext(available, current) == Some(available[i + 1])
    ensures available != [] && (current.None? || current.value !in available || FirstAt(available, current.value, |available| - 1)) ==>
      SelectNext(available, current) == Some(available[0])
  {
    if current.Some? {
      var c := current.value;
      var r := Position(available, c);
      forall i: nat | FirstAt(available, c, i)
        ensures r == Some(i)
      {
        assert r.Some?;
      }
    }
  }

  /** No option is listed twice. */
  predicate Distinct<O(==)>(available: seq<O>)
  {
    forall i, j :: 0 <= i < j < |available| ==> available[i] != available[j]
  }

  lemma DistinctFirstAt<O>(available: seq<O>, i: nat)
    requires Distinct(available) && i < |available|
    ensures FirstAt(available, available[i], i)
  {
  }

  /** On a list without repeats, moving down and then up returns to the option one started from. */
  lemma NextThenPrevious<O>(available: seq<O>, x: O)
    requires Distinct(available) && x in available
    ensures SelectPrevious(available, SelectNext(available, Some(x))) == Some(x)
  {
    var i :| 0 <= i < |available| && available[i] == x;
    DistinctFirstAt(available, i);
    SelectNextSpec(available, Some(x));
    if i + 1 < |available| {
      DistinctFirstAt(available, i + 1);
      SelectPreviousSpec(available, Some(available[i + 1]));
    } else {
      DistinctFirstAt(available, 0);
      SelectPreviousSpec(available, Some(available[0]));
    }
  }

  /** On a list without repeats, moving up and then down returns to the option one started from. */
  lemma PreviousThenNext<O>(available: seq<O>, x: O)
    requires Distinct(available) && x in available
    ensures SelectNext(available, SelectPrevious(available, Some(x))) == Some(x)
  {
    var i :| 0 <= i < |available| && available[i] == x;
    DistinctFirstAt(available, i);
    SelectPreviousSpec(available, Some(x));
    if i >= 1 {
      DistinctFirstAt(available, i - 1);
      SelectNextSpec(available, Some(available[i - 1]));
    } else {
      DistinctFirstAt(available, |available| - 1);
      SelectNextSpec(available, Some(available[|available| - 1]));
    }
  }

  /** The default filter's test: the option's lowercased search text contains the lowercased query. */
  predicate SearchHit<O>(search: string, searchText: O -> string, o: O)
  {
    Contains(Lower(searchText(o)), Lower(search))
  }

  function SearchHitter<O>(search: string, searchText: O -> string): O -> bool
  {
    (o: O) => SearchHit(search, searchText, o)
  }

  /**
   * The default `filter_provider`, given the `search_text_provider` (by
   * default the option's debug rendering, which is not modelled).
   */
  function DefaultFilter<O>(search: string, options: seq<O>, searchText: O -> string): seq<O>
  {
    Filter(options, SearchHitter(search, searchText))
  }

  /**
   * The default filter keeps, in input order, exactly the options in whose
   * lowercased search text the lowercased query occurs at some position.
   */
  lemma DefaultFilterSpec<O>(search: string, options: seq<O>, searchText: O -> string)
    ensures forall o :: o in DefaultFilter(search, options, searchText) <==>
      o in options && exists i :: OccursAt(Lower(searchText(o)), Lower(search), i)
    ensures forall j :: 0 <= j < |options| && SearchHit(search, searchText, options[j]) ==>
      && |Filter(options[..j], SearchHitter(search, searchText))| < |DefaultFilter(search, options, searchText)|
      && DefaultFilter(search, options, searchText)[|Filter(options[..j], SearchHitter(search, searchText))|] == options[j]
  {
    var p := SearchHitter(search, searchText);
    forall o
      ensures o in DefaultFilter(search, options, searchText) <==>
        o in options && exists i :: OccursAt(Lower(searchText(o)), Lower(search), i)
    {
      ContainsIffOccurs(Lower(searchText(o)), Lower(search));
      if o in options && p(o) {
        var j :| 0 <= j < |options| && options[j] == o;
        FilterPlace(options, p, j);
      }
    }
    forall j | 0 <= j < |options| && SearchHit(search, searchText, options[j])
      ensures |Filter(options[..j], p)| < |DefaultFilter(search, options, searchText)|
      ensures DefaultFilter(search, options, searchText)[|Filter(options[..j], p)|] == options[j]
    {
      assert p(options[j]);
      FilterPlace(options, p, j);
    }
  }
}
