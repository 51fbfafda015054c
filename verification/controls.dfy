/**
 * The sort buttons: the direction-toggle rule behind a click and the arrow
 * shown next to each button.
 */
module Controls {
  import opened Options
  import opened AssetModel
  import opened Filtering
  import opened Sorting
  import opened Projection

  /**
   * `handleSort(key)`: the configuration dispatched when the button for `key`
   * is clicked. Only a click on the current key while it is ascending turns it
   * descending; every other click sorts by `key` ascending.
   */
  function HandleSort(current: SortConfig, key: SortKey): (r: SortConfig)
    ensures r.key == key
    ensures r.direction == Descending <==> current.key == key && current.direction == Ascending
  {
    var direction := if current.key == key && current.direction == Ascending then Descending else Ascending;
    SortConfig(key, direction)
  }

  /** `getSortIndicator(key)`: no arrow on other buttons, the direction's arrow on the current one. */
  function GetSortIndicator(current: SortConfig, key: SortKey): (r: Option<string>)
    ensures r.None? <==> current.key != key
    ensures r == Some("\U{2191}") <==> current.key == key && current.direction == Ascending
    ensures r == Some("\U{2193}") <==> current.key == key && current.direction == Descending
  {
    if current.key != key then None
    else Some(if current.direction == Ascending then "\U{2191}" else "\U{2193}")
  }

  /** A key other than the current one always starts ascending. */
  lemma NewKeyStartsAscending(current: SortConfig, key: SortKey)
    requires current.key != key
    ensures HandleSort(current, key) == SortConfig(key, Ascending)
  {
  }

  /** Two clicks on the current key bring the configuration back to where it started. */
  lemma HandleSortTwice(current: SortConfig)
    ensures HandleSort(HandleSort(current, current.key), current.key) == current
  {
  }

  /**
   * After a click on `key`, only that button shows an arrow, and it shows the
   * direction the click selected.
   */
  lemma IndicatorAfterClick(current: SortConfig, key: SortKey, other: SortKey)
    ensures GetSortIndicator(HandleSort(current, key), key)
         == Some(if current.key == key && current.direction == Ascending then "\U{2193}" else "\U{2191}")
    ensures other != key ==> GetSortIndicator(HandleSort(current, key), other) == None
  {
  }

  /**
   * Clicking the current ascending key reverses the visible projection when no
   * two assets that pass the filters share a value of that key.
   */
  lemma ToggleReversesProjection(assets: seq<Asset>, filters: Filters, key: SortKey)
    requires DistinctKeys(Select(assets, filters), key)
    ensures var up := SortConfig(key, Ascending);
      Project(assets, filters, HandleSort(up, key)) == Reverse(Project(assets, filters, up))
  {
    SortByReverse(Select(assets, filters), key);
  }
}
