/**
 * The roadmap page's filter state: how it is read from and written to the
 * URL's search parameters, how updates are merged, which items it keeps,
 * and the filter panel's list toggle.
 */
module RoadmapFilters {
  import opened Text
  import opened Seqs
  import opened RoadmapModel

  /**
   * The filters as the page holds them. The URL values are cast, not
   * checked, so the view and the list entries are plain strings.
   */
  datatype Filters = Filters(view: string, types: seq<string>, moscow: seq<string>, statuses: seq<string>,
                             hideCompleted: bool)

  const DEFAULT_VIEW: string := "timeline"
  const DEFAULT_FILTERS: Filters := Filters(DEFAULT_VIEW, [], [], [], false)

  /** URL search parameters, in insertion order. */
  type Params = seq<(string, string)>

  /** `searchParams.get(key)`: the first value under `key`. */
  function Get(ps: Params, key: string): (r: Option<string>)
    ensures r.Some? ==> (key, r.value) in ps
    ensures r.None? <==> NoKey(ps, key)
  {
    if ps == [] then None
    else if ps[0].0 == key then Some(ps[0].1)
    else Get(ps[1..], key)
  }

  predicate NoKey(ps: Params, key: string) {
    forall k | 0 <= k < |ps| :: ps[k].0 != key
  }

  /** `get(key)?.split(',').filter(Boolean) || []`. */
  function DecodeList(v: Option<string>): (r: seq<string>)
    ensures forall k | 0 <= k < |r| :: r[k] != "" && ',' !in r[k]
  {
    if v.None? then [] else NonEmpty(Split(v.value, ','))
  }

  /** The filters a URL describes. */
  function Decode(ps: Params): (r: Filters)
    ensures Get(ps, "view").None? || Get(ps, "view") == Some("") ==> r.view == DEFAULT_VIEW
    ensures Get(ps, "types").None? ==> r.types == []
    ensures r.hideCompleted <==> Get(ps, "hideCompleted") == Some("true")
  {
    var view := Get(ps, "view");
    Filters(if view.Some? && view.value != "" then view.value else DEFAULT_VIEW,
            DecodeList(Get(ps, "types")), DecodeList(Get(ps, "moscow")), DecodeList(Get(ps, "statuses")),
            Get(ps, "hideCompleted") == Some("true"))
  }

  /** One optional parameter: present only when the list has entries. */
  function ListParam(key: string, xs: seq<string>): Params {
    if |xs| > 0 then [(key, Join(xs, ','))] else []
  }

  function ViewParam(f: Filters): Params {
    if f.view != DEFAULT_VIEW then [("view", f.view)] else []
  }

  function HideParam(f: Filters): Params {
    if f.hideCompleted then [("hideCompleted", "true")] else []
  }

  /** The parameters `setFilters` writes: a field equal to its default is left out. */
  function Encode(f: Filters): (r: Params)
    ensures r == [] <==> f == DEFAULT_FILTERS
    ensures |r| <= 5
  {
    ViewParam(f) + (ListParam("types", f.types) + (ListParam("moscow", f.moscow)
      + (ListParam("statuses", f.statuses) + HideParam(f))))
  }

  /** Filters a URL can carry: a non-empty view, list entries that are non-empty and free of commas. */
  predicate Encodable(f: Filters) {
    && f.view != ""
    && (forall k | 0 <= k < |f.types| :: f.types[k] != "" && ',' !in f.types[k])
    && (forall k | 0 <= k < |f.moscow| :: f.moscow[k] != "" && ',' !in f.moscow[k])
    && (forall k | 0 <= k < |f.statuses| :: f.statuses[k] != "" && ',' !in f.statuses[k])
  }

  lemma GetAppend(a: Params, b: Params, key: string)
    requires NoKey(a, key)
    ensures Get(a + b, key) == Get(b, key)
  {
    if a != [] {
      assert (a + b)[0] == a[0] && a[0].0 != key;
      assert (a + b)[1..] == a[1..] + b;
      assert forall k | 0 <= k < |a[1..]| :: a[1..][k] == a[k + 1];
      GetAppend(a[1..], b, key);
    } else {
      assert a + b == b;
    }
  }

  lemma ListRoundTrip(key: string, xs: seq<string>)
    requires forall k | 0 <= k < |xs| :: xs[k] != "" && ',' !in xs[k]
    ensures DecodeList(Get(ListParam(key, xs), key)) == xs
  {
    if |xs| > 0 {
      SplitJoin(xs, ',');
      NonEmptyKeepsAll(xs);
    }
  }

  /** The first piece that has the key decides; a piece without it is skipped. */
  lemma GetPiece(a: Params, b: Params, key: string)
    requires |a| <= 1
    ensures a != [] && a[0].0 == key ==> Get(a + b, key) == Some(a[0].1)
    ensures a == [] || a[0].0 != key ==> Get(a + b, key) == Get(b, key)
  {
    if a == [] {
      assert a + b == b;
    } else {
      assert (a + b)[0] == a[0];
      if a[0].0 != key {
        GetAppend(a, b, key);
      }
    }
  }

  lemma EncodeView(f: Filters)
    ensures Get(Encode(f), "view") == Get(ViewParam(f), "view")
  {
    var t := ListParam("types", f.types);
    var m := ListParam("moscow", f.moscow);
    var s := ListParam("statuses", f.statuses);
    GetPiece(ViewParam(f), t + (m + (s + HideParam(f))), "view");
    GetPiece(t, m + (s + HideParam(f)), "view");
    GetPiece(m, s + HideParam(f), "view");
    GetPiece(s, HideParam(f), "view");
    GetPiece(HideParam(f), [], "view");
    assert HideParam(f) + [] == HideParam(f);
    assert ViewParam(f) + [] == ViewParam(f);
    GetPiece(ViewParam(f), [], "view");
  }

  lemma EncodeTypes(f: Filters)
    ensures Get(Encode(f), "types") == Get(ListParam("types", f.types), "types")
  {
    var t := ListParam("types", f.types);
    var m := ListParam("moscow", f.moscow);
    var s := ListParam("statuses", f.statuses);
    GetPiece(ViewParam(f), t + (m + (s + HideParam(f))), "types");
    GetPiece(t, m + (s + HideParam(f)), "types");
    GetPiece(m, s + HideParam(f), "types");
    GetPiece(s, HideParam(f), "types");
    GetPiece(HideParam(f), [], "types");
    assert HideParam(f) + [] == HideParam(f);
    assert t + [] == t;
    GetPiece(t, [], "types");
  }

  lemma EncodeMoscow(f: Filters)
    ensures Get(Encode(f), "moscow") == Get(ListParam("moscow", f.moscow), "moscow")
  {
    var t := ListParam("types", f.types);
    var m := ListParam("moscow", f.moscow);
    var s := ListParam("statuses", f.statuses);
    GetPiece(ViewParam(f), t + (m + (s + HideParam(f))), "moscow");
    GetPiece(t, m + (s + HideParam(f)), "moscow");
    GetPiece(m, s + HideParam(f), "moscow");
    GetPiece(s, HideParam(f), "moscow");
    GetPiece(HideParam(f), [], "moscow");
    assert HideParam(f) + [] == HideParam(f);
    assert m + [] == m;
    GetPiece(m, [], "moscow");
  }

  lemma EncodeStatuses(f: Filters)
    ensures Get(Encode(f), "statuses") == Get(ListParam("statuses", f.statuses), "statuses")
  {
    var t := ListParam("types", f.types);
    var m := ListParam("moscow", f.moscow);
    var s := ListParam("statuses", f.statuses);
    GetPiece(ViewParam(f), t + (m + (s + HideParam(f))), "statuses");
    GetPiece(t, m + (s + HideParam(f)), "statuses");
    GetPiece(m, s + HideParam(f), "statuses");
    GetPiece(s, HideParam(f), "statuses");
    GetPiece(HideParam(f), [], "statuses");
    assert HideParam(f) + [] == HideParam(f);
    assert s + [] == s;
    GetPiece(s, [], "statuses");
  }

  lemma EncodeHide(f: Filters)
    ensures Get(Encode(f), "hideCompleted") == Get(HideParam(f), "hideCompleted")
  {
    var t := ListParam("types", f.types);
    var m := ListParam("moscow", f.moscow);
    var s := ListParam("statuses", f.statuses);
    GetPiece(ViewParam(f), t + (m + (s + HideParam(f))), "hideCompleted");
    GetPiece(t, m + (s + HideParam(f)), "hideCompleted");
    GetPiece(m, s + HideParam(f), "hideCompleted");
    GetPiece(s, HideParam(f), "hideCompleted");
  }

  /** What the URL written for some filters reads back as those filters. */
  lemma {:induction false} DecodeEncode(f: Filters)
    requires Encodable(f)
    ensures Decode(Encode(f)) == f
  {
    EncodeView(f);
    EncodeTypes(f);
    EncodeMoscow(f);
    EncodeStatuses(f);
    EncodeHide(f);
    ListRoundTrip("types", f.types);
    ListRoundTrip("moscow", f.moscow);
    ListRoundTrip("statuses", f.statuses);
  }

  /** Whatever a URL holds, the filters read from it can be written back and read again unchanged. */
  lemma DecodeIsEncodable(ps: Params)
    ensures Encodable(Decode(ps))
    ensures Decode(Encode(Decode(ps))) == Decode(ps)
  {
    DecodeEncode(Decode(ps));
  }

  /* ---------------------------------------------------------------------- */
  /* Updates and navigation                                                  */
  /* ---------------------------------------------------------------------- */

  /** `Partial<RoadmapFilters>`: the fields an update sets. */
  datatype Update = Update(view: Option<string>, types: Option<seq<string>>, moscow: Option<seq<string>>,
                           statuses: Option<seq<string>>, hideCompleted: Option<bool>)

  /** `{ ...filters, ...updates }`. */
  function Overlay(f: Filters, u: Update): (r: Filters)
    ensures u.view.None? ==> r.view == f.view
    ensures u.types.None? ==> r.types == f.types
    ensures u.moscow.None? ==> r.moscow == f.moscow
    ensures u.statuses.None? ==> r.statuses == f.statuses
    ensures u.hideCompleted.None? ==> r.hideCompleted == f.hideCompleted
    ensures u.view.Some? ==> r.view == u.view.value
    ensures u.types.Some? ==> r.types == u.types.value
    ensures u.moscow.Some? ==> r.moscow == u.moscow.value
    ensures u.statuses.Some? ==> r.statuses == u.statuses.value
    ensures u.hideCompleted.Some? ==> r.hideCompleted == u.hideCompleted.value
  {
    Filters(u.view.GetOr(f.view), u.types.GetOr(f.types), u.moscow.GetOr(f.moscow),
            u.statuses.GetOr(f.statuses), u.hideCompleted.GetOr(f.hideCompleted))
  }

  /** `params.toString()`, without percent-encoding. */
  function QueryString(ps: Params): (r: string)
    ensures ps != [] ==> r != ""
  {
    if ps == [] then ""
    else if |ps| == 1 then ps[0].0 + "=" + ps[0].1
    else ps[0].0 + "=" + ps[0].1 + "&" + QueryString(ps[1..])
  }

  /** The address pushed: the bare pathname when there is no query string. */
  function Href(pathname: string, ps: Params): (r: string)
    ensures r == pathname <==> ps == []
  {
    var q := QueryString(ps);
    if q != "" then pathname + "?" + q else pathname
  }

  /** `setFilters(updates)`: the parameters written for the merged filters. */
  function SetFilters(current: Filters, u: Update): Params {
    Encode(Overlay(current, u))
  }

  /** The update `setFilters(updates)` makes takes effect: the new URL reads back as the merged filters. */
  lemma SetFiltersTakesEffect(current: Filters, u: Update)
    requires Encodable(Overlay(current, u))
    ensures Decode(SetFilters(current, u)) == Overlay(current, u)
  {
    DecodeEncode(Overlay(current, u));
  }

  function ToggleHideCompleted(current: Filters): Params {
    SetFilters(current, Update(None, None, None, None, Some(!current.hideCompleted)))
  }

  function SetView(current: Filters, view: string): Params {
    SetFilters(current, Update(Some(view), None, None, None, None))
  }

  function ClearFilters(current: Filters): Params {
    SetFilters(current, Update(Some(DEFAULT_FILTERS.view), Some([]), Some([]), Some([]), Some(false)))
  }

  /** Toggling flips `hideCompleted` and leaves every other filter as it was. */
  lemma ToggleHideCompletedFlipsOnly(current: Filters)
    requires Encodable(current)
    ensures Decode(ToggleHideCompleted(current)) == current.(hideCompleted := !current.hideCompleted)
  {
    SetFiltersTakesEffect(current, Update(None, None, None, None, Some(!current.hideCompleted)));
  }

  /** Clearing navigates to the bare pathname, which reads back as the defaults. */
  lemma ClearFiltersIsBarePath(current: Filters, pathname: string)
    ensures ClearFilters(current) == []
    ensures Href(pathname, ClearFilters(current)) == pathname
    ensures Decode(ClearFilters(current)) == DEFAULT_FILTERS
  {
  }

  /* ---------------------------------------------------------------------- */
  /* Which items are shown                                                   */
  /* ---------------------------------------------------------------------- */

  /** A list filter allows a value when nothing is selected or the value is selected. */
  predicate Allows(selected: seq<string>, value: string) {
    |selected| == 0 || value in selected
  }

  /** The predicate of `filteredItems`. */
  predicate Keeps(f: Filters, item: RoadmapItem) {
    && Allows(f.types, item.typ.Slug())
    && Allows(f.moscow, item.moscow.Slug())
    && Allows(f.statuses, item.status.Slug())
    && !(f.hideCompleted && item.status == Completed)
  }

  function FilterItems(f: Filters, items: seq<RoadmapItem>): (r: seq<RoadmapItem>)
    ensures forall k | 0 <= k < |r| :: Keeps(f, r[k])
  {
    Where(items, (item: RoadmapItem) => Keeps(f, item))
  }

  /**
   * An item is shown exactly when it passes every filter, and the shown
   * items are the input's, in the input's order.
   */
  lemma FilterItemsExact(f: Filters, items: seq<RoadmapItem>, k: nat)
    requires k < |items|
    ensures items[k] in FilterItems(f, items) <==> Keeps(f, items[k])
    ensures IsSubsequence(FilterItems(f, items), items)
  {
    WhereIsSubsequence(items, (item: RoadmapItem) => Keeps(f, item));
  }

  /** Filtering the shown items again changes nothing. */
  lemma FilterItemsIdempotent(f: Filters, items: seq<RoadmapItem>)
    ensures FilterItems(f, FilterItems(f, items)) == FilterItems(f, items)
  {
    WhereIdempotent(items, (item: RoadmapItem) => Keeps(f, item));
  }

  /** `hasActiveFilters`: some list has a selection, or completed items are hidden. */
  predicate HasActiveFilters(f: Filters) {
    |f.types| > 0 || |f.moscow| > 0 || |f.statuses| > 0 || f.hideCompleted
  }

  /** Without an active filter every item is shown; the view does not filter. */
  lemma InactiveFiltersKeepAll(f: Filters, items: seq<RoadmapItem>)
    requires !HasActiveFilters(f)
    ensures FilterItems(f, items) == items
  {
    WhereKeepsAll(items, (item: RoadmapItem) => Keeps(f, item));
  }

  /** Filters are active exactly when they differ from the defaults in something other than the view. */
  lemma ActiveMeansNotDefault(f: Filters)
    ensures HasActiveFilters(f) <==> f.(view := DEFAULT_VIEW) != DEFAULT_FILTERS
  {
  }

  /** The clear control is shown only for active filters and when a handler is supplied. */
  predicate ShowsClearControl(f: Filters, hasClearHandler: bool) {
    HasActiveFilters(f) && hasClearHandler
  }

  /* ---------------------------------------------------------------------- */
  /* The filter panel's toggle                                               */
  /* ---------------------------------------------------------------------- */

  /** `toggleArrayValue`: drop every copy of a present value, append an absent one. */
  function Toggle<T(==)>(xs: seq<T>, v: T): (r: seq<T>)
    ensures v in r <==> v !in xs
    ensures forall k | 0 <= k < |xs| :: xs[k] != v ==> xs[k] in r
    ensures forall k | 0 <= k < |r| :: r[k] != v ==> r[k] in xs
  {
    if v in xs then Where(xs, (x: T) => x != v) else xs + [v]
  }

  /** An absent value is appended at the end. */
  lemma ToggleAppends<T>(xs: seq<T>, v: T)
    requires v !in xs
    ensures Toggle(xs, v) == xs + [v]
  {
  }

  /** Toggling an absent value twice gives the list back. */
  lemma {:induction false} ToggleTwice<T>(xs: seq<T>, v: T)
    requires v !in xs
    ensures Toggle(Toggle(xs, v), v) == xs
  {
    var p := (x: T) => x != v;
    assert v in xs + [v];
    WhereAppend(xs, [v], p);
    WhereKeepsAll(xs, p);
    assert Where([v], p) == [];
  }
}
