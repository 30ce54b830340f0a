/**
 * What a roadmap card shows of its item: the truncated description, the
 * effort badge, the first dependencies with an overflow badge, and the
 * icon and health-dot choices.
 */
module RoadmapCard {
  import opened Text
  import opened RoadmapModel

  const DESCRIPTION_LIMIT: nat := 120
  const ELLIPSIS := "..."
  const SHOWN_DEPENDENCIES: nat := 2

  /** A description over 120 characters is cut to 120 and marked with "...". */
  function Truncate(d: string): (r: string)
    ensures |d| <= DESCRIPTION_LIMIT ==> r == d
    ensures |d| > DESCRIPTION_LIMIT ==> |r| == DESCRIPTION_LIMIT + |ELLIPSIS| && EndsWith(r, ELLIPSIS)
    ensures var n := if |d| < DESCRIPTION_LIMIT then |d| else DESCRIPTION_LIMIT;
            n <= |r| && r[..n] == d[..n]
  {
    if |d| > DESCRIPTION_LIMIT then d[..DESCRIPTION_LIMIT] + ELLIPSIS else d
  }

  /** Truncating a truncated description changes nothing more. */
  lemma TruncateIdempotent(d: string)
    ensures Truncate(Truncate(d)) == Truncate(d)
  {
    if |d| > DESCRIPTION_LIMIT {
      var t := Truncate(d);
      assert t[..DESCRIPTION_LIMIT] == d[..DESCRIPTION_LIMIT];
    }
  }

  /**
   * The description paragraph: present only for a description that is
   * present and not empty (an empty string is falsy).
   */
  function DescriptionShown(item: RoadmapItem): (r: Option<string>)
    ensures r.Some? <==> item.description.Some? && item.description.value != ""
    ensures r.Some? ==> r.value != "" && Truncate(r.value) == r.value
  {
    match item.description
    case None => None
    case Some(d) =>
      if d == "" then None
      else
        TruncateIdempotent(d);
        Some(Truncate(d))
  }

  /** The effort badge: shown for a present, non-zero effort (zero is falsy). */
  function EffortBadge(item: RoadmapItem): (r: Option<real>)
    ensures r.Some? <==> item.effort.Some? && item.effort.value != 0.0
    ensures r.Some? ==> r.value == item.effort.value
  {
    match item.effort
    case Some(e) => if e != 0.0 then Some(e) else None
    case None => None
  }

  /** The dependency row: up to two pills and a "+n more" badge for the rest. */
  datatype DependencyRow = DependencyRow(pills: seq<string>, more: Option<string>)

  function MoreBadge(hidden: nat): string {
    "+" + NatToString(hidden) + " more"
  }

  function Dependencies(item: RoadmapItem): (r: Option<DependencyRow>)
    ensures r.Some? <==> item.dependencies.Some? && |item.dependencies.value| > 0
    ensures r.Some? ==> var deps := item.dependencies.value;
      && |r.value.pills| <= SHOWN_DEPENDENCIES && |r.value.pills| <= |deps|
      && r.value.pills == deps[..|r.value.pills|]
      && (r.value.more.Some? <==> |deps| > SHOWN_DEPENDENCIES)
      && (r.value.more.Some? ==> r.value.more.value == MoreBadge(|deps| - |r.value.pills|))
  {
    match item.dependencies
    case None => None
    case Some(deps) =>
      if |deps| == 0 then None
      else
        var pills := if |deps| <= SHOWN_DEPENDENCIES then deps else deps[..SHOWN_DEPENDENCIES];
        Some(DependencyRow(pills, if |deps| > SHOWN_DEPENDENCIES then Some(MoreBadge(|deps| - SHOWN_DEPENDENCIES)) else None))
  }

  /**
   * Every dependency is accounted for: the pills are the first ones, and
   * the badge's number is how many are left over; there is no badge when
   * all of them fit.
   */
  lemma DependenciesAccounted(item: RoadmapItem, deps: seq<string>)
    requires item.dependencies == Some(deps) && |deps| > 0
    ensures var row := Dependencies(item).value;
      && |row.pills| == (if |deps| < 2 then |deps| else 2)
      && (row.more.None? ==> row.pills == deps)
      && (row.more.Some? ==> ParseInt(row.more.value[1..]) == Int(|deps| - |row.pills|))
  {
    var row := Dependencies(item).value;
    if row.more.Some? {
      var n := |deps| - |row.pills|;
      assert row.more.value[1..] == NatToString(n) + " more";
      ParseIntNatPrefix(n, " more");
    }
  }

  /** `TYPE_ICON_MAP`: the card's own copy of the type icons. */
  function TypeIcon(t: ItemType): string {
    match t
    case Feature => "Sparkles"
    case Bugfix => "Bug"
    case TechnicalDebt => "Wrench"
    case Research => "Search"
    case Epic => "Layers"
  }

  /** `STATUS_ICON_MAP`. */
  function StatusIcon(s: Status): string {
    match s
    case NotStarted => "Clock"
    case InProgress => "AlertCircle"
    case Completed => "CheckCircle"
    case OnHold => "Pause"
  }

  /**
   * Both icon maps cover every value with a distinct icon, and the card's
   * type icons are the ones the model's `TYPE_ICONS` table names.
   */
  lemma IconMaps(t1: ItemType, t2: ItemType, s1: Status, s2: Status)
    ensures TypeIcon(t1) == t1.Icon()
    ensures TypeIcon(t1) == TypeIcon(t2) ==> t1 == t2
    ensures StatusIcon(s1) == StatusIcon(s2) ==> s1 == s2
  {
  }

  /** `getHealthDotColor`. */
  function HealthDot(h: Health): string {
    match h
    case OnTrack => "bg-success"
    case AtRisk => "bg-warning"
    case OffTrack => "bg-destructive"
    case Blocked => "bg-destructive"
  }

  /**
   * The dot has the colour of the health label beside it: on track is
   * success, at risk is warning, off track and blocked share destructive.
   */
  lemma HealthDotMatchesLabel(h: Health, g: Health)
    ensures StartsWith(h.Color(), "text-") && HealthDot(h) == "bg-" + h.Color()[5..]
    ensures HealthDot(h) == HealthDot(g) <==> h == g || (h in {OffTrack, Blocked} && g in {OffTrack, Blocked})
  {
  }
}
