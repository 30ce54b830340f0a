/**
 * The roadmap's vocabulary: the five enumerations with their data literals,
 * display labels, badge colours and icons, the effort scale, and the
 * validator that turns a roadmap file's item into a typed item.
 */
module RoadmapModel {
  import opened Text

  /* ---------------------------------------------------------------------- */
  /* Enumerations                                                            */
  /* ---------------------------------------------------------------------- */

  datatype ItemType = Feature | Bugfix | TechnicalDebt | Research | Epic
  {
    /** The literal used in the roadmap file and in URLs. */
    function Slug(): string {
      match this
      case Feature => "feature"
      case Bugfix => "bugfix"
      case TechnicalDebt => "technical-debt"
      case Research => "research"
      case Epic => "epic"
    }

    /** `formatType`. */
    function Label(): string {
      match this
      case Feature => "Feature"
      case Bugfix => "Bug Fix"
      case TechnicalDebt => "Tech Debt"
      case Research => "Research"
      case Epic => "Epic"
    }

    /** `TYPE_ICONS`, the lucide icon names. */
    function Icon(): string {
      match this
      case Feature => "Sparkles"
      case Bugfix => "Bug"
      case TechnicalDebt => "Wrench"
      case Research => "Search"
      case Epic => "Layers"
    }
  }

  datatype MoSCoW = MustHave | ShouldHave | CouldHave | WontHave
  {
    function Slug(): string {
      match this
      case MustHave => "must-have"
      case ShouldHave => "should-have"
      case CouldHave => "could-have"
      case WontHave => "wont-have"
    }

    /** `formatMoSCoW`. */
    function Label(): string {
      match this
      case MustHave => "Must Have"
      case ShouldHave => "Should Have"
      case CouldHave => "Could Have"
      case WontHave => "Won't Have"
    }

    /** `MOSCOW_COLORS`. */
    function Color(): string {
      match this
      case MustHave => "bg-destructive/20 text-destructive"
      case ShouldHave => "bg-warning/20 text-warning"
      case CouldHave => "bg-info/20 text-info"
      case WontHave => "bg-muted text-muted-foreground"
    }
  }

  datatype Status = NotStarted | InProgress | Completed | OnHold
  {
    function Slug(): string {
      match this
      case NotStarted => "not-started"
      case InProgress => "in-progress"
      case Completed => "completed"
      case OnHold => "on-hold"
    }

    /** `formatStatus`. */
    function Label(): string {
      match this
      case NotStarted => "Not Started"
      case InProgress => "In Progress"
      case Completed => "Completed"
      case OnHold => "On Hold"
    }

    /** `STATUS_COLORS`. */
    function Color(): string {
      match this
      case NotStarted => "bg-muted text-muted-foreground"
      case InProgress => "bg-info/20 text-info"
      case Completed => "bg-success/20 text-success"
      case OnHold => "bg-warning/20 text-warning"
    }
  }

  datatype Health = OnTrack | AtRisk | OffTrack | Blocked
  {
    function Slug(): string {
      match this
      case OnTrack => "on-track"
      case AtRisk => "at-risk"
      case OffTrack => "off-track"
      case Blocked => "blocked"
    }

    /** `formatHealth`. */
    function Label(): string {
      match this
      case OnTrack => "On Track"
      case AtRisk => "At Risk"
      case OffTrack => "Off Track"
      case Blocked => "Blocked"
    }

    /** `HEALTH_COLORS`, the text colour of the health label. */
    function Color(): string {
      match this
      case OnTrack => "text-success"
      case AtRisk => "text-warning"
      case OffTrack => "text-destructive"
      case Blocked => "text-destructive"
    }
  }

  datatype TimeHorizon = Now | Next | Later
  {
    function Slug(): string {
      match this
      case Now => "now"
      case Next => "next"
      case Later => "later"
    }

    /** `formatTimeHorizon`. */
    function Label(): string {
      match this
      case Now => "Now"
      case Next => "Next"
      case Later => "Later"
    }
  }

  /* ---------------------------------------------------------------------- */
  /* Label tables of the filter panel                                        */
  /* ---------------------------------------------------------------------- */

  const TYPE_LABELS: map<ItemType, string> :=
    map[Feature := "Feature", Bugfix := "Bug Fix", TechnicalDebt := "Tech Debt", Research := "Research", Epic := "Epic"]

  const MOSCOW_LABELS: map<MoSCoW, string> :=
    map[MustHave := "Must Have", ShouldHave := "Should Have", CouldHave := "Could Have", WontHave := "Won't Have"]

  const STATUS_LABELS: map<Status, string> :=
    map[NotStarted := "Not Started", InProgress := "In Progress", Completed := "Completed", OnHold := "On Hold"]

  /** The filter panel's tables and the formatters the views use name every value alike. */
  lemma LabelTablesAgree(t: ItemType, m: MoSCoW, s: Status)
    ensures t in TYPE_LABELS && TYPE_LABELS[t] == t.Label()
    ensures m in MOSCOW_LABELS && MOSCOW_LABELS[m] == m.Label()
    ensures s in STATUS_LABELS && STATUS_LABELS[s] == s.Label()
  {
  }

  /** Different values get different labels, for each of the five formatters. */
  lemma LabelsInjective(t1: ItemType, t2: ItemType, m1: MoSCoW, m2: MoSCoW, s1: Status, s2: Status,
                        h1: Health, h2: Health, z1: TimeHorizon, z2: TimeHorizon)
    ensures t1.Label() == t2.Label() <==> t1 == t2
    ensures m1.Label() == m2.Label() <==> m1 == m2
    ensures s1.Label() == s2.Label() <==> s1 == s2
    ensures h1.Label() == h2.Label() <==> h1 == h2
    ensures z1.Label() == z2.Label() <==> z1 == z2
  {
  }

  /** Off-track and blocked share the destructive colour; otherwise the colour tells the health apart. */
  lemma HealthColors(a: Health, b: Health)
    ensures OffTrack.Color() == Blocked.Color()
    ensures a.Color() == b.Color() <==> a == b || ({a, b} == {OffTrack, Blocked})
  {
  }

  /* ---------------------------------------------------------------------- */
  /* Parsing the literals                                                    */
  /* ---------------------------------------------------------------------- */

  /** `roadmapItemTypeSchema`: exactly the five literals are accepted. */
  function ItemTypeOfSlug(s: string): (r: Option<ItemType>)
    ensures r.Some? ==> r.value.Slug() == s
    ensures r.None? ==> forall t: ItemType :: t.Slug() != s
  {
    if s == "feature" then Some(Feature)
    else if s == "bugfix" then Some(Bugfix)
    else if s == "technical-debt" then Some(TechnicalDebt)
    else if s == "research" then Some(Research)
    else if s == "epic" then Some(Epic)
    else None
  }

  /** `moscowSchema`. */
  function MoSCoWOfSlug(s: string): (r: Option<MoSCoW>)
    ensures r.Some? ==> r.value.Slug() == s
    ensures r.None? ==> forall m: MoSCoW :: m.Slug() != s
  {
    if s == "must-have" then Some(MustHave)
    else if s == "should-have" then Some(ShouldHave)
    else if s == "could-have" then Some(CouldHave)
    else if s == "wont-have" then Some(WontHave)
    else None
  }

  /** `statusSchema`. */
  function StatusOfSlug(s: string): (r: Option<Status>)
    ensures r.Some? ==> r.value.Slug() == s
    ensures r.None? ==> forall t: Status :: t.Slug() != s
  {
    if s == "not-started" then Some(NotStarted)
    else if s == "in-progress" then Some(InProgress)
    else if s == "completed" then Some(Completed)
    else if s == "on-hold" then Some(OnHold)
    else None
  }

  /** `healthSchema`. */
  function HealthOfSlug(s: string): (r: Option<Health>)
    ensures r.Some? ==> r.value.Slug() == s
    ensures r.None? ==> forall h: Health :: h.Slug() != s
  {
    if s == "on-track" then Some(OnTrack)
    else if s == "at-risk" then Some(AtRisk)
    else if s == "off-track" then Some(OffTrack)
    else if s == "blocked" then Some(Blocked)
    else None
  }

  /** `timeHorizonSchema`. */
  function TimeHorizonOfSlug(s: string): (r: Option<TimeHorizon>)
    ensures r.Some? ==> r.value.Slug() == s
    ensures r.None? ==> forall z: TimeHorizon :: z.Slug() != s
  {
    if s == "now" then Some(Now)
    else if s == "next" then Some(Next)
    else if s == "later" then Some(Later)
    else None
  }

  /** Every value's literal parses back to that value; the literals are therefore distinct. */
  lemma SlugsRoundTrip(t: ItemType, m: MoSCoW, s: Status, h: Health, z: TimeHorizon)
    ensures ItemTypeOfSlug(t.Slug()) == Some(t)
    ensures MoSCoWOfSlug(m.Slug()) == Some(m)
    ensures StatusOfSlug(s.Slug()) == Some(s)
    ensures HealthOfSlug(h.Slug()) == Some(h)
    ensures TimeHorizonOfSlug(z.Slug()) == Some(z)
  {
  }

  /* ---------------------------------------------------------------------- */
  /* Effort                                                                  */
  /* ---------------------------------------------------------------------- */

  /** The story-point scale offered for effort. */
  const EFFORT_VALUES: seq<int> := [1, 2, 3, 5, 8, 13]

  lemma EffortValuesFibonacci()
    ensures forall i | 0 < i < |EFFORT_VALUES| :: EFFORT_VALUES[i - 1] < EFFORT_VALUES[i]
    ensures forall i | 2 <= i < |EFFORT_VALUES| :: EFFORT_VALUES[i] == EFFORT_VALUES[i - 1] + EFFORT_VALUES[i - 2]
    ensures EFFORT_VALUES[|EFFORT_VALUES| - 1] == MAX_EFFORT
  {
  }

  /* ---------------------------------------------------------------------- */
  /* Items and the validator                                                 */
  /* ---------------------------------------------------------------------- */

  const MIN_TITLE: nat := 3
  const MAX_TITLE: nat := 200
  const MAX_DESCRIPTION: nat := 2000
  const MAX_EFFORT: int := 13

  datatype LinkedArtifacts = LinkedArtifacts(
    specSlug: Option<string>, ideationPath: Option<string>, specPath: Option<string>,
    tasksPath: Option<string>, implementationPath: Option<string>)

  datatype IdeationContext = IdeationContext(
    targetUsers: Option<seq<string>>, painPoints: Option<seq<string>>,
    successCriteria: Option<seq<string>>, constraints: Option<seq<string>>)

  /** A roadmap item as read from the file: the enumerations are still plain strings. */
  datatype RawItem = RawItem(
    id: string, title: string, description: Option<string>,
    typ: string, moscow: string, status: string, health: string, timeHorizon: string,
    effort: Option<real>, dependencies: Option<seq<string>>, labels: Option<seq<string>>,
    createdAt: string, updatedAt: string,
    linkedArtifacts: Option<LinkedArtifacts>, ideationContext: Option<IdeationContext>)

  /** A validated roadmap item. */
  datatype RoadmapItem = RoadmapItem(
    id: string, title: string, description: Option<string>,
    typ: ItemType, moscow: MoSCoW, status: Status, health: Health, timeHorizon: TimeHorizon,
    effort: Option<real>, dependencies: Option<seq<string>>, labels: Option<seq<string>>,
    createdAt: string, updatedAt: string,
    linkedArtifacts: Option<LinkedArtifacts>, ideationContext: Option<IdeationContext>)

  /** The keys the views and the dashboard group items by. */
  function StatusOf(item: RoadmapItem): Status { item.status }
  function MoscowOf(item: RoadmapItem): MoSCoW { item.moscow }
  function HorizonOf(item: RoadmapItem): TimeHorizon { item.timeHorizon }

  /** The string formats the schema checks (`uuid`, `datetime`), supplied by the caller. */
  datatype Formats = Formats(isUuid: string -> bool, isDateTime: string -> bool)

  /** What the item schema demands of a typed item. */
  predicate ValidItem(item: RoadmapItem, fmt: Formats) {
    && fmt.isUuid(item.id)
    && MIN_TITLE <= |item.title| <= MAX_TITLE
    && (item.description.Some? ==> |item.description.value| <= MAX_DESCRIPTION)
    && (item.effort.Some? ==> 0.0 <= item.effort.value <= MAX_EFFORT as real)
    && (item.dependencies.Some? ==> forall k | 0 <= k < |item.dependencies.value| :: fmt.isUuid(item.dependencies.value[k]))
    && fmt.isDateTime(item.createdAt)
    && fmt.isDateTime(item.updatedAt)
  }

  /** The item as it is written in the file. */
  function ToRaw(item: RoadmapItem): RawItem {
    RawItem(item.id, item.title, item.description,
            item.typ.Slug(), item.moscow.Slug(), item.status.Slug(), item.health.Slug(), item.timeHorizon.Slug(),
            item.effort, item.dependencies, item.labels, item.createdAt, item.updatedAt,
            item.linkedArtifacts, item.ideationContext)
  }

  /** `roadmapItemSchema.safeParse`: the typed item, or nothing when any field is rejected. */
  function ParseItem(raw: RawItem, fmt: Formats): (r: Option<RoadmapItem>)
    ensures r.Some? ==> ValidItem(r.value, fmt) && ToRaw(r.value) == raw
  {
    var typ := ItemTypeOfSlug(raw.typ);
    var moscow := MoSCoWOfSlug(raw.moscow);
    var status := StatusOfSlug(raw.status);
    var health := HealthOfSlug(raw.health);
    var horizon := TimeHorizonOfSlug(raw.timeHorizon);
    if typ.None? || moscow.None? || status.None? || health.None? || horizon.None? then None
    else
      var item := RoadmapItem(raw.id, raw.title, raw.description,
                              typ.value, moscow.value, status.value, health.value, horizon.value,
                              raw.effort, raw.dependencies, raw.labels, raw.createdAt, raw.updatedAt,
                              raw.linkedArtifacts, raw.ideationContext);
      if ValidItem(item, fmt) then Some(item) else None
  }

  /** Every valid item, written out, is accepted and read back as itself. */
  lemma ParseItemComplete(item: RoadmapItem, fmt: Formats)
    requires ValidItem(item, fmt)
    ensures ParseItem(ToRaw(item), fmt) == Some(item)
  {
    SlugsRoundTrip(item.typ, item.moscow, item.status, item.health, item.timeHorizon);
  }

  /** Of an otherwise acceptable item, a title is accepted exactly when it has 3 to 200 characters. */
  lemma TitleRule(item: RoadmapItem, fmt: Formats, title: string)
    requires ValidItem(item, fmt)
    ensures ParseItem(ToRaw(item).(title := title), fmt).Some? <==> MIN_TITLE <= |title| <= MAX_TITLE
  {
    assert ToRaw(item).(title := title) == ToRaw(item.(title := title));
    if MIN_TITLE <= |title| <= MAX_TITLE {
      ParseItemComplete(item.(title := title), fmt);
    }
  }

  /**
   * Effort is optional and any number from 0 to 13 is accepted, fractions
   * and values off the story-point scale included.
   */
  lemma EffortRule(item: RoadmapItem, fmt: Formats, effort: Option<real>)
    requires ValidItem(item, fmt)
    ensures ParseItem(ToRaw(item).(effort := effort), fmt).Some?
        <==> effort.None? || 0.0 <= effort.value <= 13.0
    ensures ParseItem(ToRaw(item).(effort := Some(2.5)), fmt).Some?
    ensures ParseItem(ToRaw(item).(effort := Some(4.0)), fmt).Some?
  {
    assert ToRaw(item).(effort := effort) == ToRaw(item.(effort := effort));
    if effort.None? || 0.0 <= effort.value <= 13.0 {
      ParseItemComplete(item.(effort := effort), fmt);
    }
    assert ToRaw(item).(effort := Some(2.5)) == ToRaw(item.(effort := Some(2.5)));
    ParseItemComplete(item.(effort := Some(2.5)), fmt);
    assert ToRaw(item).(effort := Some(4.0)) == ToRaw(item.(effort := Some(4.0)));
    ParseItemComplete(item.(effort := Some(4.0)), fmt);
  }

  /** A description of up to 2000 characters is accepted, a longer one is not, and none at all is. */
  lemma DescriptionRule(item: RoadmapItem, fmt: Formats, description: Option<string>)
    requires ValidItem(item, fmt)
    ensures ParseItem(ToRaw(item).(description := description), fmt).Some?
        <==> description.None? || |description.value| <= MAX_DESCRIPTION
  {
    assert ToRaw(item).(description := description) == ToRaw(item.(description := description));
    if description.None? || |description.value| <= MAX_DESCRIPTION {
      ParseItemComplete(item.(description := description), fmt);
    }
  }

  /** An enumeration field outside its listed literals rejects the item. */
  lemma UnlistedLiteralRejected(raw: RawItem, fmt: Formats)
    requires || (forall t: ItemType :: t.Slug() != raw.typ)
             || (forall m: MoSCoW :: m.Slug() != raw.moscow)
             || (forall s: Status :: s.Slug() != raw.status)
             || (forall h: Health :: h.Slug() != raw.health)
             || (forall h: TimeHorizon :: h.Slug() != raw.timeHorizon)
    ensures ParseItem(raw, fmt).None?
  {
  }

  /* ---------------------------------------------------------------------- */
  /* The roadmap                                                             */
  /* ---------------------------------------------------------------------- */

  datatype TimeHorizonConfig = TimeHorizonConfig(name: string, description: string)

  /** A roadmap as read from the file; a missing horizon configuration is `None`. */
  datatype RawRoadmap = RawRoadmap(
    projectName: string, projectSummary: string, lastUpdated: string,
    now: Option<TimeHorizonConfig>, next: Option<TimeHorizonConfig>, later: Option<TimeHorizonConfig>,
    items: seq<RawItem>)

  datatype Roadmap = Roadmap(
    projectName: string, projectSummary: string, lastUpdated: string,
    now: TimeHorizonConfig, next: TimeHorizonConfig, later: TimeHorizonConfig,
    items: seq<RoadmapItem>)

  /** The items, each validated; nothing when any one is rejected. */
  function ParseItems(raws: seq<RawItem>, fmt: Formats): (r: Option<seq<RoadmapItem>>)
    ensures r.Some? <==> forall k | 0 <= k < |raws| :: ParseItem(raws[k], fmt).Some?
    ensures r.Some? ==> |r.value| == |raws| && forall k | 0 <= k < |raws| :: ParseItem(raws[k], fmt) == Some(r.value[k])
  {
    if raws == [] then Some([])
    else
      var first := ParseItem(raws[0], fmt);
      var rest := ParseItems(raws[1..], fmt);
      if first.None? || rest.None? then
        assert first.None? ==> !ParseItem(raws[0], fmt).Some?;
        None
      else
        Some([first.value] + rest.value)
  }

  /** `roadmapSchema.safeParse`. */
  function ParseRoadmap(raw: RawRoadmap, fmt: Formats): (r: Option<Roadmap>)
    ensures r.Some? <==> fmt.isDateTime(raw.lastUpdated) && raw.now.Some? && raw.next.Some? && raw.later.Some?
                         && forall k | 0 <= k < |raw.items| :: ParseItem(raw.items[k], fmt).Some?
    ensures r.Some? ==> |r.value.items| == |raw.items|
                        && forall k | 0 <= k < |raw.items| :: ToRaw(r.value.items[k]) == raw.items[k]
  {
    var items := ParseItems(raw.items, fmt);
    if !fmt.isDateTime(raw.lastUpdated) || raw.now.None? || raw.next.None? || raw.later.None? || items.None? then None
    else Some(Roadmap(raw.projectName, raw.projectSummary, raw.lastUpdated,
                      raw.now.value, raw.next.value, raw.later.value, items.value))
  }
}
