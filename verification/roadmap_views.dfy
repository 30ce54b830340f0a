/**
 * The three board views. Each splits the (already filtered) items by one
 * enumeration, in a fixed order: the status board and the timeline keep a
 * column per value and show a placeholder in an empty one, the priority
 * list drops empty groups.
 */
module RoadmapViews {
  import opened Text
  import opened Seqs
  import opened RoadmapModel

  const STATUS_ORDER: seq<Status> := [NotStarted, InProgress, Completed, OnHold]
  const MOSCOW_ORDER: seq<MoSCoW> := [MustHave, ShouldHave, CouldHave, WontHave]
  const HORIZON_ORDER: seq<TimeHorizon> := [Now, Next, Later]

  const NO_ITEMS := "No items"
  const NO_ITEMS_IN_HORIZON := "No items in this horizon"

  /** What a column shows below its header: the cards, or the placeholder text. */
  datatype ColumnBody = Placeholder(text: string) | Cards(items: seq<RoadmapItem>)

  datatype Column = Column(heading: string, count: string, body: ColumnBody)
  {
    /** The items whose cards the column shows. */
    function Shown(): seq<RoadmapItem> {
      if body.Cards? then body.items else []
    }
  }

  /** The column for key `k`, built from the items whose key is `k`. */
  function MakeColumn<K(==)>(items: seq<RoadmapItem>, key: RoadmapItem -> K, k: K,
                            heading: string, count: nat -> string, placeholder: string): Column
  {
    var group := WithKey(items, key, k);
    Column(heading, count(|group|), if |group| == 0 then Placeholder(placeholder) else Cards(group))
  }

  /** One column per key of `order`, in that order. */
  function Columns<K(==)>(items: seq<RoadmapItem>, key: RoadmapItem -> K, order: seq<K>,
                         heading: K -> string, count: nat -> string, placeholder: string): (r: seq<Column>)
    ensures |r| == |order|
    ensures forall i | 0 <= i < |order| :: r[i] == MakeColumn(items, key, order[i], heading(order[i]), count, placeholder)
  {
    if order == [] then []
    else [MakeColumn(items, key, order[0], heading(order[0]), count, placeholder)]
         + Columns(items, key, order[1..], heading, count, placeholder)
  }

  /** The number of cards shown over all columns. */
  function TotalShown(cols: seq<Column>): nat {
    if cols == [] then 0 else |cols[0].Shown()| + TotalShown(cols[1..])
  }

  lemma {:induction false} TotalShownColumns<K>(items: seq<RoadmapItem>, key: RoadmapItem -> K, order: seq<K>,
                                               heading: K -> string, count: nat -> string, placeholder: string)
    ensures TotalShown(Columns(items, key, order, heading, count, placeholder)) == SumSizes(items, key, order)
  {
    if order != [] {
      var r := Columns(items, key, order, heading, count, placeholder);
      assert r[1..] == Columns(items, key, order[1..], heading, count, placeholder);
      TotalShownColumns(items, key, order[1..], heading, count, placeholder);
    }
  }

  /**
   * When the order lists every key once, the columns partition the items:
   * an item is shown in column `i` exactly when its key is `order[i]`, the
   * columns keep the input order, and the card counts add up to the item
   * count. A column without items shows the placeholder instead of cards.
   */
  lemma ColumnsPartition<K>(items: seq<RoadmapItem>, key: RoadmapItem -> K, order: seq<K>,
                            heading: K -> string, count: nat -> string, placeholder: string)
    requires Distinct(order)
    requires forall j | 0 <= j < |items| :: key(items[j]) in order
    ensures var r := Columns(items, key, order, heading, count, placeholder);
      && TotalShown(r) == |items|
      && (forall i, j | 0 <= i < |r| && 0 <= j < |items| :: items[j] in r[i].Shown() <==> key(items[j]) == order[i])
      && (forall i | 0 <= i < |r| :: IsSubsequence(r[i].Shown(), items))
      && (forall i | 0 <= i < |r| :: r[i].heading == heading(order[i]) && r[i].count == count(|r[i].Shown()|))
      && (forall i | 0 <= i < |r| :: r[i].body == Placeholder(placeholder) <==> forall j | 0 <= j < |items| :: key(items[j]) != order[i])
  {
    var r := Columns(items, key, order, heading, count, placeholder);
    TotalShownColumns(items, key, order, heading, count, placeholder);
    PartitionSizes(items, key, order);
    forall i | 0 <= i < |r|
      ensures (forall j | 0 <= j < |items| :: items[j] in r[i].Shown() <==> key(items[j]) == order[i])
      ensures IsSubsequence(r[i].Shown(), items)
      ensures r[i].heading == heading(order[i]) && r[i].count == count(|r[i].Shown()|)
      ensures r[i].body == Placeholder(placeholder) <==> forall j | 0 <= j < |items| :: key(items[j]) != order[i]
    {
      MakeColumnFacts(items, key, order[i], heading(order[i]), count, placeholder);
    }
  }

  lemma ColumnsHeadings<K>(items: seq<RoadmapItem>, key: RoadmapItem -> K, order: seq<K>,
                           heading: K -> string, count: nat -> string, placeholder: string)
    ensures var r := Columns(items, key, order, heading, count, placeholder);
      forall i | 0 <= i < |r| :: r[i].heading == heading(order[i])
  {
  }

  /** One column shows exactly the items of its key, and the placeholder exactly when there are none. */
  lemma MakeColumnFacts<K>(items: seq<RoadmapItem>, key: RoadmapItem -> K, k: K,
                           heading: string, count: nat -> string, placeholder: string)
    ensures var c := MakeColumn(items, key, k, heading, count, placeholder);
      && (forall j | 0 <= j < |items| :: items[j] in c.Shown() <==> key(items[j]) == k)
      && IsSubsequence(c.Shown(), items)
      && c.heading == heading && c.count == count(|c.Shown()|)
      && (c.body == Placeholder(placeholder) <==> forall j | 0 <= j < |items| :: key(items[j]) != k)
  {
    var group := WithKey(items, key, k);
    assert MakeColumn(items, key, k, heading, count, placeholder).Shown() == group;
    forall j | 0 <= j < |items| && items[j] in group ensures key(items[j]) == k {
      var e :| 0 <= e < |group| && group[e] == items[j];
    }
    if |group| > 0 {
      assert group[0] in items;
    }
  }

  /* ---------------------------------------------------------------------- */
  /* Status board and timeline                                               */
  /* ---------------------------------------------------------------------- */

  function StatusLabel(s: Status): string { s.Label() }
  function HorizonLabel(h: TimeHorizon): string { h.Label() }
  function PlainCount(n: nat): string { NatToString(n) }

  /** The timeline's count line: "1 item", otherwise "<n> items". */
  function CountLabel(n: nat): (r: string)
    ensures StartsWith(r, NatToString(n) + " item")
  {
    NatToString(n) + " " + if n == 1 then "item" else "items"
  }

  /** The status board: four columns, one per status. */
  function StatusView(items: seq<RoadmapItem>): seq<Column> {
    Columns(items, StatusOf, STATUS_ORDER, StatusLabel, PlainCount, NO_ITEMS)
  }

  /** The timeline: three columns, now, next and later. */
  function TimelineView(items: seq<RoadmapItem>): seq<Column> {
    Columns(items, HorizonOf, HORIZON_ORDER, HorizonLabel, CountLabel, NO_ITEMS_IN_HORIZON)
  }

  lemma StatusOrderComplete(s: Status)
    ensures Distinct(STATUS_ORDER) && s in STATUS_ORDER
  {
  }

  lemma HorizonOrderComplete(h: TimeHorizon)
    ensures Distinct(HORIZON_ORDER) && h in HORIZON_ORDER
  {
  }

  /**
   * The status board always has the four columns in the order not started,
   * in progress, completed, on hold; every item is on exactly the column of
   * its status, in input order; the columns hold all items between them.
   */
  lemma StatusViewPartition(items: seq<RoadmapItem>)
    ensures var r := StatusView(items);
      && |r| == 4
      && r[0].heading == "Not Started" && r[1].heading == "In Progress"
      && r[2].heading == "Completed" && r[3].heading == "On Hold"
      && TotalShown(r) == |items|
      && (forall i, j | 0 <= i < 4 && 0 <= j < |items| :: items[j] in r[i].Shown() <==> items[j].status == STATUS_ORDER[i])
      && (forall i | 0 <= i < 4 :: IsSubsequence(r[i].Shown(), items))
      && (forall i | 0 <= i < 4 :: r[i].count == NatToString(|r[i].Shown()|))
      && (forall i | 0 <= i < 4 :: r[i].body == Placeholder(NO_ITEMS) <==> forall j | 0 <= j < |items| :: items[j].status != STATUS_ORDER[i])
  {
    forall j | 0 <= j < |items| ensures StatusOf(items[j]) in STATUS_ORDER {
      StatusOrderComplete(items[j].status);
    }
    StatusOrderComplete(NotStarted);
    StatusHeadings(items);
    ColumnsPartition(items, StatusOf, STATUS_ORDER, StatusLabel, PlainCount, NO_ITEMS);
  }

  lemma StatusHeadings(items: seq<RoadmapItem>)
    ensures var r := StatusView(items);
      && |r| == 4
      && r[0].heading == "Not Started" && r[1].heading == "In Progress"
      && r[2].heading == "Completed" && r[3].heading == "On Hold"
  {
    var r := StatusView(items);
    ColumnsHeadings(items, StatusOf, STATUS_ORDER, StatusLabel, PlainCount, NO_ITEMS);
    StatusLabels();
  }

  lemma StatusLabels()
    ensures StatusLabel(STATUS_ORDER[0]) == "Not Started" && StatusLabel(STATUS_ORDER[1]) == "In Progress"
    ensures StatusLabel(STATUS_ORDER[2]) == "Completed" && StatusLabel(STATUS_ORDER[3]) == "On Hold"
  {
  }


  /**
   * The timeline always has the three columns now, next, later; every item
   * is in exactly the column of its horizon, in input order; the count line
   * agrees with the cards shown.
   */
  lemma TimelineViewPartition(items: seq<RoadmapItem>)
    ensures var r := TimelineView(items);
      && |r| == 3
      && r[0].heading == "Now" && r[1].heading == "Next" && r[2].heading == "Later"
      && TotalShown(r) == |items|
      && (forall i, j | 0 <= i < 3 && 0 <= j < |items| :: items[j] in r[i].Shown() <==> items[j].timeHorizon == HORIZON_ORDER[i])
      && (forall i | 0 <= i < 3 :: IsSubsequence(r[i].Shown(), items))
      && (forall i | 0 <= i < 3 :: r[i].count == CountLabel(|r[i].Shown()|))
      && (forall i | 0 <= i < 3 :: r[i].body == Placeholder(NO_ITEMS_IN_HORIZON) <==> forall j | 0 <= j < |items| :: items[j].timeHorizon != HORIZON_ORDER[i])
  {
    forall j | 0 <= j < |items| ensures HorizonOf(items[j]) in HORIZON_ORDER {
      HorizonOrderComplete(items[j].timeHorizon);
    }
    HorizonOrderComplete(Now);
    ColumnsPartition(items, HorizonOf, HORIZON_ORDER, HorizonLabel, CountLabel, NO_ITEMS_IN_HORIZON);
  }

  /** The count line reads back as the number of cards, and says "item" only for one. */
  lemma CountLabelReadsBack(n: nat)
    ensures ParseInt(CountLabel(n)) == Int(n)
    ensures EndsWith(CountLabel(n), " items") <==> n != 1
    ensures CountLabel(1) == "1 item" && CountLabel(0) == "0 items" && CountLabel(2) == "2 items"
  {
    var w := if n == 1 then "item" else "items";
    assert CountLabel(n) == NatToString(n) + (" " + w);
    ParseIntNatPrefix(n, " " + w);
    CountLabelPlural(n);
    CountLabelSmall();
  }

  lemma CountLabelPlural(n: nat)
    ensures EndsWith(CountLabel(n), " items") <==> n != 1
  {
    var s := CountLabel(n);
    if n == 1 {
      assert s == "1 item";
      assert s[|s| - 6..] == "1 item";
    } else {
      var d := NatToString(n);
      assert s == d + " items";
      assert s[|s| - 6..] == " items";
    }
  }

  lemma CountLabelSmall()
    ensures CountLabel(1) == "1 item" && CountLabel(0) == "0 items" && CountLabel(2) == "2 items"
  {
    assert NatToString(0) == "0" && NatToString(1) == "1" && NatToString(2) == "2";
  }

  /* ---------------------------------------------------------------------- */
  /* Priority list                                                           */
  /* ---------------------------------------------------------------------- */

  /** `MOSCOW_DOT_COLORS`. */
  function DotColor(m: MoSCoW): string {
    match m
    case MustHave => "bg-destructive"
    case ShouldHave => "bg-warning"
    case CouldHave => "bg-info"
    case WontHave => "bg-muted-foreground"
  }

  /** A section of the priority list. */
  datatype Group = Group(priority: MoSCoW, heading: string, dotColor: string, count: string, items: seq<RoadmapItem>)

  /** The position of a priority in `MOSCOW_ORDER`. */
  function Rank(m: MoSCoW): nat {
    match m
    case MustHave => 0
    case ShouldHave => 1
    case CouldHave => 2
    case WontHave => 3
  }

  /** The sections for the priorities of `order` that have items, in that order. */
  function PriorityGroups(items: seq<RoadmapItem>, order: seq<MoSCoW>): (r: seq<Group>)
    ensures forall i | 0 <= i < |r| :: r[i].items != [] && r[i].items == WithKey(items, MoscowOf, r[i].priority)
    ensures forall i | 0 <= i < |r| :: r[i].priority in order
  {
    if order == [] then []
    else
      var m := order[0];
      var group := WithKey(items, MoscowOf, m);
      var rest := PriorityGroups(items, order[1..]);
      if group == [] then rest
      else [Group(m, m.Label(), DotColor(m), "(" + NatToString(|group|) + ")", group)] + rest
  }

  /** Every priority of `order` that has items gets a section. */
  lemma {:induction false} PriorityGroupsCover(items: seq<RoadmapItem>, order: seq<MoSCoW>, m: MoSCoW)
    requires m in order && WithKey(items, MoscowOf, m) != []
    ensures exists i | 0 <= i < |PriorityGroups(items, order)| :: PriorityGroups(items, order)[i].priority == m
  {
    var r := PriorityGroups(items, order);
    var rest := PriorityGroups(items, order[1..]);
    if m == order[0] {
      assert r[0].priority == m;
    } else {
      PriorityGroupsCover(items, order[1..], m);
      var i :| 0 <= i < |rest| && rest[i].priority == m;
      assert r[|r| - |rest| + i] == rest[i];
    }
  }

  /** Priorities strictly rising in `MOSCOW_ORDER`'s ranking. */
  predicate Ascending(ms: seq<MoSCoW>) {
    forall i, j | 0 <= i < j < |ms| :: Rank(ms[i]) < Rank(ms[j])
  }

  function Priorities(groups: seq<Group>): (r: seq<MoSCoW>)
    ensures |r| == |groups| && forall i | 0 <= i < |r| :: r[i] == groups[i].priority
  {
    if groups == [] then [] else [groups[0].priority] + Priorities(groups[1..])
  }

  /** Sections follow the order of `order`. */
  lemma {:induction false} PriorityGroupsOrdered(items: seq<RoadmapItem>, order: seq<MoSCoW>)
    requires Ascending(order)
    ensures Ascending(Priorities(PriorityGroups(items, order)))
  {
    if order != [] {
      var rest := PriorityGroups(items, order[1..]);
      assert Ascending(order[1..]);
      PriorityGroupsOrdered(items, order[1..]);
      if WithKey(items, MoscowOf, order[0]) != [] {
        forall i | 0 <= i < |rest| ensures Rank(order[0]) < Rank(rest[i].priority) {
          LaterInOrder(order, rest[i].priority);
        }
        AscendingCons(order[0], Priorities(rest));
        var r := PriorityGroups(items, order);
        assert Priorities(r) == [order[0]] + Priorities(rest);
      }
    }
  }

  lemma LaterInOrder(order: seq<MoSCoW>, m: MoSCoW)
    requires order != [] && Ascending(order) && m in order[1..]
    ensures Rank(order[0]) < Rank(m)
  {
    var k :| 0 <= k < |order[1..]| && order[1..][k] == m;
    assert order[k + 1] == m;
  }

  lemma AscendingCons(m: MoSCoW, ms: seq<MoSCoW>)
    requires Ascending(ms)
    requires forall i | 0 <= i < |ms| :: Rank(m) < Rank(ms[i])
    ensures Ascending([m] + ms)
  {
    var s := [m] + ms;
    forall i, j | 0 <= i < j < |s| ensures Rank(s[i]) < Rank(s[j]) {
      assert s[j] == ms[j - 1];
      if i > 0 {
        assert s[i] == ms[i - 1];
      }
    }
  }

  /** The number of items over all sections. */
  function TotalGrouped(groups: seq<Group>): nat {
    if groups == [] then 0 else |groups[0].items| + TotalGrouped(groups[1..])
  }

  lemma {:induction false} TotalGroupedSizes(items: seq<RoadmapItem>, order: seq<MoSCoW>)
    ensures TotalGrouped(PriorityGroups(items, order)) == SumSizes(items, MoscowOf, order)
  {
    if order != [] {
      TotalGroupedSizes(items, order[1..]);
      var group := WithKey(items, MoscowOf, order[0]);
      if group != [] {
        var r := PriorityGroups(items, order);
        assert r[1..] == PriorityGroups(items, order[1..]);
      }
    }
  }

  /** The priority list. */
  function PriorityView(items: seq<RoadmapItem>): seq<Group> {
    PriorityGroups(items, MOSCOW_ORDER)
  }

  lemma MoscowOrderComplete(m: MoSCoW)
    ensures Distinct(MOSCOW_ORDER) && m in MOSCOW_ORDER && Ascending(MOSCOW_ORDER)
  {
  }

  /**
   * The priority list shows must, should, could and won't have in that
   * order and holds all the items between its sections.
   */
  lemma PriorityViewOrderAndTotal(items: seq<RoadmapItem>)
    ensures Ascending(Priorities(PriorityView(items)))
    ensures TotalGrouped(PriorityView(items)) == |items|
  {
    MoscowOrderComplete(MustHave);
    forall j | 0 <= j < |items| ensures MoscowOf(items[j]) in MOSCOW_ORDER {
      MoscowOrderComplete(items[j].moscow);
    }
    TotalGroupedSizes(items, MOSCOW_ORDER);
    PartitionSizes(items, MoscowOf, MOSCOW_ORDER);
    PriorityGroupsOrdered(items, MOSCOW_ORDER);
  }

  /** Each section holds exactly the items of its priority, in input order, and is never empty. */
  lemma PriorityViewSections(items: seq<RoadmapItem>)
    ensures var r := PriorityView(items);
      && (forall i | 0 <= i < |r| :: r[i].items != [] && IsSubsequence(r[i].items, items))
      && (forall i, j | 0 <= i < |r| && 0 <= j < |items| :: items[j] in r[i].items <==> items[j].moscow == r[i].priority)
  {
  }

  /** A priority has a section exactly when some item has that priority. */
  lemma PriorityViewSkipsEmpty(items: seq<RoadmapItem>)
    ensures ItemsHaveSectionsIn(items, PriorityView(items))
    ensures SectionsHaveItemsIn(items, PriorityView(items))
  {
    ItemsHaveSections(items);
    SectionsHaveItems(items);
  }

  /** Every item's priority names one of the sections in `r`. */
  ghost predicate ItemsHaveSectionsIn(items: seq<RoadmapItem>, r: seq<Group>) {
    forall j | 0 <= j < |items| :: exists i | 0 <= i < |r| :: r[i].priority == items[j].moscow
  }

  /** Every section in `r` has the priority of some item. */
  ghost predicate SectionsHaveItemsIn(items: seq<RoadmapItem>, r: seq<Group>) {
    forall i | 0 <= i < |r| :: exists j | 0 <= j < |items| :: items[j].moscow == r[i].priority
  }

  lemma ItemsHaveSections(items: seq<RoadmapItem>)
    ensures ItemsHaveSectionsIn(items, PriorityView(items))
  {
    var r := PriorityView(items);
    forall j | 0 <= j < |items| ensures exists i | 0 <= i < |r| :: r[i].priority == items[j].moscow {
      var i := ItemHasSection(items, j);
    }
  }

  lemma SectionsHaveItems(items: seq<RoadmapItem>)
    ensures SectionsHaveItemsIn(items, PriorityView(items))
  {
    var r := PriorityView(items);
    forall i | 0 <= i < |r| ensures exists j | 0 <= j < |items| :: items[j].moscow == r[i].priority {
      var j := SectionHasItem(items, i);
    }
  }

  lemma ItemHasSection(items: seq<RoadmapItem>, j: nat) returns (i: nat)
    requires j < |items|
    ensures i < |PriorityView(items)| && PriorityView(items)[i].priority == items[j].moscow
  {
    var m := items[j].moscow;
    MoscowOrderComplete(m);
    assert MoscowOf(items[j]) == m;
    assert items[j] in WithKey(items, MoscowOf, m);
    PriorityGroupsCover(items, MOSCOW_ORDER, m);
    assert PriorityView(items) == PriorityGroups(items, MOSCOW_ORDER);
    i :| 0 <= i < |PriorityView(items)| && PriorityView(items)[i].priority == m;
  }

  lemma SectionHasItem(items: seq<RoadmapItem>, i: nat) returns (j: nat)
    requires i < |PriorityView(items)|
    ensures j < |items| && items[j].moscow == PriorityView(items)[i].priority
  {
    var g := PriorityView(items)[i];
    var x := g.items[0];
    assert MoscowOf(x) == g.priority;
    assert x in items;
    j :| 0 <= j < |items| && items[j] == x;
  }
}
