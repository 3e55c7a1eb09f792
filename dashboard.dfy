/**
 * The analytics dashboard: the counting loop over the items' statuses and
 * the pie and bar chart data derived from the counts.
 */
module Dashboard {
  import opened Calendar
  import opened Types
  import opened Warranty
  import opened WarrantyItems

  /** The counters `calculateAnalytics` stores (the total value, a float, is not modelled). */
  datatype Analytics = Analytics(active: nat, expiring: nat, expired: nat)

  /** The number of items among `items` whose status is `s`. */
  function CountStatus(items: seq<Item>, warrantyOf: (Date, int) -> ItemWarranty, s: Status): (n: nat)
    ensures n <= |items|
  {
    if items == [] then 0
    else
      var last := items[|items| - 1];
      CountStatus(items[..|items| - 1], warrantyOf, s)
        + (if warrantyOf(last.purchaseDate, last.warrantyLength).status == s then 1 else 0)
  }

  /** Every item has exactly one of the three statuses, so the counts add up to the item count. */
  lemma {:induction false} CountsAddUp(items: seq<Item>, warrantyOf: (Date, int) -> ItemWarranty)
    ensures CountStatus(items, warrantyOf, Active) + CountStatus(items, warrantyOf, Expiring)
          + CountStatus(items, warrantyOf, Expired) == |items|
  {
    if items != [] {
      CountsAddUp(items[..|items| - 1], warrantyOf);
    }
  }

  /** `totalItems`: the sum of the three counters. */
  function TotalItems(a: Analytics): nat
  {
    a.active + a.expiring + a.expired
  }

  /** `calculateAnalytics`: one pass over the items, bumping the counter for each status. */
  method CalculateAnalytics(items: seq<Item>, warrantyOf: (Date, int) -> ItemWarranty) returns (a: Analytics)
    ensures a.active == CountStatus(items, warrantyOf, Active)
    ensures a.expiring == CountStatus(items, warrantyOf, Expiring)
    ensures a.expired == CountStatus(items, warrantyOf, Expired)
    ensures TotalItems(a) == |items|
  {
    var active, expiring, expired := 0, 0, 0;
    var i := 0;
    while i < |items|
      invariant 0 <= i <= |items|
      invariant active == CountStatus(items[..i], warrantyOf, Active)
      invariant expiring == CountStatus(items[..i], warrantyOf, Expiring)
      invariant expired == CountStatus(items[..i], warrantyOf, Expired)
    {
      var item := items[i];
      assert items[..i + 1][..i] == items[..i];
      match warrantyOf(item.purchaseDate, item.warrantyLength).status {
        case Active => active := active + 1;
        case Expiring => expiring := expiring + 1;
        case Expired => expired := expired + 1;
      }
      i := i + 1;
    }
    assert items[..i] == items;
    CountsAddUp(items, warrantyOf);
    a := Analytics(active, expiring, expired);
  }

  /** One slice of the pie chart. */
  datatype Slice = Slice(status: Status, name: string, population: nat, color: string)

  function ChartName(s: Status): string
  {
    match s
    case Active => "Active"
    case Expiring => "Expiring"
    case Expired => "Expired"
  }

  /** The count for a status. */
  function CountOf(a: Analytics, s: Status): nat
  {
    match s
    case Active => a.active
    case Expiring => a.expiring
    case Expired => a.expired
  }

  function SliceFor(a: Analytics, s: Status): Slice
  {
    Slice(s, ChartName(s), CountOf(a, s), StatusColor(s))
  }

  /** The chart order: active, expiring, expired. */
  function ChartPosition(s: Status): nat
  {
    match s
    case Active => 0
    case Expiring => 1
    case Expired => 2
  }

  /** `pieData`: the three slices in chart order, keeping those with a positive count. */
  function PieData(a: Analytics): (r: seq<Slice>)
    ensures forall s :: SliceFor(a, s) in r <==> CountOf(a, s) > 0
    ensures forall x :: x in r ==> x == SliceFor(a, x.status) && x.population > 0
    ensures forall i, j :: 0 <= i < j < |r| ==> ChartPosition(r[i].status) < ChartPosition(r[j].status)
  {
    (if a.active > 0 then [SliceFor(a, Active)] else [])
    + (if a.expiring > 0 then [SliceFor(a, Expiring)] else [])
    + (if a.expired > 0 then [SliceFor(a, Expired)] else [])
  }

  /** The bar chart: fixed labels and the three counts in the same order. */
  datatype BarData = BarData(labels: seq<string>, data: seq<nat>, colors: seq<string>)

  function BarDataOf(a: Analytics): (b: BarData)
    ensures |b.labels| == |b.data| == |b.colors| == 3
    ensures forall s :: b.labels[ChartPosition(s)] == ChartName(s) && b.data[ChartPosition(s)] == CountOf(a, s)
                        && b.colors[ChartPosition(s)] == StatusColor(s)
  {
    BarData(["Active", "Expiring", "Expired"], [a.active, a.expiring, a.expired],
            [StatusColor(Active), StatusColor(Expiring), StatusColor(Expired)])
  }
}
