/**
 * The home screen: the enriched items split by status into three groups,
 * shown as sections in the order expiring, active, expired.
 */
module Home {
  import opened Wrappers
  import opened Calendar
  import opened Types
  import opened WarrantyItems
  import opened Dashboard

  /** `items.filter(item => item.status.status === s)`. */
  function OfStatus(items: seq<ItemWithStatus>, s: Status): (r: seq<ItemWithStatus>)
    ensures |r| <= |items|
  {
    if items == [] then []
    else
      var last := items[|items| - 1];
      OfStatus(items[..|items| - 1], s) + (if last.status.status == s then [last] else [])
  }

  /** Filtering works piece by piece, so each group keeps the items' relative order. */
  lemma {:induction false} OfStatusAppend(a: seq<ItemWithStatus>, b: seq<ItemWithStatus>, s: Status)
    ensures OfStatus(a + b, s) == OfStatus(a, s) + OfStatus(b, s)
    decreases |b|
  {
    if b == [] {
      assert a + b == a;
    } else {
      var n := |b| - 1;
      assert (a + b)[..|a + b| - 1] == a + b[..n];
      OfStatusAppend(a, b[..n], s);
    }
  }

  /** The three groups together are as long as the item list. */
  lemma {:induction false} GroupSizesAddUp(items: seq<ItemWithStatus>)
    ensures |OfStatus(items, Expiring)| + |OfStatus(items, Active)| + |OfStatus(items, Expired)| == |items|
  {
    if items != [] {
      GroupSizesAddUp(items[..|items| - 1]);
    }
  }

  /** An item's contribution to the group for `s`: itself when its status is `s`. */
  function Single(x: ItemWithStatus, s: Status): multiset<ItemWithStatus>
  {
    if x.status.status == s then multiset{x} else multiset{}
  }

  lemma OfStatusStep(items: seq<ItemWithStatus>, s: Status)
    requires items != []
    ensures multiset(OfStatus(items, s)) == multiset(OfStatus(items[..|items| - 1], s)) + Single(items[|items| - 1], s)
  {
  }

  lemma SplitLast(items: seq<ItemWithStatus>)
    requires items != []
    ensures multiset(items) == multiset(items[..|items| - 1]) + multiset{items[|items| - 1]}
  {
    assert items == items[..|items| - 1] + [items[|items| - 1]];
  }

  lemma Regroup<T>(x: multiset<T>, y: multiset<T>, z: multiset<T>, p: multiset<T>, q: multiset<T>, r: multiset<T>)
    ensures (x + p) + (y + q) + (z + r) == (x + y + z) + (p + q + r)
  {
  }

  /** The groups split the items: together they hold each item exactly as often as the list does. */
  lemma {:induction false} GroupsPartition(items: seq<ItemWithStatus>)
    ensures multiset(OfStatus(items, Expiring)) + multiset(OfStatus(items, Active)) + multiset(OfStatus(items, Expired))
         == multiset(items)
  {
    if items != [] {
      var init, last := items[..|items| - 1], items[|items| - 1];
      GroupsPartition(init);
      SplitLast(items);
      OfStatusStep(items, Expiring);
      OfStatusStep(items, Active);
      OfStatusStep(items, Expired);
      assert Single(last, Expiring) + Single(last, Active) + Single(last, Expired) == multiset{last};
      Regroup(multiset(OfStatus(init, Expiring)), multiset(OfStatus(init, Active)), multiset(OfStatus(init, Expired)),
              Single(last, Expiring), Single(last, Active), Single(last, Expired));
    }
  }

  /** Every item lands in exactly one group: the one for its own status. */
  lemma {:induction false} GroupMembers(items: seq<ItemWithStatus>, s: Status)
    ensures forall x :: x in OfStatus(items, s) <==> x in items && x.status.status == s
  {
    if items != [] {
      GroupMembers(items[..|items| - 1], s);
      assert items == items[..|items| - 1] + [items[|items| - 1]];
    }
  }

  /**
   * Over items enriched by `getItemsWithStatus`, each group is as large as
   * the dashboard's counter for that status.
   */
  lemma {:induction false} GroupSizesAreCounts(raw: seq<Item>, warrantyOf: (Date, int) -> ItemWarranty, s: Status)
    ensures |OfStatus(ItemsWithStatus(raw, warrantyOf), s)| == CountStatus(raw, warrantyOf, s)
  {
    if raw != [] {
      var n := |raw| - 1;
      var all := ItemsWithStatus(raw, warrantyOf);
      assert all[..|all| - 1] == ItemsWithStatus(raw[..n], warrantyOf);
      GroupSizesAreCounts(raw[..n], warrantyOf, s);
    }
  }

  /** A titled section of cards. */
  datatype Section = Section(status: Status, title: string, items: seq<ItemWithStatus>)

  /** What the screen shows: the empty state, or the summary counts and the sections. */
  datatype Screen =
    | EmptyState
    | Listing(tracked: nat, active: nat, expiring: nat, expired: nat, sections: seq<Section>)

  function SectionTitle(s: Status): string
  {
    match s
    case Expiring => "\U{26A0}\U{FE0F} Expiring Soon"
    case Active => "\U{2705} Active Warranties"
    case Expired => "\U{274C} Expired"
  }

  /** The on-screen order of the sections: expiring, active, expired. */
  function SectionPosition(s: Status): nat
  {
    match s
    case Expiring => 0
    case Active => 1
    case Expired => 2
  }

  /** The section for a status, holding that status's group. */
  function SectionFor(items: seq<ItemWithStatus>, s: Status): Section
  {
    Section(s, SectionTitle(s), OfStatus(items, s))
  }

  /** The section for a status, when its group is not empty. */
  function SectionIfAny(items: seq<ItemWithStatus>, s: Status): seq<Section>
  {
    if |OfStatus(items, s)| > 0 then [SectionFor(items, s)] else []
  }

  /** The sections, in screen order, each present exactly when its group is not empty. */
  function Sections(items: seq<ItemWithStatus>): (r: seq<Section>)
    ensures forall i, j :: 0 <= i < j < |r| ==> SectionPosition(r[i].status) < SectionPosition(r[j].status)
    ensures forall sec :: sec in r ==> sec == SectionFor(items, sec.status) && |sec.items| > 0
    ensures forall s :: SectionFor(items, s) in r <==> |OfStatus(items, s)| > 0
  {
    SectionIfAny(items, Expiring) + SectionIfAny(items, Active) + SectionIfAny(items, Expired)
  }

  /** `HomeScreen`'s content for a list of enriched items. */
  function HomeScreen(items: seq<ItemWithStatus>): (screen: Screen)
    ensures screen.EmptyState? <==> items == []
    ensures screen.Listing? ==>
      && screen.tracked == |items|
      && screen.active == |OfStatus(items, Active)|
      && screen.expiring == |OfStatus(items, Expiring)|
      && screen.expired == |OfStatus(items, Expired)|
      && screen.sections == Sections(items)
  {
    if |items| == 0 then EmptyState
    else Listing(|items|, |OfStatus(items, Active)|, |OfStatus(items, Expiring)|, |OfStatus(items, Expired)|, Sections(items))
  }

  /** How rendering the screen ends: with a screen, or with a thrown `TypeError`. */
  datatype Render = Rendered(screen: Screen) | Threw

  /**
   * One filter of the screen as written, over the hook's plain `items`: an
   * `Item` has no `status` field, so `item.status.status` reads a property of
   * `undefined` and throws at the first item; an empty list never runs the
   * callback. None stands for the throw.
   */
  function OfStatusAsWritten(items: seq<Item>, s: Status): (r: Option<seq<Item>>)
    ensures r.Some? <==> items == []
  {
    if items == [] then Some([]) else None
  }

  /** The screen as written: the three filters over the plain items, then the same layout. */
  function HomeScreenAsWritten(items: seq<Item>): (r: Render)
    ensures r.Threw? <==> items != []
    ensures r.Rendered? ==> r.screen == HomeScreen([])
  {
    match (OfStatusAsWritten(items, Active), OfStatusAsWritten(items, Expiring), OfStatusAsWritten(items, Expired))
    case (Some(_), Some(_), Some(_)) => Rendered(HomeScreen([]))
    case _ => Threw
  }

  /**
   * One tracked item is enough to show the difference: the screen as written
   * throws, while the screen over the enriched items lists that item.
   */
  lemma AsWrittenThrowsOnAnyItem(item: Item, status: WarrantyStatus)
    ensures HomeScreenAsWritten([item]).Threw?
    ensures var screen := HomeScreen([ItemWithStatus(item, status)]);
            screen.Listing? && screen.tracked == 1
            && ShownItems(screen.sections) == [ItemWithStatus(item, status)]
  {
    var one := [ItemWithStatus(item, status)];
    SectionsShowEveryItemOnce(one);
    var shown := ShownItems(HomeScreen(one).sections);
    assert multiset(shown) == multiset(one);
    assert |shown| == 1 by {
      assert |multiset(shown)| == |multiset(one)|;
    }
    assert shown[0] in multiset(shown);
  }

  /** The items in the sections, read top to bottom. */
  function ShownItems(sections: seq<Section>): seq<ItemWithStatus>
  {
    if sections == [] then [] else sections[0].items + ShownItems(sections[1..])
  }

  /** The sections show every item exactly once. */
  lemma SectionsShowEveryItemOnce(items: seq<ItemWithStatus>)
    requires items != []
    ensures multiset(ShownItems(HomeScreen(items).sections)) == multiset(items)
  {
    var x, a, e := SectionIfAny(items, Expiring), SectionIfAny(items, Active), SectionIfAny(items, Expired);
    var sections := x + a + e;
    assert HomeScreen(items).sections == sections;
    assert ShownItems(x) == OfStatus(items, Expiring);
    assert ShownItems(a) == OfStatus(items, Active);
    assert ShownItems(e) == OfStatus(items, Expired);
    assert ShownItems(sections) == OfStatus(items, Expiring) + OfStatus(items, Active) + OfStatus(items, Expired) by {
      ShownItemsAppend(x + a, e);
      ShownItemsAppend(x, a);
    }
    GroupsPartition(items);
  }

  lemma {:induction false} ShownItemsAppend(a: seq<Section>, b: seq<Section>)
    ensures ShownItems(a + b) == ShownItems(a) + ShownItems(b)
  {
    if a == [] {
      assert a + b == b;
    } else {
      assert (a + b)[1..] == a[1..] + b;
      ShownItemsAppend(a[1..], b);
    }
  }
}
