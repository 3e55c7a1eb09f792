/**
 * The warranty status calculator: expiration date, whole days remaining and
 * the three-way classification, plus the colour and the text shown for it.
 */
module Warranty {
  import opened Calendar
  import opened Text
  import opened Types
  import opened Wrappers

  const ExpiringWindowDays: int := 30

  /** `Math.ceil(ms / 86400000)`: the number of started days in a span of milliseconds. */
  function CeilDays(ms: int): (days: int)
    ensures (days - 1) * MsPerDay < ms <= days * MsPerDay
  {
    -((-ms) / MsPerDay)
  }

  /** Whole days (rounded up) from `now` to the expiration date. */
  function DaysRemaining(expiration: Date, now: int): int
  {
    CeilDays(TimeOf(expiration) - now)
  }

  /** The thresholds: none left is expired, up to 30 is expiring, more is active. */
  function Classify(daysRemaining: int): (s: Status)
    ensures s == Expired <==> daysRemaining <= 0
    ensures s == Expiring <==> 0 < daysRemaining <= ExpiringWindowDays
    ensures s == Active <==> daysRemaining > ExpiringWindowDays
  {
    if daysRemaining <= 0 then Expired
    else if daysRemaining <= ExpiringWindowDays then Expiring
    else Active
  }

  /** A status record whose classification matches its day count, as the calculator builds them. */
  predicate Consistent(ws: WarrantyStatus)
  {
    ws.status == Classify(ws.daysRemaining) && ws.isActive == (ws.status != Expired)
  }

  /** `calculateWarrantyStatus(item)` with the clock reading `now` passed in. */
  function CalculateWarrantyStatus(item: WarrantyItem, now: int): (r: WarrantyStatus)
    ensures TimeOf(r.expirationDate) == AddMonthsTime(item.purchaseDate, item.warrantyDuration)
    ensures (r.daysRemaining - 1) * MsPerDay < TimeOf(r.expirationDate) - now <= r.daysRemaining * MsPerDay
    ensures r.status == Expired <==> r.daysRemaining <= 0
    ensures r.status == Expiring <==> 0 < r.daysRemaining <= 30
    ensures r.status == Active <==> r.daysRemaining > 30
    ensures r.isActive <==> r.status != Expired
    ensures Consistent(r)
  {
    var expirationDate := AddMonths(item.purchaseDate, item.warrantyDuration);
    var daysRemaining := DaysRemaining(expirationDate, now);
    WarrantyStatus(daysRemaining > 0, daysRemaining, expirationDate, Classify(daysRemaining))
  }

  /** The order in which a warranty's status can move: active, then expiring, then expired. */
  function Rank(s: Status): nat
  {
    match s
    case Active => 2
    case Expiring => 1
    case Expired => 0
  }

  /** As time passes the days remaining never grow, so the status only moves forward. */
  lemma DaysRemainingMonotone(expiration: Date, now1: int, now2: int)
    requires now1 <= now2
    ensures DaysRemaining(expiration, now2) <= DaysRemaining(expiration, now1)
    ensures Rank(Classify(DaysRemaining(expiration, now2))) <= Rank(Classify(DaysRemaining(expiration, now1)))
  {
  }

  /** One day later, exactly one day fewer remains. */
  lemma DaysRemainingNextDay(expiration: Date, now: int)
    ensures DaysRemaining(expiration, now + MsPerDay) == DaysRemaining(expiration, now) - 1
  {
  }

  /** Purchased 2024-01-01 with 12 months: on 2024-12-15 there are 17 days left and it is expiring. */
  lemma ScenarioExpiring()
    ensures var r := CalculateWarrantyStatus(
              WarrantyItem("1", "TV", DateTime(2024, 0, 1, 0), 12, None, None, None),
              TimeOf(DateTime(2024, 11, 15, 0)));
            r.expirationDate == DateTime(2025, 0, 1, 0) && r.daysRemaining == 17 && r.status == Expiring
  {
  }

  /** The same item on 2025-02-01: 31 days past expiration, so expired. */
  lemma ScenarioExpired()
    ensures var r := CalculateWarrantyStatus(
              WarrantyItem("1", "TV", DateTime(2024, 0, 1, 0), 12, None, None, None),
              TimeOf(DateTime(2025, 1, 1, 0)));
            r.daysRemaining == -31 && r.status == Expired && !r.isActive
  {
  }

  /** `getStatusColor`: green, orange and red. */
  function StatusColor(s: Status): (c: string)
    ensures |c| == 7 && c[0] == '#'
  {
    match s
    case Active => "#4CAF50"
    case Expiring => "#FF9800"
    case Expired => "#F44336"
  }

  /** The three statuses get three different colours. */
  lemma StatusColorInjective(s: Status, t: Status)
    requires StatusColor(s) == StatusColor(t)
    ensures s == t
  {
  }

  const ExpiredPrefix: string := "Expired "
  const ExpiredSuffix: string := " days ago"
  const ExpiringPrefix: string := "Expires in "
  const ExpiringSuffix: string := " days"
  const ActiveSuffix: string := " days remaining"

  /** `Math.abs` on an integer. */
  function Magnitude(i: int): (m: nat)
    ensures m == i || m == -i
  {
    if i < 0 then -i else i
  }

  /** `getStatusText`: the magnitude of the day count for an expired warranty, the raw count otherwise. */
  function StatusText(ws: WarrantyStatus): (text: string)
    ensures |text| > 6
    ensures Consistent(ws) ==> (IsDigit(text[0]) <==> ws.status == Active)
    ensures ws.status != Active ==> text[6] == if ws.status == Expired then 'd' else 's'
    ensures ws.status == Expired ==> text == ExpiredPrefix + NatToDecimal(Magnitude(ws.daysRemaining)) + ExpiredSuffix
    ensures ws.status == Expiring ==> text == ExpiringPrefix + IntToString(ws.daysRemaining) + ExpiringSuffix
    ensures ws.status == Active ==> text == IntToString(ws.daysRemaining) + ActiveSuffix
    ensures Consistent(ws) ==> forall i :: 0 <= i < |text| ==> text[i] != '-'
  {
    match ws.status
    case Expired => ExpiredPrefix + IntToString(if ws.daysRemaining < 0 then -ws.daysRemaining else ws.daysRemaining) + ExpiredSuffix
    case Expiring => ExpiringPrefix + IntToString(ws.daysRemaining) + ExpiringSuffix
    case Active => IntToString(ws.daysRemaining) + ActiveSuffix
  }

  /** Strips a known prefix and suffix off a string, leaving the middle. */
  lemma StripAffixes(p: string, a: string, b: string, q: string)
    requires p + a + q == p + b + q
    ensures a == b
  {
    assert |a| == |b|;
    forall i | 0 <= i < |a| ensures a[i] == b[i] {
      assert a[i] == (p + a + q)[|p| + i];
      assert b[i] == (p + b + q)[|p| + i];
    }
  }

  /**
   * The status text identifies the status and the day count: two consistent
   * records with the same text have the same status and the same days remaining.
   */
  lemma StatusTextInjective(a: WarrantyStatus, b: WarrantyStatus)
    requires Consistent(a) && Consistent(b)
    requires StatusText(a) == StatusText(b)
    ensures a.status == b.status && a.daysRemaining == b.daysRemaining
  {
    var ta, tb := StatusText(a), StatusText(b);
    if a.status == Active || b.status == Active {
      // Only the active text starts with a digit.
      assert IsDigit(ta[0]) <==> a.status == Active;
      assert IsDigit(tb[0]) <==> b.status == Active;
    } else {
      // "Expired " and "Expires in " differ at index 6.
      assert ta[6] == if a.status == Expired then 'd' else 's';
      assert tb[6] == if b.status == Expired then 'd' else 's';
    }
    assert a.status == b.status;
    match a.status
    case Active =>
      assert "" + IntToString(a.daysRemaining) == IntToString(a.daysRemaining);
      assert "" + IntToString(b.daysRemaining) == IntToString(b.daysRemaining);
      StripAffixes("", IntToString(a.daysRemaining), IntToString(b.daysRemaining), ActiveSuffix);
      IntToStringInjective(a.daysRemaining, b.daysRemaining);
    case Expiring =>
      StripAffixes(ExpiringPrefix, IntToString(a.daysRemaining), IntToString(b.daysRemaining), ExpiringSuffix);
      IntToStringInjective(a.daysRemaining, b.daysRemaining);
    case Expired =>
      StripAffixes(ExpiredPrefix, IntToString(-a.daysRemaining), IntToString(-b.daysRemaining), ExpiredSuffix);
      IntToStringInjective(-a.daysRemaining, -b.daysRemaining);
  }
}
