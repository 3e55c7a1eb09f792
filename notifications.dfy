/**
 * Warranty reminders: one reminder 30 days before expiration, kept by the
 * operating system's notification centre, and the stored "enabled" switch.
 * The notification centre is a map from notification id to reminder; what
 * the operating system and the storage calls return is passed in.
 */
module Notifications {
  import opened Wrappers
  import opened Calendar

  const ReminderLeadDays: int := 30

  /** A scheduled notification: its trigger instant and the data it carries. */
  datatype Reminder = Reminder(trigger: int, itemId: string, productName: string)

  /** The stored `notifications_enabled` value. */
  datatype FlagSlot = Unset | Stored(enabled: bool)

  /** `notificationDate.setDate(notificationDate.getDate() - 30)` on a copy of the expiration date. */
  function TriggerTime(expiration: Date): (t: int)
    ensures t == TimeOf(expiration) - ReminderLeadDays * MsPerDay
  {
    SubtractDaysTime(expiration, ReminderLeadDays)
  }

  /**
   * The scheduling rule: no reminder when notifications are disabled or the
   * trigger is not in the future (a trigger equal to `now` counts as past).
   */
  function DueTrigger(enabled: bool, expiration: Date, now: int): (r: Option<int>)
    ensures r.Some? <==> enabled && TimeOf(expiration) - 30 * MsPerDay > now
    ensures r.Some? ==> r.value == TimeOf(expiration) - 30 * MsPerDay && r.value > now
  {
    if !enabled then None
    else
      var trigger := TriggerTime(expiration);
      if trigger <= now then None else Some(trigger)
  }

  /** The reminder for an expiration on 2025-01-01 fires on 2024-12-02 at the same time of day. */
  lemma TriggerScenario()
    ensures TriggerTime(DateTime(2025, 0, 1, 0)) == TimeOf(DateTime(2024, 11, 2, 0))
  {
  }

  /** `cancelScheduledNotificationAsync(key)` on the centre's map. */
  function CancelKey(m: map<string, Reminder>, key: string): (r: map<string, Reminder>)
    ensures key !in r && forall k :: k in r <==> k in m && k != key
    ensures forall k :: k in r ==> r[k] == m[k]
  {
    m - {key}
  }

  /** The ids of the reminders that carry a given item id. */
  function RemindersFor(m: map<string, Reminder>, itemId: string): set<string>
  {
    set k | k in m && m[k].itemId == itemId
  }

  /** No item has two live reminders. */
  predicate AtMostOnePerItem(m: map<string, Reminder>)
  {
    forall k1, k2 :: k1 in m && k2 in m && m[k1].itemId == m[k2].itemId ==> k1 == k2
  }

  /** Every reminder of the item is dropped; the others stay as they were. */
  function CancelForItem(m: map<string, Reminder>, itemId: string): (r: map<string, Reminder>)
    ensures RemindersFor(r, itemId) == {}
    ensures forall k :: k in r <==> k in m && m[k].itemId != itemId
    ensures forall k :: k in r ==> r[k] == m[k]
  {
    map k | k in m && m[k].itemId != itemId :: m[k]
  }

  /**
   * As written, cancelling "the item's notification" cancels the notification
   * whose id is the item id. Scheduling never uses the item id as the
   * notification id, so a reminder the centre gave another id survives.
   */
  lemma CancelKeyKeepsItemReminder(m: map<string, Reminder>, key: string, itemId: string)
    requires key in m && m[key].itemId == itemId && key != itemId
    ensures key in CancelKey(m, itemId) && CancelKey(m, itemId)[key].itemId == itemId
  {
  }

  /** Cancel-by-item-id then schedule, as the edit screen does: the item ends up with two reminders. */
  lemma EditLeavesDuplicateReminder()
    ensures var before := map["n1" := Reminder(100, "item1", "TV")];
            var after := CancelKey(before, "item1")["n2" := Reminder(200, "item1", "TV")];
            AtMostOnePerItem(before) && !AtMostOnePerItem(after)
            && RemindersFor(after, "item1") == {"n1", "n2"}
  {
    var before := map["n1" := Reminder(100, "item1", "TV")];
    var after := CancelKey(before, "item1")["n2" := Reminder(200, "item1", "TV")];
    assert after == map["n1" := Reminder(100, "item1", "TV"), "n2" := Reminder(200, "item1", "TV")];
    assert after["n1"].itemId == after["n2"].itemId;
  }

  /**
   * Corrected: cancelling by the item id carried in the reminder's data and
   * then scheduling leaves exactly one reminder for the item, whatever id the
   * centre hands out, and keeps at most one reminder per item.
   */
  lemma {:induction false} RescheduleKeepsOnePerItem(m: map<string, Reminder>, key: string, r: Reminder)
    requires AtMostOnePerItem(m)
    ensures var after := CancelForItem(m, r.itemId)[key := r];
            AtMostOnePerItem(after) && RemindersFor(after, r.itemId) == {key}
  {
    var c := CancelForItem(m, r.itemId);
    var after := c[key := r];
    forall k1, k2 | k1 in after && k2 in after && after[k1].itemId == after[k2].itemId
      ensures k1 == k2
    {
      if k1 != key && k2 != key {
        assert after[k1] == m[k1] && after[k2] == m[k2];
      }
    }
  }

  /** The operating system's notification centre and the stored enabled switch. */
  class NotificationCentre {
    var scheduled: map<string, Reminder>
    var enabledSlot: FlagSlot

    constructor ()
      ensures scheduled == map[] && enabledSlot == Unset
    {
      scheduled := map[];
      enabledSlot := Unset;
    }

    /** The stored switch; nothing stored means enabled. */
    function Enabled(): bool
      reads this
    {
      match enabledSlot
      case Unset => true
      case Stored(b) => b
    }

    /** `getNotificationsEnabled`: a failed storage read also means enabled. */
    method GetNotificationsEnabled(readOk: bool) returns (enabled: bool)
      ensures enabled == (readOk ==> Enabled())
      ensures enabled == (!readOk || enabledSlot == Unset || enabledSlot == Stored(true))
    {
      if !readOk {
        enabled := true;
      } else {
        enabled := Enabled();
      }
    }

    /**
     * `scheduleWarrantyNotification`. `osId` is what the centre returns for the
     * request: an id, or None when the call throws. Every failure yields None
     * and adds nothing; otherwise exactly the one new reminder is added under
     * the returned id.
     */
    method ScheduleWarrantyNotification(itemId: string, productName: string, expiration: Date,
                                        now: int, readOk: bool, osId: Option<string>)
      returns (id: Option<string>)
      requires osId.Some? ==> osId.value !in scheduled
      modifies this`scheduled
      ensures var enabled := readOk ==> old(Enabled());
              id.Some? <==> DueTrigger(enabled, expiration, now).Some? && osId.Some?
      ensures id.Some? ==> id == osId
                           && scheduled == old(scheduled)[id.value := Reminder(TriggerTime(expiration), itemId, productName)]
      ensures id.None? ==> scheduled == old(scheduled)
    {
      var enabled := GetNotificationsEnabled(readOk);
      if !enabled {
        return None;
      }
      var trigger := TriggerTime(expiration);
      if trigger <= now {
        return None;
      }
      if osId.None? {
        return None;
      }
      scheduled := scheduled[osId.value := Reminder(trigger, itemId, productName)];
      id := osId;
    }

    /** `cancelNotification`: removes that id only; an error from the centre is swallowed. */
    method CancelNotification(id: string, osOk: bool)
      modifies this`scheduled
      ensures scheduled == if osOk then CancelKey(old(scheduled), id) else old(scheduled)
    {
      if osOk {
        scheduled := CancelKey(scheduled, id);
      }
    }

    /** `cancelAllNotifications`: an error from the centre is swallowed. */
    method CancelAllNotifications(osOk: bool)
      modifies this`scheduled
      ensures scheduled == if osOk then map[] else old(scheduled)
    {
      if osOk {
        scheduled := map[];
      }
    }

    /**
     * `cancelWarrantyNotification(itemId)`, as written: cancels the notification
     * whose id is the item id, and rethrows an error from the centre.
     */
    method CancelWarrantyNotification(itemId: string, osOk: bool) returns (result: Outcome<string>)
      modifies this`scheduled
      ensures result.Pass? <==> osOk
      ensures scheduled == if osOk then CancelKey(old(scheduled), itemId) else old(scheduled)
    {
      if !osOk {
        return Fail("cancelScheduledNotificationAsync failed");
      }
      scheduled := CancelKey(scheduled, itemId);
      result := Pass;
    }

    /** Corrected cancellation: every reminder whose data names the item is cancelled. */
    method CancelItemNotifications(itemId: string, osOk: bool) returns (result: Outcome<string>)
      modifies this`scheduled
      ensures result.Pass? <==> osOk
      ensures scheduled == if osOk then CancelForItem(old(scheduled), itemId) else old(scheduled)
    {
      if !osOk {
        return Fail("cancelScheduledNotificationAsync failed");
      }
      scheduled := CancelForItem(scheduled, itemId);
      result := Pass;
    }

    /**
     * The edit screen's notification update, with the corrected cancellation:
     * cancel the item's reminders, then schedule anew. A failed cancellation
     * is caught and nothing is scheduled. At most one reminder per item is kept.
     */
    method RescheduleWarrantyNotification(itemId: string, productName: string, expiration: Date,
                                          now: int, readOk: bool, osOk: bool, osId: Option<string>)
      returns (id: Option<string>)
      requires AtMostOnePerItem(scheduled)
      requires osId.Some? ==> osId.value !in scheduled
      modifies this`scheduled
      ensures AtMostOnePerItem(scheduled)
      ensures osOk ==> RemindersFor(scheduled, itemId) == if id.Some? then {id.value} else {}
      ensures osOk ==> (id.Some? <==> DueTrigger(readOk ==> old(Enabled()), expiration, now).Some? && osId.Some?)
      ensures osOk && id.Some? ==>
                id == osId
                && scheduled == CancelForItem(old(scheduled), itemId)[id.value := Reminder(TriggerTime(expiration), itemId, productName)]
      ensures osOk && id.None? ==> scheduled == CancelForItem(old(scheduled), itemId)
      ensures !osOk ==> id.None? && scheduled == old(scheduled)
    {
      var cancelled := CancelItemNotifications(itemId, osOk);
      if cancelled.Fail? {
        return None;
      }
      id := ScheduleWarrantyNotification(itemId, productName, expiration, now, readOk, osId);
      if id.Some? {
        RescheduleKeepsOnePerItem(old(scheduled), id.value, Reminder(TriggerTime(expiration), itemId, productName));
      }
    }

    /** `setNotificationsEnabled`: switching off also cancels every scheduled reminder. */
    method SetNotificationsEnabled(enabled: bool, writeOk: bool, osOk: bool)
      modifies this
      ensures enabledSlot == if writeOk then Stored(enabled) else old(enabledSlot)
      ensures scheduled == if writeOk && !enabled && osOk then map[] else old(scheduled)
    {
      if !writeOk {
        return;
      }
      enabledSlot := Stored(enabled);
      if !enabled {
        CancelAllNotifications(osOk);
      }
    }
  }
}
