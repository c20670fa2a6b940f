/** `ReminderManager`: the settings it loads, the "Delivery Reminder" table it
    works on (with the counter the framework names new records from), and the
    operations the hooks and the scheduler call. */
module ReminderService {
  import opened Text
  import opened EnhancementSettings
  import opened ReminderModel
  import opened Notifications
  import PurchaseHistory

  const NewRemindersSubject := "New Delivery Reminders Created"

  // ------------------------------------------------------ cache invalidation

  /** The key `_clear_cache_for_po` deletes for one line of an order:
      `f"item_history_{item.item_code}_{item.project}_{po_doc.company}_{max_history_items}"`. */
  function InvalidationKey(po: PurchaseOrderDoc, line: OrderLine, s: Settings): (k: string)
    ensures k == PurchaseHistory.HistoryCacheKey(line.itemCode, line.project, po.company, InvalidationLimit(s))
    ensures InvalidationLimit(s) != 0 ==>
      k == PurchaseHistory.KeyOf(s, PurchaseHistory.Call(line.itemCode, line.project, po.company, InvalidationLimit(s)))
  {
    var k := "item_history_" + line.itemCode + "_" + line.project + "_" + po.company + "_" + IntToString(InvalidationLimit(s));
    InvalidationFormatIsHistoryFormat(line.itemCode, line.project, po.company, InvalidationLimit(s));
    k
  }

  /** The format string of `_clear_cache_for_po` builds the same text as the
      endpoint's. */
  lemma InvalidationFormatIsHistoryFormat(itemCode: string, project: string, company: string, limit: int)
    ensures "item_history_" + itemCode + "_" + project + "_" + company + "_" + IntToString(limit)
            == PurchaseHistory.HistoryCacheKey(itemCode, project, company, limit)
  {
  }

  /** The keys deleted for the first `i` lines of an order. */
  function InvalidatedKeysUpTo(po: PurchaseOrderDoc, s: Settings, i: nat): set<string>
    requires i <= |po.items|
  {
    set j | 0 <= j < i :: InvalidationKey(po, po.items[j], s)
  }

  lemma InvalidatedKeysStep(po: PurchaseOrderDoc, s: Settings, i: nat)
    requires i < |po.items|
    ensures InvalidatedKeysUpTo(po, s, i + 1) == InvalidatedKeysUpTo(po, s, i) + {InvalidationKey(po, po.items[i], s)}
  {
    var key := InvalidationKey(po, po.items[i], s);
    forall k | k in InvalidatedKeysUpTo(po, s, i + 1)
      ensures k in InvalidatedKeysUpTo(po, s, i) || k == key
    {
      var j :| 0 <= j < i + 1 && k == InvalidationKey(po, po.items[j], s);
      if j < i {
        assert k in InvalidatedKeysUpTo(po, s, i);
      }
    }
    assert key in InvalidatedKeysUpTo(po, s, i + 1);
  }

  function InvalidatedKeys(po: PurchaseOrderDoc, s: Settings): set<string>
  {
    InvalidatedKeysUpTo(po, s, |po.items|)
  }

  /** For a history call about the same item, project and company as an order
      line, the line's invalidation key is the call's cache key exactly when the
      call's effective limit is the `max_history_items` setting read with default 5. */
  lemma InvalidationMatchesLookup(s: Settings, po: PurchaseOrderDoc, line: OrderLine, c: PurchaseHistory.Call)
    requires c.itemCode == line.itemCode && c.project == line.project && c.company == po.company
    ensures PurchaseHistory.KeyOf(s, c) == InvalidationKey(po, line, s)
            <==> PurchaseHistory.EffectiveLimit(c.limit, s) == InvalidationLimit(s)
  {
    PurchaseHistory.KeyDeterminesLimit(line.itemCode, line.project, po.company,
                                       PurchaseHistory.EffectiveLimit(c.limit, s), InvalidationLimit(s));
  }

  /** An entry cached under any other limit is not deleted, whatever its item,
      project and company. */
  lemma OtherLimitsSurvive(s: Settings, po: PurchaseOrderDoc, c: PurchaseHistory.Call)
    requires PurchaseHistory.EffectiveLimit(c.limit, s) != InvalidationLimit(s)
    ensures PurchaseHistory.KeyOf(s, c) !in InvalidatedKeys(po, s)
  {
    forall j | 0 <= j < |po.items|
      ensures PurchaseHistory.KeyOf(s, c) != InvalidationKey(po, po.items[j], s)
    {
      if PurchaseHistory.KeyOf(s, c) == InvalidationKey(po, po.items[j], s) {
        PurchaseHistory.KeyFixesLimit(c.itemCode, c.project, c.company, PurchaseHistory.EffectiveLimit(c.limit, s),
                                      po.items[j].itemCode, po.items[j].project, po.company, InvalidationLimit(s));
      }
    }
  }

  /** With `max_history_items` set to 0 the endpoint caches under limit 5 (or
      the caller's limit) while invalidation deletes limit-0 keys, which no
      call produces: nothing the endpoint cached is ever deleted. */
  lemma ZeroMaxHistoryItemsNeverInvalidates(s: Settings, po: PurchaseOrderDoc, c: PurchaseHistory.Call)
    requires s.maxHistoryItems == Some(0)
    ensures PurchaseHistory.KeyOf(s, c) !in InvalidatedKeys(po, s)
  {
    OtherLimitsSurvive(s, po, c);
  }

  /** A call passing limit 0 about an order line is invalidated whenever
      `max_history_items` is absent or nonzero. */
  lemma ZeroLimitInvalidated(s: Settings, po: PurchaseOrderDoc, j: nat, c: PurchaseHistory.Call)
    requires j < |po.items|
    requires c.itemCode == po.items[j].itemCode && c.project == po.items[j].project && c.company == po.company
    requires c.limit == 0 && s.maxHistoryItems != Some(0)
    ensures PurchaseHistory.KeyOf(s, c) in InvalidatedKeys(po, s)
  {
    assert PurchaseHistory.KeyOf(s, c) == InvalidationKey(po, po.items[j], s);
  }

  /** A call that leaves `limit` at its default 5, about an order line, is
      invalidated exactly when `max_history_items` is absent or 5. */
  lemma OmittedLimitInvalidated(s: Settings, po: PurchaseOrderDoc, j: nat, c: PurchaseHistory.Call)
    requires j < |po.items|
    requires c.itemCode == po.items[j].itemCode && c.project == po.items[j].project && c.company == po.company
    requires c.limit == PurchaseHistory.DefaultLimit
    ensures PurchaseHistory.KeyOf(s, c) in InvalidatedKeys(po, s)
            <==> s.maxHistoryItems == None || s.maxHistoryItems == Some(5)
  {
    if s.maxHistoryItems == None || s.maxHistoryItems == Some(5) {
      assert PurchaseHistory.KeyOf(s, c) == InvalidationKey(po, po.items[j], s);
    } else {
      OtherLimitsSurvive(s, po, c);
    }
  }

  // ------------------------------------------------------------- the manager

  class ReminderManager {
    const settings: Settings
    var reminders: map<nat, Reminder>
    var nextName: nat

    /** Every record's name was handed out before `nextName`. */
    predicate Valid()
      reads this
    {
      NamesIssued(Store(reminders, nextName))
    }

    constructor (settings: Settings, reminders: map<nat, Reminder>, nextName: nat)
      requires NamesIssued(Store(reminders, nextName))
      ensures Valid()
      ensures this.settings == settings && this.reminders == reminders && this.nextName == nextName
    {
      this.settings := settings;
      this.reminders := reminders;
      this.nextName := nextName;
    }

    /** `_create_reminder`: inserts a new Open reminder under a fresh name. */
    method CreateReminder(line: ReceiptLine, pendingQty: real, doc: ReceiptDoc, today: int) returns (name: nat)
      requires Valid()
      modifies this
      ensures Valid()
      ensures name == old(nextName) && name !in old(reminders) && nextName == old(nextName) + 1
      ensures reminders == old(reminders)[name := NewReminder(line, pendingQty, doc, today, settings)]
    {
      name := nextName;
      reminders := reminders[name := NewReminder(line, pendingQty, doc, today, settings)];
      nextName := nextName + 1;
    }

    /** `_update_reminder`: writes the pending quantity. */
    method UpdateReminder(name: nat, pendingQty: real, today: int)
      requires name in reminders
      modifies this
      ensures reminders == old(reminders)[name := WithPending(old(reminders)[name], pendingQty, today)]
      ensures nextName == old(nextName)
    {
      reminders := reminders[name := WithPending(reminders[name], pendingQty, today)];
    }

    /** `_close_reminder`: writes the status Closed. */
    method CloseReminder(name: nat, today: int)
      requires name in reminders
      modifies this
      ensures reminders == old(reminders)[name := WithClosed(old(reminders)[name], today)]
      ensures nextName == old(nextName)
    {
      reminders := reminders[name := WithClosed(reminders[name], today)];
    }

    /** `_process_document`: the table afterwards is `ProcessLines` of the
        receipt's lines, and one notification goes to each owner of an order
        that got a new reminder. */
    method ProcessDocument(doc: ReceiptDoc, today: int, ownerOf: string -> string) returns (sent: seq<Notification>)
      requires Valid()
      modifies this
      ensures Valid()
      ensures reminders == ProcessLines(Store(old(reminders), old(nextName)), doc.items, doc, today, settings).0.rows
      ensures nextName == ProcessLines(Store(old(reminders), old(nextName)), doc.items, doc, today, settings).0.nextName
      ensures sent == Consolidated(ProcessLines(Store(old(reminders), old(nextName)), doc.items, doc, today, settings).1,
                                   ownerOf, NewRemindersSubject)
      ensures old(AtMostOneOpenPerLine(reminders)) ==> AtMostOneOpenPerLine(reminders)
      ensures forall k :: k in old(reminders) && old(reminders)[k].status == Closed ==>
                k in reminders && reminders[k] == old(reminders)[k]
    {
      ghost var st0 := Store(reminders, nextName);
      var queued: seq<Named> := [];
      var i := 0;
      while i < |doc.items|
        invariant 0 <= i <= |doc.items|
        invariant (Store(reminders, nextName), queued) == ProcessLines(st0, doc.items[..i], doc, today, settings)
        invariant Valid()
      {
        var line := doc.items[i];
        assert doc.items[..i + 1][..i] == doc.items[..i];
        ProcessLineKeepsNamesIssued(Store(reminders, nextName), line, doc, today, settings);
        if line.purchaseOrderItem != "" {
          var pending := PendingQty(line);
          var existing := FindExistingReminder(reminders, line.purchaseOrderItem);
          if pending <= 0.0 {
            if existing.Some? {
              CloseReminder(existing.value, today);
            }
          } else if existing.Some? {
            UpdateReminder(existing.value, pending, today);
          } else {
            var name := CreateReminder(line, pending, doc, today);
            queued := queued + [Named(name, reminders[name])];
          }
        }
        i := i + 1;
      }
      assert doc.items[..i] == doc.items;
      ProcessLinesInvariants(st0, doc.items, doc, today, settings);
      if queued != [] {
        sent := SendConsolidatedNotifications(queued, ownerOf, NewRemindersSubject);
      } else {
        sent := [];
      }
    }

    /** `_escalate_overdue`: every Open reminder whose follow-up date is past
        moves up a level, becomes Critical and gets a new follow-up date. */
    method EscalateOverdue(today: int)
      requires Valid()
      modifies this
      ensures Valid()
      ensures reminders == EscalatedTable(old(reminders), today, settings)
      ensures nextName == old(nextName)
    {
      var overdue := set n | n in reminders && IsOverdue(reminders[n], today);
      ghost var before := reminders;
      while overdue != {}
        invariant reminders.Keys == before.Keys && nextName == old(nextName)
        invariant forall n :: n in overdue ==> n in before && IsOverdue(before[n], today)
        invariant forall n :: n in before ==>
          reminders[n] == if IsOverdue(before[n], today) && n !in overdue then Escalated(before[n], today, settings) else before[n]
        decreases overdue
      {
        var n :| n in overdue;
        reminders := reminders[n := Escalated(reminders[n], today, settings)];
        overdue := overdue - {n};
      }
      assert reminders == EscalatedTable(before, today, settings);
    }

    /** `_cleanup_closed`: deletes the Closed reminders last written before the
        cutoff, unless archiving is on. */
    method CleanupClosed(today: int)
      requires Valid()
      modifies this
      ensures Valid()
      ensures reminders == CleanedTable(old(reminders), today, settings)
      ensures nextName == old(nextName)
    {
      var cutoff := CleanupCutoff(today, settings);
      var stale := set n | n in reminders && IsStale(reminders[n], cutoff);
      ghost var before := reminders;
      while stale != {}
        invariant nextName == old(nextName)
        invariant forall n :: n in stale ==> n in before && IsStale(before[n], cutoff)
        invariant settings.archiveClosedReminders ==> reminders == before
        invariant !settings.archiveClosedReminders ==>
          forall n :: n in reminders <==> n in before && (!IsStale(before[n], cutoff) || n in stale)
        invariant forall n :: n in reminders ==> n in before && reminders[n] == before[n]
        decreases stale
      {
        var n :| n in stale;
        if !settings.archiveClosedReminders {
          reminders := reminders - {n};
        }
        stale := stale - {n};
      }
      assert reminders == CleanedTable(before, today, settings);
    }

    /** `_close_reminders_for_po`: closes every Open reminder of the order. */
    method CloseRemindersForPo(po: string, today: int)
      requires Valid()
      modifies this
      ensures Valid()
      ensures reminders == ClosedForOrder(old(reminders), po, today)
      ensures nextName == old(nextName)
    {
      var open := set n | n in reminders && OpenOfOrder(reminders[n], po);
      ghost var before := reminders;
      while open != {}
        invariant reminders.Keys == before.Keys && nextName == old(nextName)
        invariant forall n :: n in open ==> n in before && OpenOfOrder(before[n], po)
        invariant forall n :: n in before ==>
          reminders[n] == if OpenOfOrder(before[n], po) && n !in open then WithClosed(before[n], today) else before[n]
        decreases open
      {
        var n :| n in open;
        CloseReminder(n, today);
        open := open - {n};
      }
      assert reminders == ClosedForOrder(before, po, today);
    }

    /** `_clear_cache_for_po`: deletes one history key per order line. */
    method ClearCacheForPo(po: PurchaseOrderDoc, cache: PurchaseHistory.Cache)
      modifies cache
      ensures cache.entries == old(cache.entries) - InvalidatedKeys(po, settings)
    {
      var i := 0;
      while i < |po.items|
        invariant 0 <= i <= |po.items|
        invariant cache.entries == old(cache.entries) - InvalidatedKeysUpTo(po, settings, i)
      {
        var key := InvalidationKey(po, po.items[i], settings);
        cache.DeleteValue(key);
        InvalidatedKeysStep(po, settings, i);
        i := i + 1;
      }
    }

    // ------------------------------------------------------------ entrypoints

    /** `update_reminders_for_receipt`: nothing happens unless auto reminders are enabled. */
    method UpdateRemindersForReceipt(doc: ReceiptDoc, today: int, ownerOf: string -> string)
      returns (sent: seq<Notification>)
      requires Valid()
      modifies this
      ensures Valid()
      ensures !settings.enableAutoReminders ==>
        reminders == old(reminders) && nextName == old(nextName) && sent == []
      ensures settings.enableAutoReminders ==>
        && reminders == ProcessLines(Store(old(reminders), old(nextName)), doc.items, doc, today, settings).0.rows
        && nextName == ProcessLines(Store(old(reminders), old(nextName)), doc.items, doc, today, settings).0.nextName
        && sent == Consolidated(ProcessLines(Store(old(reminders), old(nextName)), doc.items, doc, today, settings).1,
                                ownerOf, NewRemindersSubject)
    {
      if !settings.enableAutoReminders {
        sent := [];
        return;
      }
      sent := ProcessDocument(doc, today, ownerOf);
    }

    /** `escalate_overdue_reminders`: nothing happens unless auto escalation is enabled. */
    method EscalateOverdueReminders(today: int)
      requires Valid()
      modifies this
      ensures Valid()
      ensures nextName == old(nextName)
      ensures reminders == if settings.autoEscalateEnabled then EscalatedTable(old(reminders), today, settings)
                           else old(reminders)
    {
      if !settings.autoEscalateEnabled {
        return;
      }
      EscalateOverdue(today);
    }

    /** `send_daily_reminder_digest`: no digest unless the daily digest is enabled. */
    method SendDailyReminderDigest() returns (digest: Option<Digest>)
      ensures !settings.sendDailyDigest ==> digest == None
      ensures settings.sendDailyDigest ==> digest == DailyDigest(settings, reminders)
    {
      if !settings.sendDailyDigest {
        return None;
      }
      digest := DailyDigest(settings, reminders);
    }

    /** `cleanup_closed_reminders`: nothing happens unless auto cleanup is enabled. */
    method CleanupClosedReminders(today: int)
      requires Valid()
      modifies this
      ensures Valid()
      ensures nextName == old(nextName)
      ensures reminders == if settings.autoCleanupEnabled then CleanedTable(old(reminders), today, settings)
                           else old(reminders)
    {
      if !settings.autoCleanupEnabled {
        return;
      }
      CleanupClosed(today);
    }
  }
}
