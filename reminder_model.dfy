/** The Delivery Reminder table and the rules the reminder manager applies to
    it, as functions over the table's value. Reminder names are the numbers
    the table hands out in creation order; dates are day numbers. */
module ReminderModel {
  import opened Text
  import opened EnhancementSettings

  datatype Status = Open | Closed
  datatype Level = First | Second | Final
  datatype Priority = Low | Medium | High | Critical

  function LevelRank(l: Level): nat
  {
    match l
    case First => 0
    case Second => 1
    case Final => 2
  }

  function PriorityRank(p: Priority): nat
  {
    match p
    case Low => 0
    case Medium => 1
    case High => 2
    case Critical => 3
  }

  /** One "Delivery Reminder" document. `modified` is the day of its last write. */
  datatype Reminder = Reminder(
    purchaseOrder: string,
    purchaseOrderItem: string,
    supplier: string,
    itemCode: string,
    pendingQty: real,
    status: Status,
    autoCreated: bool,
    triggeringReceipt: string,
    expectedDeliveryDate: int,
    priority: Priority,
    reminderLevel: Level,
    nextFollowUpDate: int,
    modified: int)

  /** A reminder together with its name. */
  datatype Named = Named(name: nat, reminder: Reminder)

  function NamesOf(queued: seq<Named>): set<nat>
  {
    set i | 0 <= i < |queued| :: queued[i].name
  }

  /** The table and the next name it will hand out. */
  datatype Store = Store(rows: map<nat, Reminder>, nextName: nat)

  /** Every stored name was handed out before `nextName`. */
  predicate NamesIssued(st: Store)
  {
    forall n :: n in st.rows ==> n < st.nextName
  }

  /** At most one Open reminder per purchase-order line. */
  ghost predicate AtMostOneOpenPerLine(rows: map<nat, Reminder>)
  {
    forall a, b ::
      (a in rows && b in rows && rows[a].status == Open && rows[b].status == Open
       && rows[a].purchaseOrderItem == rows[b].purchaseOrderItem) ==> a == b
  }

  /** One line of a receipt, with what the manager looks up for it: the ordered
      quantity of its purchase-order line (0 when that is missing), the total
      received over all submitted receipts, and the order's supplier and
      schedule date. An empty `purchaseOrderItem` is a line not linked to an order. */
  datatype ReceiptLine = ReceiptLine(
    purchaseOrder: string,
    purchaseOrderItem: string,
    itemCode: string,
    orderedQty: real,
    totalReceivedQty: real,
    supplier: string,
    scheduleDate: Option<int>)

  datatype ReceiptDoc = ReceiptDoc(doctype: string, name: string, items: seq<ReceiptLine>)

  /** A purchase order as its cancellation and cache-clearing hooks see it. */
  datatype OrderLine = OrderLine(itemCode: string, project: string)
  datatype PurchaseOrderDoc = PurchaseOrderDoc(name: string, company: string, items: seq<OrderLine>)

  function PendingQty(line: ReceiptLine): real
  {
    line.orderedQty - line.totalReceivedQty
  }

  // ---------------------------------------------------------------- priority

  /** `pending / (ordered or 1) * 100` */
  function PercentPending(pendingQty: real, orderedQty: real): real
  {
    pendingQty / (if orderedQty == 0.0 then 1.0 else orderedQty) * 100.0
  }

  /** The first tier whose threshold the pending percentage reaches. */
  function CalculatePriority(pendingQty: real, orderedQty: real, s: Settings): (p: Priority)
    ensures p == Critical <==> PercentPending(pendingQty, orderedQty) >= CriticalThreshold(s)
    ensures p == Low <==> PercentPending(pendingQty, orderedQty) < CriticalThreshold(s)
                          && PercentPending(pendingQty, orderedQty) < HighThreshold(s)
                          && PercentPending(pendingQty, orderedQty) < MediumThreshold(s)
    ensures p == High <==> PercentPending(pendingQty, orderedQty) < CriticalThreshold(s)
                           && PercentPending(pendingQty, orderedQty) >= HighThreshold(s)
    ensures p == Medium <==> PercentPending(pendingQty, orderedQty) < CriticalThreshold(s)
                             && PercentPending(pendingQty, orderedQty) < HighThreshold(s)
                             && PercentPending(pendingQty, orderedQty) >= MediumThreshold(s)
  {
    var pct := PercentPending(pendingQty, orderedQty);
    if pct >= CriticalThreshold(s) then Critical
    else if pct >= HighThreshold(s) then High
    else if pct >= MediumThreshold(s) then Medium
    else Low
  }

  predicate ThresholdsOrdered(s: Settings)
  {
    CriticalThreshold(s) >= HighThreshold(s) >= MediumThreshold(s)
  }

  /** How many of the three thresholds a percentage reaches. */
  function ThresholdsMet(pct: real, s: Settings): nat
  {
    (if pct >= CriticalThreshold(s) then 1 else 0)
    + (if pct >= HighThreshold(s) then 1 else 0)
    + (if pct >= MediumThreshold(s) then 1 else 0)
  }

  /** With ordered thresholds the tier is the number of thresholds reached. */
  lemma PriorityCountsThresholds(pendingQty: real, orderedQty: real, s: Settings)
    requires ThresholdsOrdered(s)
    ensures PriorityRank(CalculatePriority(pendingQty, orderedQty, s))
            == ThresholdsMet(PercentPending(pendingQty, orderedQty), s)
  {
  }

  /** A missing or zero ordered quantity divides by 1. */
  lemma PriorityZeroOrderedDividesByOne(pendingQty: real, s: Settings)
    ensures CalculatePriority(pendingQty, 0.0, s) == CalculatePriority(pendingQty, 1.0, s)
  {
  }

  lemma PercentMonotone(p1: real, p2: real, orderedQty: real)
    requires orderedQty >= 0.0 && p1 <= p2
    ensures PercentPending(p1, orderedQty) <= PercentPending(p2, orderedQty)
  {
    var d := if orderedQty == 0.0 then 1.0 else orderedQty;
    assert p2 / d - p1 / d == (p2 - p1) / d;
  }

  /** More pending never lowers the priority (for a non-negative order quantity). */
  lemma PriorityMonotone(p1: real, p2: real, orderedQty: real, s: Settings)
    requires orderedQty >= 0.0 && p1 <= p2
    ensures PriorityRank(CalculatePriority(p1, orderedQty, s)) <= PriorityRank(CalculatePriority(p2, orderedQty, s))
  {
    PercentMonotone(p1, p2, orderedQty);
  }

  // ------------------------------------------------------- receipt processing

  /** `_find_existing_reminder`: an Open reminder of the line. When several
      exist the database returns one of them; this model returns the lowest name. */
  function OpenFor(rows: map<nat, Reminder>, poItem: string): set<nat>
  {
    set n | n in rows && rows[n].status == Open && rows[n].purchaseOrderItem == poItem
  }

  predicate IsLeast(n: nat, s: set<nat>)
  {
    n in s && forall m :: m in s ==> n <= m
  }

  lemma {:induction false} LeastExists(s: set<nat>)
    requires s != {}
    ensures exists n :: IsLeast(n, s)
    decreases |s|
  {
    var x :| x in s;
    var rest := s - {x};
    if rest == {} {
      forall m | m in s ensures x <= m {
        assert m in rest || m == x;
      }
      assert IsLeast(x, s);
    } else {
      LeastExists(rest);
      var y :| IsLeast(y, rest);
      var least := if x < y then x else y;
      forall m | m in s ensures least <= m {
        assert m in rest || m == x;
      }
      assert IsLeast(least, s);
    }
  }

  function FindExistingReminder(rows: map<nat, Reminder>, poItem: string): (r: Option<nat>)
    ensures r.None? <==> OpenFor(rows, poItem) == {}
    ensures r.Some? ==> r.value in OpenFor(rows, poItem)
    ensures r.Some? ==> forall n :: n in OpenFor(rows, poItem) ==> r.value <= n
  {
    var open := OpenFor(rows, poItem);
    if open == {} then None
    else
      LeastExists(open);
      var n :| IsLeast(n, open);
      Some(n)
  }

  /** The fields `_create_reminder` fills in. */
  function NewReminder(line: ReceiptLine, pendingQty: real, doc: ReceiptDoc, today: int, s: Settings): (r: Reminder)
    ensures r.status == Open && r.reminderLevel == First && r.autoCreated && r.modified == today
    ensures r.purchaseOrder == line.purchaseOrder && r.purchaseOrderItem == line.purchaseOrderItem
    ensures r.pendingQty == pendingQty && r.priority == CalculatePriority(pendingQty, line.orderedQty, s)
    ensures r.supplier == line.supplier && r.itemCode == line.itemCode && r.triggeringReceipt == doc.name
    ensures r.expectedDeliveryDate == GetOr(line.scheduleDate, today + 7)
    ensures r.nextFollowUpDate == today + FollowUpDays(s)
    ensures FollowUpDays(s) >= 0 ==> !IsOverdue(r, today)
  {
    Reminder(
      purchaseOrder := line.purchaseOrder,
      purchaseOrderItem := line.purchaseOrderItem,
      supplier := line.supplier,
      itemCode := line.itemCode,
      pendingQty := pendingQty,
      status := Open,
      autoCreated := true,
      triggeringReceipt := doc.name,
      expectedDeliveryDate := GetOr(line.scheduleDate, today + 7),
      priority := CalculatePriority(pendingQty, line.orderedQty, s),
      reminderLevel := First,
      nextFollowUpDate := today + FollowUpDays(s),
      modified := today)
  }

  /** `_update_reminder`: only the pending quantity is written. */
  function WithPending(r: Reminder, pendingQty: real, today: int): (w: Reminder)
    ensures w.pendingQty == pendingQty && w.modified == today
    ensures w.(pendingQty := r.pendingQty, modified := r.modified) == r
  {
    r.(pendingQty := pendingQty, modified := today)
  }

  /** `_close_reminder`: only the status is written. */
  function WithClosed(r: Reminder, today: int): (w: Reminder)
    ensures w.status == Closed && w.modified == today
    ensures w.(status := r.status, modified := r.modified) == r
  {
    r.(status := Closed, modified := today)
  }

  datatype LineOutcome =
    | Skipped
    | LeftAlone
    | ClosedExisting(name: nat)
    | UpdatedExisting(name: nat)
    | CreatedNew(name: nat)

  /** One iteration of `_process_document`'s loop. */
  function ProcessLine(st: Store, line: ReceiptLine, doc: ReceiptDoc, today: int, s: Settings): (r: (Store, LineOutcome))
    ensures line.purchaseOrderItem == "" <==> r.1 == Skipped
    ensures r.1.LeftAlone? <==>
      line.purchaseOrderItem != "" && PendingQty(line) <= 0.0 && OpenFor(st.rows, line.purchaseOrderItem) == {}
    ensures r.1.ClosedExisting? <==>
      line.purchaseOrderItem != "" && PendingQty(line) <= 0.0 && OpenFor(st.rows, line.purchaseOrderItem) != {}
    ensures r.1.UpdatedExisting? <==>
      line.purchaseOrderItem != "" && PendingQty(line) > 0.0 && OpenFor(st.rows, line.purchaseOrderItem) != {}
    ensures r.1.CreatedNew? <==>
      line.purchaseOrderItem != "" && PendingQty(line) > 0.0 && OpenFor(st.rows, line.purchaseOrderItem) == {}
    ensures r.1.Skipped? || r.1.LeftAlone? ==> r.0 == st
    ensures r.1.ClosedExisting? || r.1.UpdatedExisting? ==>
      && r.1.name in OpenFor(st.rows, line.purchaseOrderItem)
      && r.0.nextName == st.nextName
      && r.0.rows.Keys == st.rows.Keys
      && forall k :: k in st.rows && k != r.1.name ==> r.0.rows[k] == st.rows[k]
    ensures r.1.ClosedExisting? ==> r.0.rows[r.1.name] == st.rows[r.1.name].(status := Closed, modified := today)
    ensures r.1.UpdatedExisting? ==>
      r.0.rows[r.1.name] == st.rows[r.1.name].(pendingQty := PendingQty(line), modified := today)
    ensures r.1.CreatedNew? ==>
      && r.1.name == st.nextName
      && r.0.nextName == st.nextName + 1
      && r.0.rows == st.rows[st.nextName := NewReminder(line, PendingQty(line), doc, today, s)]
  {
    if line.purchaseOrderItem == "" then (st, Skipped)
    else
      var pending := PendingQty(line);
      var existing := FindExistingReminder(st.rows, line.purchaseOrderItem);
      if pending <= 0.0 then
        match existing
        case Some(n) => (st.(rows := st.rows[n := WithClosed(st.rows[n], today)]), ClosedExisting(n))
        case None => (st, LeftAlone)
      else
        match existing
        case Some(n) => (st.(rows := st.rows[n := WithPending(st.rows[n], pending, today)]), UpdatedExisting(n))
        case None =>
          var n := st.nextName;
          (Store(st.rows[n := NewReminder(line, pending, doc, today, s)], n + 1), CreatedNew(n))
  }

  /** `_process_document`'s loop over the first `|lines|` lines: the table
      afterwards and the reminders queued for notification, as created. */
  function ProcessLines(st: Store, lines: seq<ReceiptLine>, doc: ReceiptDoc, today: int, s: Settings)
    : (r: (Store, seq<Named>))
    ensures r.0.nextName == st.nextName + |r.1|
    ensures forall i :: 0 <= i < |r.1| ==> r.1[i].name == st.nextName + i
    decreases |lines|
  {
    if lines == [] then (st, [])
    else
      var (mid, queued) := ProcessLines(st, lines[..|lines| - 1], doc, today, s);
      var (after, outcome) := ProcessLine(mid, lines[|lines| - 1], doc, today, s);
      if outcome.CreatedNew? then (after, queued + [Named(outcome.name, after.rows[outcome.name])])
      else (after, queued)
  }

  lemma ProcessLineKeepsNamesIssued(st: Store, line: ReceiptLine, doc: ReceiptDoc, today: int, s: Settings)
    requires NamesIssued(st)
    ensures NamesIssued(ProcessLine(st, line, doc, today, s).0)
  {
  }

  /** Only Open reminders are ever looked up, so one receipt line cannot
      give a line a second Open reminder. */
  lemma ProcessLineKeepsAtMostOneOpen(st: Store, line: ReceiptLine, doc: ReceiptDoc, today: int, s: Settings)
    requires AtMostOneOpenPerLine(st.rows)
    ensures AtMostOneOpenPerLine(ProcessLine(st, line, doc, today, s).0.rows)
  {
    var (after, outcome) := ProcessLine(st, line, doc, today, s);
    if outcome.CreatedNew? {
      var n := outcome.name;
      forall m | m in after.rows && m != n && after.rows[m].status == Open
        ensures after.rows[m].purchaseOrderItem != line.purchaseOrderItem
      {
        assert m in st.rows && after.rows[m] == st.rows[m];
        assert m !in OpenFor(st.rows, line.purchaseOrderItem);
      }
    }
  }

  /** A Closed reminder is never reopened or otherwise written by one line. */
  lemma ProcessLineKeepsClosed(st: Store, line: ReceiptLine, doc: ReceiptDoc, today: int, s: Settings, k: nat)
    requires NamesIssued(st)
    requires k in st.rows && st.rows[k].status == Closed
    ensures k in ProcessLine(st, line, doc, today, s).0.rows
    ensures ProcessLine(st, line, doc, today, s).0.rows[k] == st.rows[k]
  {
  }

  /** A line of another purchase-order line leaves this line's Open reminders as they were. */
  lemma ProcessLineOtherLine(st: Store, line: ReceiptLine, doc: ReceiptDoc, today: int, s: Settings, poItem: string)
    requires NamesIssued(st)
    requires line.purchaseOrderItem != poItem
    ensures var after := ProcessLine(st, line, doc, today, s).0.rows;
      && OpenFor(after, poItem) == OpenFor(st.rows, poItem)
      && forall n :: n in OpenFor(st.rows, poItem) ==> after[n] == st.rows[n]
  {
    var (after, outcome) := ProcessLine(st, line, doc, today, s);
    if outcome.CreatedNew? || outcome.ClosedExisting? || outcome.UpdatedExisting? {
      assert OpenFor(after.rows, poItem) == OpenFor(st.rows, poItem) by {
        forall n | n in OpenFor(after.rows, poItem) ensures n in OpenFor(st.rows, poItem) {
          assert n != outcome.name;
        }
        forall n | n in OpenFor(st.rows, poItem) ensures n in OpenFor(after.rows, poItem) {
          assert n != outcome.name;
        }
      }
    }
  }

  /** After a linked line, its purchase-order line has an Open reminder exactly
      when something is still pending, and that reminder carries the pending quantity. */
  lemma ProcessLineReflectsPending(st: Store, line: ReceiptLine, doc: ReceiptDoc, today: int, s: Settings)
    requires AtMostOneOpenPerLine(st.rows) && NamesIssued(st)
    requires line.purchaseOrderItem != ""
    ensures var after := ProcessLine(st, line, doc, today, s).0.rows;
      && (OpenFor(after, line.purchaseOrderItem) == {} <==> PendingQty(line) <= 0.0)
      && forall n :: n in OpenFor(after, line.purchaseOrderItem) ==> after[n].pendingQty == PendingQty(line)
  {
    var (after, outcome) := ProcessLine(st, line, doc, today, s);
    var item := line.purchaseOrderItem;
    match outcome
    case ClosedExisting(n) =>
      forall m | m in after.rows && after.rows[m].status == Open ensures after.rows[m].purchaseOrderItem != item {
        if m != n {
          assert after.rows[m] == st.rows[m];
        }
      }
    case UpdatedExisting(n) =>
      assert n in OpenFor(after.rows, item);
      forall m | m in after.rows && m != n && after.rows[m].status == Open ensures after.rows[m].purchaseOrderItem != item {
        assert after.rows[m] == st.rows[m];
      }
    case CreatedNew(n) =>
      assert n in OpenFor(after.rows, item);
      forall m | m in after.rows && m != n && after.rows[m].status == Open ensures after.rows[m].purchaseOrderItem != item {
        assert after.rows[m] == st.rows[m];
        assert m !in OpenFor(st.rows, item);
      }
    case LeftAlone =>
    case Skipped =>
  }

  /** Processing a whole document keeps the naming discipline, keeps at most one
      Open reminder per line, and never touches a Closed reminder. */
  lemma {:induction false} ProcessLinesInvariants(st: Store, lines: seq<ReceiptLine>, doc: ReceiptDoc, today: int, s: Settings)
    requires NamesIssued(st)
    ensures var after := ProcessLines(st, lines, doc, today, s).0;
      && NamesIssued(after)
      && (AtMostOneOpenPerLine(st.rows) ==> AtMostOneOpenPerLine(after.rows))
      && st.rows.Keys <= after.rows.Keys
      && forall k :: k in st.rows && st.rows[k].status == Closed ==> after.rows[k] == st.rows[k]
    decreases |lines|
  {
    if lines != [] {
      var mid := ProcessLines(st, lines[..|lines| - 1], doc, today, s).0;
      ProcessLinesInvariants(st, lines[..|lines| - 1], doc, today, s);
      var line := lines[|lines| - 1];
      ProcessLineKeepsNamesIssued(mid, line, doc, today, s);
      if AtMostOneOpenPerLine(mid.rows) {
        ProcessLineKeepsAtMostOneOpen(mid, line, doc, today, s);
      }
      forall k | k in mid.rows && mid.rows[k].status == Closed
        ensures k in ProcessLine(mid, line, doc, today, s).0.rows
        ensures ProcessLine(mid, line, doc, today, s).0.rows[k] == mid.rows[k]
      {
        ProcessLineKeepsClosed(mid, line, doc, today, s, k);
      }
    }
  }

  /** The table afterwards holds the old names and the queued ones, and no others. */
  lemma {:induction false} ProcessLinesAddsQueuedNames(st: Store, lines: seq<ReceiptLine>, doc: ReceiptDoc, today: int, s: Settings)
    ensures var (after, queued) := ProcessLines(st, lines, doc, today, s);
      after.rows.Keys == st.rows.Keys + NamesOf(queued)
    decreases |lines|
  {
    if lines != [] {
      var mid := ProcessLines(st, lines[..|lines| - 1], doc, today, s).0;
      var q := ProcessLines(st, lines[..|lines| - 1], doc, today, s).1;
      ProcessLinesAddsQueuedNames(st, lines[..|lines| - 1], doc, today, s);
      var (after, outcome) := ProcessLine(mid, lines[|lines| - 1], doc, today, s);
      var queued := ProcessLines(st, lines, doc, today, s).1;
      if outcome.CreatedNew? {
        assert queued == q + [Named(outcome.name, after.rows[outcome.name])];
        assert NamesOf(queued) == NamesOf(q) + {outcome.name} by {
          forall x | x in NamesOf(queued) ensures x in NamesOf(q) + {outcome.name}
          {
            var i :| 0 <= i < |queued| && queued[i].name == x;
            if i < |q| { assert q[i].name == x; }
          }
          forall x | x in NamesOf(q) ensures x in NamesOf(queued)
          {
            var i :| 0 <= i < |q| && q[i].name == x;
            assert queued[i].name == x;
          }
          assert queued[|q|].name == outcome.name;
        }
      } else {
        assert queued == q;
      }
    }
  }

  /** A queued reminder as `_create_reminder` makes it: a fresh name, Open,
      level First, auto-created, with a positive pending quantity, the receipt
      as trigger and a follow-up `default_follow_up_days` after today. */
  predicate QueuedAsCreated(q: Named, st: Store, doc: ReceiptDoc, today: int, s: Settings)
  {
    && q.name !in st.rows
    && q.reminder.status == Open
    && q.reminder.reminderLevel == First
    && q.reminder.autoCreated
    && q.reminder.pendingQty > 0.0
    && q.reminder.nextFollowUpDate == today + FollowUpDays(s)
    && q.reminder.triggeringReceipt == doc.name
  }

  /** Every reminder queued for notification is a new one, as created. */
  lemma {:induction false} ProcessLinesQueuesNewReminders(st: Store, lines: seq<ReceiptLine>, doc: ReceiptDoc, today: int, s: Settings, i: nat)
    requires NamesIssued(st)
    requires i < |ProcessLines(st, lines, doc, today, s).1|
    ensures QueuedAsCreated(ProcessLines(st, lines, doc, today, s).1[i], st, doc, today, s)
    decreases |lines|
  {
    var prefix := lines[..|lines| - 1];
    var mid := ProcessLines(st, prefix, doc, today, s).0;
    var q := ProcessLines(st, prefix, doc, today, s).1;
    var line := lines[|lines| - 1];
    var outcome := ProcessLine(mid, line, doc, today, s).1;
    if i < |q| {
      ProcessLinesQueuesNewReminders(st, prefix, doc, today, s, i);
    } else {
      assert outcome.CreatedNew? && outcome.name == st.nextName + i;
      assert PendingQty(line) > 0.0;
    }
  }

  /** For the last line of a document that names a given purchase-order line,
      the table afterwards has an Open reminder for that line exactly when the
      line still has something pending, carrying that quantity. */
  lemma {:induction false} ProcessLinesReflectsPending(st: Store, lines: seq<ReceiptLine>, doc: ReceiptDoc, today: int, s: Settings, k: nat)
    requires NamesIssued(st) && AtMostOneOpenPerLine(st.rows)
    requires k < |lines| && lines[k].purchaseOrderItem != ""
    requires forall j :: k < j < |lines| ==> lines[j].purchaseOrderItem != lines[k].purchaseOrderItem
    ensures var after := ProcessLines(st, lines, doc, today, s).0.rows;
      && (OpenFor(after, lines[k].purchaseOrderItem) == {} <==> PendingQty(lines[k]) <= 0.0)
      && forall n :: n in OpenFor(after, lines[k].purchaseOrderItem) ==> after[n].pendingQty == PendingQty(lines[k])
    decreases |lines|
  {
    var prefix := lines[..|lines| - 1];
    var mid := ProcessLines(st, prefix, doc, today, s).0;
    ProcessLinesInvariants(st, prefix, doc, today, s);
    if k == |lines| - 1 {
      ProcessLineReflectsPending(mid, lines[k], doc, today, s);
    } else {
      ProcessLinesReflectsPending(st, prefix, doc, today, s, k);
      ProcessLineOtherLine(mid, lines[|lines| - 1], doc, today, s, lines[k].purchaseOrderItem);
    }
  }

  // --------------------------------------------------------------- escalation

  predicate IsOverdue(r: Reminder, today: int)
  {
    r.status == Open && r.nextFollowUpDate < today
  }

  /** First becomes Second, every other level becomes Final. */
  function NextLevel(l: Level): (n: Level)
    ensures n == Second <==> l == First
    ensures n == Final <==> l != First
    ensures LevelRank(n) > LevelRank(l) || l == n == Final
  {
    if l == First then Second else Final
  }

  /** One overdue reminder after the sweep: the next level, Critical, a new
      follow-up date; its status and every other field are kept. */
  function Escalated(r: Reminder, today: int, s: Settings): (e: Reminder)
    ensures e.reminderLevel == NextLevel(r.reminderLevel) && e.reminderLevel != First
    ensures e.priority == Critical && e.nextFollowUpDate == today + FollowUpDays(s) && e.modified == today
    ensures e.(reminderLevel := r.reminderLevel, priority := r.priority,
               nextFollowUpDate := r.nextFollowUpDate, modified := r.modified) == r
  {
    r.(reminderLevel := NextLevel(r.reminderLevel), priority := Critical,
       nextFollowUpDate := today + FollowUpDays(s), modified := today)
  }

  /** `_escalate_overdue`: the table after the sweep. */
  function EscalatedTable(rows: map<nat, Reminder>, today: int, s: Settings): (r: map<nat, Reminder>)
    ensures r.Keys == rows.Keys
    ensures forall n :: n in rows && !IsOverdue(rows[n], today) ==> r[n] == rows[n]
    ensures forall n :: n in rows && IsOverdue(rows[n], today) ==>
      && r[n].status == Open
      && r[n].reminderLevel == NextLevel(rows[n].reminderLevel)
      && r[n].priority == Critical
      && r[n].nextFollowUpDate == today + FollowUpDays(s)
      && r[n].modified == today
      && r[n].(reminderLevel := rows[n].reminderLevel, priority := rows[n].priority,
               nextFollowUpDate := rows[n].nextFollowUpDate, modified := rows[n].modified) == rows[n]
  {
    map n | n in rows :: if IsOverdue(rows[n], today) then Escalated(rows[n], today, s) else rows[n]
  }

  /** Escalation changes no status, so it keeps at most one Open reminder per line. */
  lemma EscalationKeepsAtMostOneOpen(rows: map<nat, Reminder>, today: int, s: Settings)
    requires AtMostOneOpenPerLine(rows)
    ensures AtMostOneOpenPerLine(EscalatedTable(rows, today, s))
  {
    var after := EscalatedTable(rows, today, s);
    forall a, b | a in after && b in after && after[a].status == Open && after[b].status == Open
                  && after[a].purchaseOrderItem == after[b].purchaseOrderItem
      ensures a == b
    {
      assert rows[a].status == Open && rows[b].status == Open;
    }
  }

  /** With a non-negative follow-up interval an escalated reminder is not
      overdue again the same day, so a second sweep that day changes nothing. */
  lemma EscalationIdempotentSameDay(rows: map<nat, Reminder>, today: int, s: Settings)
    requires FollowUpDays(s) >= 0
    ensures EscalatedTable(EscalatedTable(rows, today, s), today, s) == EscalatedTable(rows, today, s)
  {
    var once := EscalatedTable(rows, today, s);
    forall n | n in once ensures !IsOverdue(once[n], today) {
    }
  }

  /** Escalating twice on days when the reminder is overdue reaches Final. */
  lemma EscalationReachesFinal(rows: map<nat, Reminder>, t1: int, t2: int, s: Settings, n: nat)
    requires n in rows && IsOverdue(rows[n], t1)
    requires IsOverdue(EscalatedTable(rows, t1, s)[n], t2)
    ensures EscalatedTable(EscalatedTable(rows, t1, s), t2, s)[n].reminderLevel == Final
  {
  }

  // ------------------------------------------------------------------ cleanup

  /** `add_days(nowdate(), -cleanup_days)` */
  function CleanupCutoff(today: int, s: Settings): int
  {
    today - CleanupDays(s)
  }

  predicate IsStale(r: Reminder, cutoff: int)
  {
    r.status == Closed && r.modified < cutoff
  }

  /** `_cleanup_closed`: the table after the sweep. */
  function CleanedTable(rows: map<nat, Reminder>, today: int, s: Settings): (r: map<nat, Reminder>)
    ensures s.archiveClosedReminders ==> r == rows
    ensures !s.archiveClosedReminders ==>
      forall n :: n in r <==> n in rows && !IsStale(rows[n], CleanupCutoff(today, s))
    ensures forall n :: n in r ==> n in rows && r[n] == rows[n]
  {
    if s.archiveClosedReminders then rows
    else map n | n in rows && !IsStale(rows[n], CleanupCutoff(today, s)) :: rows[n]
  }

  /** Cleanup never removes an Open reminder nor a recently written one. */
  lemma CleanupKeepsOpenAndRecent(rows: map<nat, Reminder>, today: int, s: Settings, n: nat)
    requires n in rows
    requires rows[n].status == Open || rows[n].modified >= CleanupCutoff(today, s)
    ensures n in CleanedTable(rows, today, s) && CleanedTable(rows, today, s)[n] == rows[n]
  {
  }

  lemma CleanupIdempotent(rows: map<nat, Reminder>, today: int, s: Settings)
    ensures CleanedTable(CleanedTable(rows, today, s), today, s) == CleanedTable(rows, today, s)
  {
  }

  lemma CleanupKeepsAtMostOneOpen(rows: map<nat, Reminder>, today: int, s: Settings)
    requires AtMostOneOpenPerLine(rows)
    ensures AtMostOneOpenPerLine(CleanedTable(rows, today, s))
  {
  }

  // ----------------------------------------------------------- PO cancellation

  predicate OpenOfOrder(r: Reminder, po: string)
  {
    r.status == Open && r.purchaseOrder == po
  }

  /** `_close_reminders_for_po`: the table after closing the order's Open reminders. */
  function ClosedForOrder(rows: map<nat, Reminder>, po: string, today: int): (r: map<nat, Reminder>)
    ensures r.Keys == rows.Keys
    ensures forall n :: n in rows && !OpenOfOrder(rows[n], po) ==> r[n] == rows[n]
    ensures forall n :: n in rows && OpenOfOrder(rows[n], po) ==>
      r[n] == rows[n].(status := Closed, modified := today)
    ensures forall n :: n in r ==> !OpenOfOrder(r[n], po)
  {
    map n | n in rows :: if OpenOfOrder(rows[n], po) then WithClosed(rows[n], today) else rows[n]
  }

  lemma CancellationKeepsAtMostOneOpen(rows: map<nat, Reminder>, po: string, today: int)
    requires AtMostOneOpenPerLine(rows)
    ensures AtMostOneOpenPerLine(ClosedForOrder(rows, po, today))
  {
    var after := ClosedForOrder(rows, po, today);
    forall a, b | a in after && b in after && after[a].status == Open && after[b].status == Open
                  && after[a].purchaseOrderItem == after[b].purchaseOrderItem
      ensures a == b
    {
      assert rows[a].status == Open && rows[b].status == Open;
    }
  }

  /** Cancelling twice is the same as cancelling once (the second pass finds
      nothing Open of that order). */
  lemma CancellationIdempotent(rows: map<nat, Reminder>, po: string, today: int)
    ensures ClosedForOrder(ClosedForOrder(rows, po, today), po, today) == ClosedForOrder(rows, po, today)
  {
  }
}
