/** The single "Purchase Enhancement Settings" document, as read by the
    reminder service (`settings.get(key, default)` on its dictionary form)
    and by the purchase-history endpoint (attribute access with `or`).
    An `Option` field is `None` when the key is absent from the dictionary;
    `Some(0)` is a key that is present with the value 0. */
module EnhancementSettings {

  datatype Option<T> = None | Some(value: T)

  /** `d.get(key, default)` on a dictionary where `None` stands for an absent key. */
  function GetOr<T>(o: Option<T>, default: T): T
  {
    match o
    case Some(v) => v
    case None => default
  }

  datatype Settings = Settings(
    enableAutoReminders: bool,
    autoEscalateEnabled: bool,
    sendDailyDigest: bool,
    autoCleanupEnabled: bool,
    archiveClosedReminders: bool,
    enablePurchaseHistory: bool,
    defaultFollowUpDays: Option<int>,
    cleanupAfterDays: Option<int>,
    criticalPriorityPercentage: Option<real>,
    highPriorityPercentage: Option<real>,
    mediumPriorityPercentage: Option<real>,
    digestRecipients: Option<string>,
    maxHistoryItems: Option<int>)

  /** `settings.get("default_follow_up_days", 3)` */
  function FollowUpDays(s: Settings): int
  {
    GetOr(s.defaultFollowUpDays, 3)
  }

  /** `settings.get("cleanup_after_days", 180)` */
  function CleanupDays(s: Settings): int
  {
    GetOr(s.cleanupAfterDays, 180)
  }

  /** `settings.get("critical_priority_percentage", 80)` */
  function CriticalThreshold(s: Settings): real
  {
    GetOr(s.criticalPriorityPercentage, 80.0)
  }

  /** `settings.get("high_priority_percentage", 50)` */
  function HighThreshold(s: Settings): real
  {
    GetOr(s.highPriorityPercentage, 50.0)
  }

  /** `settings.get("medium_priority_percentage", 25)` */
  function MediumThreshold(s: Settings): real
  {
    GetOr(s.mediumPriorityPercentage, 25.0)
  }

  /** `settings.get("digest_recipients", "")` */
  function DigestRecipients(s: Settings): string
  {
    GetOr(s.digestRecipients, "")
  }

  /** `settings.get('max_history_items', 5)`, the limit the cache invalidation uses. */
  function InvalidationLimit(s: Settings): int
  {
    GetOr(s.maxHistoryItems, 5)
  }

  /** `settings.max_history_items or 5`, the fallback limit of the history endpoint. */
  function HistoryFallbackLimit(s: Settings): (l: int)
    ensures l != 0
  {
    match s.maxHistoryItems
    case Some(m) => if m != 0 then m else 5
    case None => 5
  }
}
