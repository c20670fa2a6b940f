/** The purchase-history endpoint `get_item_project_history`: a read-through
    cache in front of a query over submitted purchase-order items of one
    item, project and company. */
module PurchaseHistory {
  import opened Text
  import opened EnhancementSettings

  datatype DeliveryStatus = Completed | Pending

  /** One "Purchase Order Item" row as the query returns it (parent, creation,
      qty, rate, amount, supplier, received_qty); `pendingQty` and
      `deliveryStatus` are the keys the endpoint adds to the row dictionary,
      `None` until it does. */
  datatype HistoryRow = HistoryRow(
    parent: string,
    creation: int,
    qty: real,
    rate: real,
    amount: real,
    supplier: string,
    receivedQty: real,
    pendingQty: Option<real>,
    deliveryStatus: Option<DeliveryStatus>)

  /** What the endpoint does: return a list of rows, or fail. A failing query
      reaches the exception handler, which logs the error and then calls
      `traceback.format_exc()` without `traceback` being imported, so the call
      ends in a `NameError` instead of returning its error dictionary. */
  datatype Response = Rows(rows: seq<HistoryRow>) | Fails

  /** The arguments of one call; `limit` is `cint(limit)`. */
  datatype Call = Call(itemCode: string, project: string, company: string, limit: int)

  /** The value of `limit` when the caller leaves it out. */
  const DefaultLimit := 5

  /** The framework's shared cache, reduced to the entries this endpoint stores. */
  class Cache {
    var entries: map<string, seq<HistoryRow>>

    constructor ()
      ensures entries == map[]
    {
      entries := map[];
    }

    /** `frappe.cache().get_value(key)`: the stored value, or nothing. */
    method GetValue(key: string) returns (v: Option<seq<HistoryRow>>)
      ensures key in entries <==> v.Some?
      ensures v.Some? ==> v.value == entries[key]
    {
      v := if key in entries then Some(entries[key]) else None;
    }

    /** `frappe.cache().set_value(key, value)` */
    method SetValue(key: string, value: seq<HistoryRow>)
      modifies this
      ensures entries == old(entries)[key := value]
    {
      entries := entries[key := value];
    }

    /** `frappe.cache().delete_value(key)` */
    method DeleteValue(key: string)
      modifies this
      ensures entries == old(entries) - {key}
    {
      entries := entries - {key};
    }
  }

  /** `f"item_history_{item_code}_{project}_{company}_{limit}"` */
  function HistoryCacheKey(itemCode: string, project: string, company: string, limit: int): (k: string)
    ensures |k| > 13 + |IntToString(limit)| && k[..13] == "item_history_"
    ensures k[|k| - |IntToString(limit)| - 1..] == "_" + IntToString(limit)
  {
    var head := "item_history_" + itemCode + "_" + project + "_" + company;
    var tail := IntToString(limit);
    var k := head + "_" + tail;
    assert k[..13] == "item_history_";
    k
  }

  /** Underscores inside the parts make the key ambiguous: two different
      item/project pairs share one cache entry. */
  lemma KeyCollision()
    ensures HistoryCacheKey("A_B", "C", "X", 5) == HistoryCacheKey("A", "B_C", "X", 5)
  {
  }

  /** For fixed item, project and company, the key determines the limit. */
  lemma {:induction false} KeyDeterminesLimit(itemCode: string, project: string, company: string, l1: int, l2: int)
    ensures HistoryCacheKey(itemCode, project, company, l1) == HistoryCacheKey(itemCode, project, company, l2) <==> l1 == l2
  {
    var prefix := "item_history_" + itemCode + "_" + project + "_" + company + "_";
    if HistoryCacheKey(itemCode, project, company, l1) == HistoryCacheKey(itemCode, project, company, l2) {
      assert (prefix + IntToString(l1))[|prefix|..] == IntToString(l1);
      assert (prefix + IntToString(l2))[|prefix|..] == IntToString(l2);
      IntToStringInjective(l1, l2);
    }
  }

  /** The length of the longest suffix of `w` without `_`. */
  function TrailingRun(w: string): nat
  {
    if w == [] || w[|w| - 1] == '_' then 0 else 1 + TrailingRun(w[..|w| - 1])
  }

  lemma {:induction false} TrailingRunAfterUnderscore(p: string, t: string)
    requires '_' !in t
    ensures TrailingRun(p + "_" + t) == |t|
    decreases |t|
  {
    var w := p + "_" + t;
    if t != [] {
      var t' := t[..|t| - 1];
      assert w[..|w| - 1] == p + "_" + t';
      assert w[|w| - 1] == t[|t| - 1];
      TrailingRunAfterUnderscore(p, t');
    }
  }

  /** Two strings that end in `_` followed by an underscore-free suffix
      have the same suffix when they are equal. */
  lemma SuffixAfterLastUnderscore(p1: string, t1: string, p2: string, t2: string)
    requires '_' !in t1 && '_' !in t2
    requires p1 + "_" + t1 == p2 + "_" + t2
    ensures t1 == t2
  {
    var w := p1 + "_" + t1;
    TrailingRunAfterUnderscore(p1, t1);
    TrailingRunAfterUnderscore(p2, t2);
    assert w[|w| - |t1|..] == t1;
    assert w[|w| - |t2|..] == t2;
  }

  /** Whatever the item, project and company, equal keys were built with equal
      limits: the part after the last `_` is the decimal limit, which holds no `_`. */
  lemma KeyFixesLimit(i1: string, p1: string, c1: string, l1: int, i2: string, p2: string, c2: string, l2: int)
    requires HistoryCacheKey(i1, p1, c1, l1) == HistoryCacheKey(i2, p2, c2, l2)
    ensures l1 == l2
  {
    assert HistoryCacheKey(i1, p1, c1, l1) == ("item_history_" + i1 + "_" + p1 + "_" + c1) + "_" + IntToString(l1);
    assert HistoryCacheKey(i2, p2, c2, l2) == ("item_history_" + i2 + "_" + p2 + "_" + c2) + "_" + IntToString(l2);
    SuffixAfterLastUnderscore("item_history_" + i1 + "_" + p1 + "_" + c1, IntToString(l1),
                              "item_history_" + i2 + "_" + p2 + "_" + c2, IntToString(l2));
    IntToStringInjective(l1, l2);
  }

  /** `cint(limit) or settings.max_history_items or 5` */
  function EffectiveLimit(limitArg: int, s: Settings): (l: int)
    ensures l != 0
    ensures limitArg != 0 ==> l == limitArg
    ensures limitArg == 0 && s.maxHistoryItems.Some? && s.maxHistoryItems.value != 0 ==> l == s.maxHistoryItems.value
    ensures limitArg == 0 && (s.maxHistoryItems.None? || s.maxHistoryItems.value == 0) ==> l == 5
  {
    if limitArg != 0 then limitArg else HistoryFallbackLimit(s)
  }

  /** The query: matching rows newest first, at most `limit` of them.
      `matching` is every submitted row of the item, project and company in
      descending creation order. */
  function Query(matching: seq<HistoryRow>, limit: int): (r: seq<HistoryRow>)
    requires limit > 0
    ensures |r| <= limit && r <= matching
    ensures |r| == limit || r == matching
  {
    if limit < |matching| then matching[..limit] else matching
  }

  /** The two keys added to one row. */
  function Enrich(row: HistoryRow): (r: HistoryRow)
    ensures r.pendingQty == Some(row.qty - row.receivedQty)
    ensures r.deliveryStatus == Some(if row.qty <= row.receivedQty then Completed else Pending)
    ensures r.(pendingQty := row.pendingQty, deliveryStatus := row.deliveryStatus) == row
  {
    var pending := row.qty - row.receivedQty;
    row.(pendingQty := Some(pending), deliveryStatus := Some(if pending <= 0.0 then Completed else Pending))
  }

  function EnrichAll(rows: seq<HistoryRow>): seq<HistoryRow>
  {
    seq(|rows|, i requires 0 <= i < |rows| => Enrich(rows[i]))
  }

  predicate Guarded(s: Settings, c: Call)
  {
    c.itemCode == "" || c.project == "" || c.company == "" || !s.enablePurchaseHistory
  }

  function KeyOf(s: Settings, c: Call): string
  {
    HistoryCacheKey(c.itemCode, c.project, c.company, EffectiveLimit(c.limit, s))
  }

  /** One call: the response and the cache entries afterwards. */
  function Lookup(entries: map<string, seq<HistoryRow>>, s: Settings, c: Call, matching: seq<HistoryRow>)
    : (r: (Response, map<string, seq<HistoryRow>>))
    ensures forall k :: k != KeyOf(s, c) ==> (k in r.1 <==> k in entries)
    ensures forall k :: k != KeyOf(s, c) && k in entries ==> r.1[k] == entries[k]
    ensures r.1 != entries ==> r.0.Rows? && KeyOf(s, c) in r.1 && r.1[KeyOf(s, c)] == r.0.rows
  {
    if Guarded(s, c) then (Rows([]), entries)
    else
      var key := KeyOf(s, c);
      if key in entries && entries[key] != [] then (Rows(entries[key]), entries)
      else
        var limit := EffectiveLimit(c.limit, s);
        if limit < 0 then (Fails, entries)
        else
          var history := EnrichAll(Query(matching, limit));
          (Rows(history), entries[key := history])
  }

  /** Missing arguments or the feature switched off: an empty list, cache untouched. */
  lemma LookupGuarded(entries: map<string, seq<HistoryRow>>, s: Settings, c: Call, matching: seq<HistoryRow>)
    requires c.itemCode == "" || c.project == "" || c.company == "" || !s.enablePurchaseHistory
    ensures Lookup(entries, s, c, matching) == (Rows([]), entries)
  {
  }

  /** A non-empty cached list is returned as stored and the cache is untouched. */
  lemma LookupHit(entries: map<string, seq<HistoryRow>>, s: Settings, c: Call, matching: seq<HistoryRow>)
    requires !Guarded(s, c)
    requires KeyOf(s, c) in entries && entries[KeyOf(s, c)] != []
    ensures Lookup(entries, s, c, matching) == (Rows(entries[KeyOf(s, c)]), entries)
  {
  }

  /** On a miss (no entry, or an empty cached list) the rows are recomputed:
      the first `limit` matching rows, each with its pending quantity and a
      status that is Completed exactly when nothing is pending; the stored
      value is the returned value. */
  lemma {:induction false} LookupMiss(entries: map<string, seq<HistoryRow>>, s: Settings, c: Call, matching: seq<HistoryRow>)
    requires !Guarded(s, c)
    requires KeyOf(s, c) !in entries || entries[KeyOf(s, c)] == []
    requires EffectiveLimit(c.limit, s) > 0
    ensures var (resp, after) := Lookup(entries, s, c, matching);
      && resp.Rows?
      && after == entries[KeyOf(s, c) := resp.rows]
      && |resp.rows| <= EffectiveLimit(c.limit, s)
      && |resp.rows| == (if EffectiveLimit(c.limit, s) < |matching| then EffectiveLimit(c.limit, s) else |matching|)
      && forall i :: 0 <= i < |resp.rows| ==>
           && resp.rows[i].pendingQty == Some(matching[i].qty - matching[i].receivedQty)
           && resp.rows[i].deliveryStatus == Some(if resp.rows[i].pendingQty.value <= 0.0 then Completed else Pending)
           && resp.rows[i].(pendingQty := None, deliveryStatus := None) == matching[i].(pendingQty := None, deliveryStatus := None)
  {
    var limit := EffectiveLimit(c.limit, s);
    var q := Query(matching, limit);
    var rows := Lookup(entries, s, c, matching).0.rows;
    assert rows == EnrichAll(q);
    forall i | 0 <= i < |rows|
      ensures rows[i].pendingQty == Some(matching[i].qty - matching[i].receivedQty)
      ensures rows[i].deliveryStatus == Some(if rows[i].pendingQty.value <= 0.0 then Completed else Pending)
    {
      assert q[i] == matching[i];
      assert rows[i] == Enrich(q[i]);
    }
  }

  /** A second identical call sees the same response and leaves the cache as
      the first call left it: either it hits the stored list, or the first
      result was empty and recomputing it gives the same empty list. */
  lemma LookupRepeat(entries: map<string, seq<HistoryRow>>, s: Settings, c: Call, matching: seq<HistoryRow>)
    ensures var (resp, after) := Lookup(entries, s, c, matching);
      Lookup(after, s, c, matching) == (resp, after)
  {
    var (resp, after) := Lookup(entries, s, c, matching);
    if !Guarded(s, c) && after != entries {
      var key := KeyOf(s, c);
      assert after[key] == resp.rows;
      if resp.rows == [] {
        assert after[key := []] == after;
      }
    }
  }

  /** The endpoint, reading and writing the shared cache. */
  method GetItemProjectHistory(cache: Cache, s: Settings, c: Call, matching: seq<HistoryRow>) returns (resp: Response)
    modifies cache
    ensures (resp, cache.entries) == Lookup(old(cache.entries), s, c, matching)
  {
    if c.itemCode == "" || c.project == "" || c.company == "" {
      return Rows([]);
    }
    if !s.enablePurchaseHistory {
      return Rows([]);
    }
    var limit := if c.limit != 0 then c.limit else HistoryFallbackLimit(s);
    var key := HistoryCacheKey(c.itemCode, c.project, c.company, limit);
    var cached := cache.GetValue(key);
    if cached.Some? && cached.value != [] {
      return Rows(cached.value);
    }
    if limit < 0 {
      return Fails;
    }
    var history := Query(matching, limit);
    ghost var fetched := history;
    var i := 0;
    while i < |history|
      invariant 0 <= i <= |history| == |fetched|
      invariant forall j :: 0 <= j < i ==> history[j] == Enrich(fetched[j])
      invariant forall j :: i <= j < |history| ==> history[j] == fetched[j]
    {
      var row := history[i];
      var pending := row.qty - row.receivedQty;
      history := history[i := row.(pendingQty := Some(pending),
                                   deliveryStatus := Some(if pending <= 0.0 then Completed else Pending))];
      i := i + 1;
    }
    assert history == EnrichAll(fetched);
    cache.SetValue(key, history);
    resp := Rows(history);
  }
}
