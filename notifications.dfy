/** What the reminder manager sends: the daily digest to the configured
    recipients, and one notification per purchase-order owner for the
    reminders a receipt created. Mail and HTML bodies are not modelled;
    a notification keeps the reminders its body lists. */
module Notifications {
  import opened Text
  import opened EnhancementSettings
  import opened ReminderModel

  // -------------------------------------------------------------- recipients

  /** `[p.strip() for p in parts if p.strip()]` */
  function NonBlankStripped(parts: seq<string>): (r: seq<string>)
    ensures forall x :: x in r ==> x != "" && IsStripped(x)
  {
    if parts == [] then []
    else
      Kept(parts[0]) + NonBlankStripped(parts[1..])
  }

  /** Nothing is kept exactly when every part is blank. */
  lemma {:induction false} NonBlankStrippedEmpty(parts: seq<string>)
    ensures NonBlankStripped(parts) == [] <==> forall x :: x in parts ==> IsBlank(x)
  {
    if parts != [] {
      NonBlankStrippedEmpty(parts[1..]);
      assert forall x :: x in parts <==> x == parts[0] || x in parts[1..];
    }
  }

  /** Exactly the non-blank parts, stripped, are kept. */
  lemma {:induction false} NonBlankStrippedMembers(parts: seq<string>)
    ensures forall x :: x in NonBlankStripped(parts) <==> exists p :: p in parts && x == Strip(p) && x != ""
  {
    if parts != [] {
      NonBlankStrippedMembers(parts[1..]);
      assert forall p :: p in parts <==> p == parts[0] || p in parts[1..];
    }
  }

  /** Parts are kept in order: the filter distributes over concatenation. */
  lemma {:induction false} NonBlankStrippedAppend(a: seq<string>, b: seq<string>)
    ensures NonBlankStripped(a + b) == NonBlankStripped(a) + NonBlankStripped(b)
  {
    if a == [] {
      assert a + b == b;
    } else {
      var ab := a + b;
      assert ab[0] == a[0];
      assert ab[1..] == a[1..] + b;
      NonBlankStrippedAppend(a[1..], b);
      ConcatAssoc(Kept(a[0]), NonBlankStripped(a[1..]), NonBlankStripped(b));
    }
  }

  /** What one part contributes: its stripped form, or nothing when blank. */
  function Kept(p: string): seq<string>
  {
    if Strip(p) == "" then [] else [Strip(p)]
  }

  /** A single part gives its stripped form, or nothing when it is blank. */
  lemma NonBlankStrippedSingle(p: string)
    ensures NonBlankStripped([p]) == if Strip(p) == "" then [] else [Strip(p)]
  {
    assert [p][1..] == [];
  }

  /** Stripping adds no character: a character absent from every part is absent from the result. */
  lemma {:induction false} NonBlankStrippedAvoids(parts: seq<string>, c: char)
    requires forall x :: x in parts ==> c !in x
    ensures forall x :: x in NonBlankStripped(parts) ==> c !in x
  {
    if parts != [] {
      var p := Strip(parts[0]);
      assert c !in p by {
        forall k | 0 <= k < |p| ensures p[k] != c {
          assert p[k] in parts[0];
        }
      }
      assert forall x :: x in parts[1..] ==> x in parts;
      NonBlankStrippedAvoids(parts[1..], c);
    }
  }

  /** The recipient list of `_send_daily_digest`: the comma-separated
      entries of `digest_recipients`, stripped, blank ones dropped. */
  function ParseRecipients(raw: string): (r: seq<string>)
    ensures forall x :: x in r ==> x != "" && IsStripped(x) && ',' !in x
    ensures forall x :: x in r <==> exists p :: p in Split(raw, ',') && x == Strip(p) && x != ""
  {
    var parts := Split(raw, ',');
    assert forall x :: x in parts ==> ',' !in x;
    NonBlankStrippedAvoids(parts, ',');
    NonBlankStrippedMembers(parts);
    NonBlankStripped(parts)
  }

  lemma {:induction false} NonBlankStrippedOfClean(xs: seq<string>)
    requires forall i :: 0 <= i < |xs| ==> xs[i] != "" && IsStripped(xs[i])
    ensures NonBlankStripped(xs) == xs
  {
    if xs != [] {
      StripOfStripped(xs[0]);
      NonBlankStrippedOfClean(xs[1..]);
      assert [xs[0]] + xs[1..] == xs;
    }
  }

  /** A list of clean addresses written out comma-separated parses back to itself. */
  lemma ParseRecipientsOfJoin(xs: seq<string>)
    requires forall i :: 0 <= i < |xs| ==> xs[i] != "" && IsStripped(xs[i]) && ',' !in xs[i]
    ensures ParseRecipients(Join(xs, ',')) == xs
  {
    if xs == [] {
      assert Split("", ',') == [""];
    } else {
      SplitJoin(xs, ',');
      NonBlankStrippedOfClean(xs);
    }
  }

  /** Whatever comma-free entries are written out comma-separated (padded or
      blank ones included), the recipients are those entries stripped, blank
      ones dropped, in order. */
  lemma ParseRecipientsOfEntries(xs: seq<string>)
    requires forall i :: 0 <= i < |xs| ==> ',' !in xs[i]
    ensures ParseRecipients(Join(xs, ',')) == NonBlankStripped(xs)
  {
    if xs == [] {
      assert Split("", ',') == [""];
      assert IsBlank("");
    } else {
      SplitJoin(xs, ',');
    }
  }

  lemma StripPaddedAddress()
    ensures Strip(" b@y") == "b@y"
  {
    assert IsSpace(' ');
    PrintableNotSpace('b');
    PrintableNotSpace('y');
    assert " b@y"[1..] == "b@y";
    assert LeadingSpaces("b@y") == 0;
    assert LeadingSpaces(" b@y") == 1;
    assert TrailingSpaces(" b@y") == 0;
    assert " b@y"[1..4] == "b@y";
  }

  lemma KeepCleanAddress()
    ensures NonBlankStripped(["a@x"]) == ["a@x"]
  {
    PrintableNotSpace('a');
    PrintableNotSpace('x');
    StripOfStripped("a@x");
  }

  /** A setting written with a space after the comma. */
  lemma ParseRecipientsExample()
    ensures ParseRecipients("a@x, b@y") == ["a@x", "b@y"]
  {
    var xs := ["a@x", " b@y"];
    JoinTwoAddresses();
    ParseRecipientsOfEntries(xs);
    KeepTwoAddresses();
  }

  lemma JoinTwoAddresses()
    ensures Join(["a@x", " b@y"], ',') == "a@x, b@y"
  {
    assert Join(["a@x", " b@y"][1..], ',') == " b@y";
  }

  lemma KeepTwoAddresses()
    ensures NonBlankStripped(["a@x", " b@y"]) == ["a@x", "b@y"]
  {
    NonBlankStrippedAppend(["a@x"], [" b@y"]);
    assert ["a@x", " b@y"] == ["a@x"] + [" b@y"];
    KeepCleanAddress();
    StripPaddedAddress();
    NonBlankStrippedSingle(" b@y");
  }

  /** No recipient at all exactly when the setting holds nothing but commas and whitespace. */
  lemma ParseRecipientsEmpty(raw: string)
    ensures ParseRecipients(raw) == [] <==> forall k :: 0 <= k < |raw| ==> raw[k] == ',' || IsSpace(raw[k])
  {
    var parts := Split(raw, ',');
    NonBlankStrippedEmpty(parts);
    if ParseRecipients(raw) == [] {
      JoinSplit(raw, ',');
      forall k | 0 <= k < |raw| ensures raw[k] == ',' || IsSpace(raw[k]) {
        JoinChars(parts, ',', k);
        if raw[k] != ',' {
          var i, j :| 0 <= i < |parts| && 0 <= j < |parts[i]| && parts[i][j] == raw[k];
          assert parts[i] in parts;
        }
      }
    } else {
      var x :| x in parts && !IsBlank(x);
      var i :| 0 <= i < |parts| && parts[i] == x;
      var j :| 0 <= j < |parts[i]| && !IsSpace(parts[i][j]);
      SplitChars(raw, ',', i, j);
      var k :| 0 <= k < |raw| && raw[k] == parts[i][j];
      assert parts[i][j] != ',';
      assert !(raw[k] == ',' || IsSpace(raw[k]));
    }
  }

  // ------------------------------------------------------------------ digest

  datatype Digest = Digest(recipients: seq<string>, subject: string, openCount: nat, criticalCount: nat)

  function OpenNames(rows: map<nat, Reminder>): set<nat>
  {
    set n | n in rows && rows[n].status == Open
  }

  function CriticalOpenNames(rows: map<nat, Reminder>): set<nat>
  {
    set n | n in rows && rows[n].status == Open && rows[n].priority == Critical
  }

  /** `_send_daily_digest`: the mail it sends, if any. */
  function DailyDigest(s: Settings, rows: map<nat, Reminder>): (d: Option<Digest>)
    ensures d.Some? <==> ParseRecipients(DigestRecipients(s)) != [] && OpenNames(rows) != {}
    ensures d.Some? ==> d.value.recipients == ParseRecipients(DigestRecipients(s))
    ensures d.Some? ==> d.value.openCount == |OpenNames(rows)|
    ensures d.Some? ==> d.value.criticalCount == |CriticalOpenNames(rows)|
  {
    var recipients := ParseRecipients(DigestRecipients(s));
    var openCount := |OpenNames(rows)|;
    var criticalCount := |CriticalOpenNames(rows)|;
    if recipients == [] || openCount == 0 then None
    else
      Some(Digest(recipients,
                  "Daily Delivery Reminder Digest: " + IntToString(openCount) + " Open, "
                  + IntToString(criticalCount) + " Critical",
                  openCount, criticalCount))
  }

  /** The digest counts at least one open reminder, and no more critical ones than open ones. */
  lemma DigestCounts(s: Settings, rows: map<nat, Reminder>)
    requires DailyDigest(s, rows).Some?
    ensures 0 < DailyDigest(s, rows).value.openCount
    ensures DailyDigest(s, rows).value.criticalCount <= DailyDigest(s, rows).value.openCount
  {
    assert CriticalOpenNames(rows) <= OpenNames(rows);
    SubsetCard(CriticalOpenNames(rows), OpenNames(rows));
  }

  lemma {:induction false} SubsetCard(a: set<nat>, b: set<nat>)
    requires a <= b
    ensures |a| <= |b|
    decreases |b|
  {
    if a != {} {
      var x :| x in a;
      SubsetCard(a - {x}, b - {x});
    }
  }

  // --------------------------------------------------- consolidated notices

  /** One "Notification Log" entry: the owner it is for, the reminder it links
      to, and the reminders its body lists. */
  datatype Notification = Notification(subject: string, forUser: string, documentName: nat, reminders: seq<Named>)

  function OwnerOf(ownerOf: string -> string, x: Named): string
  {
    ownerOf(x.reminder.purchaseOrder)
  }

  /** The owners of `rs` in order of first appearance: the key order of
      `reminders_by_owner`. */
  function Owners(rs: seq<Named>, ownerOf: string -> string): (os: seq<string>)
    ensures forall i, j :: 0 <= i < j < |os| ==> os[i] != os[j]
    ensures forall o :: o in os <==> exists k :: 0 <= k < |rs| && OwnerOf(ownerOf, rs[k]) == o
    decreases |rs|
  {
    if rs == [] then []
    else
      var prefix := rs[..|rs| - 1];
      var prev := Owners(prefix, ownerOf);
      var o := OwnerOf(ownerOf, rs[|rs| - 1]);
      assert forall k :: 0 <= k < |prefix| ==> prefix[k] == rs[k];
      if o in prev then prev else prev + [o]
  }

  /** The reminders of `rs` owned by `o`, in their order in `rs`. */
  function GroupOf(rs: seq<Named>, ownerOf: string -> string, o: string): (g: seq<Named>)
    ensures forall x :: x in g <==> x in rs && OwnerOf(ownerOf, x) == o
    decreases |rs|
  {
    if rs == [] then []
    else
      var prefix := rs[..|rs| - 1];
      assert rs == prefix + [rs[|rs| - 1]];
      var last := rs[|rs| - 1];
      GroupOf(prefix, ownerOf, o) + (if OwnerOf(ownerOf, last) == o then [last] else [])
  }

  function FirstName(g: seq<Named>): nat
  {
    if g == [] then 0 else g[0].name
  }

  /** `_send_consolidated_notifications`: one entry per owner, in first-appearance order. */
  function Consolidated(rs: seq<Named>, ownerOf: string -> string, subject: string): (ns: seq<Notification>)
    ensures forall i, j :: 0 <= i < j < |ns| ==> ns[i].forUser != ns[j].forUser
    ensures forall i :: 0 <= i < |ns| ==> ns[i].subject == subject
    ensures forall i, x :: 0 <= i < |ns| ==> (x in ns[i].reminders <==> x in rs && OwnerOf(ownerOf, x) == ns[i].forUser)
  {
    var os := Owners(rs, ownerOf);
    seq(|os|, i requires 0 <= i < |os| =>
      Notification(subject, os[i], FirstName(GroupOf(rs, ownerOf, os[i])), GroupOf(rs, ownerOf, os[i])))
  }

  lemma GroupOfOwnerNonEmpty(rs: seq<Named>, ownerOf: string -> string, o: string)
    requires o in Owners(rs, ownerOf)
    ensures GroupOf(rs, ownerOf, o) != []
  {
    var k :| 0 <= k < |rs| && OwnerOf(ownerOf, rs[k]) == o;
    assert rs[k] in GroupOf(rs, ownerOf, o);
  }

  /** Owners and groups of a queue grown by one reminder. */
  lemma OwnersGroupsSnoc(rs: seq<Named>, ownerOf: string -> string, i: nat)
    requires i < |rs|
    ensures var o := OwnerOf(ownerOf, rs[i]);
      Owners(rs[..i + 1], ownerOf)
        == if o in Owners(rs[..i], ownerOf) then Owners(rs[..i], ownerOf) else Owners(rs[..i], ownerOf) + [o]
    ensures forall p :: (GroupOf(rs[..i + 1], ownerOf, p)
      == GroupOf(rs[..i], ownerOf, p) + (if OwnerOf(ownerOf, rs[i]) == p then [rs[i]] else []))
  {
    assert rs[..i + 1][..i] == rs[..i];
  }

  /** An owner that does not occur in a queue has an empty group there. */
  lemma {:induction false} GroupOfAbsent(rs: seq<Named>, ownerOf: string -> string, o: string)
    requires forall k :: 0 <= k < |rs| ==> OwnerOf(ownerOf, rs[k]) != o
    ensures GroupOf(rs, ownerOf, o) == []
    decreases |rs|
  {
    if rs != [] {
      var prefix := rs[..|rs| - 1];
      assert forall k :: 0 <= k < |prefix| ==> prefix[k] == rs[k];
      GroupOfAbsent(prefix, ownerOf, o);
    }
  }

  /** The head of an owner's group is the first reminder of that owner. */
  lemma {:induction false} GroupOfHead(rs: seq<Named>, ownerOf: string -> string, k: nat)
    requires k < |rs|
    requires forall j :: 0 <= j < k ==> OwnerOf(ownerOf, rs[j]) != OwnerOf(ownerOf, rs[k])
    ensures GroupOf(rs, ownerOf, OwnerOf(ownerOf, rs[k])) != []
    ensures GroupOf(rs, ownerOf, OwnerOf(ownerOf, rs[k]))[0] == rs[k]
    decreases |rs|
  {
    var o := OwnerOf(ownerOf, rs[k]);
    var prefix := rs[..|rs| - 1];
    if k == |rs| - 1 {
      assert forall j :: 0 <= j < |prefix| ==> prefix[j] == rs[j];
      GroupOfAbsent(prefix, ownerOf, o);
    } else {
      assert forall j :: 0 <= j < k ==> prefix[j] == rs[j];
      GroupOfHead(prefix, ownerOf, k);
    }
  }

  /** Each queued reminder is listed in exactly one notification, the one for
      its order's owner. */
  lemma ConsolidatedListsEachOnce(rs: seq<Named>, ownerOf: string -> string, subject: string, k: nat)
    requires k < |rs|
    ensures var ns := Consolidated(rs, ownerOf, subject);
      exists i :: 0 <= i < |ns| && ns[i].forUser == OwnerOf(ownerOf, rs[k]) && rs[k] in ns[i].reminders
    ensures var ns := Consolidated(rs, ownerOf, subject);
      forall i :: 0 <= i < |ns| && rs[k] in ns[i].reminders ==> ns[i].forUser == OwnerOf(ownerOf, rs[k])
  {
    var ns := Consolidated(rs, ownerOf, subject);
    var os := Owners(rs, ownerOf);
    var o := OwnerOf(ownerOf, rs[k]);
    assert o in os;
    var i :| 0 <= i < |os| && os[i] == o;
    assert ns[i].forUser == o && rs[k] in ns[i].reminders;
  }

  lemma {:induction false} FirstOwned(rs: seq<Named>, ownerOf: string -> string, o: string, k: nat)
    requires k < |rs| && OwnerOf(ownerOf, rs[k]) == o
    ensures exists m :: 0 <= m <= k && OwnerOf(ownerOf, rs[m]) == o && forall j :: 0 <= j < m ==> OwnerOf(ownerOf, rs[j]) != o
    decreases k
  {
    if exists j :: 0 <= j < k && OwnerOf(ownerOf, rs[j]) == o {
      var j :| 0 <= j < k && OwnerOf(ownerOf, rs[j]) == o;
      FirstOwned(rs, ownerOf, o, j);
    }
  }

  /** Each notification links to the first queued reminder of its owner. */
  lemma ConsolidatedLinksFirst(rs: seq<Named>, ownerOf: string -> string, subject: string, i: nat)
    requires i < |Consolidated(rs, ownerOf, subject)|
    ensures var n := Consolidated(rs, ownerOf, subject)[i];
      exists k :: 0 <= k < |rs| && OwnerOf(ownerOf, rs[k]) == n.forUser && n.documentName == rs[k].name
                  && (forall j :: 0 <= j < k ==> OwnerOf(ownerOf, rs[j]) != n.forUser)
  {
    var n := Consolidated(rs, ownerOf, subject)[i];
    var o := Owners(rs, ownerOf)[i];
    assert n.forUser == o;
    assert o in Owners(rs, ownerOf);
    var k0 :| 0 <= k0 < |rs| && OwnerOf(ownerOf, rs[k0]) == o;
    FirstOwned(rs, ownerOf, o, k0);
    var k :| 0 <= k <= k0 && OwnerOf(ownerOf, rs[k]) == o && forall j :: 0 <= j < k ==> OwnerOf(ownerOf, rs[j]) != o;
    GroupOfHead(rs, ownerOf, k);
  }

  /** The first loop of `_send_consolidated_notifications`: fills
      `reminders_by_owner`, whose key order is `order`. */
  method GroupByOwner(rs: seq<Named>, ownerOf: string -> string)
    returns (byOwner: map<string, seq<Named>>, order: seq<string>)
    ensures order == Owners(rs, ownerOf)
    ensures forall o :: o in byOwner <==> o in order
    ensures forall o :: o in byOwner ==> byOwner[o] == GroupOf(rs, ownerOf, o)
  {
    byOwner := map[];
    order := [];
    var i := 0;
    while i < |rs|
      invariant 0 <= i <= |rs|
      invariant order == Owners(rs[..i], ownerOf)
      invariant forall o :: o in byOwner <==> o in order
      invariant forall o :: o in byOwner ==> byOwner[o] == GroupOf(rs[..i], ownerOf, o)
    {
      var owner := ownerOf(rs[i].reminder.purchaseOrder);
      OwnersGroupsSnoc(rs, ownerOf, i);
      if owner !in byOwner {
        GroupOfAbsent(rs[..i], ownerOf, owner);
        byOwner := byOwner[owner := []];
        order := order + [owner];
      }
      byOwner := byOwner[owner := byOwner[owner] + [rs[i]]];
      i := i + 1;
    }
    assert rs[..i] == rs;
  }

  /** `_send_consolidated_notifications`: groups the queued reminders by the
      owner of their purchase order, then emits one entry per owner. */
  method SendConsolidatedNotifications(rs: seq<Named>, ownerOf: string -> string, subject: string)
    returns (ns: seq<Notification>)
    ensures ns == Consolidated(rs, ownerOf, subject)
  {
    var byOwner, order := GroupByOwner(rs, ownerOf);
    ns := [];
    var j := 0;
    while j < |order|
      invariant 0 <= j <= |order|
      invariant ns == Consolidated(rs, ownerOf, subject)[..j]
    {
      var list := byOwner[order[j]];
      GroupOfOwnerNonEmpty(rs, ownerOf, order[j]);
      ns := ns + [Notification(subject, order[j], list[0].name, list)];
      j := j + 1;
    }
  }
}
