/** The status helpers of the mobile front end (precursor-frontend/config/api.js):
    display names, display colours and the dashboard counters, over the status
    strings the backend stores. */
module StatusDisplay {
  import opened Wrappers
  import Ledger

  /** `statusMap` of `formatStatus`: stored status to display status. */
  const STATUS_MAP: map<string, string> := map[
    "Pending" := "CREATED",
    "In Transit" := "IN_TRANSIT",
    "OFF_ROUTE" := "OFF_ROUTE",
    "Delivered" := "DELIVERED"
  ]

  /** `colors` of `getStatusColor`: display status to colour. */
  const STATUS_COLORS: map<string, string> := map[
    "CREATED" := "#6B7280",
    "IN_TRANSIT" := "#3B82F6",
    "OFF_ROUTE" := "#EF4444",
    "DELIVERED" := "#10B981"
  ]

  /** The colour for every status without an entry of its own. */
  const DEFAULT_COLOR: string := "#6B7280"

  /** The display statuses `formatStatus` can map to. */
  predicate IsDisplayStatus(s: string) {
    s in STATUS_COLORS
  }

  // ---------------------------------------------------------------------------
  // The lookups as intended (see the as-written versions below)
  // ---------------------------------------------------------------------------

  /** `formatStatus`: the four stored statuses get their display names; every other
      string is returned unchanged. */
  function FormatStatus(status: string): (r: string)
    ensures status == "Pending" ==> r == "CREATED"
    ensures status == "In Transit" ==> r == "IN_TRANSIT"
    ensures status == "OFF_ROUTE" ==> r == "OFF_ROUTE"
    ensures status == "Delivered" ==> r == "DELIVERED"
    ensures status !in STATUS_MAP ==> r == status
  {
    if status in STATUS_MAP then STATUS_MAP[status] else status
  }

  /** `getStatusColor`: the table colour of a display status, grey for any other string. */
  function GetStatusColor(status: string): (r: string)
    ensures status == "CREATED" ==> r == "#6B7280"
    ensures status == "IN_TRANSIT" ==> r == "#3B82F6"
    ensures status == "OFF_ROUTE" ==> r == "#EF4444"
    ensures status == "DELIVERED" ==> r == "#10B981"
    ensures !IsDisplayStatus(status) ==> r == DEFAULT_COLOR
  {
    if status in STATUS_COLORS then STATUS_COLORS[status] else DEFAULT_COLOR
  }

  /** Formatting twice is formatting once: every display name formats to itself. */
  lemma FormatStatusIdempotent(status: string)
    ensures FormatStatus(FormatStatus(status)) == FormatStatus(status)
  {
    if status in STATUS_MAP {
      assert FormatStatus(status) in STATUS_COLORS;
      assert FormatStatus(status) != "Pending" && FormatStatus(status) != "In Transit";
    }
  }

  /** Only the stored statuses and the display names themselves format to a display
      name; a raw stored status such as 'Pending' or 'In Transit' is not one, so
      colouring it without formatting first gives the default grey. */
  lemma FormatStatusRange(status: string)
    ensures IsDisplayStatus(FormatStatus(status)) <==> status in STATUS_MAP || IsDisplayStatus(status)
    ensures GetStatusColor("Pending") == DEFAULT_COLOR && GetStatusColor("In Transit") == DEFAULT_COLOR
  {
  }

  /** Every status text the backend stores formats to a display status with a colour
      of its own, and the counters classify it by its status. */
  lemma StoredStatusDisplay(s: Ledger.Status)
    ensures IsDisplayStatus(FormatStatus(Ledger.StatusText(s)))
    ensures IsActiveStatus(Ledger.StatusText(s)) <==> s == Ledger.Pending || s == Ledger.InTransit
    ensures IsOffRouteStatus(Ledger.StatusText(s)) <==> s == Ledger.OffRoute
  {
  }

  // ---------------------------------------------------------------------------
  // Dashboard counters (calculateStats)
  // ---------------------------------------------------------------------------

  datatype Stats = Stats(active: nat, total: nat, offRoute: nat)

  predicate IsActiveStatus(status: string) {
    status == "In Transit" || status == "Pending"
  }

  predicate IsOffRouteStatus(status: string) {
    status == "OFF_ROUTE"
  }

  /** `array.filter(p).length` over the status field of each shipment. */
  function CountWhere(statuses: seq<string>, p: string -> bool): (n: nat)
    ensures n <= |statuses|
  {
    if statuses == [] then 0
    else (if p(statuses[0]) then 1 else 0) + CountWhere(statuses[1..], p)
  }

  /** `calculateStats`, given the status of each shipment in the list. */
  function CalculateStats(statuses: seq<string>): (r: Stats)
    ensures r.total == |statuses|
    ensures r.active == CountWhere(statuses, IsActiveStatus)
    ensures r.offRoute == CountWhere(statuses, IsOffRouteStatus)
    ensures r.active + r.offRoute <= r.total
  {
    CountDisjoint(statuses, IsActiveStatus, IsOffRouteStatus);
    Stats(CountWhere(statuses, IsActiveStatus), |statuses|, CountWhere(statuses, IsOffRouteStatus))
  }

  /** Two filters that never both hold count at most the whole list between them. */
  lemma {:induction false} CountDisjoint(statuses: seq<string>, p: string -> bool, q: string -> bool)
    requires forall s :: !(p(s) && q(s))
    ensures CountWhere(statuses, p) + CountWhere(statuses, q) <= |statuses|
  {
    if statuses != [] {
      CountDisjoint(statuses[1..], p, q);
    }
  }

  /** Removing the element at `i` removes its contribution to the count. */
  lemma {:induction false} CountWhereRemove(statuses: seq<string>, p: string -> bool, i: nat)
    requires i < |statuses|
    ensures CountWhere(statuses, p)
      == CountWhere(statuses[..i] + statuses[i + 1..], p) + (if p(statuses[i]) then 1 else 0)
  {
    if i > 0 {
      CountWhereRemove(statuses[1..], p, i - 1);
      assert statuses[1..][..i - 1] + statuses[1..][i..] == (statuses[..i] + statuses[i + 1..])[1..];
    } else {
      assert statuses[..0] + statuses[1..] == statuses[1..];
    }
  }

  /** Removing the element at `i` removes one occurrence of it from the multiset. */
  lemma MultisetWithout(b: seq<string>, i: nat)
    requires i < |b|
    ensures multiset(b[..i] + b[i + 1..]) == multiset(b) - multiset{b[i]}
  {
    assert b == b[..i] + [b[i]] + b[i + 1..];
    assert multiset(b) == multiset(b[..i]) + multiset{b[i]} + multiset(b[i + 1..]);
  }

  /** A count depends only on the multiset of statuses. */
  lemma {:induction false} CountWhereMultiset(a: seq<string>, b: seq<string>, p: string -> bool)
    requires multiset(a) == multiset(b)
    ensures CountWhere(a, p) == CountWhere(b, p)
    decreases |a|
  {
    if a != [] {
      assert a[0] in multiset(b);
      var i :| 0 <= i < |b| && b[i] == a[0];
      var b' := b[..i] + b[i + 1..];
      MultisetWithout(b, i);
      MultisetWithout(a, 0);
      assert a[..0] + a[1..] == a[1..];
      CountWhereMultiset(a[1..], b', p);
      CountWhereRemove(b, p, i);
    } else {
      assert b == [];
    }
  }

  /** The counters do not depend on the order of the shipment list. */
  lemma CalculateStatsPermutation(a: seq<string>, b: seq<string>)
    requires multiset(a) == multiset(b)
    ensures CalculateStats(a) == CalculateStats(b)
  {
    CountWhereMultiset(a, b, IsActiveStatus);
    CountWhereMultiset(a, b, IsOffRouteStatus);
    assert |a| == |multiset(a)| == |b|;
  }

  // ---------------------------------------------------------------------------
  // The lookups as written: `statusMap[status] || status`, `colors[status] || ...`
  // ---------------------------------------------------------------------------

  /** The property names every JavaScript object literal inherits from `Object.prototype`. */
  const PROTOTYPE_KEYS: set<string> := {
    "constructor", "hasOwnProperty", "isPrototypeOf", "propertyIsEnumerable",
    "toLocaleString", "toString", "valueOf", "__proto__",
    "__defineGetter__", "__defineSetter__", "__lookupGetter__", "__lookupSetter__"
  }

  /** A JavaScript value returned by a lookup: a string, or the inherited
      `Object.prototype` member of that name (a function, or the prototype itself). */
  datatype JsValue = Str(s: string) | Inherited(name: string)

  /** Indexing an object literal: its own entry, else an inherited member, else
      `undefined` (`None`). Every inherited member is truthy. */
  function ObjectLookup(table: map<string, string>, key: string): (r: Option<JsValue>)
    ensures key in table ==> r == Some(Str(table[key]))
    ensures key !in table && key in PROTOTYPE_KEYS ==> r == Some(Inherited(key))
    ensures key !in table && key !in PROTOTYPE_KEYS ==> r.None?
  {
    if key in table then Some(Str(table[key]))
    else if key in PROTOTYPE_KEYS then Some(Inherited(key))
    else None
  }

  /** `formatStatus` as written: a display name for a status with an entry of its own,
      the inherited member for an `Object.prototype` name, otherwise the status itself. */
  function FormatStatusAsWritten(status: string): (r: JsValue)
    ensures status in STATUS_MAP ==> r == Str(STATUS_MAP[status])
    ensures status !in STATUS_MAP && status in PROTOTYPE_KEYS ==> r == Inherited(status)
    ensures status !in STATUS_MAP && status !in PROTOTYPE_KEYS ==> r == Str(status)
  {
    match ObjectLookup(STATUS_MAP, status)
    case Some(v) => if v == Str("") then Str(status) else v
    case None => Str(status)
  }

  /** `getStatusColor` as written: the colour of a status with an entry of its own, the
      inherited member for an `Object.prototype` name, otherwise the default grey. */
  function GetStatusColorAsWritten(status: string): (r: JsValue)
    ensures status in STATUS_COLORS ==> r == Str(STATUS_COLORS[status])
    ensures status !in STATUS_COLORS && status in PROTOTYPE_KEYS ==> r == Inherited(status)
    ensures status !in STATUS_COLORS && status !in PROTOTYPE_KEYS ==> r == Str(DEFAULT_COLOR)
  {
    match ObjectLookup(STATUS_COLORS, status)
    case Some(v) => if v == Str("") then Str(DEFAULT_COLOR) else v
    case None => Str(DEFAULT_COLOR)
  }

  /** The as-written lookups agree with the intended ones on every string that is not
      an `Object.prototype` member name, which covers every status the backend stores. */
  lemma AsWrittenAgrees(status: string)
    requires status !in PROTOTYPE_KEYS
    ensures FormatStatusAsWritten(status) == Str(FormatStatus(status))
    ensures GetStatusColorAsWritten(status) == Str(GetStatusColor(status))
  {
  }

  /** 'constructor' is not passed through by `formatStatus` and does not get the
      default colour from `getStatusColor`: both return the inherited `Object`
      constructor instead. */
  lemma PrototypeKeyEscapes()
    ensures FormatStatusAsWritten("constructor") != Str("constructor")
    ensures FormatStatus("constructor") == "constructor"
    ensures GetStatusColorAsWritten("constructor") != Str(DEFAULT_COLOR)
    ensures GetStatusColor("constructor") == DEFAULT_COLOR
  {
    assert "constructor" !in STATUS_MAP;
    assert "constructor" !in STATUS_COLORS;
  }
}
