/**
 * Lookup of the "purchase" entry in the tagged action lists of an insights
 * record (`actions` holds counts, `action_values` monetary amounts).
 */
module Actions {
  import opened Wrappers

  /** One `{action_type, value}` element of an action list. */
  datatype ActionEntry<V> = ActionEntry(actionType: string, value: V)

  const PurchaseType: string := "purchase"

  /** Entry i is the first one whose type is exactly `tag`. */
  predicate IsFirstOfType<V>(entries: seq<ActionEntry<V>>, tag: string, i: nat) {
    && i < |entries|
    && entries[i].actionType == tag
    && forall j :: 0 <= j < i ==> entries[j].actionType != tag
  }

  /** Array.prototype.find on the type tag, from position `from` on, as an index. */
  function FindType<V>(entries: seq<ActionEntry<V>>, tag: string, from: nat): (r: Option<nat>)
    requires forall j :: 0 <= j < from && j < |entries| ==> entries[j].actionType != tag
    ensures r.Some? ==> IsFirstOfType(entries, tag, r.value)
    ensures r.None? ==> forall j :: 0 <= j < |entries| ==> entries[j].actionType != tag
    decreases |entries| - from
  {
    if |entries| <= from then None
    else if entries[from].actionType == tag then Some(from)
    else FindType(entries, tag, from + 1)
  }

  /**
   * The value of the first purchase entry of an optional action list, or
   * `zero` when the list is absent or holds no purchase entry.
   */
  function PurchaseOr<V>(entries: Option<seq<ActionEntry<V>>>, zero: V): (v: V)
    ensures entries.None? ==> v == zero
    ensures entries.Some? && (forall j :: 0 <= j < |entries.value| ==> entries.value[j].actionType != PurchaseType) ==>
              v == zero
    ensures forall i: nat :: entries.Some? && IsFirstOfType(entries.value, PurchaseType, i) ==>
              v == entries.value[i].value
  {
    match entries
    case None => zero
    case Some(es) =>
      match FindType(es, PurchaseType, 0)
      case None => zero
      case Some(i) => es[i].value
  }

  /** The number of purchases (`actions`), 0 by default. */
  function Purchases(actions: Option<seq<ActionEntry<int>>>): (n: int)
    ensures actions.None? ==> n == 0
    ensures actions.Some? && (forall j :: 0 <= j < |actions.value| ==> actions.value[j].actionType != PurchaseType) ==>
              n == 0
    ensures forall i: nat :: actions.Some? && IsFirstOfType(actions.value, PurchaseType, i) ==>
              n == actions.value[i].value
  {
    PurchaseOr(actions, 0)
  }

  /** The monetary value of purchases (`action_values`), 0 by default. */
  function PurchaseValue(actionValues: Option<seq<ActionEntry<real>>>): (v: real)
    ensures actionValues.None? ==> v == 0.0
    ensures actionValues.Some? && (forall j :: 0 <= j < |actionValues.value| ==> actionValues.value[j].actionType != PurchaseType) ==>
              v == 0.0
    ensures forall i: nat :: actionValues.Some? && IsFirstOfType(actionValues.value, PurchaseType, i) ==>
              v == actionValues.value[i].value
  {
    PurchaseOr(actionValues, 0.0)
  }

  /** Only the first purchase entry counts; later ones and other types are ignored. */
  lemma FirstPurchaseExample()
    ensures Purchases(Some([ActionEntry("link_click", 9), ActionEntry("purchase", 3), ActionEntry("purchase", 7)])) == 3
  {
    var es := [ActionEntry("link_click", 9), ActionEntry("purchase", 3), ActionEntry("purchase", 7)];
    assert IsFirstOfType(es, PurchaseType, 1);
  }
}
