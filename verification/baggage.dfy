/** The `customer_id` baggage member and the override rule every
    consumption point applies to it. */
module Baggage {
  import opened Base

  /** A context's baggage: member key to (percent-decoded) value. */
  type Bag = map<string, string>

  const CustomerIDKey: string := "customer_id"

  /** `bag.Member(key).Value()`: the member's value, or the empty string
      when the baggage has no such member. */
  function MemberValue(b: Bag, key: string): (v: string)
    ensures key in b ==> v == b[key]
    ensures key !in b ==> v == ""
  {
    if key in b then b[key] else ""
  }

  /** The customer a consumption point acts on: a non-empty `customer_id`
      member wins over the identifier carried in the payload; an absent or
      empty member leaves the payload's identifier in force. */
  function EffectiveCustomer(b: Bag, payload: string): (c: string)
    ensures CustomerIDKey in b && b[CustomerIDKey] != "" ==> c == b[CustomerIDKey]
    ensures CustomerIDKey !in b || b[CustomerIDKey] == "" ==> c == payload
  {
    var cid := MemberValue(b, CustomerIDKey);
    if cid != "" then cid else payload
  }

  /** The override changes nothing when the baggage is silent or agrees with
      the payload. */
  lemma OverrideAgrees(b: Bag, payload: string)
    requires MemberValue(b, CustomerIDKey) in {"", payload}
    ensures EffectiveCustomer(b, payload) == payload
  {
  }

  /** The baggage the order controller puts into the use case's context:
      `baggage.New` over the member built by `baggage.NewMember("customer_id",
      id)`. `member` is the combined outcome of both calls: `None` when
      `NewMember` rejects the value or `New` rejects the member (for example
      on the library's size limits). Both errors are discarded by the caller,
      and a rejection leaves the context with empty baggage. */
  function Seed(member: Option<string>): (b: Bag)
    ensures member.Some? ==> b.Keys == {CustomerIDKey} && b[CustomerIDKey] == member.value
    ensures member.None? ==> b == map[]
  {
    match member
    case Some(v) => map[CustomerIDKey := v]
    case None => map[]
  }
}
