/** The propagation carrier over a Kafka header list (`kafkaHeaderCarrier`):
    an append-only list of key/value headers read by key. The Go type holds a
    pointer to the list and mutates it; here each write returns the new list. */
module Carrier {
  import opened Base
  import opened Kafka

  /** Position `i` holds the first header whose key is `k`. */
  ghost predicate IsFirstMatch(h: Headers, k: string, i: int) {
    && 0 <= i < |h|
    && h[i].key == k
    && forall j :: 0 <= j < i ==> h[j].key != k
  }

  /** Every header's key, in list order, duplicates included. */
  function Keys(h: Headers): (r: seq<string>)
    ensures |r| == |h|
    ensures forall i :: 0 <= i < |h| ==> r[i] == h[i].key
  {
    if |h| == 0 then [] else [h[0].key] + Keys(h[1..])
  }

  /** The value of the first header with key `k`; later headers with the same
      key are shadowed, and a missing key reads as the empty string. */
  function Get(h: Headers, k: string): (r: Bytes)
    ensures k !in Keys(h) ==> r == ""
    ensures forall i :: IsFirstMatch(h, k, i) ==> r == h[i].value
  {
    if |h| == 0 then ""
    else if h[0].key == k then h[0].value
    else
      assert forall i :: IsFirstMatch(h, k, i) ==> IsFirstMatch(h[1..], k, i - 1);
      Get(h[1..], k)
  }

  /** Appends a header; nothing already in the list changes. */
  function Set(h: Headers, k: string, v: Bytes): (r: Headers)
    ensures |r| == |h| + 1
    ensures r[..|h|] == h
    ensures r[|h|] == Header(k, v)
  {
    h + [Header(k, v)]
  }

  /** What a text-map propagator's `Inject` does to the carrier: one `Set` per
      field of the active context, in the propagator's field order. */
  function Inject(h: Headers, fields: seq<(string, Bytes)>): (r: Headers)
    ensures |r| == |h| + |fields|
    ensures r[..|h|] == h
    ensures forall i :: 0 <= i < |fields| ==> r[|h| + i] == Header(fields[i].0, fields[i].1)
    decreases |fields|
  {
    if |fields| == 0 then h
    else Inject(Set(h, fields[0].0, fields[0].1), fields[1..])
  }

  /** A key present in the list has a first occurrence, and `Get` reads it. */
  lemma {:induction false} GetReadsFirstMatch(h: Headers, k: string)
    requires k in Keys(h)
    ensures exists i :: IsFirstMatch(h, k, i) && Get(h, k) == h[i].value
  {
    if h[0].key == k {
      assert IsFirstMatch(h, k, 0);
    } else {
      assert Keys(h) == [h[0].key] + Keys(h[1..]);
      GetReadsFirstMatch(h[1..], k);
      var i :| IsFirstMatch(h[1..], k, i) && Get(h[1..], k) == h[1..][i].value;
      assert IsFirstMatch(h, k, i + 1);
    }
  }

  /** `Get` after `Set`: a key already present keeps its first value, an absent
      key reads the value just set if it is the key set, and the empty string
      otherwise. */
  lemma {:induction false} GetAfterSet(h: Headers, k: string, k': string, v: Bytes)
    ensures Get(Set(h, k', v), k) ==
      if k in Keys(h) then Get(h, k) else if k == k' then v else ""
  {
    var h' := Set(h, k', v);
    if |h| == 0 {
      assert h' == [Header(k', v)];
      assert h'[1..] == [];
    } else {
      assert h'[0] == h[0];
      assert h'[1..] == Set(h[1..], k', v);
      assert Keys(h) == [h[0].key] + Keys(h[1..]);
      if h[0].key != k {
        GetAfterSet(h[1..], k, k', v);
      }
    }
  }

  /** After `Set(k, v)` on a list without key `k`, `Get(k)` is `v`. */
  lemma GetAfterSetAbsent(h: Headers, k: string, v: Bytes)
    requires k !in Keys(h)
    ensures Get(Set(h, k, v), k) == v
  {
    GetAfterSet(h, k, k, v);
  }

  /** `Keys` after `Set` is the old key list with the new key appended. */
  lemma KeysAfterSet(h: Headers, k: string, v: Bytes)
    ensures Keys(Set(h, k, v)) == Keys(h) + [k]
  {
  }

  /** Injecting into an empty carrier yields exactly the propagator's fields,
      in order, so reading a field back returns its first value. */
  lemma {:induction false} InjectedFieldsReadBack(fields: seq<(string, Bytes)>, i: nat)
    requires i < |fields|
    requires forall j :: 0 <= j < i ==> fields[j].0 != fields[i].0
    ensures Get(Inject([], fields), fields[i].0) == fields[i].1
  {
    var empty: Headers := [];
    var h := Inject(empty, fields);
    forall j | 0 <= j < i
      ensures h[j].key != fields[i].0
    {
      assert h[|empty| + j] == Header(fields[j].0, fields[j].1);
    }
    assert h[|empty| + i] == Header(fields[i].0, fields[i].1);
    assert IsFirstMatch(h, fields[i].0, i);
  }
}
