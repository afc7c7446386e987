// The bytes that clients keep in their chunks.
module Payloads {
  import opened Sizes

  // The bytes a client may use in a chunk of size s at p.
  function Payload(data: seq<bv8>, p: nat, s: nat): seq<bv8> {
    if CHUNK_OVERHEAD <= s && p + s <= |data| then data[p + CHUNK_OVERHEAD..p + s] else []
  }

  function Min(a: nat, b: nat): nat {
    if a < b then a else b
  }

  // No chunk in live sees its bytes change.
  ghost predicate Untouched(live: map<nat, nat>, data: seq<bv8>, data': seq<bv8>) {
    forall q :: q in live ==> Payload(data', q, live[q]) == Payload(data, q, live[q])
  }

  // data' differs from data only between a and z.
  ghost predicate OnlyWithin(data: seq<bv8>, data': seq<bv8>, a: nat, z: nat) {
    |data'| == |data| && forall i :: 0 <= i < |data| && !(a <= i < z) ==> data'[i] == data[i]
  }

  lemma OutsideSame(data: seq<bv8>, data': seq<bv8>, a: nat, z: nat, b: nat, y: nat)
    requires OnlyWithin(data, data', a, z) && b <= y <= |data| && (y <= a || z <= b)
    ensures data'[b..y] == data[b..y]
  {
    assert forall i :: b <= i < y ==> data'[i] == data[i];
  }

  lemma NoneTouched(live: map<nat, nat>, data: seq<bv8>)
    ensures Untouched(live, data, data)
  {
  }

  lemma UntouchedLess(live: map<nat, nat>, less: map<nat, nat>, data: seq<bv8>, data': seq<bv8>)
    requires Untouched(live, data, data') && forall p :: p in less ==> p in live && live[p] == less[p]
    ensures Untouched(less, data, data')
  {
    hide Payload;
  }

  lemma UntouchedTwice(live: map<nat, nat>, a: seq<bv8>, b: seq<bv8>, c: seq<bv8>)
    requires Untouched(live, a, b) && Untouched(live, b, c)
    ensures Untouched(live, a, c)
  {
    hide Payload;
  }

  // Bytes between a and z that nobody may rely on any more.
  function Scrambled(data: seq<bv8>, a: nat, z: nat, noise: seq<bv8>): seq<bv8> {
    seq(|data|, i requires 0 <= i < |data| => if a <= i < z && i < |noise| then noise[i] else data[i])
  }

  lemma ScrambledWithin(data: seq<bv8>, a: nat, z: nat, noise: seq<bv8>)
    ensures OnlyWithin(data, Scrambled(data, a, z, noise), a, z)
  {
  }

  // What changes within the chunk p does not show in chunks apart from it.
  lemma WithinOne(live: map<nat, nat>, p: nat, s: nat, data: seq<bv8>, data': seq<bv8>)
    requires OnlyWithin(data, data', p + 16, p + s)
    requires forall q :: q in live ==> q + live[q] <= p || p + s <= q
    ensures Untouched(live, data, data')
  {
    hide Payload;
    forall q | q in live
      ensures Payload(data', q, live[q]) == Payload(data, q, live[q])
    {
      OnePayload(data, data', p + 16, p + s, q, live[q]);
    }
  }

  lemma OnePayload(data: seq<bv8>, data': seq<bv8>, a: nat, z: nat, q: nat, s: nat)
    requires OnlyWithin(data, data', a, z) && (q + s <= a || z <= q + 16)
    ensures Payload(data', q, s) == Payload(data, q, s)
  {
    if CHUNK_OVERHEAD <= s && q + s <= |data| { OutsideSame(data, data', a, z, q + CHUNK_OVERHEAD, q + s); }
  }
}
