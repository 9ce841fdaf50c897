/** Where each node of an upgrading cluster sits among the StatefulSet's pods. */
module Ordinals {

  /** The nodes by role: primary p, replica r of primary p, the extra primary (pivot) and its replicas. */
  datatype Place = PrimaryAt(p: int) | ReplicaAt(p: int, r: int) | Pivot | PivotReplica(r: int)

  function Total(primaries: nat, replicas: nat): nat {
    primaries + primaries * replicas
  }

  function Target(primaries: nat, replicas: nat): nat {
    Total(primaries, replicas) + (1 + replicas)
  }

  predicate IsPlace(primaries: nat, replicas: nat, at: Place) {
    match at
    case PrimaryAt(p) => 0 <= p < primaries
    case ReplicaAt(p, r) => 0 <= p < primaries && 0 <= r < replicas
    case Pivot => true
    case PivotReplica(r) => 0 <= r < replicas
  }

  function Ordinal(primaries: nat, replicas: nat, at: Place): int {
    match at
    case PrimaryAt(p) => p
    case ReplicaAt(p, r) => primaries + p * replicas + r
    case Pivot => primaries + primaries * replicas
    case PivotReplica(r) => primaries + primaries * replicas + 1 + r
  }

  /** The node at a given ordinal. */
  function PlaceOf(primaries: nat, replicas: nat, o: int): Place {
    if o < primaries then PrimaryAt(o)
    else if o < Total(primaries, replicas) && replicas > 0 then
      ReplicaAt((o - primaries) / replicas, (o - primaries) % replicas)
    else if o == Total(primaries, replicas) then Pivot
    else PivotReplica(o - Total(primaries, replicas) - 1)
  }

  lemma Scales(a: int, b: int, n: int)
    requires a <= b && n >= 0
    ensures a * n <= b * n
  {}

  lemma QuotientUnique(q: int, n: nat, r: int)
    requires 0 <= r < n
    ensures (q * n + r) / n == q && (q * n + r) % n == r
  {
    var a := q * n + r;
    var b := a / n;
    assert a == b * n + a % n;
    if b < q {
      Scales(b + 1, q, n);
    } else if b > q {
      Scales(q + 1, b, n);
    }
  }

  lemma BlockWithin(p: int, primaries: nat, replicas: nat, r: int)
    requires 0 <= p < primaries && 0 <= r < replicas
    ensures 0 <= p * replicas + r < primaries * replicas
  {
    Scales(0, p, replicas);
    Scales(p + 1, primaries, replicas);
    assert (p + 1) * replicas == p * replicas + replicas;
  }

  /** No two nodes share an ordinal, and each lies within the scaled-up StatefulSet. */
  lemma OrdinalDetermines(primaries: nat, replicas: nat, at: Place)
    requires IsPlace(primaries, replicas, at)
    ensures 0 <= Ordinal(primaries, replicas, at) < Target(primaries, replicas)
    ensures PlaceOf(primaries, replicas, Ordinal(primaries, replicas, at)) == at
  {
    if at.ReplicaAt? {
      BlockWithin(at.p, primaries, replicas, at.r);
      QuotientUnique(at.p, replicas, at.r);
    }
  }

  /** Every ordinal of the scaled-up StatefulSet belongs to a node. */
  lemma OrdinalReached(primaries: nat, replicas: nat, o: int)
    requires 0 <= o < Target(primaries, replicas)
    ensures IsPlace(primaries, replicas, PlaceOf(primaries, replicas, o))
    ensures Ordinal(primaries, replicas, PlaceOf(primaries, replicas, o)) == o
  {
    if primaries <= o < Total(primaries, replicas) {
      NotEmpty(primaries, replicas);
      QuotientBelow(o - primaries, primaries, replicas);
    }
  }

  lemma NotEmpty(primaries: nat, replicas: nat)
    requires primaries * replicas > 0
    ensures replicas > 0
  {}

  /** The i-th replica belongs to primary i / replicas, which exists: a clamp to the last primary never applies. */
  lemma QuotientBelow(i: int, primaries: nat, replicas: nat)
    requires 0 <= i < primaries * replicas && replicas > 0
    ensures 0 <= i / replicas < primaries && i == (i / replicas) * replicas + i % replicas
    ensures PlaceOf(primaries, replicas, primaries + i) == ReplicaAt(i / replicas, i % replicas)
  {
    var q := i / replicas;
    assert i == q * replicas + i % replicas;
    if q >= primaries {
      Scales(primaries, q, replicas);
    }
  }
}
