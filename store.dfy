/**
 * A minimal bounds store: every finite-domain variable of one search node is
 * an integer interval [lo[k], hi[k]].  Propagators and branchers narrow the
 * intervals in place with `Gq` (x >= v) and `Le` (x < v), the two view
 * operations the NoOverlap propagator and the interval brancher use.
 */
module Domains {

  datatype Option<T> = None | Some(value: T) {
    predicate IsFailure() { None? }
    function PropagateFailure<U>(): Option<U> requires None? { None }
    function Extract(): T requires Some? { value }
  }

  /** Result of one bound update on a view (me_failed tests for MeFailed). */
  datatype ModEvent = MeFailed | MeNone | MeVal | MeBnd

  /** Result of a propagator or a commit. */
  datatype ExecStatus = EsFailed | EsOk | EsFix | EsSubsumed

  /** Outcome of posting a propagator or a brancher. */
  datatype PostOutcome<T> =
    | SizeMismatch(where: string)  // ArgumentSizeMismatch thrown
    | SpaceFailed                  // home was failed: nothing posted
    | Posted(actor: T)

  /** The bounds of all variables, as a value. */
  datatype Box = Box(lo: seq<int>, hi: seq<int>)

  /** No domain is empty. */
  ghost predicate WellFormed(b: Box)
  {
    |b.lo| == |b.hi| && forall k :: 0 <= k < |b.lo| ==> b.lo[k] <= b.hi[k]
  }

  /** Every domain of b' is a subset of the same variable's domain in b. */
  ghost predicate Narrower(b': Box, b: Box)
  {
    |b'.lo| == |b.lo| && |b'.hi| == |b.hi| &&
    (forall k :: 0 <= k < |b.lo| ==> b.lo[k] <= b'.lo[k]) &&
    (forall k :: 0 <= k < |b.hi| ==> b'.hi[k] <= b.hi[k])
  }

  function Max(a: int, b: int): int { if a < b then b else a }
  function Min(a: int, b: int): int { if a < b then a else b }

  /** The event a raise of the lower bound of variable k to v produces. */
  function GqEvent(b: Box, k: nat, v: int): (me: ModEvent)
    requires k < |b.lo| == |b.hi|
    ensures me == MeFailed <==> b.lo[k] < v && b.hi[k] < v
    ensures me == MeNone <==> v <= b.lo[k]
    ensures me == MeVal <==> b.lo[k] < v == b.hi[k]
  {
    if v <= b.lo[k] then MeNone
    else if v > b.hi[k] then MeFailed
    else if v == b.hi[k] then MeVal
    else MeBnd
  }

  /** x[k] >= v on a value: None when v is above the upper bound. */
  function BoxGq(b: Box, k: nat, v: int): (r: Option<Box>)
    requires k < |b.lo| == |b.hi|
    ensures r.None? <==> b.lo[k] < v && b.hi[k] < v
    ensures r.Some? ==> r.value == Box(b.lo[k := Max(b.lo[k], v)], b.hi)
    ensures r.Some? ==> r.value.lo[k] >= v
    ensures r.Some? && b.lo[k] <= b.hi[k] ==> r.value.lo[k] <= r.value.hi[k]
  {
    if v <= b.lo[k] then Some(b)
    else if v > b.hi[k] then None
    else Some(b.(lo := b.lo[k := v]))
  }

  /** x[k] < v on a value: None when v - 1 is below the lower bound. */
  function BoxLe(b: Box, k: nat, v: int): (r: Option<Box>)
    requires k < |b.lo| == |b.hi|
    ensures r.None? <==> v - 1 < b.hi[k] && v - 1 < b.lo[k]
    ensures r.Some? ==> r.value == Box(b.lo, b.hi[k := Min(b.hi[k], v - 1)])
    ensures r.Some? ==> r.value.hi[k] < v
    ensures r.Some? && b.lo[k] <= b.hi[k] ==> r.value.lo[k] <= r.value.hi[k]
  {
    if v - 1 >= b.hi[k] then Some(b)
    else if v - 1 < b.lo[k] then None
    else Some(b.(hi := b.hi[k := v - 1]))
  }

  /** The variables of one search node, narrowed in place. */
  class Store {
    var lo: array<int>
    var hi: array<int>
    var failed: bool

    ghost predicate Valid()
      reads this, lo, hi
    {
      lo != hi && WellFormed(Box(lo[..], hi[..]))
    }

    function Size(): nat
      reads this
    {
      lo.Length
    }

    function Bounds(): Box
      reads this, lo, hi
    {
      Box(lo[..], hi[..])
    }

    constructor (lo0: seq<int>, hi0: seq<int>)
      requires WellFormed(Box(lo0, hi0))
      ensures Valid() && fresh(lo) && fresh(hi) && !failed
      ensures Bounds() == Box(lo0, hi0)
    {
      lo := new int[|lo0|](i requires 0 <= i < |lo0| => lo0[i]);
      hi := new int[|hi0|](i requires 0 <= i < |hi0| => hi0[i]);
      failed := false;
    }

    /** x[k].gq(home, v). */
    method Gq(k: nat, v: int) returns (me: ModEvent)
      requires Valid() && k < Size()
      modifies lo
      ensures Valid()
      ensures me == GqEvent(old(Bounds()), k, v)
      ensures me == MeFailed <==> BoxGq(old(Bounds()), k, v).None?
      ensures me != MeFailed ==> Bounds() == BoxGq(old(Bounds()), k, v).value
      ensures me == MeFailed ==> Bounds() == old(Bounds())
    {
      if v <= lo[k] {
        me := MeNone;
      } else if v > hi[k] {
        me := MeFailed;
      } else {
        lo[k] := v;
        me := if v == hi[k] then MeVal else MeBnd;
      }
    }

    /** x[k].le(home, v), that is x[k] <= v - 1. */
    method Le(k: nat, v: int) returns (me: ModEvent)
      requires Valid() && k < Size()
      modifies hi
      ensures Valid()
      ensures me == MeFailed <==> BoxLe(old(Bounds()), k, v).None?
      ensures me == MeNone <==> v - 1 >= old(hi[k])
      ensures me != MeFailed ==> Bounds() == BoxLe(old(Bounds()), k, v).value
      ensures me == MeFailed ==> Bounds() == old(Bounds())
    {
      if v - 1 >= hi[k] {
        me := MeNone;
      } else if v - 1 < lo[k] {
        me := MeFailed;
      } else {
        hi[k] := v - 1;
        me := if v - 1 == lo[k] then MeVal else MeBnd;
      }
    }
  }
}
