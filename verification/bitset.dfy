/**
 * Fixed-capacity bit sets over a dense index space: the `BitSet<T>` that every
 * dataflow analysis uses as its flow state. A set is one boolean per index of its
 * domain, so the capacity is part of the value and never changes.
 */
module BitSets {

  datatype BitSet = BitSet(bits: seq<bool>) {

    /** The number of indices the set can hold. */
    function DomainSize(): nat {
      |bits|
    }

    predicate Contains(i: nat) {
      i < |bits| && bits[i]
    }
  }

  /** A sequence of indices in which every index is larger than the one before it. */
  predicate StrictlyIncreasing(xs: seq<nat>) {
    forall i, j :: 0 <= i < j < |xs| ==> xs[i] < xs[j]
  }

  /** `BitSet::new_empty`: a set with capacity `domainSize` and no member. */
  function NewEmpty(domainSize: nat): (r: BitSet)
    ensures r.DomainSize() == domainSize
    ensures forall i: nat :: !r.Contains(i)
  {
    BitSet(seq(domainSize, _ => false))
  }

  /**
   * `BitSet::overwrite`: the destination takes the source's contents; nothing of the
   * destination's previous contents survives.
   */
  function Overwrite(dst: BitSet, src: BitSet): (r: BitSet)
    ensures r.DomainSize() == src.DomainSize()
    ensures forall i: nat :: r.Contains(i) <==> src.Contains(i)
  {
    src
  }

  /** `BitSet::iter`: the members of `s`, each once, in increasing index order. */
  function Iter(s: BitSet): (r: seq<nat>)
    ensures StrictlyIncreasing(r)
    ensures forall i: nat :: i in r <==> s.Contains(i)
  {
    IterFrom(s, 0)
  }

  /** The members of `s` that are at least `lo`, in increasing order. */
  function IterFrom(s: BitSet, lo: nat): (r: seq<nat>)
    ensures StrictlyIncreasing(r)
    ensures forall i: nat :: i in r <==> lo <= i && s.Contains(i)
    decreases |s.bits| - lo
  {
    if lo >= |s.bits| then []
    else
      var rest := IterFrom(s, lo + 1);
      assert forall k :: 0 <= k < |rest| ==> lo < rest[k] by {
        forall k | 0 <= k < |rest| ensures lo < rest[k] {
          assert rest[k] in rest;
        }
      }
      (if s.bits[lo] then [lo] else []) + rest
  }
}
