/** Objects with a reference counter, freed when it reaches zero; addresses are numbered by allocation. */
module RefCounts {

  /** `fault` records that a freed object was touched. */
  datatype Heap = Heap(count: map<nat, nat>, freed: seq<nat>, next: nat, fault: bool)

  const EMPTY := Heap(map[], [], 0, false)

  function New(h: Heap): Heap {
    h.(count := h.count[h.next := 1], next := h.next + 1)
  }

  function Ref(h: Heap, x: nat): Heap {
    if x !in h.count then h.(fault := true) else h.(count := h.count[x := h.count[x] + 1])
  }

  predicate LastRef(h: Heap, x: nat) {
    x in h.count && h.count[x] <= 1
  }

  function Unref(h: Heap, x: nat): Heap {
    if x !in h.count then h.(fault := true)
    else if h.count[x] > 1 then h.(count := h.count[x := h.count[x] - 1])
    else h.(count := h.count - {x}, freed := h.freed + [x])
  }

  predicate Distinct(s: seq<nat>) {
    forall i, j :: 0 <= i < j < |s| ==> s[i] != s[j]
  }

  /**
   The heap is exact for the references that exist: every object is live with
   as many counts as there are references to it, or was freed, once.
   */
  ghost predicate Counted(h: Heap, refs: multiset<nat>) {
    && !h.fault && Distinct(h.freed)
    && (forall x :: x in refs ==> x < h.next)
    && (forall x :: x in h.count <==> x in refs)
    && (forall x :: x in h.count ==> h.count[x] == refs[x])
    && (forall x :: x in h.freed <==> 0 <= x < h.next && x !in refs)
  }

  lemma NewCounted(h: Heap, refs: multiset<nat>)
    requires Counted(h, refs)
    ensures Counted(New(h), refs + multiset{h.next})
  {
  }

  lemma RefCounted(h: Heap, refs: multiset<nat>, x: nat)
    requires Counted(h, refs) && x in refs
    ensures Counted(Ref(h, x), refs + multiset{x})
  {
  }

  lemma UnrefCounted(h: Heap, refs: multiset<nat>, x: nat)
    requires Counted(h, refs) && x in refs
    ensures Counted(Unref(h, x), refs - multiset{x})
    ensures LastRef(h, x) <==> x !in refs - multiset{x}
  {
    assert forall y :: y in refs - multiset{x} <==> y in refs && (y != x || refs[x] > 1);
  }
}
