/** The intrusive list of operations in flight: each carries its own links. */
module PendingList {
  class OperationState {
    var next: OperationState?
    var prev: OperationState?
    var tracked: bool

    constructor ()
      ensures next == null && prev == null && !tracked
    { next, prev, tracked := null, null, false; }
  }

  function At(ops: seq<OperationState>, i: int): OperationState? { if 0 <= i < |ops| then ops[i] else null }

  /** Operation i is linked to its neighbours in the sequence. */
  ghost predicate Linked(ops: seq<OperationState>, i: int)
    requires 0 <= i < |ops|
    reads ops[i]
  { ops[i].next == At(ops, i + 1) && ops[i].prev == At(ops, i - 1) && ops[i].tracked }

  ghost predicate Distinct(ops: seq<OperationState>) {
    forall i, j {:trigger ops[i], ops[j]} | 0 <= i < j < |ops| :: ops[i] != ops[j]
  }

  /** The sequence without its element i. */
  function Without(ops: seq<OperationState>, i: int): seq<OperationState>
    requires 0 <= i < |ops|
  { ops[..i] + ops[i + 1..] }

  /** Taking out element k: the others keep their neighbours, but for the two that become adjacent. */
  lemma DistinctWithout(ops: seq<OperationState>, k: int)
    requires 0 <= k < |ops| && Distinct(ops)
    ensures var r := Without(ops, k);
            Distinct(r) && ops[k] !in r && |r| == |ops| - 1
            && (forall i {:trigger r[i]} | 0 <= i < |r| :: r[i] == ops[if i < k then i else i + 1])
            && (forall i {:trigger At(r, i)} :: At(r, i) == if i < k then At(ops, i) else At(ops, i + 1))
  {
    var r := Without(ops, k);
    assert forall i {:trigger r[i]} | 0 <= i < |r| :: r[i] == ops[if i < k then i else i + 1];
  }

  /** Operation j is linked to its neighbours, passing over k. */
  ghost predicate Skips(ops: seq<OperationState>, j: int, k: int)
    requires 0 <= j < |ops|
    reads ops[j]
  {
    && ops[j].next == At(ops, if j == k - 1 then k + 1 else j + 1)
    && ops[j].prev == At(ops, if j == k + 1 then k - 1 else j - 1) && ops[j].tracked
  }

  class PendingOps {
    var head: OperationState?
    ghost var ops: seq<OperationState>
    ghost var known: set<OperationState>    // every operation there is, pending or not

    /**
     The links thread exactly the operations of the sequence, in order; of all operations these are
     the tracked ones.
     */
    ghost predicate Valid()
      reads this, known
    {
      && head == At(ops, 0) && Distinct(ops) && (forall i {:trigger ops[i]} | 0 <= i < |ops| :: ops[i] in known)
      && (forall i {:trigger Linked(ops, i)} | 0 <= i < |ops| :: Linked(ops, i))
      && (forall op {:trigger op.tracked} | op in known ::
        if op.tracked then op in ops else op.next == null && op.prev == null)
    }

    constructor ()
      ensures Valid() && ops == [] && known == {}
    { head, ops, known := null, [], {}; }

    /** An operation comes into being, not yet pending. */
    method NewOperation() returns (op: OperationState)
      requires Valid()
      modifies this`known
      ensures Valid() && fresh(op) && known == old(known) + {op} && ops == old(ops) && !op.tracked
    {
      op := new OperationState();
      known := known + {op};
      forall i | 0 <= i < |ops| ensures Linked(ops, i) { assert old(Linked(ops, i)); }
    }

    /** The operation goes to the front. */
    method Track(op: OperationState)
      requires Valid() && op in known && !op.tracked
      modifies this, op, ops
      ensures Valid() && ops == [op] + old(ops) && known == old(known)
    {
      TrackedIff(op);
      op.tracked := true;
      op.next := head;
      op.prev := null;
      if head != null {
        assert old(Linked(ops, 0));
        head.prev := op;
      }
      head := op;
      ghost var was := ops;
      ops := [op] + ops;
      forall i | 0 <= i < |ops| ensures Linked(ops, i) {
        if i > 0 { assert ops[i] == was[i - 1] && old(Linked(was, i - 1)); }
      }
    }

    /** Where an operation is in the list; -1 if it is not. */
    ghost predicate IsAt(op: OperationState, k: int)
      reads this
    { if k == -1 then op !in ops else 0 <= k < |ops| && ops[k] == op }

    /** The pointer surgery around element k. */
    method Unlink(op: OperationState, ghost k: int)
      requires Valid() && op in known && IsAt(op, k)
      modifies this`head, op, ops
      ensures forall x {:trigger x.tracked} | x in known :: x.tracked <==> old(x.tracked) && x != op
      ensures forall x {:trigger x.tracked} | x in known && !x.tracked :: x.next == null && x.prev == null
      ensures head == At(ops, if k == 0 then 1 else 0)
      ensures forall j {:trigger Skips(ops, j, k)} | 0 <= j < |ops| && j != k :: Skips(ops, j, k)
    {
      if k >= 0 { assert Linked(ops, k); } else { TrackedIff(op); }
      if op.prev != null {
        assert Linked(ops, k - 1);
        op.prev.next := op.next;
      } else if head == op {
        head := op.next;
      }
      if op.next != null {
        assert op.next == ops[k + 1] && old(Linked(ops, k + 1));
        op.next.prev := op.prev;
      }
      op.next := null;
      op.prev := null;
      op.tracked := false;
      forall j | 0 <= j < |ops| && j != k ensures Skips(ops, j, k) {
        assert old(Linked(ops, j)) && ops[j] != op;
      }
    }

    /** Exactly that operation leaves, if it was there; it keeps no links. */
    method Untrack(op: OperationState) returns (ghost k: int)
      requires Valid() && op in known
      modifies this, op, ops
      ensures Valid() && op !in ops && known == old(known) && !op.tracked && old(IsAt(op, k))
      ensures ops == if k == -1 then old(ops) else Without(old(ops), k)
    {
      k := -1;
      if op in ops { k :| 0 <= k < |ops| && ops[k] == op; }
      Unlink(op, k);
      ghost var was := ops;
      if k >= 0 {
        DistinctWithout(was, k);
        ops := Without(was, k);
      }
      forall i | 0 <= i < |ops| ensures Linked(ops, i) {
        assert Skips(was, if k == -1 || i < k then i else i + 1, k);
      }
    }

    /** Whether an operation is in the list, as its own flag says. */
    lemma TrackedIff(op: OperationState)
      requires Valid() && op in known
      ensures op.tracked <==> op in ops
    {
      if op in ops {
        var i :| 0 <= i < |ops| && ops[i] == op;
        assert Linked(ops, i);
      }
    }
  }
}
