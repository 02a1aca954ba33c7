/**
 What the pointer operations do to pointers and to detached references. Together with the counts, which
 are the numbers of owners, this determines every block.
 */
module PointerEffects {
  import opened Wrappers
  import opened SmartPointers

  /** Somebody still owns a strong reference to what `weak` points to. */
  predicate Lockable(m: Heap, weak: Handle) {
    Pointing(m, weak) && Owners(m, Ref(StrongRef, m.ptrs[weak].target.value)) > 0
  }

  function PointersAfter(m: Heap, op: Op): map<Handle, Ptr>
    requires Legal(m, op)
  {
    match op
    case Spawn(h, o) => m.ptrs[h := Ptr(StrongRef, Some(o))]
    case Construct(h, kind, raw, _) => m.ptrs[h := Ptr(kind, raw)]
    case Copy(h, from) => m.ptrs[h := m.ptrs[from]]
    case Move(h, from) => m.ptrs[from := Ptr(m.ptrs[from].kind, None)][h := m.ptrs[from]]
    case Destroy(h) => m.ptrs - {h}
    case Swap(h, other) => m.ptrs[h := m.ptrs[other]][other := m.ptrs[h]]
    case Detach(h) => m.ptrs[h := Ptr(m.ptrs[h].kind, None)]
    case Reset(h, raw, _) => m.ptrs[h := Ptr(m.ptrs[h].kind, raw)]
    case Assign(h, from) => m.ptrs[h := m.ptrs[from]]
    case Lock(h, weak) => m.ptrs[h := Ptr(StrongRef, if Lockable(m, weak) then m.ptrs[weak].target else None)]
    case GetLocked(_) => m.ptrs
  }

  function Adopted(kind: Kind, raw: Option<Obj>, addRef: bool): multiset<Ref> {
    if raw.Some? && !addRef then multiset{Ref(kind, raw.value)} else multiset{}
  }

  function DetachedAfter(m: Heap, op: Op): multiset<Ref>
    requires Legal(m, op)
  {
    match op
    case Construct(_, kind, raw, addRef) => m.detached - Adopted(kind, raw, addRef)
    case Reset(h, raw, addRef) => m.detached - Adopted(m.ptrs[h].kind, raw, addRef)
    case Detach(h) => if Pointing(m, h) then m.detached + multiset{Target(m, h)} else m.detached
    case GetLocked(weak) =>
      if Lockable(m, weak) then m.detached + multiset{Ref(StrongRef, m.ptrs[weak].target.value)} else m.detached
    case _ => m.detached
  }

  predicate HasEffect(m: Heap, op: Op)
    requires Legal(m, op) && AllSound(m)
  {
    Apply(m, op).ptrs == PointersAfter(m, op) && Apply(m, op).detached == DetachedAfter(m, op)
  }

  // ----- The operations one by one

  lemma SetPtrMoves(m: Heap, h: Handle, raw: Option<Obj>, addRef: bool)
    requires h in m.ptrs && !Pointing(m, h) && CanTake(m, m.ptrs[h].kind, raw, addRef)
    ensures var r := SetPtr(m, h, raw, addRef);
            && r.ptrs == m.ptrs[h := Ptr(m.ptrs[h].kind, raw)]
            && r.detached == m.detached - Adopted(m.ptrs[h].kind, raw, addRef)
  {
    if raw.None? {
      assert m.ptrs[h := m.ptrs[h]] == m.ptrs;
    } else if addRef {
      var r := Ref(m.ptrs[h].kind, raw.value);
      assert m.detached + multiset{r} - multiset{r} == m.detached;
    }
  }

  lemma ConstructMoves(m: Heap, h: Handle, kind: Kind, raw: Option<Obj>, addRef: bool)
    requires h !in m.ptrs && CanTake(m, kind, raw, addRef)
    ensures var r := DoConstruct(m, h, kind, raw, addRef);
            r.ptrs == m.ptrs[h := Ptr(kind, raw)] && r.detached == m.detached - Adopted(kind, raw, addRef)
  {
    var d := Declare(m, h, kind);
    SetPtrMoves(d, h, raw, addRef);
    assert d.ptrs[h := Ptr(kind, raw)] == m.ptrs[h := Ptr(kind, raw)];
  }

  lemma ResetMoves(m: Heap, h: Handle, raw: Option<Obj>, addRef: bool)
    requires Sound(m, h) && CanTake(m, m.ptrs[h].kind, raw, addRef)
    ensures var r := DoReset(m, h, raw, addRef);
            && r.ptrs == m.ptrs[h := Ptr(m.ptrs[h].kind, raw)]
            && r.detached == m.detached - Adopted(m.ptrs[h].kind, raw, addRef)
  {
    if Pointing(m, h) {
      OldTargetIsCounted(m, h, raw, addRef);
      SetPtrMoves(Unset(m, h), h, raw, addRef);
      UnsetAndSet(m, h, raw, addRef);
    } else {
      SetPtrMoves(m, h, raw, addRef);
    }
  }

  lemma UnsetAndSet(m: Heap, h: Handle, raw: Option<Obj>, addRef: bool)
    requires Pointing(m, h) && CanTake(m, m.ptrs[h].kind, raw, addRef)
    ensures var u, p := Unset(m, h), Ptr(m.ptrs[h].kind, raw);
            && u.ptrs[h := p] == m.ptrs[h := p]
            && u.detached - Adopted(p.kind, raw, addRef) - multiset{Target(m, h)}
               == m.detached - Adopted(p.kind, raw, addRef)
  {
  }

  lemma DestroyMoves(m: Heap, h: Handle)
    requires Sound(m, h)
    ensures DoDestroy(m, h).ptrs == m.ptrs - {h} && DoDestroy(m, h).detached == m.detached
  {
    ResetMoves(m, h, None, true);
    assert m.ptrs[h := Ptr(m.ptrs[h].kind, None)] - {h} == m.ptrs - {h};
  }

  lemma MoveMoves(m: Heap, h: Handle, from: Handle)
    requires AllSound(m) && Legal(m, Move(h, from))
    ensures HasEffect(m, Move(h, from))
  {
    var d := DoDetach(m, from);
    var raw := m.ptrs[from].target;
    ConstructMoves(d, h, m.ptrs[from].kind, raw, false);
    if Pointing(m, from) {
      var r := Target(m, from);
      assert m.detached + multiset{r} - multiset{r} == m.detached;
    } else {
      assert m.ptrs[from := m.ptrs[from]] == m.ptrs;
    }
  }

  lemma DetachMoves(m: Heap, h: Handle)
    requires AllSound(m) && h in m.ptrs
    ensures HasEffect(m, Detach(h))
  {
    if !Pointing(m, h) {
      assert m.ptrs[h := m.ptrs[h]] == m.ptrs;
    }
  }

  lemma SpawnMoves(m: Heap, h: Handle, o: Obj)
    requires AllSound(m) && Legal(m, Spawn(h, o))
    ensures HasEffect(m, Spawn(h, o))
  {
    ConstructMoves(Born(m, o), h, StrongRef, Some(o), false);
    var r := Ref(StrongRef, o);
    assert m.detached + multiset{r} - multiset{r} == m.detached;
  }

  /** What can be locked is what has a strong count. */
  lemma LockableIffCounted(ops: seq<Op>, m: Heap, weak: Handle)
    requires Runs(ops, m) && Pointing(m, weak)
    ensures var o := m.ptrs[weak].target.value;
            o in m.blocks && m.blocks[o].Block? && (Lockable(m, weak) <==> m.blocks[o].strong > 0)
  {
    var o := m.ptrs[weak].target.value;
    CountsAreOwners(ops, m, o);
    NoDanglingPointer(ops, m, weak);
  }

  lemma LockMoves(ops: seq<Op>, m: Heap, h: Handle, weak: Handle)
    requires Runs(ops, m) && AllSound(m) && Legal(m, Lock(h, weak))
    ensures HasEffect(m, Lock(h, weak))
  {
    if Pointing(m, weak) {
      LockableIffCounted(ops, m, weak);
      assert Sound(m, weak);
      LockEffect(m, h, weak);
    } else {
      ConstructMoves(m, h, StrongRef, None, false);
    }
  }

  lemma GetLockedMoves(ops: seq<Op>, m: Heap, weak: Handle)
    requires Runs(ops, m) && AllSound(m) && Legal(m, GetLocked(weak))
    ensures HasEffect(m, GetLocked(weak))
  {
    if Pointing(m, weak) {
      LockableIffCounted(ops, m, weak);
    }
  }

  lemma ReleasingMoves(m: Heap, op: Op)
    requires AllSound(m) && Legal(m, op) && (op.Reset? || op.Assign? || op.Destroy? || op.Detach?)
    ensures HasEffect(m, op)
  {
    assert Sound(m, op.h);
    match op
    case Reset(h, raw, addRef) => ResetMoves(m, h, raw, addRef);
    case Assign(h, from) =>
      assert Sound(m, from);
      ResetMoves(m, h, m.ptrs[from].target, true);
    case Destroy(h) => DestroyMoves(m, h);
    case Detach(h) => DetachMoves(m, h);
  }

  lemma OtherMoves(m: Heap, op: Op)
    requires AllSound(m) && Legal(m, op)
    requires op.Spawn? || op.Construct? || op.Copy? || op.Move? || op.Swap?
    ensures HasEffect(m, op)
  {
    match op
    case Spawn(h, o) => SpawnMoves(m, h, o);
    case Construct(h, kind, raw, addRef) => ConstructMoves(m, h, kind, raw, addRef);
    case Copy(h, from) =>
      assert Sound(m, from);
      ConstructMoves(m, h, m.ptrs[from].kind, m.ptrs[from].target, true);
    case Move(h, from) => MoveMoves(m, h, from);
    case Swap(_, _) =>
  }

  // ----- Main results

  /**
   In every program an operation moves exactly the pointers and references it should: a destroyed pointer
   is gone, a moved one is null and its target handed over, swapped ones are exchanged, a detached
   reference is nobody's, and every other pointer keeps its target.
   */
  lemma OperationsMovePointers(ops: seq<Op>, m: Heap, op: Op)
    requires Runs(ops, m) && Legal(m, op)
    ensures AllSound(m)
    ensures Apply(m, op).ptrs == PointersAfter(m, op)
    ensures Apply(m, op).detached == DetachedAfter(m, op)
  {
    RunInv(ops, m);
    if op.Lock? {
      LockMoves(ops, m, op.h, op.weak);
    } else if op.GetLocked? {
      GetLockedMoves(ops, m, op.weak);
    } else if op.Reset? || op.Assign? || op.Destroy? || op.Detach? {
      ReleasingMoves(m, op);
    } else {
      OtherMoves(m, op);
    }
  }

  /** Block `o` of `m` is what the pointers and references of `owners` make of it. */
  predicate OwnedBy(m: Heap, o: Obj, owners: Heap) {
    var strong, weak := Owners(owners, Ref(StrongRef, o)), Owners(owners, Ref(WeakRef, o));
    if strong == 0 && weak == 0 then o !in m.blocks
    else o in m.blocks && m.blocks[o] == Block(strong, weak + (if strong > 0 then 1 else 0), strong > 0)
  }

  /** And it leaves exactly the blocks that the pointers and references after it own. */
  lemma OperationsOwnBlocks(ops: seq<Op>, m: Heap, op: Op, o: Obj)
    requires Runs(ops, m) && Legal(m, op)
    ensures AllSound(m)
    ensures OwnedBy(Apply(m, op), o, Heap(map[], PointersAfter(m, op), DetachedAfter(m, op)))
  {
    OperationsMovePointers(ops, m, op);
    var r := Result(ops, m, op);
    BlocksAreOwned(ops + [op], r, o);
    SameOwners(r, Heap(map[], PointersAfter(m, op), DetachedAfter(m, op)), o);
  }

  lemma Result(ops: seq<Op>, m: Heap, op: Op) returns (r: Heap)
    requires Runs(ops, m) && Legal(m, op)
    ensures AllSound(m) && r == Apply(m, op) && Runs(ops + [op], r)
  {
    EveryLegalOpRuns(ops, m, op);
    r := Apply(m, op);
  }

  lemma SameOwners(m: Heap, r: Heap, o: Obj)
    requires m.ptrs == r.ptrs && m.detached == r.detached && OwnedBy(m, o, m)
    ensures OwnedBy(m, o, r)
  {
    assert Owners(m, Ref(StrongRef, o)) == Owners(r, Ref(StrongRef, o));
    assert Owners(m, Ref(WeakRef, o)) == Owners(r, Ref(WeakRef, o));
  }

  lemma BlocksAreOwned(ops: seq<Op>, m: Heap, o: Obj)
    requires Runs(ops, m)
    ensures OwnedBy(m, o, m)
  {
    CountsAreOwners(ops, m, o);
  }

  /** A program that ends with no pointer to anything and no detached reference leaves no block behind. */
  lemma NothingLeaks(ops: seq<Op>, m: Heap)
    requires Runs(ops, m) && m.detached == multiset{} && forall h :: h in m.ptrs ==> m.ptrs[h].target.None?
    ensures m.blocks == map[]
  {
    forall o: Obj ensures o !in m.blocks {
      CountsAreOwners(ops, m, o);
      assert PointersTo(m.ptrs, Ref(StrongRef, o)) == {} && PointersTo(m.ptrs, Ref(WeakRef, o)) == {};
    }
  }
}
