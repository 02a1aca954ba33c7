/**
 The intrusive smart pointers above the reference counts.  `intrusive_ptr` and `weak_intrusive_ptr`
 are the same class up to the pair of functions that count references, so `kind` says which pair a
 pointer uses.
 */
module SmartPointers {
  import opened Wrappers

  datatype Kind = StrongRef | WeakRef

  // ----- Control blocks

  /** A control block; `dataAlive` is false once the data destructor has run. */
  datatype Block = Freed | Block(strong: nat, weak: nat, dataAlive: bool)

  predicate Counted(b: Block, kind: Kind) {
    b.Block? && (if kind == StrongRef then b.strong > 0 else b.weak > 0) && b.weak > 0
  }

  function Added(b: Block, kind: Kind): Block
    requires b.Block?
  {
    if kind == StrongRef then b.(strong := b.strong + 1) else b.(weak := b.weak + 1)
  }

  function WeakReleased(b: Block): Block
    requires b.Block? && b.weak > 0
  {
    if b.weak == 1 then Freed else b.(weak := b.weak - 1)
  }

  function Released(b: Block, kind: Kind): Block
    requires Counted(b, kind)
  {
    if kind == WeakRef then WeakReleased(b)
    else if b.strong == 1 then WeakReleased(b.(strong := 0, dataAlive := false))
    else b.(strong := b.strong - 1)
  }

  function Upgraded(b: Block): Block
    requires b.Block?
  {
    if b.strong == 0 then b else b.(strong := b.strong + 1)
  }

  class ActorControlBlock {
    var strongRefs: nat
    var weakRefs: nat
    var dataAlive: bool
    var freed: bool

    ghost function View(): Block
      reads this
    {
      if freed then Freed else Block(strongRefs, weakRefs, dataAlive)
    }

    constructor ()
      ensures View() == Block(1, 1, true)
    {
      strongRefs, weakRefs, dataAlive, freed := 1, 1, true, false;
    }

    method AddRef(kind: Kind)
      requires View().Block?
      modifies this
      ensures View() == Added(old(View()), kind)
    {
      if kind == StrongRef {
        strongRefs := strongRefs + 1;
      } else {
        weakRefs := weakRefs + 1;
      }
    }

    method ReleaseWeak()
      requires View().Block? && weakRefs > 0
      modifies this
      ensures View() == WeakReleased(old(View()))
    {
      var last := weakRefs == 1;
      if !last {
        var before := weakRefs;
        weakRefs := weakRefs - 1;
        last := before == 1;
      }
      if last {
        freed := true;
      }
    }

    method Release(kind: Kind)
      requires Counted(View(), kind)
      modifies this
      ensures View() == Released(old(View()), kind)
    {
      if kind == WeakRef {
        ReleaseWeak();
      } else {
        var before := strongRefs;
        strongRefs := strongRefs - 1;
        if before == 1 {
          dataAlive := false;
          ReleaseWeak();
        }
      }
    }

    /** The compare-exchange may fail spuriously any finite number of times. */
    method UpgradeWeak(spuriousFailures: nat) returns (ok: bool)
      requires View().Block?
      modifies this
      ensures ok <==> old(strongRefs) > 0
      ensures View() == Upgraded(old(View()))
    {
      var count, failures := strongRefs, spuriousFailures;
      while count != 0
        invariant count == strongRefs == old(strongRefs) && View() == old(View())
        decreases failures
      {
        if failures == 0 {
          strongRefs := count + 1;
          return true;
        }
        count, failures := strongRefs, failures - 1;
      }
      return false;
    }
  }

  // ----- Pointer objects

  /** What a pointer operation does to a block it adds a reference to, drops one from, or both. */
  function AfterSwitch(b: Block, kind: Kind, adds: bool, drops: bool): Block
    requires adds ==> b.Block?
    requires drops ==> Counted(if adds then Added(b, kind) else b, kind)
  {
    var c := if adds then Added(b, kind) else b;
    if drops then Released(c, kind) else c
  }

  class CountedPtr {
    const kind: Kind
    var ptr: ActorControlBlock?

    constructor (kind: Kind, raw: ActorControlBlock?, addRef: bool)
      requires raw != null && addRef ==> raw.View().Block?
      modifies if addRef then {raw} else {}
      ensures this.kind == kind && ptr == raw
      ensures raw != null ==> raw.View() == AfterSwitch(old(raw.View()), kind, addRef, false)
    {
      this.kind, ptr := kind, raw;
      new;
      if raw != null && addRef {
        raw.AddRef(kind);
      }
    }

    method SetPtr(raw: ActorControlBlock?, addRef: bool)
      requires raw != null && addRef ==> raw.View().Block?
      modifies `ptr, if addRef then {raw} else {}
      ensures ptr == raw
      ensures raw != null ==> raw.View() == AfterSwitch(old(raw.View()), kind, addRef, false)
    {
      ptr := raw;
      if raw != null && addRef {
        raw.AddRef(kind);
      }
    }

    method Destroy()
      requires ptr != null ==> Counted(ptr.View(), kind)
      modifies ptr
      ensures ptr != null ==> ptr.View() == Released(old(ptr.View()), kind)
    {
      if ptr != null {
        ptr.Release(kind);
      }
    }

    method Swap(other: CountedPtr)
      modifies `ptr, other`ptr
      ensures ptr == old(other.ptr) && other.ptr == old(ptr)
    {
      ptr, other.ptr := other.ptr, ptr;
    }

    method Detach() returns (result: ActorControlBlock?)
      modifies `ptr
      ensures result == old(ptr) && ptr == null
    {
      result := ptr;
      if result != null {
        ptr := null;
      }
    }

    /**
     The new reference is added before the old one is dropped, so resetting a pointer to what it
     already points to cannot destroy it.
     */
    method Reset(raw: ActorControlBlock?, addRef: bool)
      requires raw != null && addRef ==> raw.View().Block?
      requires ptr != null ==> Counted(if ptr == raw && addRef then Added(ptr.View(), kind) else ptr.View(), kind)
      modifies `ptr, ptr, if addRef then {raw} else {}
      ensures ptr == raw
      ensures raw != null ==>
                raw.View() == AfterSwitch(old(raw.View()), kind, addRef, old(ptr) == raw)
      ensures old(ptr) != null && old(ptr) != raw ==>
                old(ptr).View() == Released(old(ptr.View()), kind)
    {
      var before := ptr;
      SetPtr(raw, addRef);
      if before != null {
        before.Release(kind);
      }
    }

    /** Copy assignment: a copy of `other` is swapped in, and the copy's destructor drops the rest. */
    method Assign(other: CountedPtr)
      requires other.kind == kind
      requires other.ptr != null ==> other.ptr.View().Block?
      requires ptr != null ==> Counted(ptr.View(), kind)
      modifies `ptr, ptr, other.ptr
      ensures ptr == old(other.ptr) && other.ptr == old(other.ptr)
      ensures ptr != null ==> ptr.View() == AfterSwitch(old(other.ptr.View()), kind, true, old(ptr) == old(other.ptr))
      ensures old(ptr) != null && old(ptr) != ptr ==>
                old(ptr).View() == Released(old(ptr.View()), kind)
    {
      var copy := new CountedPtr(kind, other.ptr, true);
      Swap(copy);
      copy.Destroy();
    }
  }

  // ----- Programs over many pointers and objects

  type Obj = nat
  type Handle = nat

  datatype Ref = Ref(kind: Kind, obj: Obj)
  datatype Ptr = Ptr(kind: Kind, target: Option<Obj>)

  /**
   `detached` holds the references that no pointer owns: raw pointers returned by `detach` and
   `get_locked`, to be adopted later.  A freed block is no longer in `blocks`.
   */
  datatype Heap = Heap(blocks: map<Obj, Block>, ptrs: map<Handle, Ptr>, detached: multiset<Ref>)

  datatype Op =
    | Spawn(h: Handle, o: Obj)
    | Construct(h: Handle, kind: Kind, raw: Option<Obj>, addRef: bool)
    | Copy(h: Handle, from: Handle)
    | Move(h: Handle, from: Handle)
    | Destroy(h: Handle)
    | Swap(h: Handle, other: Handle)
    | Detach(h: Handle)
    | Reset(h: Handle, raw: Option<Obj>, addRef: bool)
    | Assign(h: Handle, from: Handle)
    | Lock(h: Handle, weak: Handle)
    | GetLocked(weak: Handle)

  // The small steps every operation is made of

  predicate Pointing(m: Heap, h: Handle) {
    h in m.ptrs && m.ptrs[h].target.Some?
  }

  function Target(m: Heap, h: Handle): Ref
    requires Pointing(m, h)
  {
    Ref(m.ptrs[h].kind, m.ptrs[h].target.value)
  }

  function Store(blocks: map<Obj, Block>, o: Obj, b: Block): map<Obj, Block> {
    if b.Freed? then blocks - {o} else blocks[o := b]
  }

  /** The pointer gives its reference up without touching the count. */
  function Unset(m: Heap, h: Handle): Heap
    requires Pointing(m, h)
  {
    m.(ptrs := m.ptrs[h := Ptr(m.ptrs[h].kind, None)], detached := m.detached + multiset{Target(m, h)})
  }

  function Adopt(m: Heap, h: Handle, o: Obj): Heap
    requires h in m.ptrs && !Pointing(m, h) && Ref(m.ptrs[h].kind, o) in m.detached
  {
    m.(ptrs := m.ptrs[h := Ptr(m.ptrs[h].kind, Some(o))], detached := m.detached - multiset{Ref(m.ptrs[h].kind, o)})
  }

  function AddRef(m: Heap, r: Ref): Heap
    requires r.obj in m.blocks && m.blocks[r.obj].Block?
  {
    m.(blocks := Store(m.blocks, r.obj, Added(m.blocks[r.obj], r.kind)), detached := m.detached + multiset{r})
  }

  function Drop(m: Heap, r: Ref): Heap
    requires r in m.detached && r.obj in m.blocks && Counted(m.blocks[r.obj], r.kind)
  {
    m.(blocks := Store(m.blocks, r.obj, Released(m.blocks[r.obj], r.kind)), detached := m.detached - multiset{r})
  }

  function Declare(m: Heap, h: Handle, kind: Kind): Heap
    requires h !in m.ptrs
  {
    m.(ptrs := m.ptrs[h := Ptr(kind, None)])
  }

  function Forget(m: Heap, h: Handle): Heap
    requires h in m.ptrs && !Pointing(m, h)
  {
    m.(ptrs := m.ptrs - {h})
  }

  // ----- The invariant

  function PointersTo(ptrs: map<Handle, Ptr>, r: Ref): set<Handle> {
    set h | h in ptrs && ptrs[h] == Ptr(r.kind, Some(r.obj))
  }

  /** Live pointers plus detached references. */
  function Owners(m: Heap, r: Ref): nat {
    |PointersTo(m.ptrs, r)| + m.detached[r]
  }

  predicate BlockInv(m: Heap, o: Obj) {
    var strong, weak := Owners(m, Ref(StrongRef, o)), Owners(m, Ref(WeakRef, o));
    if o in m.blocks then
      var b := m.blocks[o];
      && b.Block? && b.weak > 0
      && b.strong == strong
      && b.weak == weak + (if b.strong > 0 then 1 else 0)
      && (b.dataAlive <==> b.strong > 0)
    else strong == 0 && weak == 0
  }

  ghost predicate Inv(m: Heap) {
    forall o: Obj :: BlockInv(m, o)
  }

  lemma OwnersUpdate(m: Heap, h: Handle, p: Ptr, r: Ref)
    ensures |PointersTo(m.ptrs[h := p], r)|
            == |PointersTo(m.ptrs, r)|
               - (if h in m.ptrs && m.ptrs[h] == Ptr(r.kind, Some(r.obj)) then 1 else 0)
               + (if p == Ptr(r.kind, Some(r.obj)) then 1 else 0)
  {
    var before, after := PointersTo(m.ptrs, r), PointersTo(m.ptrs[h := p], r);
    var others := before - {h};
    assert after == if p == Ptr(r.kind, Some(r.obj)) then others + {h} else others;
    assert before == if h in before then others + {h} else others;
  }

  lemma OwnerIsCounted(m: Heap, r: Ref)
    requires Inv(m) && Owners(m, r) > 0
    ensures r.obj in m.blocks && Counted(m.blocks[r.obj], r.kind)
  {
    assert BlockInv(m, r.obj);
    if r.kind == StrongRef {
      assert r == Ref(StrongRef, r.obj);
    } else {
      assert r == Ref(WeakRef, r.obj);
    }
  }

  lemma PointerIsCounted(m: Heap, h: Handle)
    requires Inv(m) && Pointing(m, h)
    ensures var r := Target(m, h); r.obj in m.blocks && Counted(m.blocks[r.obj], r.kind)
  {
    var pointers := PointersTo(m.ptrs, Target(m, h));
    assert h in pointers;
    assert |pointers| > 0;
    OwnerIsCounted(m, Target(m, h));
  }

  lemma UnsetKeepsInv(m: Heap, h: Handle)
    requires Inv(m) && Pointing(m, h)
    ensures Inv(Unset(m, h)) && Target(m, h) in Unset(m, h).detached
  {
    forall o: Obj ensures BlockInv(Unset(m, h), o) {
      assert BlockInv(m, o);
      OwnersUpdate(m, h, Ptr(m.ptrs[h].kind, None), Ref(StrongRef, o));
      OwnersUpdate(m, h, Ptr(m.ptrs[h].kind, None), Ref(WeakRef, o));
    }
  }

  lemma AdoptKeepsInv(m: Heap, h: Handle, o: Obj)
    requires Inv(m) && h in m.ptrs && !Pointing(m, h) && Ref(m.ptrs[h].kind, o) in m.detached
    ensures Inv(Adopt(m, h, o))
  {
    forall x: Obj ensures BlockInv(Adopt(m, h, o), x) {
      assert BlockInv(m, x);
      OwnersUpdate(m, h, Ptr(m.ptrs[h].kind, Some(o)), Ref(StrongRef, x));
      OwnersUpdate(m, h, Ptr(m.ptrs[h].kind, Some(o)), Ref(WeakRef, x));
    }
  }

  /** A new strong reference needs an existing one; a new weak reference only needs the block. */
  lemma AddRefKeepsInv(m: Heap, r: Ref)
    requires Inv(m) && r.obj in m.blocks && Counted(m.blocks[r.obj], r.kind)
    ensures Inv(AddRef(m, r)) && r in AddRef(m, r).detached
  {
    assert BlockInv(m, r.obj);
    forall o: Obj ensures BlockInv(AddRef(m, r), o) {
      assert BlockInv(m, o);
    }
  }

  lemma DropKeepsInv(m: Heap, r: Ref)
    requires Inv(m) && r in m.detached
    ensures r.obj in m.blocks && Counted(m.blocks[r.obj], r.kind) && Inv(Drop(m, r))
  {
    OwnerIsCounted(m, r);
    forall o: Obj ensures BlockInv(Drop(m, r), o) {
      assert BlockInv(m, o);
    }
  }

  lemma DeclareKeepsInv(m: Heap, h: Handle, kind: Kind)
    requires Inv(m) && h !in m.ptrs
    ensures Inv(Declare(m, h, kind))
  {
    forall o: Obj ensures BlockInv(Declare(m, h, kind), o) {
      assert BlockInv(m, o);
      OwnersUpdate(m, h, Ptr(kind, None), Ref(StrongRef, o));
      OwnersUpdate(m, h, Ptr(kind, None), Ref(WeakRef, o));
    }
  }

  lemma ForgetKeepsInv(m: Heap, h: Handle)
    requires Inv(m) && h in m.ptrs && !Pointing(m, h)
    ensures Inv(Forget(m, h))
  {
    forall o: Obj ensures BlockInv(Forget(m, h), o) {
      assert BlockInv(m, o);
      assert PointersTo(Forget(m, h).ptrs, Ref(StrongRef, o)) == PointersTo(m.ptrs, Ref(StrongRef, o));
      assert PointersTo(Forget(m, h).ptrs, Ref(WeakRef, o)) == PointersTo(m.ptrs, Ref(WeakRef, o));
    }
  }

  // ----- The operations

  /** The caller of a constructor or reset names a live object, or a reference to adopt. */
  predicate CanTake(m: Heap, kind: Kind, raw: Option<Obj>, addRef: bool) {
    raw.Some? ==>
      if addRef then raw.value in m.blocks && Counted(m.blocks[raw.value], kind)
      else Ref(kind, raw.value) in m.detached
  }

  predicate Legal(m: Heap, op: Op) {
    match op
    case Spawn(h, o) => h !in m.ptrs && o !in m.blocks
    case Construct(h, kind, raw, addRef) => h !in m.ptrs && CanTake(m, kind, raw, addRef)
    case Copy(h, from) => h !in m.ptrs && from in m.ptrs
    case Move(h, from) => h !in m.ptrs && from in m.ptrs
    case Destroy(h) => h in m.ptrs
    case Swap(h, other) => h in m.ptrs && other in m.ptrs && m.ptrs[h].kind == m.ptrs[other].kind
    case Detach(h) => h in m.ptrs
    case Reset(h, raw, addRef) => h in m.ptrs && CanTake(m, m.ptrs[h].kind, raw, addRef)
    case Assign(h, from) => h in m.ptrs && from in m.ptrs && m.ptrs[h].kind == m.ptrs[from].kind
    case Lock(h, weak) => h !in m.ptrs && weak in m.ptrs && m.ptrs[weak].kind == WeakRef
    case GetLocked(weak) => weak in m.ptrs && m.ptrs[weak].kind == WeakRef
  }

  /** Every pointer of `m` points to a counted block: what keeps the functions below from failing. */
  predicate Sound(m: Heap, h: Handle) {
    h in m.ptrs
    && (Pointing(m, h) ==> Target(m, h).obj in m.blocks && Counted(m.blocks[Target(m, h).obj], m.ptrs[h].kind))
  }

  predicate AllSound(m: Heap) {
    forall h :: h in m.ptrs ==> Sound(m, h)
  }

  function SetPtr(m: Heap, h: Handle, raw: Option<Obj>, addRef: bool): Heap
    requires h in m.ptrs && !Pointing(m, h) && CanTake(m, m.ptrs[h].kind, raw, addRef)
  {
    if raw.None? then m
    else if addRef then Adopt(AddRef(m, Ref(m.ptrs[h].kind, raw.value)), h, raw.value)
    else Adopt(m, h, raw.value)
  }

  function DoDetach(m: Heap, h: Handle): Heap
    requires h in m.ptrs
  {
    if Pointing(m, h) then Unset(m, h) else m
  }

  /** The new target is stored and counted first, then the reference to the old one is dropped. */
  function DoReset(m: Heap, h: Handle, raw: Option<Obj>, addRef: bool): Heap
    requires Sound(m, h) && CanTake(m, m.ptrs[h].kind, raw, addRef)
  {
    if Pointing(m, h) then
      OldTargetIsCounted(m, h, raw, addRef);
      Drop(SetPtr(Unset(m, h), h, raw, addRef), Target(m, h))
    else SetPtr(m, h, raw, addRef)
  }

  lemma OldTargetIsCounted(m: Heap, h: Handle, raw: Option<Obj>, addRef: bool)
    requires Sound(m, h) && Pointing(m, h) && CanTake(m, m.ptrs[h].kind, raw, addRef)
    ensures var u, r := Unset(m, h), Target(m, h);
            && h in u.ptrs && !Pointing(u, h) && CanTake(u, u.ptrs[h].kind, raw, addRef)
            && var t := SetPtr(u, h, raw, addRef);
               r in t.detached && r.obj in t.blocks && Counted(t.blocks[r.obj], r.kind)
  {
  }

  function DoConstruct(m: Heap, h: Handle, kind: Kind, raw: Option<Obj>, addRef: bool): Heap
    requires h !in m.ptrs && CanTake(m, kind, raw, addRef)
  {
    SetPtr(Declare(m, h, kind), h, raw, addRef)
  }

  function DoDestroy(m: Heap, h: Handle): Heap
    requires Sound(m, h)
  {
    Forget(DoReset(m, h, None, true), h)
  }

  /** A new actor starts with one strong reference, which the first pointer adopts. */
  function Born(m: Heap, o: Obj): Heap {
    m.(blocks := m.blocks[o := Block(1, 1, true)], detached := m.detached + multiset{Ref(StrongRef, o)})
  }

  /** `intrusive_ptr_upgrade_weak`: the new strong reference is still detached. */
  function DoUpgrade(m: Heap, o: Obj): Heap
    requires o in m.blocks && m.blocks[o].Block?
  {
    if m.blocks[o].strong == 0 then m else AddRef(m, Ref(StrongRef, o))
  }

  function DoLock(m: Heap, h: Handle, weak: Handle): Heap
    requires h !in m.ptrs && Sound(m, weak)
  {
    if Pointing(m, weak) && m.blocks[m.ptrs[weak].target.value].strong > 0
    then DoConstruct(DoUpgrade(m, m.ptrs[weak].target.value), h, StrongRef, m.ptrs[weak].target, false)
    else DoConstruct(m, h, StrongRef, None, false)
  }

  function Apply(m: Heap, op: Op): Heap
    requires Legal(m, op) && AllSound(m)
  {
    match op
    case Spawn(h, o) => DoConstruct(Born(m, o), h, StrongRef, Some(o), false)
    case Construct(h, kind, raw, addRef) => DoConstruct(m, h, kind, raw, addRef)
    case Copy(h, from) => assert Sound(m, from); DoConstruct(m, h, m.ptrs[from].kind, m.ptrs[from].target, true)
    case Move(h, from) => DoConstruct(DoDetach(m, from), h, m.ptrs[from].kind, m.ptrs[from].target, false)
    case Destroy(h) => DoDestroy(m, h)
    case Swap(h, other) => m.(ptrs := m.ptrs[h := m.ptrs[other]][other := m.ptrs[h]])
    case Detach(h) => DoDetach(m, h)
    case Reset(h, raw, addRef) => DoReset(m, h, raw, addRef)
    case Assign(h, from) => assert Sound(m, from); DoReset(m, h, m.ptrs[from].target, true)
    case Lock(h, weak) => DoLock(m, h, weak)
    case GetLocked(weak) =>
      assert Sound(m, weak);
      if Pointing(m, weak) then DoUpgrade(m, m.ptrs[weak].target.value) else m
  }

  // ----- Every operation keeps the invariant

  lemma InvIsSound(m: Heap)
    requires Inv(m)
    ensures AllSound(m)
  {
    forall h | h in m.ptrs ensures Sound(m, h) {
      if Pointing(m, h) { PointerIsCounted(m, h); }
    }
  }

  lemma SetPtrKeepsInv(m: Heap, h: Handle, raw: Option<Obj>, addRef: bool)
    requires Inv(m) && h in m.ptrs && !Pointing(m, h) && CanTake(m, m.ptrs[h].kind, raw, addRef)
    ensures Inv(SetPtr(m, h, raw, addRef))
  {
    if raw.Some? {
      var r := Ref(m.ptrs[h].kind, raw.value);
      if addRef {
        AddRefKeepsInv(m, r);
        AdoptKeepsInv(AddRef(m, r), h, raw.value);
      } else {
        AdoptKeepsInv(m, h, raw.value);
      }
    }
  }

  lemma ResetKeepsInv(m: Heap, h: Handle, raw: Option<Obj>, addRef: bool)
    requires Inv(m) && Sound(m, h) && CanTake(m, m.ptrs[h].kind, raw, addRef)
    ensures Inv(DoReset(m, h, raw, addRef))
  {
    if Pointing(m, h) {
      UnsetKeepsInv(m, h);
      SetPtrKeepsInv(Unset(m, h), h, raw, addRef);
      DropKeepsInv(SetPtr(Unset(m, h), h, raw, addRef), Target(m, h));
    } else {
      SetPtrKeepsInv(m, h, raw, addRef);
    }
  }

  lemma ConstructKeepsInv(m: Heap, h: Handle, kind: Kind, raw: Option<Obj>, addRef: bool)
    requires Inv(m) && h !in m.ptrs && CanTake(m, kind, raw, addRef)
    ensures Inv(DoConstruct(m, h, kind, raw, addRef))
  {
    DeclareKeepsInv(m, h, kind);
    SetPtrKeepsInv(Declare(m, h, kind), h, raw, addRef);
  }

  lemma BornKeepsInv(m: Heap, o: Obj)
    requires Inv(m) && o !in m.blocks
    ensures Inv(Born(m, o))
  {
    forall x: Obj ensures BlockInv(Born(m, o), x) {
      assert BlockInv(m, x);
    }
  }

  lemma UpgradeKeepsInv(m: Heap, o: Obj)
    requires Inv(m) && o in m.blocks && m.blocks[o].Block?
    ensures Inv(DoUpgrade(m, o))
  {
    assert BlockInv(m, o);
    if m.blocks[o].strong > 0 {
      AddRefKeepsInv(m, Ref(StrongRef, o));
    }
  }

  lemma SwapKeepsInv(m: Heap, h: Handle, other: Handle)
    requires Inv(m) && h in m.ptrs && other in m.ptrs && m.ptrs[h].kind == m.ptrs[other].kind
    ensures Inv(m.(ptrs := m.ptrs[h := m.ptrs[other]][other := m.ptrs[h]]))
  {
    var mid := m.(ptrs := m.ptrs[h := m.ptrs[other]]);
    var r := m.(ptrs := mid.ptrs[other := m.ptrs[h]]);
    forall o: Obj ensures BlockInv(r, o) {
      assert BlockInv(m, o);
      OwnersUpdate(m, h, m.ptrs[other], Ref(StrongRef, o));
      OwnersUpdate(m, h, m.ptrs[other], Ref(WeakRef, o));
      OwnersUpdate(mid, other, m.ptrs[h], Ref(StrongRef, o));
      OwnersUpdate(mid, other, m.ptrs[h], Ref(WeakRef, o));
    }
  }

  lemma ApplyKeepsInv(m: Heap, op: Op)
    requires Inv(m) && Legal(m, op) && AllSound(m)
    ensures Inv(Apply(m, op))
  {
    match op
    case Spawn(h, o) =>
      BornKeepsInv(m, o);
      ConstructKeepsInv(Born(m, o), h, StrongRef, Some(o), false);
    case Construct(h, kind, raw, addRef) => ConstructKeepsInv(m, h, kind, raw, addRef);
    case Copy(h, from) =>
      assert Sound(m, from);
      ConstructKeepsInv(m, h, m.ptrs[from].kind, m.ptrs[from].target, true);
    case Move(h, from) =>
      if Pointing(m, from) { UnsetKeepsInv(m, from); }
      ConstructKeepsInv(DoDetach(m, from), h, m.ptrs[from].kind, m.ptrs[from].target, false);
    case Destroy(h) =>
      ResetKeepsInv(m, h, None, true);
      ForgetKeepsInv(DoReset(m, h, None, true), h);
    case Swap(h, other) => SwapKeepsInv(m, h, other);
    case Detach(h) => if Pointing(m, h) { UnsetKeepsInv(m, h); }
    case Reset(h, raw, addRef) => ResetKeepsInv(m, h, raw, addRef);
    case Assign(h, from) =>
      assert Sound(m, from);
      ResetKeepsInv(m, h, m.ptrs[from].target, true);
    case Lock(h, weak) => LockKeepsInv(m, h, weak);
    case GetLocked(weak) =>
      assert Sound(m, weak);
      if Pointing(m, weak) { UpgradeKeepsInv(m, m.ptrs[weak].target.value); }
  }

  lemma LockKeepsInv(m: Heap, h: Handle, weak: Handle)
    requires Inv(m) && h !in m.ptrs && Sound(m, weak)
    ensures Inv(DoLock(m, h, weak))
  {
    if Pointing(m, weak) && m.blocks[m.ptrs[weak].target.value].strong > 0 {
      var o := m.ptrs[weak].target.value;
      UpgradeKeepsInv(m, o);
      ConstructKeepsInv(DoUpgrade(m, o), h, StrongRef, Some(o), false);
    } else {
      ConstructKeepsInv(m, h, StrongRef, None, false);
    }
  }

  // ----- Whole programs

  predicate StepsTo(r: Heap, op: Op, m: Heap) {
    Legal(r, op) && AllSound(r) && m == Apply(r, op)
  }

  /** `ops` is a program from the empty heap that meets its callers' obligations; `m` is where it ends. */
  ghost predicate Runs(ops: seq<Op>, m: Heap)
    decreases |ops|
  {
    if ops == [] then m == Heap(map[], map[], multiset{})
    else
      var op := ops[|ops| - 1];
      exists r :: Runs(ops[..|ops| - 1], r) && StepsTo(r, op, m)
  }

  lemma {:induction false} RunInv(ops: seq<Op>, m: Heap)
    requires Runs(ops, m)
    ensures Inv(m)
    ensures AllSound(m)
    decreases |ops|
  {
    if ops == [] {
      forall o: Obj ensures BlockInv(m, o) {
        assert PointersTo(m.ptrs, Ref(StrongRef, o)) == {} && PointersTo(m.ptrs, Ref(WeakRef, o)) == {};
      }
    } else {
      var front, op := ops[..|ops| - 1], ops[|ops| - 1];
      var r :| Runs(front, r) && StepsTo(r, op, m);
      RunInv(front, r);
      ApplyKeepsInv(r, op);
    }
    InvIsSound(m);
  }

  /** No program meets a state in which an operation its caller may make has nothing to act on. */
  lemma EveryLegalOpRuns(ops: seq<Op>, m: Heap, op: Op)
    requires Runs(ops, m) && Legal(m, op)
    ensures AllSound(m)
    ensures Runs(ops + [op], Apply(m, op))
  {
    RunInv(ops, m);
    OneMoreOp(ops, m, op, Apply(m, op));
  }

  lemma OneMoreOp(ops: seq<Op>, m: Heap, op: Op, r: Heap)
    requires Runs(ops, m) && StepsTo(m, op, r)
    ensures Runs(ops + [op], r)
  {
    var more := ops + [op];
    assert more[..|more| - 1] == ops && more[|more| - 1] == op;
  }

  /** The counts are the numbers of owners, the weak count with one implicit owner while the data lives. */
  lemma CountsAreOwners(ops: seq<Op>, m: Heap, o: Obj)
    requires Runs(ops, m)
    ensures var strong, weak := Owners(m, Ref(StrongRef, o)), Owners(m, Ref(WeakRef, o));
            if strong == 0 && weak == 0 then o !in m.blocks
            else o in m.blocks && m.blocks[o] == Block(strong, weak + (if strong > 0 then 1 else 0), strong > 0)
  {
    RunInv(ops, m);
    assert BlockInv(m, o);
  }

  /** No object is released while a pointer points to it. */
  lemma NoDanglingPointer(ops: seq<Op>, m: Heap, h: Handle)
    requires Runs(ops, m) && Pointing(m, h)
    ensures var r := Target(m, h);
            && r.obj in m.blocks && m.blocks[r.obj].Block?
            && (r.kind == StrongRef ==> m.blocks[r.obj].dataAlive)
  {
    RunInv(ops, m);
    PointerIsCounted(m, h);
    assert BlockInv(m, Target(m, h).obj);
  }

  /** Resetting a pointer to its own target, or assigning it to itself, changes nothing. */
  lemma SelfResetIsNeutral(m: Heap, h: Handle)
    requires Pointing(m, h) && AllSound(m)
    ensures Legal(m, Reset(h, m.ptrs[h].target, true)) && Legal(m, Assign(h, h))
    ensures Apply(m, Reset(h, m.ptrs[h].target, true)) == m
    ensures Apply(m, Assign(h, h)) == m
  {
    assert Sound(m, h);
    var r := Target(m, h);
    var mid := SetPtr(Unset(m, h), h, Some(r.obj), true);
    assert mid.ptrs == m.ptrs;
    assert mid.blocks == m.blocks[r.obj := Added(m.blocks[r.obj], r.kind)];
    assert Drop(mid, r).blocks == m.blocks;
    assert Drop(mid, r).detached == m.detached;
  }

  function PlusRef(blocks: map<Obj, Block>, kind: Kind, raw: Option<Obj>): map<Obj, Block>
    requires raw.Some? ==> raw.value in blocks && blocks[raw.value].Block?
  {
    if raw.None? then blocks else Store(blocks, raw.value, Added(blocks[raw.value], kind))
  }

  function MinusRef(blocks: map<Obj, Block>, kind: Kind, raw: Option<Obj>): map<Obj, Block>
    requires raw.Some? ==> raw.value in blocks && Counted(blocks[raw.value], kind)
  {
    if raw.None? then blocks else Store(blocks, raw.value, Released(blocks[raw.value], kind))
  }

  lemma ConstructEffect(m: Heap, h: Handle, kind: Kind, raw: Option<Obj>)
    requires h !in m.ptrs && CanTake(m, kind, raw, true)
    ensures DoConstruct(m, h, kind, raw, true)
            == Heap(PlusRef(m.blocks, kind, raw), m.ptrs[h := Ptr(kind, raw)], m.detached)
  {
    if raw.Some? {
      var d := Declare(m, h, kind);
      assert d.ptrs[h := Ptr(kind, raw)] == m.ptrs[h := Ptr(kind, raw)];
      assert m.detached + multiset{Ref(kind, raw.value)} - multiset{Ref(kind, raw.value)} == m.detached;
    }
  }

  lemma ResetEffect(m: Heap, h: Handle, raw: Option<Obj>)
    requires Sound(m, h) && CanTake(m, m.ptrs[h].kind, raw, true)
    ensures var kind, old' := m.ptrs[h].kind, m.ptrs[h].target;
            var blocks := PlusRef(m.blocks, kind, raw);
            && (old'.Some? ==> old'.value in blocks && Counted(blocks[old'.value], kind))
            && DoReset(m, h, raw, true) == Heap(MinusRef(blocks, kind, old'), m.ptrs[h := Ptr(kind, raw)], m.detached)
  {
    if Pointing(m, h) {
      OldTargetIsCounted(m, h, raw, true);
      UnsetEffect(m, h, raw);
      SetPtrEffect(Unset(m, h), h, raw);
    } else {
      SetPtrEffect(m, h, raw);
    }
  }

  lemma UnsetEffect(m: Heap, h: Handle, raw: Option<Obj>)
    requires Pointing(m, h)
    ensures var u, p := Unset(m, h), Ptr(m.ptrs[h].kind, raw);
            u.ptrs[h := p] == m.ptrs[h := p] && u.detached - multiset{Target(m, h)} == m.detached
  {
  }

  lemma SetPtrEffect(m: Heap, h: Handle, raw: Option<Obj>)
    requires h in m.ptrs && !Pointing(m, h) && CanTake(m, m.ptrs[h].kind, raw, true)
    ensures var kind := m.ptrs[h].kind;
            SetPtr(m, h, raw, true) == Heap(PlusRef(m.blocks, kind, raw), m.ptrs[h := Ptr(kind, raw)], m.detached)
  {
    if raw.Some? {
      var r := Ref(m.ptrs[h].kind, raw.value);
      assert m.detached + multiset{r} - multiset{r} == m.detached;
    } else {
      assert m.ptrs[h := m.ptrs[h]] == m.ptrs;
    }
  }

  /** Copy assignment is what the source makes of it: copy into a temporary, swap, destroy the temporary. */
  lemma AssignIsCopyAndSwap(m: Heap, h: Handle, from: Handle, temp: Handle)
    requires AllSound(m) && Legal(m, Assign(h, from)) && temp !in m.ptrs
    ensures var copied := Apply(m, Copy(temp, from));
            && Legal(copied, Swap(h, temp))
            && var swapped := copied.(ptrs := copied.ptrs[h := copied.ptrs[temp]][temp := copied.ptrs[h]]);
               Sound(swapped, temp) && DoDestroy(swapped, temp) == Apply(m, Assign(h, from))
  {
    assert Sound(m, from) && Sound(m, h);
    var kind, raw := m.ptrs[h].kind, m.ptrs[from].target;
    ConstructEffect(m, temp, kind, raw);
    ResetEffect(m, h, raw);
    SwapsWithTemp(m.ptrs, h, temp, Ptr(kind, raw));
    var swapped := Heap(PlusRef(m.blocks, kind, raw), m.ptrs[h := Ptr(kind, raw)][temp := m.ptrs[h]], m.detached);
    DestroyTemp(swapped, temp, m.ptrs[h := Ptr(kind, raw)]);
  }

  lemma SwapsWithTemp(ptrs: map<Handle, Ptr>, h: Handle, temp: Handle, p: Ptr)
    requires h in ptrs && temp !in ptrs
    ensures var copied := ptrs[temp := p];
            copied[h := copied[temp]][temp := copied[h]] == ptrs[h := p][temp := ptrs[h]]
  {
  }

  lemma DestroyTemp(m: Heap, temp: Handle, ptrs: map<Handle, Ptr>)
    requires Sound(m, temp) && temp !in ptrs && m.ptrs == ptrs[temp := m.ptrs[temp]]
    ensures DoDestroy(m, temp) == Heap(MinusRef(m.blocks, m.ptrs[temp].kind, m.ptrs[temp].target), ptrs, m.detached)
  {
    ResetEffect(m, temp, None);
    assert m.ptrs[temp := Ptr(m.ptrs[temp].kind, None)] - {temp} == ptrs;
  }

  /** What a reset does to any block is what the pointer object's `Reset` does to it. */
  lemma ResetMatchesObject(m: Heap, h: Handle, raw: Option<Obj>, addRef: bool, o: Obj)
    requires Sound(m, h) && CanTake(m, m.ptrs[h].kind, raw, addRef) && o in m.blocks && m.blocks[o].Block?
    ensures var kind, adds, drops := m.ptrs[h].kind, raw == Some(o) && addRef, m.ptrs[h].target == Some(o);
            && (drops ==> Counted(m.blocks[o], kind))
            && var b := AfterSwitch(m.blocks[o], kind, adds, drops);
               var r := DoReset(m, h, raw, addRef);
               if b.Freed? then o !in r.blocks else o in r.blocks && r.blocks[o] == b
  {
  }

  /** `lock` yields a strong pointer exactly when there is a target whose data is alive, and adds its reference. */
  lemma LockIsExact(ops: seq<Op>, m: Heap, h: Handle, weak: Handle)
    requires Runs(ops, m) && Legal(m, Lock(h, weak))
    ensures Sound(m, weak)
    ensures var target, r := m.ptrs[weak].target, DoLock(m, h, weak);
            if target.Some? && m.blocks[target.value].dataAlive
            then r == Heap(m.blocks[target.value := Upgraded(m.blocks[target.value])],
                           m.ptrs[h := Ptr(StrongRef, target)], m.detached)
            else r == m.(ptrs := m.ptrs[h := Ptr(StrongRef, None)])
  {
    RunInv(ops, m);
    if Pointing(m, weak) {
      assert BlockInv(m, m.ptrs[weak].target.value);
      LockEffect(m, h, weak);
    }
  }

  lemma LockEffect(m: Heap, h: Handle, weak: Handle)
    requires h !in m.ptrs && Sound(m, weak) && Pointing(m, weak)
    ensures var o, r := m.ptrs[weak].target.value, DoLock(m, h, weak);
            && r.ptrs == m.ptrs[h := Ptr(StrongRef, if m.blocks[o].strong > 0 then Some(o) else None)]
            && r.blocks == m.blocks[o := Upgraded(m.blocks[o])]
            && r.detached == m.detached
  {
    var o := m.ptrs[weak].target.value;
    assert m.blocks[o := m.blocks[o]] == m.blocks;
  }
}
