/**
 * `Ref.h`: `WTF::Ref<T>`, a pointer that owns one reference to a
 * reference-counted object. Every constructor and assignment is modelled
 * by what it does to the pointer and to the counts of the objects
 * involved.
 *
 * `RefCounted.h` is not part of this model: a counted object is a
 * `RefCounted` with a count and a flag saying that the count reached zero
 * and the object was deleted. `ref()` on a deleted object is a use after
 * free, so it requires the object to be alive.
 */
module WtfRef {
  /** An object with an intrusive reference count. */
  class RefCounted {
    var refCount: nat
    var destroyed: bool

    /** A new object holds the one reference its creator owns. */
    constructor ()
      ensures refCount == 1 && !destroyed
    {
      refCount := 1;
      destroyed := false;
    }

    /** `ref()`: one more reference. */
    method Ref()
      requires !destroyed
      modifies this
      ensures refCount == old(refCount) + 1 && !destroyed
    {
      refCount := refCount + 1;
    }

    /** `deref()`: one reference fewer; the last one deletes the object. */
    method Deref()
      requires !destroyed && refCount >= 1
      modifies this
      ensures refCount == old(refCount) - 1
      ensures destroyed <==> refCount == 0
    {
      refCount := refCount - 1;
      destroyed := refCount == 0;
    }
  }

  /** `Ref<T>`: `m_ptr`, null only once the reference has been moved out. */
  class Ref {
    var ptr: RefCounted?

    /** `Ref(T&)`: points at the object and takes a reference to it. */
    constructor (target: RefCounted)
      requires !target.destroyed
      modifies target
      ensures ptr == target && target.refCount == old(target.refCount) + 1 && !target.destroyed
    {
      ptr := target;
      new;
      target.Ref();
    }

    /** `Ref(T&, Adopt)`, reached through `adoptRef`: points at the object
        and takes over a reference its caller already holds. */
    constructor Adopt(target: RefCounted)
      ensures ptr == target
    {
      ptr := target;
    }

    /** `Ref(Ref&&)`: takes the other's pointer, leaving it null; no count
        changes. */
    constructor Move(other: Ref)
      requires other.ptr != null
      modifies other
      ensures ptr == old(other.ptr) && other.ptr == null
    {
      new;
      var p := other.LeakRef();
      ptr := p;
    }

    /** `~Ref`: gives up the reference, if the pointer still holds one. */
    method Destroy()
      requires ptr != null ==> !ptr.destroyed && ptr.refCount >= 1
      modifies if ptr == null then {} else {ptr}
      ensures ptr == old(ptr)
      ensures ptr != null ==> ptr.refCount == old(ptr.refCount) - 1 && (ptr.destroyed <==> ptr.refCount == 0)
    {
      if ptr != null {
        ptr.Deref();
      }
    }

    /** `operator=(T&)`: refs the new object before dereffing the old one,
        so assigning the object a reference already holds leaves its count
        as it was and the object alive. */
    method AssignObject(target: RefCounted)
      requires ptr != null && !ptr.destroyed && ptr.refCount >= 1 && !target.destroyed
      modifies this, ptr, target
      ensures ptr == target && !target.destroyed
      ensures target == old(ptr) ==> target.refCount == old(target.refCount)
      ensures target != old(ptr) ==>
        target.refCount == old(target.refCount) + 1 &&
        old(ptr).refCount == old(ptr.refCount) - 1 && (old(ptr).destroyed <==> old(ptr).refCount == 0)
    {
      target.Ref();
      ptr.Deref();
      ptr := target;
    }

    /** `operator=(Ref&&)`: derefs the old object once and takes the
        other's pointer, leaving it null, with no change to the other
        object's count. */
    method MoveAssign(reference: Ref)
      requires ptr != null && !ptr.destroyed && ptr.refCount >= 1 && reference.ptr != null
      modifies this, ptr, reference
      ensures ptr == old(reference.ptr)
      ensures reference != this ==> reference.ptr == null
      ensures old(ptr).refCount == old(ptr.refCount) - 1 && (old(ptr).destroyed <==> old(ptr).refCount == 0)
    {
      ptr.Deref();
      var p := reference.LeakRef();
      ptr := p;
    }

    /** `copyRef`: a new reference to the same object, which gains exactly
        one reference. */
    method CopyRef() returns (copy: Ref)
      requires ptr != null && !ptr.destroyed
      modifies ptr
      ensures fresh(copy) && copy.ptr == ptr
      ensures ptr.refCount == old(ptr.refCount) + 1 && !ptr.destroyed
    {
      copy := new Ref(ptr);
    }

    /** `leakRef`: returns the object and nulls the pointer; the reference
        passes to the caller, so no count changes. */
    method LeakRef() returns (target: RefCounted)
      requires ptr != null
      modifies this
      ensures target == old(ptr) && ptr == null
    {
      target := ptr;
      ptr := null;
    }

    /** `replace`: installs the other reference's object and returns the
        old one adopted, with no count changes. */
    method Replace(reference: Ref) returns (oldReference: Ref)
      requires ptr != null && reference.ptr != null
      modifies this, reference
      ensures fresh(oldReference) && oldReference.ptr == old(ptr)
      ensures ptr == old(reference.ptr)
      ensures reference != this ==> reference.ptr == null
    {
      oldReference := AdoptRef(ptr);
      var p := reference.LeakRef();
      ptr := p;
    }
  }

  /** `adoptRef`: wraps the object without ref-ing it. */
  method AdoptRef(target: RefCounted) returns (r: Ref)
    ensures fresh(r) && r.ptr == target
  {
    r := new Ref.Adopt(target);
  }

  /** Copying a reference and dropping the copy leaves the count as it
      was and the object alive. */
  method CopyThenDrop(r: Ref)
    requires r.ptr != null && !r.ptr.destroyed && r.ptr.refCount >= 1
    modifies r.ptr
    ensures r.ptr.refCount == old(r.ptr.refCount) && !r.ptr.destroyed
  {
    var copy := r.CopyRef();
    copy.Destroy();
  }

  /** A new object adopted into a `Ref` is deleted when that `Ref` is
      dropped: the adopted reference is the only one. */
  method AdoptThenDrop() returns (target: RefCounted)
    ensures target.destroyed && target.refCount == 0
  {
    target := new RefCounted();
    var r := AdoptRef(target);
    r.Destroy();
  }

  /** Moving a reference into a new `Ref` and dropping both leaves one
      reference fewer: the moved-from `Ref` is null and derefs nothing. */
  method MoveThenDrop(r: Ref)
    requires r.ptr != null && !r.ptr.destroyed && r.ptr.refCount >= 1
    modifies r, r.ptr
    ensures r.ptr == null
    ensures old(r.ptr).refCount == old(r.ptr.refCount) - 1
  {
    var moved := new Ref.Move(r);
    r.Destroy();
    moved.Destroy();
  }

  /** Assigning a `Ref` the object it already holds, even when it holds
      the only reference, keeps the object alive with its count unchanged. */
  method SelfAssign(r: Ref)
    requires r.ptr != null && !r.ptr.destroyed && r.ptr.refCount >= 1
    modifies r, r.ptr
    ensures r.ptr == old(r.ptr) && !r.ptr.destroyed && r.ptr.refCount == old(r.ptr.refCount)
  {
    r.AssignObject(r.ptr);
  }
}
