/** A single-threaded reference-counted pointer: handles share one heap
    cell holding a value and a count; cloning a handle raises the count,
    dropping one lowers it, and dropping the last one frees the cell.
    The cell records, as ghost state, which handles are live, so that the
    count can be tied to the number of handles that refer to it. */
module CustomRc {

  /** The shared heap cell. */
  class Inner<T> {
    const value: T
    var count: nat
    /** Set once the cell has been deallocated. */
    var freed: bool
    /** The handles currently referring to this cell. */
    ghost var handles: set<MyRc<T>>

    /** While the cell is allocated its count is the number of live
        handles, at least one; once freed, no handle refers to it. */
    ghost predicate Valid()
      reads this, handles
    {
      (freed ==> handles == {}) &&
      (!freed ==> count == |handles| && count >= 1) &&
      (forall h :: h in handles ==> h.ptr == this && h.live)
    }

    constructor (value: T)
      ensures this.value == value && count == 1 && !freed && handles == {}
    {
      this.value := value;
      count := 1;
      freed := false;
      handles := {};
    }
  }

  /** A handle: a pointer to the shared cell. */
  class MyRc<T> {
    const ptr: Inner<T>
    /** False once this handle has been dropped. */
    ghost var live: bool

    ghost predicate Valid()
      reads this, ptr, ptr.handles
    {
      live && this in ptr.handles && !ptr.freed && ptr.Valid()
    }

    /** A new cell holding `value`, with this handle its only owner. */
    constructor (value: T)
      ensures Valid() && fresh(ptr)
      ensures ptr.value == value && ptr.count == 1 && ptr.handles == {this}
    {
      ptr := new Inner(value);
      live := true;
      new;
      ptr.handles := {this};
    }

    /** A further handle on an existing cell; only `Clone` makes one. */
    constructor Share(p: Inner<T>)
      ensures ptr == p && live
    {
      ptr := p;
      live := true;
    }

    /** The current count, which is the number of live handles on the cell. */
    method Count() returns (n: nat)
      requires Valid()
      ensures n == ptr.count && n == |ptr.handles| && n >= 1
    {
      n := ptr.count;
    }

    /** A new handle on the same cell; the count rises by exactly one and
        every handle on the cell stays valid. */
    method Clone() returns (other: MyRc<T>)
      requires Valid()
      modifies ptr
      ensures fresh(other) && other.ptr == ptr && other != this
      ensures ptr.count == old(ptr.count) + 1
      ensures ptr.handles == old(ptr.handles) + {other}
      ensures !ptr.freed
      ensures Valid() && other.Valid()
      ensures forall h :: h in ptr.handles ==> h.Valid()
    {
      ptr.count := ptr.count + 1;
      other := new MyRc.Share(ptr);
      ptr.handles := ptr.handles + {other};
    }

    /** Dropping a handle: the last one frees the cell, any other lowers the
        count by exactly one and leaves the cell and the remaining handles
        valid. */
    method Drop()
      requires Valid()
      modifies this, ptr
      ensures !live
      ensures old(ptr.count) == 1 ==> ptr.freed && ptr.handles == {} && ptr.count == old(ptr.count)
      ensures old(ptr.count) > 1 ==>
                !ptr.freed && ptr.count == old(ptr.count) - 1 && ptr.handles == old(ptr.handles) - {this}
      ensures ptr.freed <==> old(ptr.handles) == {this}
      ensures ptr.Valid()
      ensures forall h :: h in ptr.handles ==> h.Valid()
    {
      live := false;
      var count := ptr.count;
      if count == 1 {
        OnlyMember(ptr.handles, this);
        ptr.freed := true;
        ptr.handles := {};
      } else {
        ptr.count := count - 1;
        ptr.handles := ptr.handles - {this};
      }
    }

    /** The value in the cell, which no clone or drop changes. */
    method Deref() returns (v: T)
      requires Valid()
      ensures v == ptr.value
    {
      v := ptr.value;
    }
  }

  /** A set of one element that holds `x` is `{x}`. */
  lemma OnlyMember<X>(s: set<X>, x: X)
    requires x in s && |s| == 1
    ensures s == {x}
  {
    var rest := s - {x};
    assert s == rest + {x};
    assert |rest| == 0;
  }

  /** The demonstration: create `a` holding 42, clone it into `b`, read both,
      drop `b`, then drop `a` at the end of the scope. The count goes
      1, 2, 1, both handles read 42 and the cell ends freed. */
  method Example() returns (counts: seq<nat>, values: seq<int>, freed: bool)
    ensures counts == [1, 2, 1]
    ensures values == [42, 42]
    ensures freed
  {
    var a := new MyRc(42);
    var c1 := a.Count();
    var b := a.Clone();
    var c2 := a.Count();
    var va := a.Deref();
    var vb := b.Deref();
    b.Drop();
    var c3 := a.Count();
    a.Drop();
    counts := [c1, c2, c3];
    values := [va, vb];
    freed := a.ptr.freed;
  }
}
