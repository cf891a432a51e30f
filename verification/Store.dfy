/** The part of an EyeDB database the inverse engine reads and writes: reference slots
    (one oid per object and attribute), collections, and the in-memory IDR of the object
    being stored. */
module Store {
  import opened Outcomes

  type Oid = nat
  const NULL_OID: Oid := 0

  /** The identity of an attribute; the layout that gives it an offset is not modelled. */
  type Item = nat

  datatype Slot = Slot(obj: Oid, item: Item)

  datatype Coll = Coll(elems: set<Oid>, removed: bool)

  /** A database image.  A slot that was never written holds the null oid; `next` is the
      next oid the storage manager will hand out. */
  datatype Db = Db(slots: map<Slot, Oid>, colls: map<Oid, Coll>, next: Oid) {

    function Read(item: Item, obj: Oid): Oid {
      if Slot(obj, item) in slots then slots[Slot(obj, item)] else NULL_OID
    }

    predicate Live(c: Oid) {
      c in colls && !colls[c].removed
    }

    function Elems(c: Oid): set<Oid> {
      if Live(c) then colls[c].elems else {}
    }

    /** The elements of the collection that attribute `item` of `obj` refers to. */
    function Members(item: Item, obj: Oid): set<Oid> {
      Elems(Read(item, obj))
    }

    /** `c` is null or names a collection, live or removed. */
    predicate Readable(c: Oid) {
      c == NULL_OID || c in colls
    }

    /** The storage manager's view: every oid in use was handed out, no object is null. */
    ghost predicate Sane() {
      && NULL_OID !in colls
      && 0 < next
      && (forall c <- colls :: c < next && NULL_OID !in colls[c].elems)
      && (forall s <- slots :: s.obj != NULL_OID && slots[s] < next)
    }
  }

  /** The slots of `x` as its IDR gives them. */
  function OfObject(x: Oid, idr: map<Item, Oid>): map<Slot, Oid> {
    map at | at in idr :: Slot(x, at) := idr[at]
  }

  /** `now` is the IDR `was` of `x` after the slot writes `w`: each write aimed at `x` is
      copied into it. */
  ghost predicate Patched(now: map<Item, Oid>, was: map<Item, Oid>, x: Oid, w: map<Slot, Oid>) {
    && (forall at :: at in now <==> at in was || Slot(x, at) in w)
    && (forall at | at in now :: now[at] == if Slot(x, at) in w then w[Slot(x, at)] else was[at])
  }

  /** The collection `k` without `es`; a removed collection stays as it is. */
  function Without(k: Coll, es: set<Oid>): Coll {
    if k.removed then k else Coll(k.elems - es, false)
  }

  /** Takes `es` out of every live collection in `cs`. */
  function Strip(colls: map<Oid, Coll>, cs: set<Oid>, es: set<Oid>): map<Oid, Coll> {
    map c | c in colls :: if c in cs then Without(colls[c], es) else colls[c]
  }

  /** Puts `e` into every live collection in `cs`. */
  function Add(colls: map<Oid, Coll>, cs: set<Oid>, e: Oid): map<Oid, Coll> {
    map c | c in colls ::
      if c in cs && !colls[c].removed then Coll(colls[c].elems + {e}, false) else colls[c]
  }

  lemma AddToNew(colls: map<Oid, Coll>, c: Oid, e: Oid)
    ensures Add(colls[c := Coll({}, false)], {c}, e) == colls[c := Coll({e}, false)]
  {
    assert {} + {e} == {e};
  }

  /** The object being stored: its oid and the IDR that the engine patches in place. */
  class InvCtx {
    const oid: Oid
    ghost const loaded: map<Item, Oid>
    var idr: map<Item, Oid>
    ghost var wrote: map<Slot, Oid>

    /** The IDR reflects every slot write made so far on behalf of this object. */
    ghost predicate Valid()
      reads this
    {
      Patched(idr, loaded, oid, wrote)
    }

    constructor (oid: Oid, idr: map<Item, Oid>)
      ensures Valid() && this.oid == oid && this.loaded == this.idr == idr && wrote == map[]
    {
      this.oid, this.loaded, this.idr, this.wrote := oid, idr, idr, map[];
    }
  }

  /** A collection as it comes back from the database: absent when it was removed. */
  datatype Loaded = Absent | Present(oid: Oid)

  class Database {
    var slots: map<Slot, Oid>
    var colls: map<Oid, Coll>
    var next: Oid

    ghost function Image(): Db
      reads this
    {
      Db(slots, colls, next)
    }

    constructor ()
      ensures Image() == Db(map[], map[], 1)
    {
      slots, colls, next := map[], map[], 1;
    }

    method ReadOid(item: Item, obj: Oid) returns (v: Oid)
      ensures v == Image().Read(item, obj)
    {
      v := if Slot(obj, item) in slots then slots[Slot(obj, item)] else NULL_OID;
    }

    method WriteOid(item: Item, obj: Oid, v: Oid, ctx: InvCtx)
      requires ctx.Valid()
      modifies this`slots, ctx`idr, ctx`wrote
      ensures ctx.Valid()
      ensures slots == old(slots)[Slot(obj, item) := v]
      ensures ctx.wrote == old(ctx.wrote)[Slot(obj, item) := v]
    {
      if obj == ctx.oid {
        ctx.idr := ctx.idr[item := v];
      }
      slots := slots[Slot(obj, item) := v];
      ctx.wrote := ctx.wrote[Slot(obj, item) := v];
    }

    method GetCollection(c: Oid) returns (s: Status, coll: Loaded)
      ensures s.Success? <==> c in colls
      ensures s.Success? ==> coll == if Image().Live(c) then Present(c) else Absent
    {
      if c !in colls {
        return Failed(InverseError), Absent;
      }
      return Success, if colls[c].removed then Absent else Present(c);
    }

    method CreateCollection() returns (coll: Oid)
      modifies this`colls, this`next
      ensures coll == old(next) && next == old(next) + 1
      ensures colls == old(colls)[coll := Coll({}, false)]
    {
      coll := next;
      colls := colls[coll := Coll({}, false)];
      next := next + 1;
    }

    /** getElements(): a snapshot, in an order the caller cannot rely on. */
    method GetElements(c: Oid) returns (arr: seq<Oid>)
      requires c in colls
      ensures forall e :: e in arr <==> e in colls[c].elems
      ensures forall i, j :: 0 <= i < j < |arr| ==> arr[i] != arr[j]
    {
      arr := [];
      var rest := colls[c].elems;
      while rest != {}
        invariant rest <= colls[c].elems
        invariant forall e :: e in arr <==> e in colls[c].elems - rest
        invariant forall i, j :: 0 <= i < j < |arr| ==> arr[i] != arr[j]
        decreases rest
      {
        var e :| e in rest;
        assert e !in arr;
        arr, rest := arr + [e], rest - {e};
      }
    }

    /** insert(e, noDup) followed by the realize of the collection. */
    method Insert(c: Oid, e: Oid)
      requires c in colls && !colls[c].removed
      modifies this`colls
      ensures colls == Add(old(colls), {c}, e)
    {
      colls := colls[c := Coll(colls[c].elems + {e}, false)];
    }

    /** suppress(e, checkFirst) followed by the realize of the collection. */
    method Suppress(c: Oid, e: Oid)
      requires c in colls && !colls[c].removed
      modifies this`colls
      ensures colls == Strip(old(colls), {c}, {e})
    {
      colls := colls[c := Coll(colls[c].elems - {e}, false)];
    }

    /** The whole-object write that ends a create or an update. */
    method WriteObject(x: Oid, idr: map<Item, Oid>)
      modifies this`slots
      ensures slots == old(slots) + OfObject(x, idr)
    {
      slots := slots + OfObject(x, idr);
    }

    /** The object is gone: none of its slots is left. */
    method DeleteObject(x: Oid)
      modifies this`slots
      ensures slots == map s | s in old(slots) && s.obj != x :: old(slots)[s]
    {
      slots := map s | s in slots && s.obj != x :: slots[s];
    }
  }
}
