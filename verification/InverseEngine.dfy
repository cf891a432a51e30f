/** The inverse routines of `Attribute`, loop by loop, each proved against its closed form
    in InverseSpec. */
module InverseEngine {
  import opened Outcomes
  import opened Store
  import opened InverseSpec
  import Writes = InverseLawsElem

  /** `now` is the image `was` after `fx`, whatever order its writes came in, and `log`
      grew by those writes. */
  ghost predicate Applied(now: Db, log: map<Slot, Oid>, was: Db, log0: map<Slot, Oid>, fx: Effect) {
    && now.slots == was.slots + fx.writes
    && now.colls == fx.colls
    && now.next == fx.next
    && log == log0 + fx.writes
  }

  ghost predicate Storable(db: Database, q: Call)
    reads db
  {
    db.Image().Sane() && NULL_OID < q.obj < db.next
  }

  lemma SumPut(m: map<Slot, Oid>, w: map<Slot, Oid>, k: Slot, v: Oid)
    ensures (m + w)[k := v] == m + w[k := v]
  {
  }

  lemma PlusPut(w: map<Slot, Oid>, k: Slot, v: Oid)
    ensures w + map[k := v] == w[k := v]
  {
  }

  /** The update branch of inverse_1_1. */
  method Update11(db: Database, q: Call, ctx: InvCtx)
    requires ctx.Valid() && ctx.oid == q.obj && q.op == Update
    modifies db`slots, ctx`idr, ctx`wrote
    ensures ctx.Valid()
    ensures Applied(db.Image(), ctx.wrote, old(db.Image()), old(ctx.wrote), Effect11(q, old(db.Image())))
  {
    ghost var d0, log0, w := db.Image(), ctx.wrote, Left11(q, db.Image());
    var old1 := db.ReadOid(q.item, q.obj);
    if old1 != NULL_OID && old1 != q.target {
      var oldObj := db.ReadOid(q.inv, old1);
      if oldObj == q.obj {
        db.WriteOid(q.inv, old1, NULL_OID, ctx);
      }
    }
    assert db.slots == d0.slots + w && ctx.wrote == log0 + w;
    if q.target == NULL_OID {
      return;
    }
    var cur := db.ReadOid(q.inv, q.target);
    assert cur == d0.Read(q.inv, q.target);
    if cur != NULL_OID && cur != q.obj {
      db.WriteOid(q.item, cur, NULL_OID, ctx);
      SumPut(d0.slots, w, Slot(cur, q.item), NULL_OID);
      SumPut(log0, w, Slot(cur, q.item), NULL_OID);
    }
    w := Displaced11(q, d0, w);
    db.WriteOid(q.inv, q.target, q.obj, ctx);
    SumPut(d0.slots, w, Slot(q.target, q.inv), q.obj);
    SumPut(log0, w, Slot(q.target, q.inv), q.obj);
  }

  /** The create branch of inverse_1_1. */
  method Create11(db: Database, q: Call, ctx: InvCtx)
    requires ctx.Valid() && ctx.oid == q.obj && q.op == Create && q.target != NULL_OID
    modifies db`slots, ctx`idr, ctx`wrote
    ensures ctx.Valid()
    ensures Applied(db.Image(), ctx.wrote, old(db.Image()), old(ctx.wrote), Effect11(q, old(db.Image())))
  {
    ghost var d0, log0 := db.Image(), ctx.wrote;
    var cur := db.ReadOid(q.inv, q.target);
    if cur != q.obj {
      if cur != NULL_OID {
        db.WriteOid(q.item, cur, NULL_OID, ctx);
      }
      ghost var w := Displaced11(q, d0, map[]);
      assert db.slots == d0.slots + w && ctx.wrote == log0 + w;
      db.WriteOid(q.inv, q.target, q.obj, ctx);
      SumPut(d0.slots, w, Slot(q.target, q.inv), q.obj);
      SumPut(log0, w, Slot(q.target, q.inv), q.obj);
    }
  }

  method Inverse11(db: Database, q: Call, ctx: InvCtx)
    requires ctx.Valid() && ctx.oid == q.obj
    modifies db`slots, ctx`idr, ctx`wrote
    ensures ctx.Valid()
    ensures Applied(db.Image(), ctx.wrote, old(db.Image()), old(ctx.wrote), Effect11(q, old(db.Image())))
  {
    if q.op == Create {
      if q.target == NULL_OID {
        return;
      }
      Create11(db, q, ctx);
    } else if q.op == Update {
      Update11(db, q, ctx);
    } else {
      if q.target == NULL_OID {
        return;
      }
      db.WriteOid(q.inv, q.target, NULL_OID, ctx);
    }
  }

  lemma PlusPlus(m: map<Slot, Oid>, v: map<Slot, Oid>, w: map<Slot, Oid>)
    ensures m + v + w == m + (v + w)
    ensures m + map[] == m
  {
  }

  /** Reads the collection of `e`, if it has one, and takes `x` out of it. */
  method LeaveHome(db: Database, inv: Item, e: Oid, x: Oid) returns (s: Status)
    requires NULL_OID !in db.colls
    modifies db`colls
    ensures s.Success? <==> old(db.Image()).Readable(old(db.Image()).Read(inv, e))
    ensures s.Success? ==> db.colls == Leave(old(db.Image()), inv, e, x)
  {
    var home := db.ReadOid(inv, e);
    if home != NULL_OID {
      var s1, coll := db.GetCollection(home);
      :- s1;
      if coll.Present? {
        db.Suppress(coll.oid, x);
      }
    }
    return Success;
  }

  /** Reads the collection of `e`, makes one if there is none, and puts `x` into it. */
  method JoinHome(db: Database, inv: Item, e: Oid, x: Oid, ctx: InvCtx) returns (s: Status)
    requires NULL_OID !in db.colls && db.next !in db.colls && ctx.Valid()
    modifies db, ctx`idr, ctx`wrote
    ensures ctx.Valid()
    ensures s.Success? <==> old(db.Image()).Readable(old(db.Image()).Read(inv, e))
    ensures s.Success? ==>
      Applied(db.Image(), ctx.wrote, old(db.Image()), old(ctx.wrote), Join(old(db.Image()), inv, e, x))
  {
    var home := db.ReadOid(inv, e);
    var coll := Absent;
    if home != NULL_OID {
      var s1;
      s1, coll := db.GetCollection(home);
      :- s1;
    }
    PlusPlus(db.slots, map[], map[]);
    PlusPlus(ctx.wrote, map[], map[]);
    PlusPut(db.slots, Slot(e, inv), db.next);
    PlusPut(ctx.wrote, Slot(e, inv), db.next);
    if coll.Absent? {
      var made := db.CreateCollection();
      db.WriteOid(inv, e, made, ctx);
      AddToNew(old(db.colls), made, x);
      coll := Present(made);
    }
    db.Insert(coll.oid, x);
    return Success;
  }

  method Inverse1N(db: Database, q: Call, ctx: InvCtx) returns (s: Status)
    requires Storable(db, q) && ctx.Valid() && ctx.oid == q.obj
    modifies db, ctx`idr, ctx`wrote
    ensures ctx.Valid()
    ensures s.Success? <==> Runs1N(q, old(db.Image()))
    ensures s.Success? ==>
      Applied(db.Image(), ctx.wrote, old(db.Image()), old(ctx.wrote), Effect1N(q, old(db.Image())))
  {
    if q.op == Update {
      var old1 := db.ReadOid(q.item, q.obj);
      if old1 != NULL_OID && old1 != q.target {
        :- LeaveHome(db, q.inv, old1, q.obj);
      }
    }
    assert db.Image() == Left1N(q, old(db.Image()));
    if q.target == NULL_OID {
      return Success;
    }
    if q.op == Remove {
      :- LeaveHome(db, q.inv, q.target, q.obj);
    } else {
      :- JoinHome(db, q.inv, q.target, q.obj, ctx);
    }
    return Success;
  }

  lemma NullOne(es: set<Oid>, e: Oid, item: Item)
    ensures Nulled(es, item)[Slot(e, item) := NULL_OID] == Nulled(es + {e}, item)
  {
  }

  /** Loads the collection `c` and, if it was not removed, sets attribute `inv` of each of its
      members to null. */
  method NullMembers(db: Database, inv: Item, c: Oid, ctx: InvCtx) returns (s: Status)
    requires ctx.Valid()
    modifies db`slots, ctx`idr, ctx`wrote
    ensures ctx.Valid()
    ensures s.Success? <==> c in db.colls
    ensures s.Success? ==> db.slots == old(db.slots) + Nulled(old(db.Image()).Elems(c), inv)
    ensures s.Success? ==> ctx.wrote == old(ctx.wrote) + Nulled(old(db.Image()).Elems(c), inv)
  {
    var s1, coll := db.GetCollection(c);
    :- s1;
    ghost var seen: set<Oid> := {};
    if coll.Present? {
      var arr := db.GetElements(c);
      for i := 0 to |arr|
        invariant ctx.Valid()
        invariant forall e :: e in arr[..i] <==> e in seen
        invariant db.slots == old(db.slots) + Nulled(seen, inv)
        invariant ctx.wrote == old(ctx.wrote) + Nulled(seen, inv)
      {
        db.WriteOid(inv, arr[i], NULL_OID, ctx);
        SumPut(old(db.slots), Nulled(seen, inv), Slot(arr[i], inv), NULL_OID);
        SumPut(old(ctx.wrote), Nulled(seen, inv), Slot(arr[i], inv), NULL_OID);
        NullOne(seen, arr[i], inv);
        seen := seen + {arr[i]};
      }
    }
    assert seen == db.Image().Elems(c);
    return Success;
  }

  lemma DetachPut(ps: set<Oid>, ts: set<Oid>, z: Oid, item: Item, inv: Item, x: Oid)
    requires item != inv
    ensures (Nulled(ps, item) + PointedTo(ts, inv, x))[Slot(z, item) := NULL_OID]
         == Nulled(ps + {z}, item) + PointedTo(ts, inv, x)
  {
  }

  lemma TakePut(ps: set<Oid>, ts: set<Oid>, e: Oid, item: Item, inv: Item, x: Oid)
    requires item != inv
    ensures (Nulled(ps, item) + PointedTo(ts, inv, x))[Slot(e, inv) := x]
         == Nulled(ps, item) + PointedTo(ts + {e}, inv, x)
  {
  }

  /** The slots after what is written for one member. */
  function Taking(m: map<Slot, Oid>, owner: Oid, item: Item, inv: Item, e: Oid, x: Oid): map<Slot, Oid> {
    if owner == x then m
    else if owner == NULL_OID then m[Slot(e, inv) := x]
    else m[Slot(owner, item) := NULL_OID][Slot(e, inv) := x]
  }

  lemma SumTaking(m: map<Slot, Oid>, w: map<Slot, Oid>, owner: Oid, item: Item, inv: Item, e: Oid,
                  x: Oid)
    ensures Taking(m + w, owner, item, inv, e, x) == m + Taking(w, owner, item, inv, e, x)
  {
    SumPut(m, w, Slot(owner, item), NULL_OID);
    SumPut(m, w, Slot(e, inv), x);
    SumPut(m, w[Slot(owner, item) := NULL_OID], Slot(e, inv), x);
  }

  lemma TakeOne(db: Db, item: Item, inv: Item, es: set<Oid>, e: Oid, x: Oid)
    requires item != inv && e !in es
    ensures TakeOver(db, item, inv, es + {e}, x)
      == Taking(TakeOver(db, item, inv, es, x), db.Read(inv, e), item, inv, e, x)
    ensures Slot(e, inv) !in TakeOver(db, item, inv, es, x)
  {
    var ts := Strangers(db, inv, es, x);
    var owner := db.Read(inv, e);
    if owner == x {
      assert Strangers(db, inv, es + {e}, x) == ts;
    } else {
      assert Strangers(db, inv, es + {e}, x) == ts + {e};
      var ps := OwnersOf(db, inv, ts);
      if owner == NULL_OID {
        assert OwnersOf(db, inv, ts + {e}) == ps;
      } else {
        assert OwnersOf(db, inv, ts + {e}) == ps + {owner};
        DetachPut(ps, ts, owner, item, inv, x);
      }
      TakePut(OwnersOf(db, inv, ts + {e}), ts, e, item, inv, x);
    }
  }

  /** Points attribute `inv` of the member `e` at `x`, and detaches whoever owned it. */
  method TakeMember(db: Database, item: Item, inv: Item, e: Oid, x: Oid, ctx: InvCtx)
    requires ctx.Valid() && item != inv
    modifies db`slots, ctx`idr, ctx`wrote
    ensures ctx.Valid()
    ensures db.slots == Taking(old(db.slots), old(db.Image()).Read(inv, e), item, inv, e, x)
    ensures ctx.wrote == Taking(old(ctx.wrote), old(db.Image()).Read(inv, e), item, inv, e, x)
  {
    var owner := db.ReadOid(inv, e);
    if owner != x {
      if owner != NULL_OID {
        db.WriteOid(item, owner, NULL_OID, ctx);
      }
      db.WriteOid(inv, e, x, ctx);
    }
  }

  /** Loads the collection `c` and, if it was not removed, points attribute `inv` of every
      member at `x` and detaches whoever owned the member. */
  method TakeMembers(db: Database, item: Item, inv: Item, c: Oid, x: Oid, ctx: InvCtx) returns (s: Status)
    requires ctx.Valid() && item != inv
    modifies db`slots, ctx`idr, ctx`wrote
    ensures ctx.Valid()
    ensures s.Success? <==> c in db.colls
    ensures s.Success? ==>
      var w := TakeOver(old(db.Image()), item, inv, old(db.Image()).Elems(c), x);
      db.slots == old(db.slots) + w && ctx.wrote == old(ctx.wrote) + w
  {
    ghost var d0, log0 := db.Image(), ctx.wrote;
    hide TakeOver, Taking;
    var s1, coll := db.GetCollection(c);
    :- s1;
    ghost var seen: set<Oid>, w: map<Slot, Oid> := {}, map[];
    NothingTaken(d0, item, inv, x);
    if coll.Present? {
      var arr := db.GetElements(c);
      for i := 0 to |arr|
        invariant ctx.Valid()
        invariant forall e :: e in arr[..i] <==> e in seen
        invariant w == TakeOver(d0, item, inv, seen, x)
        invariant db.slots == d0.slots + w && ctx.wrote == log0 + w
      {
        var e := arr[i];
        TakeOne(d0, item, inv, seen, e, x);
        SumTaking(d0.slots, w, d0.Read(inv, e), item, inv, e, x);
        SumTaking(log0, w, d0.Read(inv, e), item, inv, e, x);
        TakeMember(db, item, inv, e, x, ctx);
        seen, w := seen + {e}, Taking(w, d0.Read(inv, e), item, inv, e, x);
      }
    }
    assert seen == d0.Elems(c);
    return Success;
  }

  lemma NothingTaken(db: Db, item: Item, inv: Item, x: Oid)
    ensures TakeOver(db, item, inv, {}, x) == map[]
    ensures Nulled({}, inv) == map[]
  {
  }

  method InverseN1(db: Database, q: Call, ctx: InvCtx) returns (s: Status)
    requires Storable(db, q) && ctx.Valid() && ctx.oid == q.obj && q.item != q.inv
    modifies db`slots, ctx`idr, ctx`wrote
    ensures ctx.Valid()
    ensures s.Success? <==> RunsN1(q, old(db.Image()))
    ensures s.Success? ==>
      Applied(db.Image(), ctx.wrote, old(db.Image()), old(ctx.wrote), EffectN1(q, old(db.Image())))
  {
    ghost var d0, log0, left := db.Image(), ctx.wrote, Nulled(Abandoned(q, db.Image()), q.inv);
    if q.op == Remove {
      if q.target != NULL_OID {
        :- NullMembers(db, q.inv, q.target, ctx);
      } else {
        NothingTaken(d0, q.item, q.inv, q.obj);
        PlusPlus(d0.slots, map[], map[]);
        PlusPlus(log0, map[], map[]);
      }
      return Success;
    }
    if q.op == Update {
      var old1 := db.ReadOid(q.item, q.obj);
      if old1 != NULL_OID && old1 != q.target {
        :- NullMembers(db, q.inv, old1, ctx);
      }
    }
    NothingTaken(Released(q, d0), q.item, q.inv, q.obj);
    PlusPlus(d0.slots, map[], map[]);
    PlusPlus(log0, map[], map[]);
    assert db.slots == d0.slots + left && ctx.wrote == log0 + left;
    assert db.Image() == Released(q, d0);
    ghost var w := TakeOver(Released(q, d0), q.item, q.inv, d0.Elems(q.target), q.obj);
    if q.target != NULL_OID {
      :- TakeMembers(db, q.item, q.inv, q.target, q.obj, ctx);
    }
    PlusPlus(d0.slots, left, w);
    PlusPlus(log0, left, w);
    PlusPlus(left, map[], map[]);
    assert EffectN1(q, d0).writes == left + w;
    return Success;
  }

  lemma OneMore(d: Db, inv: Item, es: set<Oid>, e: Oid)
    ensures InverseColls(d, inv, es + {e}) == InverseColls(d, inv, es) + {d.Read(inv, e)}
    ensures Housed(d, inv, es + {e}) == Housed(d, inv, es) + if d.Read(inv, e) == NULL_OID then {} else {e}
    ensures Homeless(d, inv, es + {e}) == Homeless(d, inv, es) + if d.Live(d.Read(inv, e)) then {} else {e}
  {
  }

  lemma WithoutTwice(k: Coll, es: set<Oid>, fs: set<Oid>)
    ensures Without(Without(k, es), fs) == Without(k, es + fs)
    ensures Without(k, {}) == k
  {
  }

  /** The collections once `es` left `c` and `x` left those in `hs`. */
  ghost function Emptied(colls: map<Oid, Coll>, c: Oid, es: set<Oid>, hs: set<Oid>, x: Oid): map<Oid, Coll> {
    Strip(Strip(colls, {c}, es), hs, {x})
  }

  lemma EmptiedKeeps(colls: map<Oid, Coll>, c: Oid, es: set<Oid>, hs: set<Oid>, x: Oid)
    ensures var now := Emptied(colls, c, es, hs, x);
            now.Keys == colls.Keys && forall d | d in colls :: now[d].removed == colls[d].removed
    ensures es == {} && hs == {} ==> Emptied(colls, c, es, hs, x) == colls
  {
    if es == {} && hs == {} {
      NothingStripped(colls, c, es, {x});
    }
  }

  lemma NothingEmptied(d: Db, inv: Item, c: Oid, x: Oid)
    ensures Housed(d, inv, {}) == {} && InverseColls(d, inv, {}) == {}
    ensures Emptied(d.colls, c, {}, {}, x) == d.colls
  {
    EmptiedKeeps(d.colls, c, {}, {}, x);
  }

  lemma EmptyOne(colls: map<Oid, Coll>, c: Oid, es: set<Oid>, hs: set<Oid>, x: Oid, e: Oid, h: Oid,
                 d: Oid)
    requires d in colls
    ensures Strip(Strip(Emptied(colls, c, es, hs, x), {c}, {e}), {h}, {x})[d]
      == Emptied(colls, c, es + {e}, hs + {h}, x)[d]
  {
    var k := colls[d];
    WithoutTwice(k, es, {x});
    WithoutTwice(k, es, {e});
    WithoutTwice(k, es + {x}, {e});
    WithoutTwice(k, es + {e}, {x});
    WithoutTwice(k, {x}, {x});
    WithoutTwice(k, es + {x} + {e}, {x});
    assert es + {x} + {e} == es + {e} + {x} == es + {x} + {e} + {x};
    assert {x} + {x} == {x};
  }

  lemma EmptyMore(colls: map<Oid, Coll>, c: Oid, es: set<Oid>, hs: set<Oid>, x: Oid, e: Oid, h: Oid)
    ensures Strip(Strip(Emptied(colls, c, es, hs, x), {c}, {e}), {h}, {x}) == Emptied(colls, c, es + {e}, hs + {h}, x)
  {
    EmptiedKeeps(colls, c, es, hs, x);
    EmptiedKeeps(colls, c, es + {e}, hs + {h}, x);
    var now := Strip(Strip(Emptied(colls, c, es, hs, x), {c}, {e}), {h}, {x});
    var next := Emptied(colls, c, es + {e}, hs + {h}, x);
    assert now.Keys == next.Keys;
    hide Emptied;
    forall d | d in colls ensures now[d] == next[d] {
      EmptyOne(colls, c, es, hs, x, e, h, d);
    }
  }

  /** A collection that is not there, or was removed, need not be left. */
  lemma LeftAlready(colls: map<Oid, Coll>, h: Oid, x: Oid)
    requires h in colls ==> colls[h].removed
    ensures Strip(colls, {h}, {x}) == colls
  {
  }

  /** The first loop of inverse_N_N: the old collection is emptied and `x` leaves the inverse
      collection of each of its members. */
  method WithdrawAll(db: Database, inv: Item, c: Oid, arr: seq<Oid>, ghost es: set<Oid>, x: Oid) returns (s: Status)
    requires NULL_OID !in db.colls && db.Image().Live(c)
    requires forall e :: e in arr <==> e in es
    modifies db`colls
    ensures s.Success? <==> forall e | e in es :: old(db.Image()).Readable(old(db.Image()).Read(inv, e))
    ensures s.Success? ==>
      db.colls == Emptied(old(db.colls), c, es, InverseColls(old(db.Image()), inv, es), x)
  {
    hide Emptied, InverseColls;
    ghost var d0 := db.Image();
    ghost var seen: set<Oid> := {};
    NothingEmptied(d0, inv, c, x);
    for i := 0 to |arr|
      invariant forall e :: e in arr[..i] <==> e in seen
      invariant forall e | e in seen :: d0.Readable(d0.Read(inv, e))
      invariant db.colls == Emptied(d0.colls, c, seen, InverseColls(d0, inv, seen), x)
    {
      var e := arr[i];
      EmptiedKeeps(d0.colls, c, seen, InverseColls(d0, inv, seen), x);
      OneMore(d0, inv, seen, e);
      EmptyMore(d0.colls, c, seen, InverseColls(d0, inv, seen), x, e, d0.Read(inv, e));
      db.Suppress(c, e);
      :- LeaveHome(db, inv, e, x);
      seen := seen + {e};
    }
    assert seen == es;
    return Success;
  }

  /** The database `d` after `x` joined the inverse collections of `es`, the homeless ones
      among them through collections made in the order `made`. */
  ghost predicate JoinedSoFar(now: Db, d: Db, inv: Item, es: set<Oid>, made: seq<Oid>, x: Oid) {
    && Enumerates(made, Homeless(d, inv, es))
    && now.slots == d.slots + MadeSlots(made, d.next, inv)
    && now.colls == Add(d.colls, InverseColls(d, inv, es), x) + MadeColls(|made|, d.next, x)
    && now.next == d.next + |made|
  }

  lemma AddMore(colls: map<Oid, Coll>, hs: set<Oid>, h: Oid, x: Oid, m: map<Oid, Coll>)
    requires h !in m
    ensures Add(Add(colls, hs, x) + m, {h}, x) == Add(colls, hs + {h}, x) + m
    ensures h !in colls || colls[h].removed ==> Add(colls, hs + {h}, x) == Add(colls, hs, x)
  {
  }

  lemma PutColl(m: map<Oid, Coll>, w: map<Oid, Coll>, c: Oid, k: Coll)
    ensures (m + w)[c := k] == m + w[c := k]
  {
  }

  lemma StillAtHome(now: Db, d: Db, inv: Item, es: set<Oid>, made: seq<Oid>, x: Oid, e: Oid)
    requires JoinedSoFar(now, d, inv, es, made, x) && e !in es && d.Read(inv, e) < d.next
    ensures now.Read(inv, e) == d.Read(inv, e) && now.Live(d.Read(inv, e)) == d.Live(d.Read(inv, e))
    ensures now.Readable(d.Read(inv, e)) == d.Readable(d.Read(inv, e))
  {
    var h := d.Read(inv, e);
    MadeSlotsKeys(made, d.next, inv);
    assert h !in MadeColls(|made|, d.next, x);
    assert h in now.colls <==> h in d.colls;
  }

  lemma JoinLive(now: Db, d: Db, inv: Item, es: set<Oid>, made: seq<Oid>, x: Oid, e: Oid)
    requires JoinedSoFar(now, d, inv, es, made, x) && d.Live(d.Read(inv, e)) && d.Read(inv, e) < d.next
    ensures JoinedSoFar(now.(colls := Add(now.colls, {d.Read(inv, e)}, x)), d, inv, es + {e}, made, x)
  {
    OneMore(d, inv, es, e);
    AddMore(d.colls, InverseColls(d, inv, es), d.Read(inv, e), x, MadeColls(|made|, d.next, x));
  }

  lemma MakeOne(made: seq<Oid>, es: set<Oid>, base: Oid, inv: Item, e: Oid)
    requires Enumerates(made, es) && e !in es
    ensures Enumerates(made + [e], es + {e})
    ensures MadeSlots(made + [e], base, inv) == MadeSlots(made, base, inv)[Slot(e, inv) := base + |made|]
  {
  }

  /** The database after a join. */
  ghost function Joining(now: Db, inv: Item, e: Oid, x: Oid): Db {
    var fx := Join(now, inv, e, x);
    Db(now.slots + fx.writes, fx.colls, fx.next)
  }

  lemma MakeColl(n: nat, base: Oid, x: Oid)
    ensures MadeColls(n + 1, base, x) == MadeColls(n, base, x)[base + n := Coll({x}, false)]
  {
  }

  lemma JoinMadeColls(d: Db, hs: set<Oid>, n: nat, x: Oid, h: Oid)
    requires !d.Live(h) && h < d.next
    ensures (Add(d.colls, hs, x) + MadeColls(n, d.next, x))[d.next + n := Coll({x}, false)] ==
            Add(d.colls, hs + {h}, x) + MadeColls(n + 1, d.next, x)
  {
    AddMore(d.colls, hs, h, x, MadeColls(n, d.next, x));
    PutColl(Add(d.colls, hs, x), MadeColls(n, d.next, x), d.next + n, Coll({x}, false));
    MakeColl(n, d.next, x);
  }

  lemma {:induction false} JoinMadeSlots(d: Db, inv: Item, es: set<Oid>, made: seq<Oid>, e: Oid)
    requires Enumerates(made, Homeless(d, inv, es)) && e !in es && !d.Live(d.Read(inv, e))
    ensures Enumerates(made + [e], Homeless(d, inv, es + {e}))
    ensures (d.slots + MadeSlots(made, d.next, inv))[Slot(e, inv) := d.next + |made|]
      == d.slots + MadeSlots(made + [e], d.next, inv)
  {
    assert e !in Homeless(d, inv, es);
    hide Homeless, MadeSlots, Enumerates;
    OneMore(d, inv, es, e);
    MakeOne(made, Homeless(d, inv, es), d.next, inv, e);
    SumPut(d.slots, MadeSlots(made, d.next, inv), Slot(e, inv), d.next + |made|);
  }

  lemma JoinMade(now: Db, d: Db, inv: Item, es: set<Oid>, made: seq<Oid>, x: Oid, e: Oid)
    requires JoinedSoFar(now, d, inv, es, made, x) && e !in es && !d.Live(d.Read(inv, e))
    requires d.Read(inv, e) < d.next
    ensures JoinedSoFar(Db(now.slots[Slot(e, inv) := now.next], now.colls[now.next := Coll({x}, false)], now.next + 1),
                        d, inv, es + {e}, made + [e], x)
  {
    hide *;
    JoinedParts(now, d, inv, es, made, x);
    OneMore(d, inv, es, e);
    JoinMadeSlots(d, inv, es, made, e);
    JoinMadeColls(d, InverseColls(d, inv, es), |made|, x, d.Read(inv, e));
    JoinedParts(Db(now.slots[Slot(e, inv) := now.next], now.colls[now.next := Coll({x}, false)], now.next + 1),
                d, inv, es + {e}, made + [e], x);
  }

  lemma JoinedParts(now: Db, d: Db, inv: Item, es: set<Oid>, made: seq<Oid>, x: Oid)
    ensures JoinedSoFar(now, d, inv, es, made, x) <==>
              && Enumerates(made, Homeless(d, inv, es))
              && now.slots == d.slots + MadeSlots(made, d.next, inv)
              && now.colls == Add(d.colls, InverseColls(d, inv, es), x) + MadeColls(|made|, d.next, x)
              && now.next == d.next + |made|
  {
  }

  ghost function Making(now: Db, inv: Item, made: seq<Oid>, e: Oid): seq<Oid> {
    if now.Live(now.Read(inv, e)) then made else made + [e]
  }

  lemma JoinSane(now: Db, inv: Item, e: Oid, x: Oid)
    requires now.Sane() && x != NULL_OID && e != NULL_OID
    ensures Joining(now, inv, e, x).Sane()
  {
  }

  lemma JoinSlots(m: map<Slot, Oid>, now: Db, inv: Item, e: Oid, x: Oid)
    ensures m + Join(now, inv, e, x).writes == if now.Live(now.Read(inv, e)) then m else m[Slot(e, inv) := now.next]
  {
  }

  lemma JoinStep(now: Db, d: Db, inv: Item, es: set<Oid>, made: seq<Oid>, x: Oid, e: Oid)
    requires JoinedSoFar(now, d, inv, es, made, x) && e !in es && d.Read(inv, e) < d.next
    ensures now.Readable(now.Read(inv, e)) == d.Readable(d.Read(inv, e))
    ensures JoinedSoFar(Joining(now, inv, e, x), d, inv, es + {e}, Making(now, inv, made, e), x)
  {
    StillAtHome(now, d, inv, es, made, x, e);
    JoinSlots(now.slots, now, inv, e, x);
    if d.Live(d.Read(inv, e)) {
      JoinLive(now, d, inv, es, made, x, e);
    } else {
      JoinMade(now, d, inv, es, made, x, e);
    }
  }

  lemma MakeStep(now: Db, d: Db, inv: Item, es: set<Oid>, made: seq<Oid>, x: Oid, e: Oid)
    requires JoinedSoFar(now, d, inv, es, made, x) && e !in es
    ensures MadeSlots(Making(now, inv, made, e), d.next, inv)
      == MadeSlots(made, d.next, inv) + Join(now, inv, e, x).writes
  {
    JoinSlots(MadeSlots(made, d.next, inv), now, inv, e, x);
    MakeOne(made, Homeless(d, inv, es), d.next, inv, e);
  }

  /** One more member: what the join reads, and what it leaves. */
  lemma JoinNext(now: Db, d: Db, inv: Item, es: set<Oid>, made: seq<Oid>, x: Oid, e: Oid,
                 log0: map<Slot, Oid>)
    requires JoinedSoFar(now, d, inv, es, made, x) && e !in es && x != NULL_OID && e != NULL_OID && d.Sane()
    requires now.Sane()
    ensures now.Readable(now.Read(inv, e)) == d.Readable(d.Read(inv, e))
    ensures NULL_OID !in now.colls && now.next !in now.colls
    ensures Joining(now, inv, e, x).Sane()
    ensures JoinedSoFar(Joining(now, inv, e, x), d, inv, es + {e}, Making(now, inv, made, e), x)
    ensures log0 + MadeSlots(made, d.next, inv) + Join(now, inv, e, x).writes
      == log0 + MadeSlots(Making(now, inv, made, e), d.next, inv)
  {
    assert d.Read(inv, e) < d.next;
    JoinSane(now, inv, e, x);
    assert NULL_OID !in now.colls && now.next !in now.colls;
    hide JoinedSoFar, Joining, Making, MadeSlots, Join, Db.Sane;
    JoinStep(now, d, inv, es, made, x, e);
    MakeStep(now, d, inv, es, made, x, e);
    PlusPlus(log0, MadeSlots(made, d.next, inv), Join(now, inv, e, x).writes);
  }

  /** The second loop of inverse_N_N: `x` joins the inverse collection of every member. */
  method JoinAll(db: Database, inv: Item, arr: seq<Oid>, ghost es: set<Oid>, x: Oid, ctx: InvCtx)
    returns (s: Status, ghost made: seq<Oid>)
    requires db.Image().Sane() && ctx.Valid() && x != NULL_OID
    requires Enumerates(arr, es) && NULL_OID !in es
    modifies db, ctx`idr, ctx`wrote
    ensures ctx.Valid()
    ensures s.Success? <==> forall e | e in es :: old(db.Image()).Readable(old(db.Image()).Read(inv, e))
    ensures s.Success? ==> JoinedSoFar(db.Image(), old(db.Image()), inv, es, made, x)
    ensures s.Success? ==> ctx.wrote == old(ctx.wrote) + MadeSlots(made, old(db.next), inv)
  {
    hide JoinedSoFar, Making, MadeSlots, Join, Db.Sane, InverseColls, Homeless;
    ghost var d0, log0 := db.Image(), ctx.wrote;
    made := [];
    ghost var seen: set<Oid> := {};
    NothingJoined(d0, inv, x);
    PlusPlus(log0, map[], map[]);
    for i := 0 to |arr|
      invariant db.Image().Sane() && ctx.Valid()
      invariant forall e :: e in arr[..i] <==> e in seen
      invariant forall e | e in seen :: d0.Readable(d0.Read(inv, e))
      invariant JoinedSoFar(db.Image(), d0, inv, seen, made, x)
      invariant ctx.wrote == log0 + MadeSlots(made, d0.next, inv)
    {
      var e := arr[i];
      ghost var now := db.Image();
      JoinNext(now, d0, inv, seen, made, x, e, log0);
      s := JoinHome(db, inv, e, x, ctx);
      if s.IsFailure() {
        return;
      }
      assert db.Image() == Joining(now, inv, e, x);
      made := Making(now, inv, made, e);
      seen := seen + {e};
    }
    assert seen == es;
    s := Success;
  }

  /** Loads the old collection and empties it, unless it was removed. */
  method WithdrawFrom(db: Database, inv: Item, c: Oid, x: Oid) returns (s: Status)
    requires db.Image().Sane()
    modifies db`colls
    ensures s.Success? <==>
      && c in old(db.colls)
      && forall e | e in old(db.Image()).Elems(c) :: old(db.Image()).Readable(old(db.Image()).Read(inv, e))
    ensures s.Success? ==>
      var es := old(db.Image()).Elems(c);
      db.colls == if old(db.Image()).Live(c)
                  then Strip(Strip(old(db.colls), {c}, es), InverseColls(old(db.Image()), inv, es), {x})
                  else old(db.colls)
  {
    var s1, coll := db.GetCollection(c);
    :- s1;
    if coll.Present? {
      var arr := db.GetElements(c);
      :- WithdrawAll(db, inv, c, arr, db.Image().Elems(c), x);
    }
    return Success;
  }

  lemma WithdrawnSame(q: Call, db: Db)
    requires db.Sane()
    ensures var d := db.(colls := Withdrawn(q, db));
            && d.Sane() && (forall c :: d.Live(c) == db.Live(c)) && d.colls.Keys == db.colls.Keys
            && (forall es :: InverseColls(d, q.inv, es) == InverseColls(db, q.inv, es))
            && (forall es :: Homeless(d, q.inv, es) == Homeless(db, q.inv, es))
            && (forall e :: d.Readable(d.Read(q.inv, e)) == db.Readable(db.Read(q.inv, e)))
  {
  }

  lemma NothingJoined(d: Db, inv: Item, x: Oid)
    ensures JoinedSoFar(d, d, inv, {}, [], x) && MadeSlots([], d.next, inv) == map[]
  {
  }

  lemma StripNull(colls: map<Oid, Coll>, hs: set<Oid>, fs: set<Oid>)
    requires NULL_OID !in colls
    ensures Strip(colls, hs + {NULL_OID}, fs) == Strip(colls, hs, fs)
  {
  }

  /** The last loop of inverse_N_N: every member that has an inverse collection leaves `c`, and those
      collections lose `x`. */
  method DissolveAll(db: Database, inv: Item, c: Oid, arr: seq<Oid>, ghost es: set<Oid>, x: Oid) returns (s: Status)
    requires NULL_OID !in db.colls && db.Image().Live(c)
    requires forall e :: e in arr <==> e in es
    modifies db`colls
    ensures s.Success? <==> forall e | e in es :: old(db.Image()).Readable(old(db.Image()).Read(inv, e))
    ensures s.Success? ==>
      db.colls == Emptied(old(db.colls), c, Housed(old(db.Image()), inv, es), InverseColls(old(db.Image()), inv, es), x)
  {
    hide Emptied, InverseColls, Housed, Strip;
    ghost var d0 := db.Image();
    ghost var seen: set<Oid> := {};
    NothingEmptied(d0, inv, c, x);
    for i := 0 to |arr|
      invariant forall e :: e in arr[..i] <==> e in seen
      invariant forall e | e in seen :: d0.Readable(d0.Read(inv, e))
      invariant db.colls == Emptied(d0.colls, c, Housed(d0, inv, seen), InverseColls(d0, inv, seen), x)
    {
      var e := arr[i];
      EmptiedKeeps(d0.colls, c, Housed(d0, inv, seen), InverseColls(d0, inv, seen), x);
      DissolveOne(d0, inv, c, seen, x, e);
      :- DissolveMember(db, inv, c, e, x);
      seen := seen + {e};
    }
    assert seen == es;
    return Success;
  }

  method DissolveMember(db: Database, inv: Item, c: Oid, e: Oid, x: Oid) returns (s: Status)
    requires NULL_OID !in db.colls && db.Image().Live(c)
    modifies db`colls
    ensures s.Success? <==> old(db.Image()).Readable(old(db.Image()).Read(inv, e))
    ensures s.Success? ==>
      var home := old(db.Image()).Read(inv, e);
      db.colls == if home == NULL_OID then old(db.colls) else Strip(Strip(old(db.colls), {c}, {e}), {home}, {x})
  {
    var home := db.ReadOid(inv, e);
    if home != NULL_OID {
      var s2, invColl := db.GetCollection(home);
      :- s2;
      db.Suppress(c, e);
      if invColl.Present? {
        db.Suppress(invColl.oid, x);
      } else {
        LeftAlready(db.colls, home, x);
      }
    }
    return Success;
  }

  /** The removal branch of inverse_N_N: the collection loses every member that has an inverse
      collection, and those collections lose `x`. */
  method DissolveNN(db: Database, inv: Item, c: Oid, x: Oid) returns (s: Status)
    requires db.Image().Sane()
    modifies db`colls
    ensures s.Success? <==>
      && c in old(db.colls)
      && forall e | e in old(db.Image()).Elems(c) :: old(db.Image()).Readable(old(db.Image()).Read(inv, e))
    ensures s.Success? ==>
      var es := old(db.Image()).Elems(c);
      db.colls == Strip(Strip(old(db.colls), {c}, Housed(old(db.Image()), inv, es)),
                        InverseColls(old(db.Image()), inv, es), {x})
  {
    var s1, coll := db.GetCollection(c);
    :- s1;
    if coll.Present? {
      var arr := db.GetElements(c);
      s := DissolveAll(db, inv, c, arr, db.Image().Elems(c), x);
      return s;
    }
    NothingEmptied(db.Image(), inv, c, x);
    return Success;
  }

  lemma DissolveOne(d: Db, inv: Item, c: Oid, es: set<Oid>, x: Oid, e: Oid)
    requires NULL_OID !in d.colls
    ensures var now := Emptied(d.colls, c, Housed(d, inv, es), InverseColls(d, inv, es), x);
            Emptied(d.colls, c, Housed(d, inv, es + {e}), InverseColls(d, inv, es + {e}), x) ==
              if d.Read(inv, e) == NULL_OID then now else Strip(Strip(now, {c}, {e}), {d.Read(inv, e)}, {x})
  {
    OneMore(d, inv, es, e);
    if d.Read(inv, e) == NULL_OID {
      StripNull(Strip(d.colls, {c}, Housed(d, inv, es)), InverseColls(d, inv, es), {x});
      assert Housed(d, inv, es) + {} == Housed(d, inv, es);
    } else {
      EmptyMore(d.colls, c, Housed(d, inv, es), InverseColls(d, inv, es), x, e, d.Read(inv, e));
    }
  }

  lemma NothingStripped(colls: map<Oid, Coll>, c: Oid, es: set<Oid>, fs: set<Oid>)
    requires es == {}
    ensures Strip(Strip(colls, {c}, es), {}, fs) == colls
  {
    forall d | d in colls
      ensures Strip(Strip(colls, {c}, es), {}, fs)[d] == colls[d]
    {
      WithoutTwice(colls[d], {}, {});
    }
  }

  /** Loads the new collection and, unless it was removed, joins its members' collections. */
  method JoinMembers(db: Database, inv: Item, c: Oid, x: Oid, ctx: InvCtx) returns (s: Status, ghost made: seq<Oid>)
    requires db.Image().Sane() && ctx.Valid() && x != NULL_OID
    modifies db, ctx`idr, ctx`wrote
    ensures ctx.Valid()
    ensures s.Success? <==>
      && c in old(db.colls)
      && forall e | e in old(db.Image()).Elems(c) :: old(db.Image()).Readable(old(db.Image()).Read(inv, e))
    ensures s.Success? ==> JoinedSoFar(db.Image(), old(db.Image()), inv, old(db.Image()).Elems(c), made, x)
    ensures s.Success? ==> ctx.wrote == old(ctx.wrote) + MadeSlots(made, old(db.next), inv)
  {
    made := [];
    var s1, coll := db.GetCollection(c);
    if s1.IsFailure() {
      return s1, made;
    }
    s := Success;
    if coll.Present? {
      var arr := db.GetElements(coll.oid);
      s, made := JoinAll(db, inv, arr, db.Image().Elems(c), x, ctx);
    } else {
      NothingJoined(db.Image(), inv, x);
      PlusPlus(ctx.wrote, map[], map[]);
    }
  }

  /** What an update does first: the old collection is emptied, unless it is the new one. */
  method WithdrawOld(db: Database, q: Call) returns (s: Status, settled: bool)
    requires Storable(db, q) && q.op != Remove
    modifies db`colls
    ensures s.Success? <==>
      && (q.Leaves(old(db.Image())) ==> q.Old(old(db.Image())) in old(db.colls))
      && (forall e | e in Abandoned(q, old(db.Image())) :: old(db.Image()).Readable(old(db.Image()).Read(q.inv, e)))
    ensures s.Success? ==> db.colls == Withdrawn(q, old(db.Image()))
    ensures s.Success? ==>
      settled == (q.op == Update && q.Old(old(db.Image())) != NULL_OID && q.Old(old(db.Image())) == q.target)
  {
    s, settled := Success, false;
    if q.op == Update {
      var old1 := db.ReadOid(q.item, q.obj);
      if old1 != NULL_OID && old1 != q.target {
        s := WithdrawFrom(db, q.inv, old1, q.obj);
      }
      settled := old1 != NULL_OID && old1 == q.target;
    }
  }

  /** The create and update branches of inverse_N_N. */
  method Reassign(db: Database, q: Call, ctx: InvCtx) returns (s: Status, ghost made: seq<Oid>)
    requires Storable(db, q) && ctx.Valid() && ctx.oid == q.obj && q.op != Remove
    modifies db, ctx`idr, ctx`wrote
    ensures ctx.Valid()
    ensures s.Success? <==> RunsNN(q, old(db.Image()))
    ensures s.Success? ==> Enumerates(made, Homeless(old(db.Image()), q.inv, Joined(q, old(db.Image()))))
    ensures s.Success? ==>
      Applied(db.Image(), ctx.wrote, old(db.Image()), old(ctx.wrote), EffectNN(q, old(db.Image()), made))
  {
    ghost var d0 := db.Image();
    made := [];
    var settled;
    s, settled := WithdrawOld(db, q);
    if s.IsFailure() {
      return s, made;
    }
    ghost var d1 := d0.(colls := Withdrawn(q, d0));
    WithdrawnSame(q, d0);
    if settled || q.target == NULL_OID {
      NothingJoined(d1, q.inv, q.obj);
      PlusPlus(ctx.wrote, map[], map[]);
      return Success, made;
    }
    assert Joined(q, d0) == d1.Elems(q.target);
    s, made := JoinMembers(db, q.inv, q.target, q.obj, ctx);
    assert s.Success? <==> q.target in d0.colls && forall e | e in Joined(q, d0) :: d0.Readable(d0.Read(q.inv, e));
  }

  method InverseNN(db: Database, q: Call, ctx: InvCtx) returns (s: Status, ghost made: seq<Oid>)
    requires Storable(db, q) && ctx.Valid() && ctx.oid == q.obj
    modifies db, ctx`idr, ctx`wrote
    ensures ctx.Valid()
    ensures s.Success? <==> RunsNN(q, old(db.Image()))
    ensures s.Success? && q.op != Remove ==>
      Enumerates(made, Homeless(old(db.Image()), q.inv, Joined(q, old(db.Image()))))
    ensures s.Success? ==>
      Applied(db.Image(), ctx.wrote, old(db.Image()), old(ctx.wrote), EffectNN(q, old(db.Image()), made))
  {
    ghost var d0 := db.Image();
    if q.op != Remove {
      s, made := Reassign(db, q, ctx);
      return s, made;
    }
    s, made := Success, [];
    PlusPlus(d0.slots, map[], map[]);
    PlusPlus(ctx.wrote, map[], map[]);
    if q.target != NULL_OID {
      s := DissolveNN(db, q.inv, q.target, q.obj);
    } else {
      assert Housed(d0, q.inv, {}) == {} && InverseColls(d0, q.inv, {}) == {};
      NothingStripped(d0.colls, q.target, {}, {q.obj});
    }
  }

  lemma StripOne(colls: map<Oid, Coll>, c: Oid, es: set<Oid>, e: Oid)
    ensures Strip(Strip(colls, {c}, es), {c}, {e}) == Strip(colls, {c}, es + {e})
    ensures Strip(colls, {c}, {}) == colls
  {
    forall d | d in colls
      ensures Strip(Strip(colls, {c}, es), {c}, {e})[d] == Strip(colls, {c}, es + {e})[d]
      ensures Strip(colls, {c}, {})[d] == colls[d]
    {
      WithoutTwice(colls[d], es, {e});
    }
  }

  /** The loop of inverse_coll_perform_N_1: every member of `c` is let go. */
  method EmptyOut(db: Database, inv: Item, c: Oid, ctx: InvCtx) returns (s: Status)
    requires ctx.Valid()
    modifies db`slots, db`colls, ctx`idr, ctx`wrote
    ensures s.Success? <==> c in old(db.colls)
    ensures s.Success? ==> db.slots == old(db.slots) + Nulled(old(db.Image()).Elems(c), inv)
    ensures s.Success? ==> db.colls == Strip(old(db.colls), {c}, old(db.Image()).Elems(c))
    ensures ctx.Valid()
  {
    ghost var d0 := db.Image();
    var s1, coll := db.GetCollection(c);
    :- s1;
    ghost var seen: set<Oid> := {};
    StripOne(db.colls, c, {}, 0);
    if coll.Present? {
      var arr := db.GetElements(c);
      for i := 0 to |arr|
        invariant ctx.Valid()
        invariant forall e :: e in arr[..i] <==> e in seen
        invariant db.slots == d0.slots + Nulled(seen, inv)
        invariant db.colls == Strip(d0.colls, {c}, seen)
      {
        db.WriteOid(inv, arr[i], NULL_OID, ctx);
        db.Suppress(c, arr[i]);
        SumPut(d0.slots, Nulled(seen, inv), Slot(arr[i], inv), NULL_OID);
        NullOne(seen, arr[i], inv);
        StripOne(d0.colls, c, seen, arr[i]);
        seen := seen + {arr[i]};
      }
    }
    assert seen == d0.Elems(c);
    return Success;
  }

  /** inverse_coll_perform_N_1: `q.target` was inserted into or taken out of the collection
      that attribute `q.item` of `q.obj` refers to. */
  method CollPerformN1(db: Database, q: Call) returns (s: Status)
    requires NULL_OID !in db.colls && q.op != Create
    modifies db`slots, db`colls
    ensures s.Success? <==> RunsElem1(q, old(db.Image()))
    ensures s.Success? ==>
      var fx := EffectElem1(q, old(db.Image()));
      db.slots == old(db.slots) + fx.writes && db.colls == fx.colls && db.next == fx.next
  {
    ghost var d0 := db.Image();
    var ctx := new InvCtx(NULL_OID, map[]);
    if q.op == Remove {
      db.WriteOid(q.inv, q.target, NULL_OID, ctx);
      return Success;
    }
    var owner := db.ReadOid(q.inv, q.target);
    StripOne(db.colls, NULL_OID, {}, 0);
    assert Nulled({}, q.inv) == map[];
    PlusPlus(d0.slots, map[], map[]);
    if owner != NULL_OID && owner != q.obj {
      var oldColl := db.ReadOid(q.item, owner);
      if oldColl != NULL_OID {
        :- EmptyOut(db, q.inv, oldColl, ctx);
      }
    }
    ghost var es := d0.Elems(Robbed(q, d0));
    assert db.slots == d0.slots + Nulled(es, q.inv) && db.colls == Strip(d0.colls, {Robbed(q, d0)}, es);
    SumPut(d0.slots, Nulled(es, q.inv), Slot(q.target, q.inv), q.obj);
    PlusPut(Nulled(es, q.inv), Slot(q.target, q.inv), q.obj);
    db.WriteOid(q.inv, q.target, q.obj, ctx);
    return Success;
  }

  lemma StripMore(colls: map<Oid, Coll>, hs: set<Oid>, h: Oid, x: Oid)
    ensures Strip(Strip(colls, hs, {x}), {h}, {x}) == Strip(colls, hs + {h}, {x})
    ensures h in colls && colls[h].removed ==> Strip(colls, hs + {h}, {x}) == Strip(colls, hs, {x})
    ensures Strip(colls, {}, {x}) == colls
  {
    forall d | d in colls
      ensures Strip(Strip(colls, hs, {x}), {h}, {x})[d] == Strip(colls, hs + {h}, {x})[d]
    {
      WithoutTwice(colls[d], {x}, {x});
      assert {x} + {x} == {x};
    }
  }

  /** The removal loop of inverse_coll_perform_N_N: element `e` is taken out of the collection
      of every owner in `arr` other than `cur`. */
  method StripOthers(db: Database, item: Item, arr: seq<Oid>, ghost es: set<Oid>, cur: Oid, e: Oid) returns (s: Status)
    requires Enumerates(arr, es)
    modifies db`colls
    ensures s.Success? <==>
      forall z | z in Elsewhere(old(db.Image()), item, es, cur) :: old(db.Image()).Read(item, z) in old(db.colls)
    ensures s.Success? ==>
      db.colls == Strip(old(db.colls),
                        InverseColls(old(db.Image()), item, Elsewhere(old(db.Image()), item, es, cur)), {e})
  {
    ghost var d0 := db.Image();
    ghost var seen: set<Oid> := {};
    assert InverseColls(d0, item, Elsewhere(d0, item, {}, cur)) == {};
    StripMore(d0.colls, {}, 0, e);
    for i := 0 to |arr|
      invariant forall z :: z in arr[..i] <==> z in seen
      invariant forall z | z in Elsewhere(d0, item, seen, cur) :: d0.Read(item, z) in d0.colls
      invariant db.colls == Strip(d0.colls, InverseColls(d0, item, Elsewhere(d0, item, seen, cur)), {e})
    {
      var z := arr[i];
      ghost var hs := InverseColls(d0, item, Elsewhere(d0, item, seen, cur));
      var coll := db.ReadOid(item, z);
      assert coll == d0.Read(item, z);
      if coll != NULL_OID && coll != cur {
        assert Elsewhere(d0, item, seen + {z}, cur) == Elsewhere(d0, item, seen, cur) + {z};
        assert InverseColls(d0, item, Elsewhere(d0, item, seen + {z}, cur)) == hs + {coll};
        StripMore(d0.colls, hs, coll, e);
        var s1, invColl := db.GetCollection(coll);
        :- s1;
        if invColl.Present? {
          db.Suppress(invColl.oid, e);
        }
      } else {
        assert Elsewhere(d0, item, seen + {z}, cur) == Elsewhere(d0, item, seen, cur);
      }
      seen := seen + {z};
    }
    assert seen == es;
    return Success;
  }

  /** inverse_coll_perform_N_N. */
  method CollPerformNN(db: Database, q: Call) returns (s: Status)
    requires db.Image().Sane() && q.op != Create
    modifies db
    ensures s.Success? <==> RunsElemN(q, old(db.Image()))
    ensures s.Success? ==>
      var fx := EffectElemN(q, old(db.Image()));
      db.slots == old(db.slots) + fx.writes && db.colls == fx.colls && db.next == fx.next
  {
    ghost var d0 := db.Image();
    var ctx := new InvCtx(NULL_OID, map[]);
    if q.op == Update {
      :- JoinHome(db, q.inv, q.target, q.obj, ctx);
      return Success;
    }
    PlusPlus(d0.slots, map[], map[]);
    var home := db.ReadOid(q.inv, q.target);
    var cur := db.ReadOid(q.item, q.obj);
    var coll := Absent;
    if home != NULL_OID {
      var s1;
      s1, coll := db.GetCollection(home);
      :- s1;
    }
    ghost var others := Strip(d0.colls, InverseColls(d0, q.item, OtherOwners(q, d0)), {q.target});
    if coll.Present? {
      var arr := db.GetElements(home);
      :- StripOthers(db, q.item, arr, d0.Elems(home), cur, q.target);
      db.Suppress(home, q.obj);
    } else {
      assert InverseColls(d0, q.item, OtherOwners(q, d0)) == {};
      StripMore(d0.colls, {}, home, q.target);
    }
    return Success;
  }

  /** inverse_coll_perform: routes one changed element by the cardinality of the inverse. */
  method CollPerform(db: Database, w: Write, ch: Change) returns (s: Status)
    requires db.Image().Sane()
    modifies db
    ensures s.Success? <==> PerformRuns(w, ch, old(db.Image()))
    ensures s.Success? ==> db.Image() == Perform(w, ch, old(db.Image()))
  {
    if w.many {
      s := CollPerformNN(db, w.Of(ch));
    } else {
      s := CollPerformN1(db, w.Of(ch));
    }
  }

  /** IDB_collectionWrite: the changes are made to the collection's own index, all of them,
      and only then is each of them reported to the inverse attribute. */
  method CollectionWrite(db: Database, w: Write, c: Oid, changes: seq<Change>) returns (s: Status)
    requires db.Image().Sane() && db.Image().Live(c) && NULL_OID < w.owner < db.next
    requires forall ch | ch in changes :: ch.elem != NULL_OID
    modifies db
    ensures s.Success? <==>
      && Editable(old(db.Image()).Elems(c), changes)
      && PerformAllRuns(w, changes, WithElems(old(db.Image()), c, Edited(old(db.Image()).Elems(c), changes)))
    ensures s.Success? ==> db.Image() == Written(w, c, changes, old(db.Image()))
    ensures s.Success? && Writes.Orderly(w, c, changes, old(db.Image())) ==>
      forall e :: e in db.Image().Members(w.item, w.owner) <==>
        Change(e, true) in changes || (e in old(db.Image()).Members(w.item, w.owner) && Change(e, false) !in changes)
    ensures s.Success? && Writes.Orderly(w, c, changes, old(db.Image())) ==>
      if w.many then Writes.OtherEndN(w, changes, old(db.Image()), db.Image())
      else Writes.OtherEnd1(w, changes, old(db.Image()), db.Image())
    ensures s.Success? && Writes.Orderly(w, c, changes, old(db.Image())) ==>
      forall i, o | i != w.inv || (w.many && Change(o, true) !in changes) ::
        db.Image().Read(i, o) == old(db.Image()).Read(i, o)
  {
    ghost var d0 := db.Image();
    var es := db.colls[c].elems;
    for i := 0 to |changes|
      invariant NULL_OID !in es
      invariant Edited(es, changes[i..]) == Edited(d0.Elems(c), changes)
      invariant Editable(es, changes[i..]) == Editable(d0.Elems(c), changes)
    {
      var ch := changes[i];
      if !ch.added && ch.elem !in es {
        return Failed(InverseError);
      }
      es := Edit(es, ch);
      assert changes[i..][1..] == changes[i + 1..];
    }
    db.colls := db.colls[c := Coll(es, false)];
    ghost var d1 := WithElems(d0, c, Edited(d0.Elems(c), changes));
    for i := 0 to |changes|
      invariant db.Image().Sane() && NULL_OID < w.owner < db.next
      invariant PerformAll(w, changes[i..], db.Image()) == PerformAll(w, changes, d1)
      invariant PerformAllRuns(w, changes[i..], db.Image()) == PerformAllRuns(w, changes, d1)
    {
      assert changes[i..][1..] == changes[i + 1..];
      PerformSane(w, changes[i], db.Image());
      :- CollPerform(db, w, changes[i]);
    }
    if Writes.Orderly(w, c, changes, d0) {
      Writes.WrittenThrough(w, c, changes, d0, db.Image());
    }
    return Success;
  }
}
