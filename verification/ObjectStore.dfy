/** Storing and removing whole objects: the loops of AgregatClass over the attributes, and the
    order in which the back end combines them with the object's own write. */
module ObjectStore {
  import opened Outcomes
  import opened Store
  import opened InverseSpec
  import opened InverseLaws
  import opened InverseLawsElem
  import opened InverseDriver
  import opened InverseFrame
  import opened InverseRuns
  import opened InverseSuccess
  import opened ObjectEffects
  import Engine = InverseEngine

  lemma WritesNN(q: Call, db: Db, made: seq<Oid>)
    requires db.Sane() && (q.op != Remove ==> Enumerates(made, Homeless(db, q.inv, Joined(q, db))))
    ensures var fx := EffectNN(q, db, made);
            db.next <= fx.next && forall k <- fx.writes :: k.obj != NULL_OID && fx.writes[k] < fx.next
  {
    hide Joined;
    MadeSlotsKeys(made, db.next, q.inv);
    JoinedValid(q, db);
  }

  lemma WritesN1(q: Call, db: Db)
    requires db.Sane() && NULL_OID < q.obj < db.next
    ensures forall k <- EffectN1(q, db).writes :: k.obj != NULL_OID && EffectN1(q, db).writes[k] < db.next
  {
  }

  lemma RoutedWrites(sch: Schema, q: Call, db: Db, fx: Effect)
    requires db.Sane() && NULL_OID < q.obj < db.next && Routed(sch, q, db, fx)
    ensures db.next <= fx.next
    ensures forall k <- fx.writes :: k.obj != NULL_OID && fx.writes[k] < fx.next
  {
    hide EffectNN, Joined, Homeless, Enumerates, Abandoned, TakeOver;
    if q.item in sch.many && q.inv in sch.many {
      var made :| (q.op != Remove ==> Enumerates(made, Homeless(db, q.inv, Joined(q, db))))
          && fx == EffectNN(q, db, made);
      WritesNN(q, db, made);
    } else if q.item in sch.many {
      WritesN1(q, db);
    }
  }

  lemma JoinedValid(q: Call, db: Db)
    requires db.Sane()
    ensures NULL_OID !in Joined(q, db)
  {
  }

  lemma CollsNN(q: Call, db: Db, made: seq<Oid>)
    requires db.Sane() && q.obj != NULL_OID
    ensures var fx := EffectNN(q, db, made);
            NULL_OID !in fx.colls && forall c <- fx.colls :: c < fx.next && NULL_OID !in fx.colls[c].elems
  {
  }

  lemma RoutedColls(sch: Schema, q: Call, db: Db, fx: Effect)
    requires db.Sane() && NULL_OID < q.obj < db.next && Routed(sch, q, db, fx)
    ensures NULL_OID !in fx.colls
    ensures forall c <- fx.colls :: c < fx.next && NULL_OID !in fx.colls[c].elems
  {
    hide EffectNN, Joined, Homeless, Enumerates, Abandoned, TakeOver, Released, Nulled, Displaced11, Writes11;
    if q.item in sch.many && q.inv in sch.many {
      var made :| (q.op != Remove ==> Enumerates(made, Homeless(db, q.inv, Joined(q, db))))
          && fx == EffectNN(q, db, made);
      CollsNN(q, db, made);
    }
  }

  lemma RoutedSane(sch: Schema, q: Call, db: Db, fx: Effect)
    requires db.Sane() && NULL_OID < q.obj < db.next && Routed(sch, q, db, fx)
    ensures Db(db.slots + fx.writes, fx.colls, fx.next).Sane() && db.next <= fx.next
  {
    RoutedWrites(sch, q, db, fx);
    RoutedColls(sch, q, db, fx);
  }

  lemma PatchedBy(now: map<Item, Oid>, mid: map<Item, Oid>, loaded: map<Item, Oid>, x: Oid,
                  log: map<Slot, Oid>, w: map<Slot, Oid>)
    requires Patched(mid, loaded, x, log) && Patched(now, loaded, x, log + w)
    ensures Patched(now, mid, x, w)
  {
  }

  /** inverse_realize. */
  method InverseRealize(db: Database, sch: Schema, op: Op, item: Item, ctx: InvCtx) returns (s: Status)
    requires sch.Valid() && item in sch.inverse && ctx.Valid()
    requires db.Image().Sane() && NULL_OID < ctx.oid < db.next
    modifies db, ctx`idr, ctx`wrote
    ensures ctx.Valid()
    ensures s.Success? <==>
      Runs(sch, CallOf(sch, op, item, old(Work(db.Image(), ctx.oid, ctx.idr))), old(db.Image()))
    ensures s.Success? ==> db.Image().Sane() && ctx.oid < db.next
    ensures s.Success? ==>
      ItemStep(sch, op, item, old(Work(db.Image(), ctx.oid, ctx.idr)), Work(db.Image(), ctx.oid, ctx.idr))
  {
    hide EffectNN, EffectN1, Effect1N, Effect11, RunsNN, RunsN1, Runs1N, Homeless, Joined;
    ghost var w, log0 := Work(db.Image(), ctx.oid, ctx.idr), ctx.wrote;
    var q := Call(op, item, sch.inverse[item], ctx.oid, if item in ctx.idr then ctx.idr[item] else NULL_OID);
    ghost var fx: Effect;
    if item in sch.many {
      if sch.inverse[item] in sch.many {
        ghost var made;
        s, made := Engine.InverseNN(db, q, ctx);
        fx := EffectNN(q, w.db, made);
      } else {
        s := Engine.InverseN1(db, q, ctx);
        fx := EffectN1(q, w.db);
      }
    } else {
      if sch.inverse[item] in sch.many {
        s := Engine.Inverse1N(db, q, ctx);
        fx := Effect1N(q, w.db);
      } else {
        Engine.Inverse11(db, q, ctx);
        s := Success;
        fx := Effect11(q, w.db);
      }
    }
    if s.Success? {
      assert Engine.Applied(db.Image(), ctx.wrote, w.db, log0, fx);
      assert Routed(sch, q, w.db, fx);
      RoutedSane(sch, q, w.db, fx);
      PatchedBy(ctx.idr, w.idr, ctx.loaded, ctx.oid, log0, fx.writes);
      assert AppliedTo(w, fx, Work(db.Image(), ctx.oid, ctx.idr));
    }
  }

  lemma {:induction false} StepThenRest(sch: Schema, op: Op, items: seq<Item>, k: nat, w: Work, mid: Work, v: Work)
    requires k < |items| && ItemsStep(sch, op, items[..k], w, mid) && ItemStep(sch, op, items[k], mid, v)
    ensures ItemsStep(sch, op, items[..k + 1], w, v)
    decreases k
  {
    if k == 0 {
      assert ItemsStep(sch, op, items[..1][1..], v, v);
    } else {
      var next :| ItemStep(sch, op, items[..k][0], w, next) && ItemsStep(sch, op, items[..k][1..], next, mid);
      assert items[..k][1..] == items[1..][..k - 1] && items[..k + 1][1..] == items[1..][..k];
      StepThenRest(sch, op, items[1..], k - 1, next, mid, v);
    }
  }

  /** After some of the attributes, the routine of the next one misses a collection. */
  ghost predicate Fails(sch: Schema, op: Op, items: seq<Item>, w: Work) {
    exists k: nat, mid: Work | k < |items| && items[k] in sch.inverse ::
      ItemsStep(sch, op, items[..k], w, mid) && !Runs(sch, CallOf(sch, op, items[k], mid), mid.db)
  }

  /** createInverses_realize, updateInverses_realize and removeInverses_realize: the first
      attribute that fails ends the loop. */
  method InversesRealize(db: Database, sch: Schema, op: Op, items: seq<Item>, ctx: InvCtx) returns (s: Status)
    requires sch.Valid() && ctx.Valid()
    requires db.Image().Sane() && NULL_OID < ctx.oid < db.next
    modifies db, ctx`idr, ctx`wrote
    ensures s.Success? ==>
      ItemsStep(sch, op, items, old(Work(db.Image(), ctx.oid, ctx.idr)), Work(db.Image(), ctx.oid, ctx.idr))
    ensures s.Failed? ==> Fails(sch, op, items, old(Work(db.Image(), ctx.oid, ctx.idr)))
    ensures Prepared(sch, old(Work(db.Image(), ctx.oid, ctx.idr))) ==> s.Success?
  {
    ghost var w := Work(db.Image(), ctx.oid, ctx.idr);
    for k := 0 to |items|
      invariant ctx.Valid() && db.Image().Sane() && NULL_OID < ctx.oid < db.next
      invariant ItemsStep(sch, op, items[..k], w, Work(db.Image(), ctx.oid, ctx.idr))
      invariant Prepared(sch, w) ==> Prepared(sch, Work(db.Image(), ctx.oid, ctx.idr))
    {
      ghost var mid := Work(db.Image(), ctx.oid, ctx.idr);
      if items[k] in sch.inverse {
        if Prepared(sch, mid) {
          PreparedRuns(sch, op, items[k], mid);
        }
        :- InverseRealize(db, sch, op, items[k], ctx);
      }
      if Prepared(sch, mid) {
        PreparedStep(sch, op, items[k], mid, Work(db.Image(), ctx.oid, ctx.idr));
      }
      StepThenRest(sch, op, items, k, w, mid, Work(db.Image(), ctx.oid, ctx.idr));
    }
    assert items[..|items|] == items;
    return Success;
  }

  /** IDB_agregatCreate: the object is written first. */
  method CreateObject(db: Database, sch: Schema, items: seq<Item>, x: Oid, idr: map<Item, Oid>) returns (s: Status)
    requires sch.Valid() && db.Image().Sane() && NULL_OID < x < db.next && forall i <- idr :: idr[i] < db.next
    modifies db
    ensures s.Success? ==> Stored(sch, Create, items, x, idr, old(db.Image()), db.Image())
    ensures Admissible(sch, Create, items, x, idr, old(db.Image())) ==> s.Success? && Coherent(sch, db.Image())
    ensures s.Success? ==>
      forall i, o | i !in sch.inverse ::
        db.Image().Read(i, o) == if o == x && i in idr then idr[i] else old(db.Image()).Read(i, o)
    ensures Admissible(sch, Create, items, x, idr, old(db.Image())) ==>
      && (forall i <- idr :: db.Image().Read(i, x) == idr[i])
      && (forall a <- idr | a in sch.Colls() :: db.Image().Members(a, x) == old(db.Image()).Elems(idr[a]))
    ensures Admissible(sch, Create, items, x, idr, old(db.Image())) ==>
      OthersAfter(sch, Create, items, x, idr, old(db.Image()), db.Image())
  {
    hide Admissible, Coherent, Prepared, ItemsStep, Fails, Related, OthersAfter;
    if Admissible(sch, Create, items, x, idr, db.Image()) {
      AdmissiblePrepared(sch, Create, items, x, idr, db.Image());
    }
    db.WriteObject(x, idr);
    ghost var w := Work(db.Image(), x, idr);
    assert w.db == old(db.Image()).(slots := old(db.slots) + OfObject(x, idr));
    var ctx := new InvCtx(x, idr);
    :- InversesRealize(db, sch, Create, items, ctx);
    assert ItemsStep(sch, Create, items, w, Work(db.Image(), x, ctx.idr));
    assert Stored(sch, Create, items, x, idr, old(db.Image()), db.Image());
    if Admissible(sch, Create, items, x, idr, old(db.Image())) {
      CreateKeeps(sch, items, x, idr, old(db.Image()), db.Image());
    }
    StoreLaws(sch, Create, items, x, idr, old(db.Image()), db.Image());
    return Success;
  }

  /** IDB_agregatWrite: the patched IDR is written last. */
  method UpdateObject(db: Database, sch: Schema, items: seq<Item>, x: Oid, idr: map<Item, Oid>) returns (s: Status)
    requires sch.Valid() && db.Image().Sane() && NULL_OID < x < db.next
    modifies db
    ensures s.Success? ==> Stored(sch, Update, items, x, idr, old(db.Image()), db.Image())
    ensures Admissible(sch, Update, items, x, idr, old(db.Image())) ==> s.Success? && Coherent(sch, db.Image())
    ensures s.Success? ==>
      forall i, o | i !in sch.inverse ::
        db.Image().Read(i, o) == if o == x && i in idr then idr[i] else old(db.Image()).Read(i, o)
    ensures Admissible(sch, Update, items, x, idr, old(db.Image())) ==>
      && (forall i <- idr :: db.Image().Read(i, x) == idr[i])
      && (forall a <- idr | a in sch.Colls() :: db.Image().Members(a, x) == old(db.Image()).Elems(idr[a]))
    ensures Admissible(sch, Update, items, x, idr, old(db.Image())) ==>
      OthersAfter(sch, Update, items, x, idr, old(db.Image()), db.Image())
  {
    hide Admissible, Coherent, Prepared, ItemsStep, Fails, Related, OthersAfter;
    if Admissible(sch, Update, items, x, idr, db.Image()) {
      AdmissiblePrepared(sch, Update, items, x, idr, db.Image());
    }
    var ctx := new InvCtx(x, idr);
    :- InversesRealize(db, sch, Update, items, ctx);
    ghost var v := Work(db.Image(), x, ctx.idr);
    db.WriteObject(x, ctx.idr);
    assert ItemsStep(sch, Update, items, Work(old(db.Image()), x, idr), v);
    assert Stored(sch, Update, items, x, idr, old(db.Image()), db.Image());
    if Admissible(sch, Update, items, x, idr, old(db.Image())) {
      UpdateKeeps(sch, items, x, idr, old(db.Image()), db.Image());
    }
    StoreLaws(sch, Update, items, x, idr, old(db.Image()), db.Image());
    return Success;
  }

  /** IDB_agregatDelete: the object goes last. */
  method RemoveObject(db: Database, sch: Schema, items: seq<Item>, x: Oid, idr: map<Item, Oid>) returns (s: Status)
    requires sch.Valid() && db.Image().Sane() && NULL_OID < x < db.next
    modifies db
    ensures s.Success? ==> Stored(sch, Remove, items, x, idr, old(db.Image()), db.Image())
    ensures Admissible(sch, Remove, items, x, idr, old(db.Image())) ==> s.Success? && Coherent(sch, db.Image())
    ensures s.Success? ==> forall i :: db.Image().Read(i, x) == NULL_OID
    ensures s.Success? ==>
      forall i, o | i !in sch.inverse && o != x :: db.Image().Read(i, o) == old(db.Image()).Read(i, o)
    ensures Admissible(sch, Remove, items, x, idr, old(db.Image())) ==>
      forall a, o | a in sch.inverse :: !Related(sch, db.Image(), a, o, x)
    ensures Admissible(sch, Remove, items, x, idr, old(db.Image())) ==>
      OthersAfter(sch, Remove, items, x, idr, old(db.Image()), db.Image())
  {
    hide Admissible, Coherent, Prepared, ItemsStep, Fails, Related, OthersAfter;
    if Admissible(sch, Remove, items, x, idr, db.Image()) {
      AdmissiblePrepared(sch, Remove, items, x, idr, db.Image());
    }
    var ctx := new InvCtx(x, idr);
    :- InversesRealize(db, sch, Remove, items, ctx);
    ghost var v := Work(db.Image(), x, ctx.idr);
    db.DeleteObject(x);
    assert ItemsStep(sch, Remove, items, Work(old(db.Image()), x, idr), v);
    assert db.Image() == v.db.(slots := map s | s in v.db.slots && s.obj != x :: v.db.slots[s]);
    assert Stored(sch, Remove, items, x, idr, old(db.Image()), db.Image());
    NothingLeft(sch, items, x, idr, old(db.Image()), db.Image());
    StoreLaws(sch, Remove, items, x, idr, old(db.Image()), db.Image());
    return Success;
  }

  /** A write of the collection that attribute `w.item` of `w.owner` holds. */
  method WriteCollection(db: Database, sch: Schema, w: Write, changes: seq<Change>) returns (s: Status)
    requires sch.Valid() && db.Image().Sane() && db.Image().Live(db.Image().Read(w.item, w.owner))
    requires NULL_OID < w.owner < db.next
    requires forall ch | ch in changes :: ch.elem != NULL_OID
    modifies db
    ensures s.Success? ==>
      var was := old(db.Image()); db.Image() == Written(w, was.Read(w.item, w.owner), changes, was)
    ensures Coherent(sch, old(db.Image())) && WriteFit(sch, w) ==>
      (s.Success? <==> Editable(old(db.Image()).Members(w.item, w.owner), changes))
    ensures Coherent(sch, old(db.Image())) && WriteFit(sch, w) && Distinct(changes) ==>
      (s.Success? <==> forall e | Change(e, false) in changes :: e in old(db.Image()).Members(w.item, w.owner))
    ensures s.Success? && Coherent(sch, old(db.Image())) && WriteFit(sch, w) && Distinct(changes) ==>
      var was, now := old(db.Image()), db.Image();
      && (forall e :: e in now.Members(w.item, w.owner) <==>
            Change(e, true) in changes || (e in was.Members(w.item, w.owner) && Change(e, false) !in changes))
      && (if w.many then OtherEndN(w, changes, was, now) else OtherEnd1(w, changes, was, now))
      && (forall i, o | i != w.inv || (w.many && Change(o, true) !in changes) :: now.Read(i, o) == was.Read(i, o))
      && (forall i, o | i in sch.Colls() && i != w.item && i != w.inv :: now.Members(i, o) == was.Members(i, o))
    ensures s.Success? && Coherent(sch, old(db.Image())) && WriteFit(sch, w) && Distinct(changes)
      && (w.many ==> SoleOwner(w, changes, old(db.Image())))
      ==> Coherent(sch, db.Image())
  {
    var c := db.ReadOid(w.item, w.owner);
    ghost var was := db.Image();
    if Coherent(sch, was) && WriteFit(sch, w) {
      WritingRuns(sch, w, c, Edited(was.Elems(c), changes), changes, was);
      CoherentWrites(sch, w, was);
      if Distinct(changes) {
        EditableExactly(was.Elems(c), changes);
      }
    }
    :- Engine.CollectionWrite(db, w, c, changes);
    if Coherent(sch, was) && WriteFit(sch, w) && Distinct(changes) {
      forall i, o | i in sch.Colls() && i != w.item && i != w.inv
        ensures db.Image().Members(i, o) == was.Members(i, o)
      {
        WrittenApart(sch, w, c, changes, was, i, o);
      }
      if w.many ==> SoleOwner(w, changes, was) {
        WriteKeeps(sch, w, c, changes, was);
      }
    }
    return Success;
  }
}
