/** When the inverse routines succeed: a database whose collection attributes hold collections, and an
    IDR whose collection attributes do, are enough, and every routine leaves them so. */
module InverseSuccess {
  import opened Store
  import opened InverseSpec
  import opened InverseLaws
  import opened InverseLawsElem
  import opened InverseDriver
  import opened InverseFrame
  import opened InverseRuns

  /** The routine that the pair is routed to finds the collections it reads. */
  ghost predicate Runs(sch: Schema, q: Call, db: Db) {
    if q.item in sch.many then
      if q.inv in sch.many then RunsNN(q, db) else RunsN1(q, db)
    else
      q.inv in sch.many ==> Runs1N(q, db)
  }

  /** The collection attributes hold null or a collection, in the database and in the IDR. */
  ghost predicate Prepared(sch: Schema, w: Work) {
    && Typed(w.db, sch.Colls())
    && forall i | i in sch.Colls() && i in w.idr :: w.db.Readable(w.idr[i])
  }

  lemma PreparedRuns(sch: Schema, op: Op, item: Item, w: Work)
    requires sch.Valid() && item in sch.inverse && Prepared(sch, w)
    ensures Runs(sch, CallOf(sch, op, item, w), w.db)
  {
    var q := CallOf(sch, op, item, w);
    assert item in sch.many ==> item in sch.Colls() && w.db.Readable(q.target);
    assert q.inv in sch.many ==> q.inv in sch.Colls();
    assert item in sch.many ==> w.db.Readable(w.db.Read(item, w.oid));
    assert q.inv in sch.many ==> forall e :: w.db.Readable(w.db.Read(q.inv, e));
  }

  /** A routine removes no collection, and gives a collection slot null or a collection it has made. */
  lemma RoutedGrows(sch: Schema, q: Call, db: Db, fx: Effect)
    requires sch.Valid() && q.item in sch.inverse && q.inv == sch.inverse[q.item] && Routed(sch, q, db, fx)
    ensures db.colls.Keys <= fx.colls.Keys
    ensures forall k <- fx.writes | k.item in sch.Colls() :: fx.writes[k] == NULL_OID || fx.writes[k] in fx.colls
  {
    if q.item in sch.many && q.inv in sch.many {
      var made :| (q.op != Remove ==> Enumerates(made, Homeless(db, q.inv, Joined(q, db))))
          && fx == EffectNN(q, db, made);
      MadeSlotsKeys(made, db.next, q.inv);
    }
  }

  lemma PreparedStep(sch: Schema, op: Op, item: Item, w: Work, v: Work)
    requires sch.Valid() && Prepared(sch, w) && ItemStep(sch, op, item, w, v)
    ensures Prepared(sch, v)
  {
    if item in sch.inverse {
      var q := CallOf(sch, op, item, w);
      var fx :| Routed(sch, q, w.db, fx) && AppliedTo(w, fx, v);
      RoutedGrows(sch, q, w.db, fx);
      hide Routed;
      forall i: Item, o: Oid | i in sch.Colls() ensures v.db.Readable(v.db.Read(i, o)) {
        assert w.db.Readable(w.db.Read(i, o));
      }
    }
  }

  /** An object that fits the database is ready to be stored or removed. */
  lemma AdmissiblePrepared(sch: Schema, op: Op, items: seq<Item>, x: Oid, idr: map<Item, Oid>, db: Db)
    requires sch.Valid() && Admissible(sch, op, items, x, idr, db)
    ensures Prepared(sch, Work(db, x, idr))
    ensures Prepared(sch, Work(db.(slots := db.slots + OfObject(x, idr)), x, idr))
  {
    forall i | i in sch.Colls() && i in idr ensures db.Readable(idr[i]) {
      assert ItemFit(sch, op, items, i, Work(db, x, idr), db);
    }
    var now := db.(slots := db.slots + OfObject(x, idr));
    forall i: Item, o: Oid | i in sch.Colls() ensures now.Readable(now.Read(i, o)) {
      assert db.Readable(db.Read(i, o));
    }
  }

  /** Reporting changes succeeds where the attributes that hold collections do. */
  lemma {:induction false} TypedRuns(w: Write, changes: seq<Change>, db: Db)
    requires Typed(db, {w.item}) && (w.many ==> Typed(db, {w.inv})) && w.item != w.inv
    ensures PerformAllRuns(w, changes, db)
    decreases |changes|
  {
    if changes != [] {
      forall e ensures db.Readable(db.Read(w.item, e)) && (w.many ==> db.Readable(db.Read(w.inv, e))) {
      }
      forall i: Item, o: Oid | i == w.item || (w.many && i == w.inv)
        ensures Perform(w, changes[0], db).Readable(Perform(w, changes[0], db).Read(i, o))
      {
        PerformTyped(w, changes[0], db, i, o);
      }
      TypedRuns(w, changes[1..], Perform(w, changes[0], db));
    }
  }

  lemma WritingRuns(sch: Schema, w: Write, c: Oid, es: set<Oid>, changes: seq<Change>, db: Db)
    requires sch.Valid() && Typed(db, sch.Colls()) && WriteFit(sch, w)
    ensures PerformAllRuns(w, changes, WithElems(db, c, es))
  {
    var now := WithElems(db, c, es);
    forall i: Item, o: Oid | i in sch.Colls() ensures now.Readable(now.Read(i, o)) {
      assert db.Readable(db.Read(i, o));
    }
    TypedRuns(w, changes, now);
  }
}
