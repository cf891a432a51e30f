/** All the relationships of a schema at once: storing or removing one object runs the inverse
    routine of each of its attributes in turn. */
module InverseDriver {
  import opened Store
  import opened InverseSpec
  import opened InverseLaws
  import opened InverseLawsNN

  /** `inverse` pairs the attributes that have one; `many` are those that hold a collection. */
  datatype Schema = Schema(inverse: map<Item, Item>, many: set<Item>) {
    /** "Inverse of" is an involution, and no collection attribute is its own inverse. */
    ghost predicate Valid() {
      && (forall a <- inverse :: inverse[a] in inverse && inverse[inverse[a]] == a)
      && (forall a <- inverse :: a in many ==> inverse[a] != a)
    }

    /** The collection attributes that take part in a relationship. */
    function Colls(): set<Item> {
      set a | a in inverse && a in many
    }
  }

  /** Both ends of the relationship of `a` say the same. */
  ghost predicate Linked(sch: Schema, db: Db, a: Item)
    requires a in sch.inverse
  {
    var b := sch.inverse[a];
    if a in sch.many then
      if b in sch.many then SymNN(db, a, b) else Sym1N(db, b, a)
    else
      if b in sch.many then Sym1N(db, a, b) else Sym11(db, a, b)
  }

  /** Referential integrity of the whole database. */
  ghost predicate Coherent(sch: Schema, db: Db) {
    && db.Sane() && Typed(db, sch.Colls()) && Owned(db, sch.Colls())
    && forall a <- sch.inverse :: Linked(sch, db, a)
  }

  /** inverse_realize: the routine is chosen by the two classes of the pair. */
  ghost predicate Routed(sch: Schema, q: Call, db: Db, fx: Effect) {
    if q.item in sch.many then
      if q.inv in sch.many then
        exists made ::
          && (q.op != Remove ==> Enumerates(made, Homeless(db, q.inv, Joined(q, db))))
          && fx == EffectNN(q, db, made)
      else fx == EffectN1(q, db)
    else
      if q.inv in sch.many then fx == Effect1N(q, db) else fx == Effect11(q, db)
  }

  /** What storing or removing asks of the reference in the IDR. */
  ghost predicate Fit(sch: Schema, q: Call, db: Db) {
    && q.item in sch.inverse && q.inv == sch.inverse[q.item]
    && NULL_OID < q.obj < db.next && q.target < db.next
    && (if q.item in sch.many then
          && db.Readable(q.target)
          && (q.op == Remove ==> q.target == db.Read(q.item, q.obj))
          && if q.inv in sch.many
             then KeepsNN(q, db) && (q.op != Remove ==> Free(q, db, sch.Colls()))
             else KeepsN1(q, db) && (q.op != Remove ==> FreeN1(q, db, sch.Colls()))
        else
          if q.inv in sch.many then Keeps1N(q, db) else Keeps11(q, db))
  }

  // ----- a step leaves every other relationship alone

  lemma StepSlots(sch: Schema, q: Call, db: Db, fx: Effect, i: Item, o: Oid)
    requires Routed(sch, q, Seen(q, db), fx) && i != q.item && i != q.inv
    ensures Settled(q, db, fx).Read(i, o) == db.Read(i, o)
  {
    if q.item in sch.many && q.inv in sch.many {
      var made :| (q.op != Remove ==> Enumerates(made, Homeless(Seen(q, db), q.inv, Joined(q, Seen(q, db)))))
        && fx == EffectNN(q, Seen(q, db), made);
      MadeSlotsKeys(made, db.next, q.inv);
    }
  }

  lemma ElemsNN(q: Call, db: Db, made: seq<Oid>, c: Oid)
    requires db.Sane() && c < db.next && db.Read(q.item, q.obj) != c && (q.op == Remove ==> q.target != c)
    requires forall e :: Seen(q, db).Read(q.inv, e) != c
    ensures Now(q, db, made).Elems(c) == db.Elems(c)
  {
    if q.op != Remove {
      ElemsNow(q, db, made, c);
    }
  }

  lemma Elems1N(q: Call, db: Db, c: Oid)
    requires db.Sane() && c < db.next
    requires db.Live(c) ==> db.Read(q.inv, q.target) != c && db.Read(q.inv, db.Read(q.item, q.obj)) != c
    requires q.item != q.inv
    ensures Settled(q, db, Effect1N(q, Seen(q, db))).Elems(c) == db.Elems(c)
  {
  }

  lemma StepElems(sch: Schema, q: Call, db: Db, fx: Effect, i: Item, o: Oid)
    requires sch.Valid() && Coherent(sch, db) && Fit(sch, q, db) && Routed(sch, q, Seen(q, db), fx)
    requires i in sch.Colls() && i != q.item && i != q.inv
    ensures Settled(q, db, fx).Members(i, o) == db.Members(i, o)
  {
    hide Linked, EffectNN, Homeless, Joined;
    var c := db.Read(i, o);
    StepSlots(sch, q, db, fx, i, o);
    assert c < db.next;
    if q.inv in sch.many {
      forall e | db.Live(c)
        ensures Seen(q, db).Read(q.inv, e) != c && db.Read(q.inv, e) != c
      {
        assert Apart(db, i, o, q.inv, e);
      }
      if q.item in sch.many {
        assert Apart(db, i, o, q.item, q.obj);
        var made :| (q.op != Remove ==> Enumerates(made, Homeless(Seen(q, db), q.inv, Joined(q, Seen(q, db)))))
          && fx == EffectNN(q, Seen(q, db), made);
        if db.Live(c) {
          ElemsNN(q, db, made, c);
        } else {
          StepNNLive(q, db, made, c);
        }
      } else {
        Elems1N(q, db, c);
      }
    }
  }

  // ----- a step keeps its own relationship

  lemma OwnPairNN(sch: Schema, q: Call, db: Db, fx: Effect)
    requires sch.Valid() && Coherent(sch, db) && Fit(sch, q, db) && Routed(sch, q, Seen(q, db), fx)
    requires q.item in sch.many && q.inv in sch.many
    ensures SymNN(Settled(q, db, fx), q.item, q.inv)
  {
    var made :| (q.op != Remove ==> Enumerates(made, Homeless(Seen(q, db), q.inv, Joined(q, Seen(q, db)))))
      && fx == EffectNN(q, Seen(q, db), made);
    assert Linked(sch, db, q.item);
    if q.op != Remove {
      StepNNKeeps(q, db, made);
    } else {
      forall w: Oid | db.Live(q.target)
        ensures db.Read(q.inv, w) != q.target
      {
        assert Apart(db, q.item, q.obj, q.inv, w);
      }
      RemoveNNKeeps(q, db);
    }
  }

  lemma OwnPair(sch: Schema, q: Call, db: Db, fx: Effect)
    requires sch.Valid() && Coherent(sch, db) && Fit(sch, q, db) && Routed(sch, q, Seen(q, db), fx)
    ensures Linked(sch, Settled(q, db, fx), q.item)
  {
    assert Linked(sch, db, q.item) && Linked(sch, db, q.inv);
    if q.item in sch.many && q.inv in sch.many {
      OwnPairNN(sch, q, db, fx);
    } else if q.item in sch.many {
      StepN1Keeps(q, db);
    } else if q.inv in sch.many {
      Step1NKeeps(q, db);
    } else {
      Step11Keeps(q, db);
    }
  }

  /** Seen from the other end, a relationship is the same. */
  lemma LinkedBack(sch: Schema, db: Db, a: Item)
    requires sch.Valid() && a in sch.inverse && Linked(sch, db, a)
    ensures Linked(sch, db, sch.inverse[a])
  {
    var b := sch.inverse[a];
    if a !in sch.many && b !in sch.many {
      forall x: Oid, y: Oid | x != NULL_OID && y != NULL_OID
        ensures Agree11(db, b, a, x, y)
      {
        assert Agree11(db, a, b, y, x);
      }
    } else if a in sch.many && b in sch.many {
      forall x: Oid, y: Oid | x != NULL_OID && y != NULL_OID
        ensures AgreeNN(db, b, a, x, y)
      {
        assert AgreeNN(db, a, b, y, x);
      }
    }
  }

  /** What a relationship says depends on its own two attributes only. */
  lemma LinkedFrame(sch: Schema, db: Db, now: Db, a: Item)
    requires sch.Valid() && a in sch.inverse && Linked(sch, db, a)
    requires forall i, o | i in {a, sch.inverse[a]} :: now.Read(i, o) == db.Read(i, o)
    requires forall i, o | i in {a, sch.inverse[a]} && i in sch.many :: now.Members(i, o) == db.Members(i, o)
    ensures Linked(sch, now, a)
  {
    var b := sch.inverse[a];
    if a in sch.many && b in sch.many {
      forall x: Oid, y: Oid | x != NULL_OID && y != NULL_OID
        ensures AgreeNN(now, a, b, x, y)
      {
        assert AgreeNN(db, a, b, x, y);
      }
    } else if a in sch.many {
      forall x: Oid, y: Oid | x != NULL_OID && y != NULL_OID
        ensures Agree1N(now, b, a, x, y)
      {
        assert Agree1N(db, b, a, x, y);
      }
    } else if b in sch.many {
      forall x: Oid, y: Oid | x != NULL_OID && y != NULL_OID
        ensures Agree1N(now, a, b, x, y)
      {
        assert Agree1N(db, a, b, x, y);
      }
    } else {
      forall x: Oid, y: Oid | x != NULL_OID && y != NULL_OID
        ensures Agree11(now, a, b, x, y)
      {
        assert Agree11(db, a, b, x, y);
      }
    }
  }

  lemma OtherPair(sch: Schema, q: Call, db: Db, fx: Effect, a: Item)
    requires sch.Valid() && Coherent(sch, db) && Fit(sch, q, db) && Routed(sch, q, Seen(q, db), fx)
    requires a in sch.inverse && a != q.item && a != q.inv
    ensures Linked(sch, Settled(q, db, fx), a)
  {
    var now, b := Settled(q, db, fx), sch.inverse[a];
    assert b != q.item && b != q.inv;
    forall i, o | i in {a, b}
      ensures now.Read(i, o) == db.Read(i, o)
    {
      StepSlots(sch, q, db, fx, i, o);
    }
    forall i, o | i in {a, b} && i in sch.many
      ensures now.Members(i, o) == db.Members(i, o)
    {
      StepElems(sch, q, db, fx, i, o);
    }
    LinkedFrame(sch, db, now, a);
  }

  // ----- a step keeps the rest of the invariant

  lemma Step11Sane(q: Call, db: Db)
    requires db.Sane() && NULL_OID < q.obj < db.next && q.target < db.next
    ensures Settled(q, db, Effect11(q, Seen(q, db))).Sane()
  {
  }

  lemma StepSane(sch: Schema, q: Call, db: Db, fx: Effect)
    requires sch.Valid() && Coherent(sch, db) && Fit(sch, q, db) && Routed(sch, q, Seen(q, db), fx)
    ensures Settled(q, db, fx).Sane()
  {
    hide EffectNN, EffectN1, Effect1N, Effect11, Settled, Homeless, Joined;
    if q.item in sch.many && q.inv in sch.many {
      var made :| (q.op != Remove ==> Enumerates(made, Homeless(Seen(q, db), q.inv, Joined(q, Seen(q, db)))))
        && fx == EffectNN(q, Seen(q, db), made);
      assert Linked(sch, db, q.item);
      StepNNSane(q, db, made);
    } else if q.item in sch.many {
      StepN1Sane(q, db);
    } else if q.inv in sch.many {
      Step1NSane(q, db);
    } else {
      Step11Sane(q, db);
    }
  }

  lemma StepTyped(sch: Schema, q: Call, db: Db, fx: Effect, i: Item, o: Oid)
    requires sch.Valid() && Coherent(sch, db) && Fit(sch, q, db) && Routed(sch, q, Seen(q, db), fx)
    requires i in sch.Colls()
    ensures Settled(q, db, fx).Readable(Settled(q, db, fx).Read(i, o))
  {
    assert db.Readable(db.Read(i, o));
    if q.item in sch.many && q.inv in sch.many {
      var made :| (q.op != Remove ==> Enumerates(made, Homeless(Seen(q, db), q.inv, Joined(q, Seen(q, db)))))
        && fx == EffectNN(q, Seen(q, db), made);
      StepNNTyped(q, db, made, i, o);
    } else if q.item in sch.many {
      StepN1Typed(q, db, i, o);
    } else if q.inv in sch.many {
      Step1NTyped(q, db, i, o);
    } else {
      StepSlots(sch, q, db, fx, i, o);
    }
  }

  lemma ApartN1(sch: Schema, q: Call, db: Db, fx: Effect, i: Item, o: Oid, j: Item, p: Oid)
    requires sch.Valid() && Coherent(sch, db) && Fit(sch, q, db) && Routed(sch, q, Seen(q, db), fx)
    requires q.item in sch.many && q.inv !in sch.many && i in sch.Colls() && j in sch.Colls() && o != NULL_OID
    requires p != NULL_OID
    ensures Apart(Settled(q, db, fx), i, o, j, p)
  {
    assert Apart(db, i, o, j, p) && Linked(sch, db, q.item);
    if q.op == Remove {
      RemovedN1(q, db, i, o);
      RemovedN1(q, db, j, p);
    } else {
      forall e | e in Abandoned(q, Seen(q, db))
        ensures db.Read(q.inv, e) == q.obj
      {
        MemberPoints(db, q.inv, q.item, e, q.obj);
      }
      YieldsByFree(sch, q, db, i, o);
      YieldsByFree(sch, q, db, j, p);
      StepN1Apart(q, db, i, o, j, p);
    }
  }

  lemma RemovedN1(q: Call, db: Db, i: Item, o: Oid)
    requires q.op == Remove && i != q.inv
    ensures var v := Settled(q, db, EffectN1(q, db)).Read(i, o);
            v == if IsStored(q, i, o) then NULL_OID else db.Read(i, o)
  {
  }

  lemma YieldsByFree(sch: Schema, q: Call, db: Db, i: Item, o: Oid)
    requires Coherent(sch, db) && q.item in sch.inverse && q.inv == sch.inverse[q.item]
    requires q.item in sch.many && q.inv !in sch.many && i in sch.Colls() && o != NULL_OID
    requires FreeN1(q, db, sch.Colls())
    ensures Yields(q, db, i, o)
  {
    assert Linked(sch, db, q.item);
    if db.Live(q.target) && db.Read(i, o) == q.target {
      forall e | e in db.Elems(q.target)
        ensures db.Read(q.inv, e) == o
      {
        MemberPoints(db, q.inv, q.item, e, o);
      }
    }
  }

  lemma NullSlots(db: Db, i: Item)
    requires db.Sane()
    ensures db.Read(i, NULL_OID) == NULL_OID && !db.Live(NULL_OID)
  {
  }

  lemma StepApart(sch: Schema, q: Call, db: Db, fx: Effect, i: Item, o: Oid, j: Item, p: Oid)
    requires sch.Valid() && Coherent(sch, db) && Fit(sch, q, db) && Routed(sch, q, Seen(q, db), fx)
    requires i in sch.Colls() && j in sch.Colls()
    ensures Apart(Settled(q, db, fx), i, o, j, p)
  {
    assert Apart(db, i, o, j, p);
    assert db.Readable(db.Read(i, o)) && db.Readable(db.Read(j, p));
    if q.item in sch.many && q.inv in sch.many {
      var made :| (q.op != Remove ==> Enumerates(made, Homeless(Seen(q, db), q.inv, Joined(q, Seen(q, db)))))
        && fx == EffectNN(q, Seen(q, db), made);
      StepNNApart(q, db, made, i, o, j, p);
    } else if q.item in sch.many {
      StepSane(sch, q, db, fx);
      NullSlots(Settled(q, db, fx), i);
      NullSlots(Settled(q, db, fx), j);
      if o != NULL_OID && p != NULL_OID {
        ApartN1(sch, q, db, fx, i, o, j, p);
      }
    } else if q.inv in sch.many {
      Step1NApart(q, db, i, o, j, p);
    } else {
      StepSlots(sch, q, db, fx, i, o);
      StepSlots(sch, q, db, fx, j, p);
    }
  }

  /** One attribute of one object is stored: every relationship of the schema stays coherent. */
  lemma StepKeeps(sch: Schema, q: Call, db: Db, fx: Effect)
    requires sch.Valid() && Coherent(sch, db) && Fit(sch, q, db) && Routed(sch, q, Seen(q, db), fx)
    ensures Coherent(sch, Settled(q, db, fx))
  {
    var now := Settled(q, db, fx);
    StepSane(sch, q, db, fx);
    forall i: Item, o: Oid | i in sch.Colls()
      ensures now.Readable(now.Read(i, o))
    {
      StepTyped(sch, q, db, fx, i, o);
    }
    forall i: Item, o: Oid, j: Item, p: Oid | i in sch.Colls() && j in sch.Colls()
      ensures Apart(now, i, o, j, p)
    {
      StepApart(sch, q, db, fx, i, o, j, p);
    }
    forall a | a in sch.inverse
      ensures Linked(sch, now, a)
    {
      if a == q.item {
        OwnPair(sch, q, db, fx);
      } else if a == q.inv {
        OwnPair(sch, q, db, fx);
        LinkedBack(sch, now, q.item);
      } else {
        OtherPair(sch, q, db, fx, a);
      }
    }
  }
}
