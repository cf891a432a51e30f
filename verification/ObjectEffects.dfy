/** What a stored or a removed object leaves in the whole database, attribute by attribute: its own
    slots and collections, and which of the relations among other objects it takes away. */
module ObjectEffects {
  import opened Store
  import opened InverseSpec
  import opened InverseLaws
  import opened InverseLawsNN
  import opened InverseDriver
  import opened InverseFrame
  import opened InverseRuns

  /** Attribute `a` relates `o` to `m`. */
  predicate Related(sch: Schema, db: Db, a: Item, o: Oid, m: Oid) {
    if a in sch.many then m in db.Members(a, o) else db.Read(a, o) == m
  }

  /** A slot of attribute `a` that holds `ref` relates its object to `m`. */
  predicate Given(sch: Schema, db: Db, a: Item, ref: Oid, m: Oid) {
    if a in sch.many then m in db.Elems(ref) else ref == m
  }

  lemma RelatedBack(sch: Schema, db: Db, a: Item, o: Oid, m: Oid)
    requires a in sch.inverse && Linked(sch, db, a) && o != NULL_OID && m != NULL_OID
    ensures Related(sch, db, a, o, m) <==> Related(sch, db, sch.inverse[a], m, o)
  {
    var b := sch.inverse[a];
    if a in sch.many && b in sch.many {
      assert AgreeNN(db, a, b, o, m);
    } else if a in sch.many {
      assert Agree1N(db, b, a, m, o);
    } else if b in sch.many {
      assert Agree1N(db, a, b, o, m);
    } else {
      assert Agree11(db, a, b, o, m);
    }
  }

  // ----- one step, and the relations among other objects

  /** The step relates its object to one of the two, who can have one partner only.  A removal takes
      nothing away but what a stale reference leads to, an object that is its own partner. */
  predicate TakenBy(sch: Schema, q: Call, db: Db, a: Item, o: Oid, m: Oid) {
    if q.op == Remove then q.item == q.inv == a && o == m == q.target
    else
      && q.inv !in sch.many
      && ((a == q.item && Given(sch, db, a, q.target, m)) || (a == q.inv && Given(sch, db, q.item, q.target, o)))
  }

  lemma Takes11(q: Call, db: Db, o: Oid, m: Oid)
    requires Facts11(q, db) && Keeps11(q, db) && o != q.obj && m != q.obj && o != NULL_OID && m != NULL_OID
    requires Agree11(db, q.item, q.inv, o, m)
    ensures Settled(q, db, Effect11(q, Seen(q, db))).Read(q.item, o) == m <==>
      db.Read(q.item, o) == m && !(if q.op == Remove then q.item == q.inv && o == m == q.target
                                   else q.target == m || (q.item == q.inv && q.target == o))
  {
  }

  lemma TakesN1(q: Call, db: Db, o: Oid, m: Oid)
    requires NULL_OID !in db.colls && q.item != q.inv && KeepsN1(q, db)
    requires o != q.obj && m != q.obj && o != NULL_OID && m != NULL_OID
    requires Agree1N(db, q.inv, q.item, m, q.obj) && q.obj != NULL_OID
    ensures Settled(q, db, EffectN1(q, Seen(q, db))).Read(q.inv, m) == o <==>
      db.Read(q.inv, m) == o && !(q.op != Remove && m in db.Elems(q.target))
  {
    if q.op != Remove {
      MemberValue(q, db, m);
      hide EffectN1, Settled;
    }
  }

  lemma TakesRemoved(q: Call, db: Db, o: Oid)
    requires Ready(q, db) && q.op == Remove && OwnSide(q, db) && KeepsNN(q, db) && o != q.obj
    ensures Now(q, db, []).Members(q.item, o) == db.Members(q.item, o)
  {
    MembersRemoved(q, db, q.item, o);
    hide Now;
  }

  lemma TakesNN(sch: Schema, q: Call, db: Db, fx: Effect, o: Oid)
    requires sch.Valid() && Coherent(sch, db) && Fit(sch, q, db) && Routed(sch, q, Seen(q, db), fx)
    requires q.item in sch.many && q.inv in sch.many && o != q.obj
    ensures Settled(q, db, fx).Members(q.item, o) == db.Members(q.item, o)
  {
    hide EffectNN, Homeless, Joined, Enumerates, Settled;
    var made :| (q.op != Remove ==> Enumerates(made, Homeless(Seen(q, db), q.inv, Joined(q, Seen(q, db)))))
      && fx == EffectNN(q, Seen(q, db), made);
    assert Linked(sch, db, q.item);
    assert Ready(q, db);
    if q.op != Remove {
      OtherMembers(q, db, made, o);
    } else {
      forall e: Oid | db.Live(q.target)
        ensures db.Read(q.inv, e) != q.target
      {
        assert Apart(db, q.item, q.obj, q.inv, e);
      }
      RemoveNNSane(q, db);
      assert Settled(q, db, fx) == Now(q, db, made) == Now(q, db, []);
      TakesRemoved(q, db, o);
    }
  }

  lemma TakesItem(sch: Schema, q: Call, db: Db, fx: Effect, o: Oid, m: Oid)
    requires sch.Valid() && Coherent(sch, db) && Fit(sch, q, db) && Routed(sch, q, Seen(q, db), fx)
    requires o != q.obj && m != q.obj && o != NULL_OID && m != NULL_OID
    ensures Related(sch, Settled(q, db, fx), q.item, o, m) <==>
      Related(sch, db, q.item, o, m) && !TakenBy(sch, q, db, q.item, o, m)
  {
    assert Linked(sch, db, q.item);
    if q.item in sch.many && q.inv in sch.many {
      hide Routed, Coherent, Fit, Settled, Linked;
      TakesNN(sch, q, db, fx, o);
    } else if q.item in sch.many {
      OwnPair(sch, q, db, fx);
      assert Agree1N(db, q.inv, q.item, m, q.obj);
      hide Linked, EffectN1, Settled;
      TakesN1(q, db, o, m);
      RelatedBack(sch, db, q.item, o, m);
      RelatedBack(sch, Settled(q, db, fx), q.item, o, m);
    } else if q.inv in sch.many {
      assert Settled(q, db, fx).Read(q.item, o) == db.Read(q.item, o);
    } else {
      Looked11(q, db);
      assert Agree11(db, q.item, q.inv, o, m);
      hide Sym11, Effect11, Settled, Facts11;
      Takes11(q, db, o, m);
    }
  }

  /** One attribute is stored: of the relations among other objects, those are gone that the step takes
      away, and no other. */
  lemma StepTakes(sch: Schema, q: Call, db: Db, fx: Effect, a: Item, o: Oid, m: Oid)
    requires sch.Valid() && Coherent(sch, db) && Fit(sch, q, db) && Routed(sch, q, Seen(q, db), fx)
    requires o != q.obj && m != q.obj && o != NULL_OID && m != NULL_OID && a in sch.inverse
    ensures Related(sch, Settled(q, db, fx), a, o, m) <==>
      Related(sch, db, a, o, m) && !TakenBy(sch, q, db, a, o, m)
  {
    hide Routed, Settled, Linked, Keeps11, KeepsN1, KeepsNN, Typed, Owned, Free, FreeN1;
    if a == q.item {
      TakesItem(sch, q, db, fx, o, m);
    } else if a == q.inv {
      OwnPair(sch, q, db, fx);
      RelatedBack(sch, db, q.item, m, o);
      RelatedBack(sch, Settled(q, db, fx), q.item, m, o);
      TakesItem(sch, q, db, fx, m, o);
    } else {
      StepSlots(sch, q, db, fx, a, o);
      if a in sch.many {
        StepElems(sch, q, db, fx, a, o);
      }
    }
  }

  // ----- one step, and the object's own slots and collections

  lemma OwnN1(q: Call, db: Db)
    requires q.item != q.inv && q.op != Remove && q.obj != NULL_OID
    ensures Settled(q, db, EffectN1(q, Seen(q, db))).Read(q.item, q.obj) == q.target
  {
    OwnerValue(q, db, q.obj);
    hide EffectN1, Settled;
  }

  lemma OwnNN(sch: Schema, q: Call, db: Db, fx: Effect)
    requires sch.Valid() && Coherent(sch, db) && Fit(sch, q, db) && Routed(sch, q, Seen(q, db), fx)
    requires q.item in sch.many && q.inv in sch.many && q.op != Remove
    ensures Settled(q, db, fx).Members(q.item, q.obj) == db.Elems(q.target)
  {
    hide EffectNN, Homeless, Joined, Enumerates, Settled;
    var made :| Enumerates(made, Homeless(Seen(q, db), q.inv, Joined(q, Seen(q, db))))
        && fx == EffectNN(q, Seen(q, db), made);
    assert Linked(sch, db, q.item);
    assert Ready(q, db);
    OwnMembers(q, db, made);
  }

  lemma Own11(q: Call, db: Db)
    requires Keeps11(q, db) && q.obj != NULL_OID && q.op != Remove
    ensures var w := Effect11(q, Seen(q, db)).writes; Slot(q.obj, q.item) in w ==> w[Slot(q.obj, q.item)] == q.target
  {
  }

  /** The step writes nothing else into the object's slot than the reference it was given. */
  lemma StepSlot(sch: Schema, q: Call, db: Db, fx: Effect)
    requires sch.Valid() && Fit(sch, q, db) && Routed(sch, q, Seen(q, db), fx) && q.op != Remove
    ensures Slot(q.obj, q.item) in fx.writes ==> fx.writes[Slot(q.obj, q.item)] == q.target
  {
    hide EffectNN, EffectN1, Effect11, Homeless, Joined, Enumerates;
    if q.item in sch.many && q.inv in sch.many {
      RoutedKeys(sch, q, db, fx);
      var made :| Enumerates(made, Homeless(Seen(q, db), q.inv, Joined(q, Seen(q, db))))
          && fx == EffectNN(q, Seen(q, db), made);
      WritesInverse(q, Seen(q, db), made);
    } else if q.item in sch.many {
      OwnN1(q, db);
    } else if q.inv !in sch.many {
      Own11(q, db);
    }
  }

  lemma WritesInverse(q: Call, db: Db, made: seq<Oid>)
    ensures forall k <- EffectNN(q, db, made).writes :: k.item == q.inv
  {
    MadeSlotsKeys(made, db.next, q.inv);
  }

  /** The collection it is given is its own then, with the elements it has. */
  lemma StepOwn(sch: Schema, q: Call, db: Db, fx: Effect)
    requires sch.Valid() && Coherent(sch, db) && Fit(sch, q, db) && Routed(sch, q, Seen(q, db), fx) && q.op != Remove
    requires q.item in sch.many
    ensures Settled(q, db, fx).Members(q.item, q.obj) == db.Elems(q.target)
  {
    hide Settled;
    if q.inv in sch.many {
      OwnNN(sch, q, db, fx);
    } else {
      OwnN1(q, db);
      SameCollsN1(q, db);
    }
  }

  /** What the other end of the relationship was given before is left alone. */
  lemma DoneNN(sch: Schema, q: Call, db: Db, fx: Effect)
    requires sch.Valid() && Coherent(sch, db) && Fit(sch, q, db) && Routed(sch, q, Seen(q, db), fx) && q.op != Remove
    requires q.item in sch.many && q.inv in sch.many && Distant(sch, q, db)
    ensures Settled(q, db, fx).Elems(db.Read(q.inv, q.obj)) == db.Members(q.inv, q.obj)
  {
    var made :| Enumerates(made, Homeless(Seen(q, db), q.inv, Joined(q, Seen(q, db))))
        && fx == EffectNN(q, Seen(q, db), made);
    var c := db.Read(q.inv, q.obj);
    assert Apart(db, q.inv, q.obj, q.item, q.obj);
    forall o | db.Live(c) && o != q.obj ensures db.Read(q.inv, o) != c {
      assert Apart(db, q.inv, q.obj, q.inv, o);
    }
    assert c < db.next by { assert db.Readable(c); }
    hide EffectNN, Homeless, Joined, Settled;
    EndCollNN(q, db, made, c);
  }

  lemma StepDone(sch: Schema, q: Call, db: Db, fx: Effect)
    requires sch.Valid() && Coherent(sch, db) && Fit(sch, q, db) && Routed(sch, q, Seen(q, db), fx) && q.op != Remove
    requires q.inv in sch.many && q.item != q.inv && Distant(sch, q, db)
    ensures Settled(q, db, fx).Members(q.inv, q.obj) == db.Members(q.inv, q.obj)
  {
    var c := db.Read(q.inv, q.obj);
    NoSelfWrites(sch, q, db, fx);
    assert Settled(q, db, fx).Read(q.inv, q.obj) == c;
    if q.item in sch.many {
      hide Settled;
      DoneNN(sch, q, db, fx);
    } else {
      assert Apart(db, q.inv, q.obj, q.inv, q.target) && Apart(db, q.inv, q.obj, q.inv, db.Read(q.item, q.obj));
      assert c < db.next by { assert db.Readable(c); }
      hide Settled, Effect1N;
      Elems1N(q, db, c);
    }
  }

  // ----- all attributes of an object

  /** The object is given a partner of one of the two, or one of the two as a partner, who cannot keep
      another one; on removal, see above. */
  predicate Taken(sch: Schema, op: Op, items: seq<Item>, x: Oid, idr: map<Item, Oid>, db: Db, a: Item, o: Oid, m: Oid)
    requires a in sch.inverse
  {
    var b := sch.inverse[a];
    if op == Remove then a == b && a in items && o == m == Ref(idr, a)
    else
      || (a in items && b !in sch.many && Given(sch, db, a, Ref(idr, a), m))
      || (b in items && a !in sch.many && Given(sch, db, b, Ref(idr, b), o))
  }

  /** What an attribute that waits for its turn is to be given stays as it is. */
  lemma GivenKept(sch: Schema, op: Op, all: seq<Item>, rest: seq<Item>, w: Work, t: Db, v: Work, u: Db, i: Item)
    requires sch.Valid() && Coherent(sch, t) && RestFit(sch, op, all, rest, w, t) && rest != [] && i in rest[1..]
    requires SettledStep(sch, op, rest[0], w, t, v, u) && op != Remove
    ensures i in sch.Colls() ==> u.Elems(Ref(w.idr, i)) == t.Elems(Ref(w.idr, i))
  {
    hide Coherent, Fit, Distant, Settled, Routed, Ref, AppliedTo;
    assert rest[0] in rest && i in rest && i != rest[0];
    if i in sch.Colls() && rest[0] in sch.inverse {
      var q, r := CallOf(sch, op, rest[0], w), CallOf(sch, op, i, w);
      var fx :| Routed(sch, q, Seen(q, t), fx) && AppliedTo(w, fx, v) && u == Settled(q, t, fx);
      assert ItemFit(sch, op, all, i, w, t) && ItemFit(sch, op, all, rest[0], w, t);
      if i == q.inv {
        EndKept(sch, q, t, fx, r);
      } else {
        TargetKept(sch, q, t, fx, r);
      }
    }
  }

  lemma PatchedRef(w: Work, fx: Effect, v: Work, i: Item)
    requires AppliedTo(w, fx, v)
    ensures Ref(v.idr, i) == if Slot(w.oid, i) in fx.writes then fx.writes[Slot(w.oid, i)] else Ref(w.idr, i)
  {
  }

  /** The IDR goes on holding what it is given. */
  lemma RefsKept(sch: Schema, op: Op, all: seq<Item>, rest: seq<Item>, w: Work, t: Db, v: Work, u: Db, i: Item)
    requires sch.Valid() && Coherent(sch, t) && RestFit(sch, op, all, rest, w, t) && rest != [] && i in all
    requires SettledStep(sch, op, rest[0], w, t, v, u) && op != Remove
    ensures Ref(v.idr, i) == Ref(w.idr, i)
  {
    hide Coherent, Fit, Distant, Settled, Routed, AppliedTo, Ref;
    assert rest[0] in rest;
    if rest[0] in sch.inverse {
      var q := CallOf(sch, op, rest[0], w);
      var fx :| Routed(sch, q, Seen(q, t), fx) && AppliedTo(w, fx, v) && u == Settled(q, t, fx);
      assert ItemFit(sch, op, all, rest[0], w, t);
      PatchedRef(w, fx, v, i);
      RoutedKeys(sch, q, t, fx);
      StepSlot(sch, q, t, fx);
      if q.inv in all && q.inv != q.item {
        NoSelfWrites(sch, q, t, fx);
      }
    }
  }

  /** A collection attribute handled before goes on holding the same elements. */
  lemma DoneKept(sch: Schema, op: Op, all: seq<Item>, rest: seq<Item>, w: Work, t: Db, v: Work, u: Db, a: Item)
    requires sch.Valid() && Coherent(sch, t) && RestFit(sch, op, all, rest, w, t) && rest != []
    requires SettledStep(sch, op, rest[0], w, t, v, u) && op != Remove && a in sch.Colls() && a in all && a !in rest
    ensures u.Members(a, w.oid) == t.Members(a, w.oid)
  {
    hide Coherent, Fit, Distant, Settled, Routed, AppliedTo;
    assert rest[0] in rest;
    if rest[0] in sch.inverse {
      var q := CallOf(sch, op, rest[0], w);
      var fx :| Routed(sch, q, Seen(q, t), fx) && AppliedTo(w, fx, v) && u == Settled(q, t, fx);
      assert ItemFit(sch, op, all, rest[0], w, t);
      if a == q.inv {
        StepDone(sch, q, t, fx);
      } else {
        StepElems(sch, q, t, fx, a, w.oid);
      }
    }
  }

  lemma JustStored(sch: Schema, op: Op, all: seq<Item>, rest: seq<Item>, w: Work, t: Db, v: Work, u: Db)
    requires sch.Valid() && Coherent(sch, t) && RestFit(sch, op, all, rest, w, t) && rest != []
    requires SettledStep(sch, op, rest[0], w, t, v, u) && op != Remove && rest[0] in sch.Colls()
    ensures u.Members(rest[0], w.oid) == t.Elems(Ref(w.idr, rest[0]))
  {
    hide Coherent, Fit, Distant, Settled, Routed, AppliedTo;
    assert rest[0] in rest;
    var q := CallOf(sch, op, rest[0], w);
    var fx :| Routed(sch, q, Seen(q, t), fx) && AppliedTo(w, fx, v) && u == Settled(q, t, fx);
    assert ItemFit(sch, op, all, rest[0], w, t);
    StepOwn(sch, q, t, fx);
  }

  /** One attribute, and the relations among other objects. */
  lemma ItemTakes(sch: Schema, op: Op, all: seq<Item>, rest: seq<Item>, w: Work, t: Db, v: Work, u: Db,
                  a: Item, o: Oid, m: Oid)
    requires sch.Valid() && Coherent(sch, t) && RestFit(sch, op, all, rest, w, t) && rest != []
    requires SettledStep(sch, op, rest[0], w, t, v, u)
    requires a in sch.inverse && o != w.oid && m != w.oid && o != NULL_OID && m != NULL_OID
    ensures Related(sch, u, a, o, m) <==>
      Related(sch, t, a, o, m) && !Taken(sch, op, [rest[0]], w.oid, w.idr, t, a, o, m)
  {
    hide Coherent, Fit, Distant, Settled, Routed, AppliedTo, Related, Given, Ref;
    assert rest[0] in rest;
    if rest[0] in sch.inverse {
      var q := CallOf(sch, op, rest[0], w);
      var fx :| Routed(sch, q, Seen(q, t), fx) && AppliedTo(w, fx, v) && u == Settled(q, t, fx);
      assert ItemFit(sch, op, all, rest[0], w, t);
      StepTakes(sch, q, t, fx, a, o, m);
    } else {
      PlainTakes(sch, op, t, w.oid, rest[0], Ref(w.idr, rest[0]), a, o, m);
    }
  }

  lemma PlainTakes(sch: Schema, op: Op, t: Db, x: Oid, i: Item, v: Oid, a: Item, o: Oid, m: Oid)
    requires o != x
    ensures Related(sch, PlainStep(op, t, x, i, v), a, o, m) <==> Related(sch, t, a, o, m)
  {
  }

  lemma RefsWaiting(sch: Schema, op: Op, all: seq<Item>, rest: seq<Item>, w: Work, t: Db, v: Work, u: Db, i: Item)
    requires sch.Valid() && RestFit(sch, op, all, rest, w, t) && rest != []
    requires SettledStep(sch, op, rest[0], w, t, v, u) && op == Remove && i in rest[1..]
    requires i in sch.inverse && sch.inverse[i] == i
    ensures Ref(v.idr, i) == Ref(w.idr, i)
  {
    hide Fit, Distant, Settled, Routed;
    assert i != rest[0];
    if rest[0] in sch.inverse {
      var q := CallOf(sch, op, rest[0], w);
      var fx :| Routed(sch, q, Seen(q, t), fx) && AppliedTo(w, fx, v) && u == Settled(q, t, fx);
      RoutedKeys(sch, q, t, fx);
    }
  }

  lemma TakenOneByOne(sch: Schema, op: Op, all: seq<Item>, rest: seq<Item>, w: Work, t: Db, v: Work, u: Db,
                      a: Item, o: Oid, m: Oid)
    requires sch.Valid() && Coherent(sch, t) && RestFit(sch, op, all, rest, w, t) && rest != []
    requires SettledStep(sch, op, rest[0], w, t, v, u) && a in sch.inverse
    ensures Taken(sch, op, rest, w.oid, w.idr, t, a, o, m) <==>
      || Taken(sch, op, [rest[0]], w.oid, w.idr, t, a, o, m)
      || Taken(sch, op, rest[1..], w.oid, v.idr, u, a, o, m)
  {
    hide RestFit, Coherent, SettledStep, Ref;
    assert forall i :: i in rest <==> i == rest[0] || i in rest[1..];
    forall i | i in rest[1..] && (i == a || i == sch.inverse[a])
      ensures op != Remove || sch.inverse[i] == i ==> Ref(v.idr, i) == Ref(w.idr, i)
      ensures op != Remove && i in sch.many ==> u.Elems(Ref(w.idr, i)) == t.Elems(Ref(w.idr, i))
    {
      if op != Remove {
        assert i in all by { InAll(sch, op, all, rest, w, t, i); }
        RefsKept(sch, op, all, rest, w, t, v, u, i);
        GivenKept(sch, op, all, rest, w, t, v, u, i);
      } else if sch.inverse[i] == i {
        RefsWaiting(sch, op, all, rest, w, t, v, u, i);
      }
    }
  }

  lemma InAll(sch: Schema, op: Op, all: seq<Item>, rest: seq<Item>, w: Work, t: Db, i: Item)
    requires RestFit(sch, op, all, rest, w, t) && i in rest
    ensures i in all
  {
  }

  /** The attributes one after the other: what the object then holds, and which relations are left. */
  lemma {:induction false} ItemsEffect(sch: Schema, op: Op, t: Db, base: Db, w: Work, all: seq<Item>, rest: seq<Item>,
                                       v: Work)
    returns (u: Db)
    requires sch.Valid() && Coherent(sch, t) && Ahead(op, t, base, w, all, rest) && RestFit(sch, op, all, rest, w, t)
    requires ItemsStep(sch, op, rest, w, v)
    ensures Ahead(op, u, base, v, all, []) && v.oid == w.oid
    ensures op != Remove ==> forall i | i in all :: Ref(v.idr, i) == Ref(w.idr, i)
    ensures op != Remove ==> forall a | a in all && a in sch.Colls() ::
      u.Members(a, w.oid) == if a in rest then t.Elems(Ref(w.idr, a)) else t.Members(a, w.oid)
    ensures forall a, o, m | a in sch.inverse && o != w.oid && m != w.oid && o != NULL_OID && m != NULL_OID ::
      Related(sch, u, a, o, m) <==> Related(sch, t, a, o, m) && !Taken(sch, op, rest, w.oid, w.idr, t, a, o, m)
    decreases |rest|
  {
    hide Coherent, Ahead, RestFit, SettledStep, Related, Ref;
    if rest == [] {
      return t;
    }
    var mid :| ItemStep(sch, op, rest[0], w, mid) && ItemsStep(sch, op, rest[1..], mid, v);
    var next := OneItem(sch, op, t, base, w, all, rest, mid);
    assert mid.oid == w.oid;
    u := ItemsEffect(sch, op, next, base, mid, all, rest[1..], v);
    forall i | i in all && op != Remove
      ensures Ref(v.idr, i) == Ref(w.idr, i)
    {
      RefsKept(sch, op, all, rest, w, t, mid, next, i);
    }
    forall a | a in all && a in sch.Colls() && op != Remove
      ensures u.Members(a, w.oid) == if a in rest then t.Elems(Ref(w.idr, a)) else t.Members(a, w.oid)
    {
      assert a in rest <==> a == rest[0] || a in rest[1..];
      HeadOnce(sch, op, all, rest, w, t);
      if a == rest[0] {
        JustStored(sch, op, all, rest, w, t, mid, next);
      } else if a in rest[1..] {
        GivenKept(sch, op, all, rest, w, t, mid, next, a);
      } else {
        DoneKept(sch, op, all, rest, w, t, mid, next, a);
      }
    }
    forall a, o, m | a in sch.inverse && o != w.oid && m != w.oid && o != NULL_OID && m != NULL_OID
      ensures Related(sch, u, a, o, m) <==>
        Related(sch, t, a, o, m) && !Taken(sch, op, rest, w.oid, w.idr, t, a, o, m)
    {
      ItemTakes(sch, op, all, rest, w, t, mid, next, a, o, m);
      TakenOneByOne(sch, op, all, rest, w, t, mid, next, a, o, m);
    }
  }

  lemma HeadOnce(sch: Schema, op: Op, all: seq<Item>, rest: seq<Item>, w: Work, t: Db)
    requires RestFit(sch, op, all, rest, w, t) && rest != []
    ensures rest[0] !in rest[1..]
  {
  }

  // ----- whole objects

  /** The collections of the object hold what the given ones held, and the relations among other objects
      are those that were, but for the ones it takes away. */
  ghost predicate Leaves(sch: Schema, op: Op, items: seq<Item>, x: Oid, idr: map<Item, Oid>, db: Db, now: Db) {
    && (op != Remove ==> forall a | a in items && a in sch.Colls() :: now.Members(a, x) == db.Elems(Ref(idr, a)))
    && (forall a, o, m | a in sch.inverse && o != x && m != x && o != NULL_OID && m != NULL_OID ::
          Related(sch, now, a, o, m) <==> Related(sch, db, a, o, m) && !Taken(sch, op, items, x, idr, db, a, o, m))
  }

  lemma ItemsLeave(sch: Schema, op: Op, db: Db, w: Work, items: seq<Item>, v: Work) returns (u: Db)
    requires sch.Valid() && Coherent(sch, db) && Ahead(op, db, db, w, items, items)
    requires RestFit(sch, op, items, items, w, db) && ItemsStep(sch, op, items, w, v)
    ensures Ahead(op, u, db, v, items, []) && v.oid == w.oid && Leaves(sch, op, items, w.oid, w.idr, db, u)
    ensures op != Remove ==> forall i | i in items :: Ref(v.idr, i) == Ref(w.idr, i)
  {
    hide Coherent, Ahead, RestFit, ItemsStep, Related, Taken;
    u := ItemsEffect(sch, op, db, db, w, items, items, v);
  }

  lemma EffectCreate(sch: Schema, items: seq<Item>, x: Oid, idr: map<Item, Oid>, db: Db, now: Db) returns (u: Db)
    requires sch.Valid() && Admissible(sch, Create, items, x, idr, db) && Stored(sch, Create, items, x, idr, db, now)
    ensures Leaves(sch, Create, items, x, idr, db, u)
    ensures now.colls == u.colls && forall i, o :: now.Read(i, o) == u.Read(i, o)
    ensures forall i | i in items :: now.Read(i, x) == idr[i]
  {
    hide Typed, Owned, Linked, ItemStep, ItemsStep, ItemFit, RestFit, Coherent, Ahead, ObjectFit;
    var w := Work(db.(slots := db.slots + OfObject(x, idr)), x, idr);
    var v :| ItemsStep(sch, Create, items, w, v) && now == v.db;
    assert Coherent(sch, db) && db.Sane() && x != NULL_OID by { SaneOf(sch, Create, items, x, idr, db); }
    StartCreate(items, x, idr, db);
    CreateFit(sch, items, x, idr, db);
    hide Leaves;
    u := ItemsLeave(sch, Create, db, w, items, v);
    CreateReads(items, db, u, v);
    forall i | i in items ensures now.Read(i, x) == idr[i] {
      CreateOwn(items, db, u, v, i);
    }
  }

  lemma CreateOwn(items: seq<Item>, base: Db, u: Db, v: Work, i: Item)
    requires Ahead(Create, u, base, v, items, []) && i in items
    ensures v.db.Read(i, v.oid) == Ref(v.idr, i)
  {
  }

  lemma EffectUpdate(sch: Schema, items: seq<Item>, x: Oid, idr: map<Item, Oid>, db: Db, now: Db) returns (u: Db)
    requires sch.Valid() && Admissible(sch, Update, items, x, idr, db) && Stored(sch, Update, items, x, idr, db, now)
    ensures Leaves(sch, Update, items, x, idr, db, u)
    ensures now.colls == u.colls && forall i, o :: now.Read(i, o) == u.Read(i, o)
    ensures forall i | i in items :: now.Read(i, x) == idr[i]
  {
    hide Typed, Owned, Linked, ItemStep, ItemsStep, ItemFit, Coherent, Ahead;
    var w := Work(db, x, idr);
    var v :| ItemsStep(sch, Update, items, w, v) && now == v.db.(slots := v.db.slots + OfObject(x, v.idr));
    assert Coherent(sch, db) && db.Sane() && x != NULL_OID by { SaneOf(sch, Update, items, x, idr, db); }
    StartOther(Update, items, x, idr, db);
    assert RestFit(sch, Update, items, items, w, db);
    hide RestFit, Leaves;
    u := ItemsLeave(sch, Update, db, w, items, v);
    KeysKept(sch, Update, items, w, v);
    UpdateReads(items, db, u, v, now);
    forall i | i in items ensures now.Read(i, x) == idr[i] {
      assert Ref(v.idr, i) == Ref(w.idr, i) && i in v.idr;
      Rewritten(v, i, x);
    }
  }

  lemma EffectRemove(sch: Schema, items: seq<Item>, x: Oid, idr: map<Item, Oid>, db: Db, now: Db) returns (u: Db)
    requires sch.Valid() && Admissible(sch, Remove, items, x, idr, db) && Stored(sch, Remove, items, x, idr, db, now)
    ensures Leaves(sch, Remove, items, x, idr, db, u)
    ensures now.colls == u.colls && forall i, o :: now.Read(i, o) == u.Read(i, o)
    ensures forall i :: now.Read(i, x) == NULL_OID
  {
    hide Typed, Owned, Linked, ItemStep, ItemsStep, ItemFit, Coherent, Ahead;
    var w := Work(db, x, idr);
    var v :| ItemsStep(sch, Remove, items, w, v)
      && now == v.db.(slots := map s | s in v.db.slots && s.obj != x :: v.db.slots[s]);
    assert Coherent(sch, db) && db.Sane() && x != NULL_OID by { SaneOf(sch, Remove, items, x, idr, db); }
    StartOther(Remove, items, x, idr, db);
    assert RestFit(sch, Remove, items, items, w, db);
    hide RestFit, Leaves;
    u := ItemsLeave(sch, Remove, db, w, items, v);
    RemoveReads(items, db, u, v, now);
  }

  lemma SaneOf(sch: Schema, op: Op, items: seq<Item>, x: Oid, idr: map<Item, Oid>, db: Db)
    requires Admissible(sch, op, items, x, idr, db)
    ensures Coherent(sch, db) && db.Sane() && x != NULL_OID && forall i :: i in idr <==> i in items
  {
  }

  /** What an object that fits the database leaves in it: each of its attributes holds what it was given
      (nothing, if it was removed), each collection of a relationship with the elements it had; and
      of the relations among other objects only those are gone that it takes away. */
  lemma StoredExactly(sch: Schema, op: Op, items: seq<Item>, x: Oid, idr: map<Item, Oid>, db: Db, now: Db)
    requires sch.Valid() && Admissible(sch, op, items, x, idr, db) && Stored(sch, op, items, x, idr, db, now)
    ensures forall i | i in items :: i in idr && now.Read(i, x) == if op == Remove then NULL_OID else idr[i]
    ensures op == Remove ==> forall i :: now.Read(i, x) == NULL_OID
    ensures op != Remove ==> forall a | a in items && a in sch.Colls() :: now.Members(a, x) == db.Elems(idr[a])
    ensures forall a, o, m | a in sch.inverse && o != x && m != x && o != NULL_OID && m != NULL_OID ::
      Related(sch, now, a, o, m) <==> Related(sch, db, a, o, m) && !Taken(sch, op, items, x, idr, db, a, o, m)
  {
    assert ClassOf(items, x, idr, db);
    hide Admissible, Stored, Taken;
    var u: Db;
    match op {
      case Create => u := EffectCreate(sch, items, x, idr, db, now);
      case Update => u := EffectUpdate(sch, items, x, idr, db, now);
      case Remove => u := EffectRemove(sch, items, x, idr, db, now);
    }
    LeavesAlike(sch, op, items, x, idr, db, u, now);
  }

  lemma LeavesAlike(sch: Schema, op: Op, items: seq<Item>, x: Oid, idr: map<Item, Oid>, db: Db, u: Db, now: Db)
    requires Leaves(sch, op, items, x, idr, db, u)
    requires now.colls == u.colls && forall i, o :: now.Read(i, o) == u.Read(i, o)
    ensures Leaves(sch, op, items, x, idr, db, now)
  {
    hide Taken;
    assert forall a, o, m :: Related(sch, now, a, o, m) == Related(sch, u, a, o, m);
  }

  // ----- attributes without an inverse

  lemma KeysOf(sch: Schema, q: Call, db: Db, fx: Effect)
    requires Routed(sch, q, db, fx)
    ensures forall k <- fx.writes :: k.item in {q.item, q.inv}
  {
    if q.item in sch.many && q.inv in sch.many {
      var made :| (q.op != Remove ==> Enumerates(made, Homeless(db, q.inv, Joined(q, db))))
          && fx == EffectNN(q, db, made);
      WritesInverse(q, db, made);
    }
  }

  lemma PlainStepKept(sch: Schema, op: Op, item: Item, w: Work, v: Work, i: Item)
    requires sch.Valid() && ItemStep(sch, op, item, w, v) && i !in sch.inverse
    ensures v.oid == w.oid && Ref(v.idr, i) == Ref(w.idr, i) && (i in v.idr <==> i in w.idr)
    ensures forall o :: v.db.Read(i, o) == w.db.Read(i, o)
  {
    hide Routed;
    if item in sch.inverse {
      var q := CallOf(sch, op, item, w);
      var fx :| Routed(sch, q, w.db, fx) && AppliedTo(w, fx, v);
      KeysOf(sch, q, w.db, fx);
    }
  }

  lemma {:induction false} PlainKept(sch: Schema, op: Op, items: seq<Item>, w: Work, v: Work, i: Item)
    requires sch.Valid() && ItemsStep(sch, op, items, w, v) && i !in sch.inverse
    ensures v.oid == w.oid && Ref(v.idr, i) == Ref(w.idr, i) && (i in v.idr <==> i in w.idr)
    ensures forall o :: v.db.Read(i, o) == w.db.Read(i, o)
    decreases |items|
  {
    hide ItemStep, Ref;
    if items != [] {
      var mid :| ItemStep(sch, op, items[0], w, mid) && ItemsStep(sch, op, items[1..], mid, v);
      PlainStepKept(sch, op, items[0], w, mid, i);
      PlainKept(sch, op, items[1..], mid, v, i);
    }
  }

  /** An attribute without an inverse holds what it is given, whatever else there is, and no other object's
      is touched. */
  lemma StoredPlainly(sch: Schema, op: Op, items: seq<Item>, x: Oid, idr: map<Item, Oid>, db: Db, now: Db, i: Item,
                      o: Oid)
    requires sch.Valid() && Stored(sch, op, items, x, idr, db, now) && i !in sch.inverse
    ensures now.Read(i, o) ==
      if o != x then db.Read(i, o) else if op == Remove then NULL_OID else if i in idr then idr[i] else db.Read(i, x)
  {
    hide ItemsStep;
    var w := Work(if op == Create then db.(slots := db.slots + OfObject(x, idr)) else db, x, idr);
    Rewritten(Work(db, x, idr), i, o);
    match op {
      case Create =>
        var v :| ItemsStep(sch, op, items, w, v) && now == v.db;
        PlainKept(sch, op, items, w, v, i);
      case Update =>
        var v :| ItemsStep(sch, op, items, w, v) && now == v.db.(slots := v.db.slots + OfObject(x, v.idr));
        PlainKept(sch, op, items, w, v, i);
        Rewritten(v, i, o);
      case Remove =>
        var v :| ItemsStep(sch, op, items, w, v)
          && now == v.db.(slots := map s | s in v.db.slots && s.obj != x :: v.db.slots[s]);
        PlainKept(sch, op, items, w, v, i);
    }
  }

  /** The relations among other objects, after the event. */
  ghost predicate OthersAfter(sch: Schema, op: Op, items: seq<Item>, x: Oid, idr: map<Item, Oid>, was: Db, now: Db) {
    forall a, o, m | a in sch.inverse && o != x && m != x && o != NULL_OID && m != NULL_OID ::
      Related(sch, now, a, o, m) <==> Related(sch, was, a, o, m) && !Taken(sch, op, items, x, idr, was, a, o, m)
  }

  lemma StoreLaws(sch: Schema, op: Op, items: seq<Item>, x: Oid, idr: map<Item, Oid>, was: Db, now: Db)
    requires sch.Valid() && Stored(sch, op, items, x, idr, was, now)
    ensures forall i, o | i !in sch.inverse ::
      now.Read(i, o) ==
      if o != x then was.Read(i, o) else if op == Remove then NULL_OID else if i in idr then idr[i] else was.Read(i, x)
    ensures Admissible(sch, op, items, x, idr, was) ==> OthersAfter(sch, op, items, x, idr, was, now)
    ensures Admissible(sch, op, items, x, idr, was) && op != Remove ==>
      && (forall i <- idr :: now.Read(i, x) == idr[i])
      && (forall a <- idr | a in sch.Colls() :: now.Members(a, x) == was.Elems(idr[a]))
  {
    hide Stored, Related, Taken;
    forall i, o | i !in sch.inverse
      ensures now.Read(i, o) ==
        if o != x then was.Read(i, o) else if op == Remove then NULL_OID else if i in idr then idr[i]
            else was.Read(i, x)
    {
      StoredPlainly(sch, op, items, x, idr, was, now, i, o);
    }
    if Admissible(sch, op, items, x, idr, was) {
      assert ClassOf(items, x, idr, was);
      hide Admissible;
      StoredExactly(sch, op, items, x, idr, was, now);
    }
  }

  /** Nothing is left of a removed object, and where it fitted the database nothing relates to it. */
  lemma NothingLeft(sch: Schema, items: seq<Item>, x: Oid, idr: map<Item, Oid>, was: Db, now: Db)
    requires sch.Valid() && Stored(sch, Remove, items, x, idr, was, now)
    ensures forall i :: now.Read(i, x) == NULL_OID
    ensures Admissible(sch, Remove, items, x, idr, was) ==>
      Coherent(sch, now) && forall a, o | a in sch.inverse :: !Related(sch, now, a, o, x)
  {
    hide ItemsStep;
    var w := Work(was, x, idr);
    var v :| ItemsStep(sch, Remove, items, w, v)
      && now == v.db.(slots := map s | s in v.db.slots && s.obj != x :: v.db.slots[s]);
    if Admissible(sch, Remove, items, x, idr, was) {
      hide Admissible, Stored, Coherent;
      RemoveKeeps(sch, items, x, idr, was, now);
    }
  }
}
