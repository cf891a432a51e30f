/** What the routines of the other attributes leave of an attribute that waits for its own, and what
    the routine of one end of a relationship leaves of the other end of the same object. */
module InverseFrame {
  import opened Store
  import opened InverseSpec
  import opened InverseLaws
  import opened InverseLawsNN
  import opened InverseDriver

  // ----- the effect of a routine depends on its own two attributes only

  lemma RoutedSame(sch: Schema, q: Call, d: Db, e: Db, fx: Effect)
    requires Routed(sch, q, d, fx) && d.colls == e.colls && d.next == e.next
    requires d.Read(q.item, q.obj) == e.Read(q.item, q.obj)
    requires forall o :: d.Read(q.inv, o) == e.Read(q.inv, o)
    ensures Routed(sch, q, e, fx)
  {
    hide EffectNN, EffectN1, Effect1N, Homeless, Joined, Enumerates;
    if q.item in sch.many && q.inv in sch.many {
      var made :| (q.op != Remove ==> Enumerates(made, Homeless(d, q.inv, Joined(q, d)))) && fx == EffectNN(q, d, made);
      SameNN(q, d, e, made);
    } else if q.item in sch.many {
      SameN1(q, d, e);
    } else if q.inv in sch.many {
      Same1N(q, d, e);
    }
  }

  lemma Same1N(q: Call, d: Db, e: Db)
    requires d.colls == e.colls && d.next == e.next && d.Read(q.item, q.obj) == e.Read(q.item, q.obj)
    requires forall o :: d.Read(q.inv, o) == e.Read(q.inv, o)
    ensures Effect1N(q, d) == Effect1N(q, e)
  {
    assert d.Read(q.inv, q.Old(d)) == e.Read(q.inv, q.Old(e)) && d.Read(q.inv, q.target) == e.Read(q.inv, q.target);
    assert Left1N(q, d).colls == Left1N(q, e).colls;
    assert Left1N(q, d).Read(q.inv, q.target) == Left1N(q, e).Read(q.inv, q.target);
  }

  lemma SameN1(q: Call, d: Db, e: Db)
    requires d.colls == e.colls && d.next == e.next && d.Read(q.item, q.obj) == e.Read(q.item, q.obj)
    requires forall o :: d.Read(q.inv, o) == e.Read(q.inv, o)
    ensures EffectN1(q, d) == EffectN1(q, e)
  {
    var es := d.Elems(q.target);
    assert Abandoned(q, d) == Abandoned(q, e);
    forall o
      ensures Released(q, d).Read(q.inv, o) == if o in Abandoned(q, d) then NULL_OID else d.Read(q.inv, o)
      ensures Released(q, e).Read(q.inv, o) == if o in Abandoned(q, d) then NULL_OID else d.Read(q.inv, o)
    {
    }
    assert forall o :: Released(q, d).Read(q.inv, o) == Released(q, e).Read(q.inv, o);
    assert Strangers(Released(q, d), q.inv, es, q.obj) == Strangers(Released(q, e), q.inv, es, q.obj);
    var ts := Strangers(Released(q, d), q.inv, es, q.obj);
    assert OwnersOf(Released(q, d), q.inv, ts) == OwnersOf(Released(q, e), q.inv, ts);
  }

  lemma SameNN(q: Call, d: Db, e: Db, made: seq<Oid>)
    requires d.colls == e.colls && d.next == e.next && d.Read(q.item, q.obj) == e.Read(q.item, q.obj)
    requires forall o :: d.Read(q.inv, o) == e.Read(q.inv, o)
    ensures EffectNN(q, d, made) == EffectNN(q, e, made)
    ensures Homeless(d, q.inv, Joined(q, d)) == Homeless(e, q.inv, Joined(q, e))
  {
    assert forall es :: InverseColls(d, q.inv, es) == InverseColls(e, q.inv, es);
    assert Withdrawn(q, d) == Withdrawn(q, e);
    assert Joined(q, d) == Joined(q, e);
    assert forall es :: Housed(d, q.inv, es) == Housed(e, q.inv, es);
  }

  // ----- storing one attribute does not disturb what the others are waiting for

  /** `r` is another attribute of the object that `q` stores one attribute of. */
  ghost predicate Unrelated(sch: Schema, q: Call, r: Call, db: Db) {
    && q.op == r.op && q.obj == r.obj
    && r.item != q.item && r.item != q.inv
    && (q.op != Remove && q.item in sch.many && r.item in sch.many && q.target == r.target ==> !db.Live(r.target))
  }

  /** Who may hold a live collection that `r` is about to store. */
  lemma HeldBy(sch: Schema, r: Call, db: Db, i: Item, o: Oid)
    requires sch.Valid() && Coherent(sch, db) && Fit(sch, r, db) && r.item in sch.many
    requires i in sch.Colls() && db.Live(r.target) && db.Read(i, o) == r.target
    ensures i == r.item
  {
    assert Apart(db, r.item, r.obj, i, o);
  }

  lemma ElemsKeptNN(q: Call, db: Db, made: seq<Oid>, c: Oid)
    requires db.Sane() && c < db.next
    requires db.Live(c) && q.op == Remove ==> q.target != c
    requires db.Live(c) ==> forall i, o | i in {q.item, q.inv} :: db.Read(i, o) != c
    requires q.item != q.inv
    ensures Now(q, db, made).Live(c) == db.Live(c) && Now(q, db, made).Elems(c) == db.Elems(c)
  {
    StepNNLive(q, db, made, c);
    if db.Live(c) {
      forall e
        ensures Seen(q, db).Read(q.inv, e) != c
      {
        assert Seen(q, db).Read(q.inv, e) == db.Read(q.inv, e);
      }
      ElemsNN(q, db, made, c);
    }
  }

  lemma ElemsKept(sch: Schema, q: Call, db: Db, fx: Effect, c: Oid)
    requires sch.Valid() && Coherent(sch, db) && Fit(sch, q, db) && Routed(sch, q, Seen(q, db), fx) && c < db.next
    requires forall i, o | i in {q.item, q.inv} && i in sch.many && db.Live(c) :: db.Read(i, o) != c
    ensures Settled(q, db, fx).Live(c) == db.Live(c) && Settled(q, db, fx).Elems(c) == db.Elems(c)
  {
    if q.inv in sch.many {
      if q.item in sch.many {
        var made :| (q.op != Remove ==> Enumerates(made, Homeless(Seen(q, db), q.inv, Joined(q, Seen(q, db)))))
          && fx == EffectNN(q, Seen(q, db), made);
        ElemsKeptNN(q, db, made, c);
      } else {
        Elems1N(q, db, c);
        Step1NLive(q, db, c);
      }
    }
  }

  lemma TargetKept(sch: Schema, q: Call, db: Db, fx: Effect, r: Call)
    requires sch.Valid() && Coherent(sch, db) && Fit(sch, q, db) && Routed(sch, q, Seen(q, db), fx)
    requires Fit(sch, r, db) && Unrelated(sch, q, r, db) && r.item in sch.many
    ensures var now := Settled(q, db, fx);
            && now.Live(r.target) == db.Live(r.target) && now.Elems(r.target) == db.Elems(r.target)
            && now.Readable(r.target)
  {
    forall i, o | i in {q.item, q.inv} && i in sch.many && db.Live(r.target)
      ensures db.Read(i, o) != r.target
    {
      if db.Read(i, o) == r.target {
        HeldBy(sch, r, db, i, o);
      }
    }
    ElemsKept(sch, q, db, fx, r.target);
    if r.target in db.colls {
      CollsKept(sch, q, db, fx, r.target);
    }
  }

  lemma CollsKept(sch: Schema, q: Call, db: Db, fx: Effect, c: Oid)
    requires Routed(sch, q, Seen(q, db), fx) && c in db.colls
    ensures c in Settled(q, db, fx).colls && db.next <= Settled(q, db, fx).next
  {
  }

  lemma NextGrows(sch: Schema, q: Call, db: Db, fx: Effect)
    requires Routed(sch, q, Seen(q, db), fx)
    ensures db.next <= Settled(q, db, fx).next
  {
  }

  /** The slots that hold the collection `r` is about to store. */
  lemma HoldersKept(sch: Schema, q: Call, db: Db, fx: Effect, r: Call, i: Item, o: Oid)
    requires sch.Valid() && Coherent(sch, db) && Fit(sch, q, db) && Routed(sch, q, Seen(q, db), fx)
    requires Fit(sch, r, db) && r.item in sch.many && q.op != Remove
    requires q.item in sch.many && q.target == r.target ==> !db.Live(r.target)
    requires i in sch.Colls() && db.Live(r.target) && Settled(q, db, fx).Read(i, o) == r.target
    ensures db.Read(i, o) == r.target
  {
    if i != q.item && i != q.inv {
      StepSlots(sch, q, db, fx, i, o);
    } else if q.item in sch.many && q.inv in sch.many {
      var made :| Enumerates(made, Homeless(Seen(q, db), q.inv, Joined(q, Seen(q, db))))
        && fx == EffectNN(q, Seen(q, db), made);
      StepNNSlots(q, db, made, i, o);
    } else if q.item in sch.many {
      StepN1Slots(q, db, i, o);
    }
  }

  ghost predicate SameFor(sch: Schema, r: Call, db: Db, now: Db) {
    && db.next <= now.next
    && (forall i, o | i in {r.item, r.inv} :: now.Read(i, o) == db.Read(i, o))
    && (forall i, o | i in {r.item, r.inv} && i in sch.many :: now.Members(i, o) == db.Members(i, o))
  }

  lemma FitSame(sch: Schema, q: Call, db: Db, fx: Effect, r: Call)
    requires sch.Valid() && Coherent(sch, db) && Fit(sch, q, db) && Routed(sch, q, Seen(q, db), fx)
    requires Fit(sch, r, db) && Unrelated(sch, q, r, db)
    ensures SameFor(sch, r, db, Settled(q, db, fx))
  {
    NextGrows(sch, q, db, fx);
    assert r.inv != q.item && r.inv != q.inv;
    forall i, o | i in {r.item, r.inv}
      ensures Settled(q, db, fx).Read(i, o) == db.Read(i, o)
      ensures i in sch.many ==> Settled(q, db, fx).Members(i, o) == db.Members(i, o)
    {
      StepSlots(sch, q, db, fx, i, o);
      if i in sch.many {
        StepElems(sch, q, db, fx, i, o);
      }
    }
  }

  lemma FitFrame(sch: Schema, q: Call, db: Db, fx: Effect, r: Call)
    requires sch.Valid() && Coherent(sch, db) && Fit(sch, q, db) && Routed(sch, q, Seen(q, db), fx)
    requires Fit(sch, r, db) && Unrelated(sch, q, r, db)
    ensures Fit(sch, r, Settled(q, db, fx))
  {
    var now := Settled(q, db, fx);
    FitSame(sch, q, db, fx, r);
    if r.item in sch.many {
      TargetKept(sch, q, db, fx, r);
      forall i: Item, o: Oid | q.op != Remove && i in sch.Colls() && db.Live(r.target) && now.Read(i, o) == r.target
        ensures db.Read(i, o) == r.target
      {
        HoldersKept(sch, q, db, fx, r, i, o);
      }
      FitMany(sch, r, db, now);
    }
  }

  lemma FitMany(sch: Schema, r: Call, db: Db, now: Db)
    requires Fit(sch, r, db) && SameFor(sch, r, db, now) && r.item in sch.many
    requires now.Live(r.target) == db.Live(r.target) && now.Elems(r.target) == db.Elems(r.target)
    requires now.Readable(r.target)
    requires r.op != Remove && db.Live(r.target) ==>
      forall i: Item, o: Oid | i in sch.Colls() && now.Read(i, o) == r.target :: db.Read(i, o) == r.target
    ensures Fit(sch, r, now)
  {
  }

  // ----- the other end of the same relationship, of the same object

  /** The object is not related to itself, before or after; a collection it is given is held by nobody
      else, and takes no member away from anybody. */
  ghost predicate Distant(sch: Schema, q: Call, db: Db) {
    var was := db.Read(q.item, q.obj);
    if q.item in sch.many then
      && q.obj !in db.Elems(q.target) && q.obj !in db.Elems(was)
      && (q.op != Remove ==> Free(q, db, sch.Colls()))
      && (q.op != Remove && q.inv !in sch.many ==>
            forall e | e in db.Elems(q.target) :: db.Read(q.inv, e) == NULL_OID || db.Read(q.inv, e) == q.obj)
    else q.target != q.obj && was != q.obj
  }

  lemma JoinedWithin(q: Call, db: Db)
    ensures Joined(q, db) <= db.Elems(q.target)
  {
  }

  /** Its own slots are then left to its own write. */
  lemma NoSelfMade(q: Call, db: Db, made: seq<Oid>)
    requires Enumerates(made, Homeless(db, q.inv, Joined(q, db))) && q.obj !in db.Elems(q.target)
    ensures forall k <- MadeSlots(made, db.next, q.inv) :: k.obj != q.obj
  {
    MadeSlotsKeys(made, db.next, q.inv);
    JoinedWithin(q, db);
  }

  lemma NoSelfN1(q: Call, db: Db)
    requires q.obj !in db.Elems(q.target) && q.obj !in Abandoned(q, db)
    ensures forall k <- EffectN1(q, db).writes :: k.obj != q.obj
  {
  }

  /** Its own slots are then left to its own write. */
  lemma NoSelfWrites(sch: Schema, q: Call, db: Db, fx: Effect)
    requires q.item != q.inv && q.obj != NULL_OID && Distant(sch, q, db) && Routed(sch, q, Seen(q, db), fx)
    ensures forall k <- fx.writes :: k.obj != q.obj
  {
    hide EffectN1, Homeless, Joined, Enumerates, Free;
    if q.item in sch.many && q.inv in sch.many {
      var made :| (q.op != Remove ==> Enumerates(made, Homeless(Seen(q, db), q.inv, Joined(q, Seen(q, db)))))
        && fx == EffectNN(q, Seen(q, db), made);
      if q.op != Remove {
        NoSelfMade(q, Seen(q, db), made);
      }
    } else if q.item in sch.many {
      NoSelfN1(q, Seen(q, db));
    }
  }

  lemma ApartNN(q: Call, d: Db, e: Db, made: seq<Oid>)
    requires d.colls == e.colls && d.next == e.next && d.Read(q.item, q.obj) == e.Read(q.item, q.obj)
    requires forall o | o != q.obj :: d.Read(q.inv, o) == e.Read(q.inv, o)
    requires q.obj !in d.Elems(q.target) && q.obj !in d.Elems(d.Read(q.item, q.obj))
    ensures EffectNN(q, d, made) == EffectNN(q, e, made)
    ensures Homeless(d, q.inv, Joined(q, d)) == Homeless(e, q.inv, Joined(q, e))
  {
    JoinedWithin(q, d);
    forall es | q.obj !in es
      ensures InverseColls(d, q.inv, es) == InverseColls(e, q.inv, es) && Housed(d, q.inv, es) == Housed(e, q.inv, es)
      ensures Homeless(d, q.inv, es) == Homeless(e, q.inv, es)
    {
    }
    assert Withdrawn(q, d) == Withdrawn(q, e);
    assert Joined(q, d) == Joined(q, e);
  }

  lemma ApartN1Reads(q: Call, d: Db, e: Db)
    requires d.colls == e.colls && d.next == e.next && d.Read(q.item, q.obj) == e.Read(q.item, q.obj)
    requires forall o | o != q.obj :: d.Read(q.inv, o) == e.Read(q.inv, o)
    requires q.obj !in d.Elems(q.target) && q.obj !in d.Elems(d.Read(q.item, q.obj))
    ensures EffectN1(q, d) == EffectN1(q, e)
  {
    var es := d.Elems(q.target);
    assert Abandoned(q, d) == Abandoned(q, e);
    forall o | o != q.obj
      ensures Released(q, d).Read(q.inv, o) == Released(q, e).Read(q.inv, o)
    {
      assert Released(q, d).Read(q.inv, o) == if o in Abandoned(q, d) then NULL_OID else d.Read(q.inv, o);
      assert Released(q, e).Read(q.inv, o) == if o in Abandoned(q, d) then NULL_OID else e.Read(q.inv, o);
    }
    var ts := Strangers(Released(q, d), q.inv, es, q.obj);
    assert ts == Strangers(Released(q, e), q.inv, es, q.obj);
    assert OwnersOf(Released(q, d), q.inv, ts) == OwnersOf(Released(q, e), q.inv, ts);
  }

  lemma Apart1N(q: Call, d: Db, e: Db)
    requires d.colls == e.colls && d.next == e.next && d.Read(q.item, q.obj) == e.Read(q.item, q.obj)
    requires forall o | o != q.obj :: d.Read(q.inv, o) == e.Read(q.inv, o)
    requires q.target != q.obj && (q.op == Update ==> d.Read(q.item, q.obj) != q.obj)
    ensures Effect1N(q, d) == Effect1N(q, e)
  {
    if q.Leaves(d) {
      assert d.Read(q.inv, q.Old(d)) == e.Read(q.inv, q.Old(e));
    }
    assert Left1N(q, d).colls == Left1N(q, e).colls;
    assert Left1N(q, d).Read(q.inv, q.target) == d.Read(q.inv, q.target);
    assert Left1N(q, e).Read(q.inv, q.target) == e.Read(q.inv, q.target);
  }

  /** A routine that does not come to the object itself does not read its slots of the other end. */
  lemma RoutedApart(sch: Schema, q: Call, d: Db, e: Db, fx: Effect)
    requires Routed(sch, q, d, fx) && d.colls == e.colls && d.next == e.next
    requires d.Read(q.item, q.obj) == e.Read(q.item, q.obj)
    requires forall o | o != q.obj :: d.Read(q.inv, o) == e.Read(q.inv, o)
    requires if q.item in sch.many then q.obj !in d.Elems(q.target) && q.obj !in d.Elems(d.Read(q.item, q.obj))
             else q.target != q.obj && (q.op == Update ==> d.Read(q.item, q.obj) != q.obj)
    ensures Routed(sch, q, e, fx)
  {
    hide EffectNN, EffectN1, Effect1N, Homeless, Joined, Enumerates;
    if q.item in sch.many && q.inv in sch.many {
      var made :| (q.op != Remove ==> Enumerates(made, Homeless(d, q.inv, Joined(q, d)))) && fx == EffectNN(q, d, made);
      ApartNN(q, d, e, made);
    } else if q.item in sch.many {
      ApartN1Reads(q, d, e);
    } else if q.inv in sch.many {
      Apart1N(q, d, e);
    }
  }

  /** `r` is for the other end of the relationship of `q`. */
  ghost predicate OtherEnd(sch: Schema, q: Call, r: Call, db: Db) {
    && q.op == r.op && q.obj == r.obj && r.item == q.inv && r.inv == q.item && q.item != q.inv
    && Fit(sch, q, db) && Fit(sch, r, db) && Distant(sch, q, db) && Distant(sch, r, db)
    && (q.op != Remove && q.item in sch.many && r.item in sch.many && q.target == r.target ==> !db.Live(r.target))
  }

  lemma EndSlot(sch: Schema, q: Call, db: Db, fx: Effect, r: Call)
    requires OtherEnd(sch, q, r, db) && Routed(sch, q, Seen(q, db), fx)
    ensures Settled(q, db, fx).Read(r.item, r.obj) == db.Read(r.item, r.obj)
  {
    NoSelfWrites(sch, q, db, fx);
    hide Fit, Distant, Routed;
  }

  /** A collection of that end that nobody else holds keeps its elements. */
  lemma EndColl(sch: Schema, q: Call, db: Db, fx: Effect, r: Call, c: Oid)
    requires sch.Valid() && Coherent(sch, db) && OtherEnd(sch, q, r, db) && Routed(sch, q, Seen(q, db), fx)
    requires r.item in sch.many && c < db.next
    requires db.Live(c) ==> forall o | o != q.obj :: db.Read(r.item, o) != c
    requires q.item in sch.many && db.Live(c) ==> c != q.target && db.Read(q.item, q.obj) != c
    ensures Settled(q, db, fx).Live(c) == db.Live(c) && Settled(q, db, fx).Elems(c) == db.Elems(c)
    ensures c in db.colls ==> c in Settled(q, db, fx).colls
  {
    if q.item in sch.many {
      var made :| (q.op != Remove ==> Enumerates(made, Homeless(Seen(q, db), q.inv, Joined(q, Seen(q, db)))))
        && fx == EffectNN(q, Seen(q, db), made);
      EndCollNN(q, db, made, c);
    } else {
      Elems1N(q, db, c);
      Step1NLive(q, db, c);
    }
  }

  lemma EndCollNN(q: Call, db: Db, made: seq<Oid>, c: Oid)
    requires db.Sane() && q.item != q.inv && c < db.next
    requires q.obj !in db.Elems(q.target) && q.obj !in db.Elems(db.Read(q.item, q.obj))
    requires db.Live(c) ==> db.Read(q.item, q.obj) != c && c != q.target
    requires db.Live(c) ==> forall o | o != q.obj :: db.Read(q.inv, o) != c
    ensures Now(q, db, made).Live(c) == db.Live(c) && Now(q, db, made).Elems(c) == db.Elems(c)
    ensures c in db.colls ==> c in Now(q, db, made).colls
  {
    StepNNLive(q, db, made, c);
    JoinedWithin(q, Seen(q, db));
    if q.op != Remove && db.Live(c) {
      ElemsNow(q, db, made, c);
      assert forall o :: Seen(q, db).Read(q.inv, o) == db.Read(q.inv, o);
    }
  }

  lemma EndKept(sch: Schema, q: Call, db: Db, fx: Effect, r: Call)
    requires sch.Valid() && Coherent(sch, db) && OtherEnd(sch, q, r, db) && Routed(sch, q, Seen(q, db), fx)
    requires r.item in sch.many
    ensures var now := Settled(q, db, fx);
            && now.Live(r.target) == db.Live(r.target) && now.Elems(r.target) == db.Elems(r.target)
            && (db.Readable(r.target) ==> now.Readable(r.target))
            && now.Members(r.item, r.obj) == db.Members(r.item, r.obj)
  {
    var was := db.Read(r.item, r.obj);
    forall o | db.Live(was) && o != q.obj ensures db.Read(r.item, o) != was {
      assert Apart(db, r.item, r.obj, r.item, o);
    }
    assert q.item in sch.many ==> Apart(db, r.item, r.obj, q.item, q.obj);
    assert was < db.next by { assert db.Readable(was); }
    EndSlot(sch, q, db, fx, r);
    hide Routed;
    EndColl(sch, q, db, fx, r, was);
    EndColl(sch, q, db, fx, r, r.target);
  }

  /** What an end is fit for, it is fit for after the other end was handled. */
  lemma OtherSingle(sch: Schema, q: Call, db: Db, fx: Effect, r: Call)
    requires sch.Valid() && Coherent(sch, db) && OtherEnd(sch, q, r, db) && Routed(sch, q, Seen(q, db), fx)
    requires r.item !in sch.many
    ensures Fit(sch, r, Settled(q, db, fx)) && Distant(sch, r, Settled(q, db, fx))
  {
    NextGrows(sch, q, db, fx);
    EndSlot(sch, q, db, fx, r);
  }

  /** Who holds the collection that the other end is about to get. */
  lemma EndFree(sch: Schema, q: Call, db: Db, fx: Effect, r: Call)
    requires sch.Valid() && Coherent(sch, db) && OtherEnd(sch, q, r, db) && Routed(sch, q, Seen(q, db), fx)
    requires r.item in sch.many && q.op != Remove
    requires Settled(q, db, fx).Live(r.target) == db.Live(r.target)
    ensures Free(r, Settled(q, db, fx), sch.Colls())
  {
    var now := Settled(q, db, fx);
    hide Routed, Coherent, KeepsN1, KeepsNN, FreeN1;
    forall i: Item, o: Oid | i in sch.Colls() && now.Live(r.target)
        && now.Read(i, o) == r.target ensures IsStored(r, i, o) {
      HoldersKept(sch, q, db, fx, r, i, o);
    }
  }

  lemma OtherN1(sch: Schema, q: Call, db: Db, fx: Effect, r: Call)
    requires sch.Valid() && Coherent(sch, db) && OtherEnd(sch, q, r, db) && Routed(sch, q, Seen(q, db), fx)
    requires r.item in sch.many && r.inv !in sch.many
    ensures Fit(sch, r, Settled(q, db, fx)) && Distant(sch, r, Settled(q, db, fx))
  {
    var now := Settled(q, db, fx);
    NextGrows(sch, q, db, fx);
    EndSlot(sch, q, db, fx, r);
    EndKept(sch, q, db, fx, r);
    if q.op != Remove {
      EndFree(sch, q, db, fx, r);
    }
    forall e | e != q.obj ensures now.Read(q.item, e) == db.Read(q.item, e) {
    }
    hide Routed, Coherent, Settled, Free, EffectNN;
  }

  lemma OtherNN(sch: Schema, q: Call, db: Db, fx: Effect, r: Call)
    requires sch.Valid() && Coherent(sch, db) && OtherEnd(sch, q, r, db) && Routed(sch, q, Seen(q, db), fx)
    requires r.item in sch.many && r.inv in sch.many
    ensures Fit(sch, r, Settled(q, db, fx)) && Distant(sch, r, Settled(q, db, fx))
  {
    var now := Settled(q, db, fx);
    NextGrows(sch, q, db, fx);
    EndSlot(sch, q, db, fx, r);
    EndKept(sch, q, db, fx, r);
    if q.op != Remove {
      EndFree(sch, q, db, fx, r);
    } else {
      RemovedReads(sch, q, db, fx, r);
    }
    hide Routed, Coherent, Settled, EffectNN;
  }

  lemma RemovedReads(sch: Schema, q: Call, db: Db, fx: Effect, r: Call)
    requires OtherEnd(sch, q, r, db) && q.op == Remove && q.item in sch.many && r.item in sch.many
    requires Routed(sch, q, Seen(q, db), fx)
    ensures forall o :: Settled(q, db, fx).Read(r.item, o) == db.Read(r.item, o)
  {
  }

  lemma OtherEndFit(sch: Schema, q: Call, db: Db, fx: Effect, r: Call)
    requires sch.Valid() && Coherent(sch, db) && OtherEnd(sch, q, r, db) && Routed(sch, q, Seen(q, db), fx)
    ensures Fit(sch, r, Settled(q, db, fx)) && Distant(sch, r, Settled(q, db, fx))
    ensures Settled(q, db, fx).Live(r.target) == db.Live(r.target) || r.item !in sch.many
  {
    hide *;
    if r.item !in sch.many {
      OtherSingle(sch, q, db, fx, r);
    } else {
      EndKept(sch, q, db, fx, r);
      if r.inv !in sch.many { OtherN1(sch, q, db, fx, r); } else { OtherNN(sch, q, db, fx, r); }
    }
  }

  /** What makes an attribute distant survives the storing of an attribute of another relationship. */
  lemma DistantFrame(sch: Schema, q: Call, db: Db, fx: Effect, r: Call)
    requires sch.Valid() && Coherent(sch, db) && Fit(sch, q, db) && Routed(sch, q, Seen(q, db), fx)
    requires Fit(sch, r, db) && Unrelated(sch, q, r, db) && Distant(sch, r, db)
    ensures Distant(sch, r, Settled(q, db, fx))
  {
    var now := Settled(q, db, fx);
    FitSame(sch, q, db, fx, r);
    assert now.Read(r.item, r.obj) == db.Read(r.item, r.obj) && forall e :: now.Read(r.inv, e) == db.Read(r.inv, e);
    if r.item in sch.many {
      assert now.Members(r.item, r.obj) == db.Members(r.item, r.obj);
      TargetKept(sch, q, db, fx, r);
      if q.op != Remove {
        FreeFrame(sch, q, db, fx, r);
      }
    }
    hide Routed, Coherent, Fit, Settled, Free, SameFor;
  }

  lemma FreeFrame(sch: Schema, q: Call, db: Db, fx: Effect, r: Call)
    requires sch.Valid() && Coherent(sch, db) && Fit(sch, q, db) && Routed(sch, q, Seen(q, db), fx)
    requires Fit(sch, r, db) && Unrelated(sch, q, r, db) && r.item in sch.many && q.op != Remove
    requires Free(r, db, sch.Colls()) && Settled(q, db, fx).Live(r.target) == db.Live(r.target)
    ensures Free(r, Settled(q, db, fx), sch.Colls())
  {
    var now := Settled(q, db, fx);
    hide Routed, Coherent, KeepsN1, KeepsNN, FreeN1;
    forall i: Item, o: Oid | i in sch.Colls() && now.Live(r.target)
        && now.Read(i, o) == r.target ensures IsStored(r, i, o) {
      HoldersKept(sch, q, db, fx, r, i, o);
    }
  }
}
