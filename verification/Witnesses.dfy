/** One small database for each way a caller can break a relationship. */
module Witnesses {
  import opened Store
  import opened InverseSpec
  import opened InverseLaws
  import opened InverseLawsNN
  import opened InverseLawsElem
  import opened InverseDriver
  import opened InverseFrame
  import opened InverseRuns
  import opened ClassFrame
  import opened SameClass
  import opened SameClassMany

  // ----- a store or a removal always has a result

  /** The IDR `was` of `x` with the writes of `w` aimed at `x` copied into it. */
  function Patch(was: map<Item, Oid>, x: Oid, w: map<Slot, Oid>): (now: map<Item, Oid>)
    ensures Patched(now, was, x, w)
  {
    var hit := set k | k in w && k.obj == x :: k.item;
    assert forall at :: at in hit <==> Slot(x, at) in w;
    map at | at in was.Keys + hit :: if Slot(x, at) in w then w[Slot(x, at)] else was[at]
  }

  lemma {:induction false} SomeOrder(es: set<Oid>) returns (made: seq<Oid>)
    ensures Enumerates(made, es)
    decreases es
  {
    if es == {} {
      made := [];
    } else {
      var e :| e in es;
      made := SomeOrder(es - {e});
      made := made + [e];
    }
  }

  lemma SomeStep(sch: Schema, op: Op, item: Item, w: Work) returns (v: Work)
    ensures ItemStep(sch, op, item, w, v)
  {
    v := w;
    if item in sch.inverse {
      var q := CallOf(sch, op, item, w);
      var made := SomeOrder(Homeless(w.db, q.inv, Joined(q, w.db)));
      var fx :=
        if item in sch.many then if q.inv in sch.many then EffectNN(q, w.db, made) else EffectN1(q, w.db)
        else if q.inv in sch.many then Effect1N(q, w.db) else Effect11(q, w.db);
      v := Work(Db(w.db.slots + fx.writes, fx.colls, fx.next), w.oid, Patch(w.idr, w.oid, fx.writes));
      assert Routed(sch, q, w.db, fx) && AppliedTo(w, fx, v);
    }
  }

  lemma {:induction false} SomeSteps(sch: Schema, op: Op, items: seq<Item>, w: Work) returns (v: Work)
    ensures ItemsStep(sch, op, items, w, v)
    decreases |items|
  {
    v := w;
    if items != [] {
      var mid := SomeStep(sch, op, items[0], w);
      v := SomeSteps(sch, op, items[1..], mid);
    }
  }

  lemma SomeUpdate(sch: Schema, items: seq<Item>, x: Oid, idr: map<Item, Oid>, db: Db) returns (now: Db)
    ensures Updated(sch, items, x, idr, db, now)
  {
    var v := SomeSteps(sch, Update, items, Work(db, x, idr));
    now := v.db.(slots := v.db.slots + OfObject(x, v.idr));
  }

  // ----- the witnesses

  /** A person who is their own spouse marries somebody else. */
  lemma SelfSpouse()
    ensures var db := Db(map[Slot(1, 7) := 1], map[], 10);
            var q := Call(Update, 7, 7, 1, 2);
            && db.Sane() && Sym11(db, 7, 7)
            && !Sym11(Settled(q, db, Effect11(q, db)), 7, 7)
  {
    var db := Db(map[Slot(1, 7) := 1], map[], 10);
    var q := Call(Update, 7, 7, 1, 2);
    forall x: Oid, y: Oid | x != NULL_OID && y != NULL_OID
      ensures Agree11(db, 7, 7, x, y)
    {
    }
    Step11Breaks(q, db);
  }

  /** Owner 3 has cars 1 and 2; owner 4 is given a collection that holds car 1 only. */
  function Garage(): Db {
    Db(map[Slot(3, 0) := 10, Slot(1, 1) := 3, Slot(2, 1) := 3],
       map[10 := Coll({1, 2}, false), 11 := Coll({1}, false)], 12)
  }

  lemma GarageHolds()
    ensures Garage().Sane() && Typed(Garage(), {0}) && Owned(Garage(), {0}) && Sym1N(Garage(), 1, 0)
  {
  }

  lemma CarsLeftBehind()
    ensures Free(Call(Update, 0, 1, 4, 11), Garage(), {0}) && !KeepsN1(Call(Update, 0, 1, 4, 11), Garage())
  {
    assert 1 in Garage().Elems(11) && Garage().Read(1, 1) == 3;
    assert 2 in Garage().Members(0, 3) && 2 !in Garage().Elems(11);
  }

  lemma StolenCar()
    ensures var q := Call(Update, 0, 1, 4, 11);
            && Garage().Sane() && Typed(Garage(), {0}) && Owned(Garage(), {0}) && Sym1N(Garage(), 1, 0)
            && Free(q, Garage(), {0})
            && !Sym1N(Settled(q, Garage(), EffectN1(q, Garage())), 1, 0)
  {
    GarageHolds();
    CarsLeftBehind();
    assert Seen(Call(Update, 0, 1, 4, 11), Garage()) == Garage();
    StepN1Breaks(Call(Update, 0, 1, 4, 11), Garage());
  }

  /** Students 1 and 2 follow course 3; the course is taken out of student 1's collection. */
  function Courses(): Db {
    Db(map[Slot(1, 0) := 10, Slot(2, 0) := 11, Slot(3, 1) := 12],
       map[10 := Coll({3}, false), 11 := Coll({3}, false), 12 := Coll({1, 2}, false)], 13)
  }

  lemma SharedCourse()
    ensures var w := Write(0, 1, true, 1);
            && ReadyN(w, Courses()) && SymNN(Courses(), 0, 1) && Writable(w, 10, [Change(3, false)], Courses())
            && !SymNN(Written(w, 10, [Change(3, false)], Courses()), 0, 1)
  {
    var db, w, changes := Courses(), Write(0, 1, true, 1), [Change(3, false)];
    forall x: Oid, m: Oid | x != NULL_OID && m != NULL_OID
      ensures AgreeNN(db, 0, 1, x, m)
    {
    }
    assert changes[1..] == [];
    assert Editable(db.Elems(10), changes);
    assert 2 in db.Members(1, 3);
    TakenOutExactly(w, 10, 3, db);
  }

  /** Husband 1 is removed with an IDR that does not know of wife 2: she stays married to him. */
  const COUPLE := Schema(map[0 := 1, 1 := 0], {})

  function Married(): Db {
    Db(map[Slot(1, 0) := 2, Slot(2, 1) := 1], map[], 3)
  }

  lemma MarriedHolds()
    ensures Coherent(COUPLE, Married())
  {
    forall x: Oid, y: Oid | x != NULL_OID && y != NULL_OID
      ensures Agree11(Married(), 0, 1, x, y) && Agree11(Married(), 1, 0, x, y)
    {
    }
    assert COUPLE.Colls() == {};
  }

  lemma StaleRemove() returns (now: Db)
    ensures Coherent(COUPLE, Married()) && Stored(COUPLE, Remove, [0], 1, map[0 := NULL_OID], Married(), now)
    ensures now.Read(1, 2) == 1 && !Coherent(COUPLE, now)
    ensures !Keeps11(Call(Remove, 0, 1, 1, NULL_OID), Married())
  {
    hide Typed, Owned, Sym11, Effect11, ItemsStep, Db.Sane;
    MarriedHolds();
    var w := Work(Married(), 1, map[0 := NULL_OID]);
    var v := SomeSteps(COUPLE, Remove, [0], w);
    now := v.db.(slots := map s | s in v.db.slots && s.obj != 1 :: v.db.slots[s]);
    RemovedAlone(w, v);
    LeftBehind(now);
  }

  lemma LeftBehind(now: Db)
    requires now.Read(1, 2) == 1 && now.Read(0, 1) == NULL_OID
    ensures !Coherent(COUPLE, now)
  {
    assert !Agree11(now, 0, 1, 1, 2);
    assert !Linked(COUPLE, now, 0);
  }

  lemma RemovedAlone(w: Work, v: Work)
    requires w == Work(Married(), 1, map[0 := NULL_OID]) && ItemsStep(COUPLE, Remove, [0], w, v)
    ensures v.db.slots == w.db.slots
  {
    assert [0][1..] == [];
    assert Effect11(CallOf(COUPLE, Remove, 0, w), w.db).writes == map[];
  }

  /** Person 1 is the father of 2 and 3; person 2 becomes their own father. */
  function Family(): Db {
    Db(map[Slot(1, 1) := 10, Slot(2, 0) := 1, Slot(3, 0) := 1], map[10 := Coll({2, 3}, false)], 11)
  }

  lemma FamilyHolds()
    ensures Family().Sane() && Typed(Family(), {1}) && Owned(Family(), {1}) && Sym1N(Family(), 0, 1)
  {
  }

  const PERSON := Schema(map[0 := 1, 1 := 0], {1})

  /** An update that the theorem over whole runs admits, of a class that holds both ends: person 3 gets
      person 2 for a father. */
  lemma NewFather()
    ensures PERSON.Valid() && Admissible(PERSON, Update, [0, 1], 3, map[0 := 2, 1 := NULL_OID], Family())
  {
    FamilyHolds();
    assert PERSON.Colls() == {1};
    assert Linked(PERSON, Family(), 0) && Linked(PERSON, Family(), 1);
    hide Typed, Owned, Sym1N, Fit, Distant, Db.Sane;
    NewFatherFits();
  }

  lemma NewFatherFits()
    ensures ItemFit(PERSON, Update, [0, 1], 0, Work(Family(), 3, map[0 := 2, 1 := NULL_OID]), Family())
    ensures ItemFit(PERSON, Update, [0, 1], 1, Work(Family(), 3, map[0 := 2, 1 := NULL_OID]), Family())
  {
    assert PERSON.Colls() == {1};
  }

  const BECOMES_OWN_FATHER := Gift(0, 1, 2, 2, 0)

  lemma BecomesOwnFather()
    ensures Starts(PERSON, BECOMES_OWN_FATHER, Work(Family(), 2, map[0 := 2, 1 := 0]))
    ensures LeavesSiblings(0, 1, 2, 2, Family())
  {
    FamilyHolds();
    assert PERSON.Colls() == {1};
    assert 3 in Family().Members(1, 1);
  }

  lemma OwnFather() returns (now: Db)
    ensures Sym1N(Family(), 0, 1) && Updated(PERSON, [0, 1], 2, map[0 := 2, 1 := 0], Family(), now)
    ensures now.Read(0, 2) == 2 && !Sym1N(now, 0, 1)
  {
    hide Updated, Starts, TornUp, EndUp, LeavesSiblings, Gift.Got;
    now := SomeUpdate(PERSON, [0, 1], 2, map[0 := 2, 1 := 0], Family());
    FamilyHolds();
    BecomesOwnFather();
    StoredCollection(Family(), BECOMES_OWN_FATHER);
    ReferenceFirst(PERSON, [0, 1], 0, 1, BECOMES_OWN_FATHER, map[0 := 2, 1 := 0], Family(), now);
  }

  /** Person 1 gets 2 for a father and a collection of children that holds 1: they become their own father,
      and 2 still has them for a child. */
  function Orphans(): Db {
    Db(map[], map[10 := Coll({1}, false)], 11)
  }

  const OWN_CHILD := Gift(0, 1, 1, 2, 10)

  lemma OwnChildHolds()
    ensures Starts(PERSON, OWN_CHILD, Work(Orphans(), 1, map[0 := 2, 1 := 10])) && TornUp(Orphans(), OWN_CHILD)
  {
    assert PERSON.Colls() == {1};
    assert 1 in OWN_CHILD.Got(Orphans());
  }

  lemma OwnChild() returns (now: Db)
    ensures Sym1N(Orphans(), 0, 1) && Updated(PERSON, [0, 1], 1, map[0 := 2, 1 := 10], Orphans(), now)
    ensures now.Read(0, 1) == 1 && now.Members(1, 1) == {1} && !Sym1N(now, 0, 1)
  {
    hide Updated, TornUp;
    now := SomeUpdate(PERSON, [0, 1], 1, map[0 := 2, 1 := 10], Orphans());
    OwnChildHolds();
    ReferenceFirst(PERSON, [0, 1], 0, 1, OWN_CHILD, map[0 := 2, 1 := 10], Orphans(), now);
    assert OWN_CHILD.Got(Orphans()) == {1};
  }

  /** A 1:1 relationship within one class, and an object related to itself. */
  const PARTNER := Schema(map[0 := 1, 1 := 0], {})

  function Alone(): Db {
    Db(map[Slot(1, 0) := 1, Slot(1, 1) := 1], map[], 3)
  }

  lemma AloneHolds()
    ensures Sym11(Alone(), 0, 1)
    ensures OnlyMoves(PARTNER, 0, 1, 1, map[0 := 2, 1 := 1], Alone())
  {
    forall x: Oid, y: Oid | x != NULL_OID && y != NULL_OID
      ensures Agree11(Alone(), 0, 1, x, y)
    {
    }
  }

  /** It is given object 2 as its reference; with the other end declared first, it stays as it was. */
  lemma LostUpdate() returns (now: Db)
    ensures Sym11(Alone(), 0, 1) && Updated(PARTNER, [1, 0], 1, map[0 := 2, 1 := 1], Alone(), now)
    ensures now.Read(0, 1) == 1 && Sym11(now, 0, 1)
  {
    hide Updated, Sym11;
    now := SomeUpdate(PARTNER, [1, 0], 1, map[0 := 2, 1 := 1], Alone());
    AloneHolds();
    OneEnd11(PARTNER, [1, 0], 0, 1, 0, 1, 1, map[0 := 2, 1 := 1], Alone(), now);
    assert Alone().Read(0, 1) == 1;
  }

  /** Object 1 is given object 2 for the first end and itself for the second: 2 keeps pointing to it. */
  lemma TornPair() returns (now: Db)
    ensures var db := Db(map[], map[], 3);
            && Sym11(db, 0, 1) && Updated(PARTNER, [0, 1], 1, map[0 := 2, 1 := 1], db, now)
            && now.Read(0, 1) == 1 && !Sym11(now, 0, 1)
  {
    hide Updated;
    var db := Db(map[], map[], 3);
    now := SomeUpdate(PARTNER, [0, 1], 1, map[0 := 2, 1 := 1], db);
    forall x: Oid, y: Oid | x != NULL_OID && y != NULL_OID
      ensures Agree11(db, 0, 1, x, y)
    {
    }
    BothEnds11(PARTNER, [0, 1], 0, 1, 0, 1, 1, map[0 := 2, 1 := 1], db, now);
    assert Torn11(db, 0, 1, 2, 1);
  }
}
