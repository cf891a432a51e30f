/** The N:N half of the laws: both ends are collections, and collections are made on demand. */
module InverseLawsNN {
  import opened Store
  import opened InverseSpec
  import opened InverseLaws

  ghost predicate Ready(q: Call, db: Db) {
    && db.Sane() && q.item != q.inv && q.obj != NULL_OID
    && Typed(db, {q.item, q.inv}) && Owned(db, {q.item, q.inv}) && SymNN(db, q.item, q.inv)
  }

  ghost predicate Made(q: Call, db: Db, made: seq<Oid>) {
    q.op != Remove ==> Enumerates(made, Homeless(Seen(q, db), q.inv, Joined(q, Seen(q, db))))
  }

  /** The database after the step. */
  function Now(q: Call, db: Db, made: seq<Oid>): Db {
    Settled(q, db, EffectNN(q, Seen(q, db), made))
  }

  /** A create or an update must be given a collection no other slot holds, a create must not
      forget members, and a remove must be given a collection that holds the object's members
      and nobody else's. */
  ghost predicate KeepsNN(q: Call, db: Db) {
    && (q.op != Update ==> db.Members(q.item, q.obj) <= db.Elems(q.target))
    && (q.op != Remove ==> Free(q, db, {q.item, q.inv}))
    && (q.op == Remove ==> forall o: Oid | o != q.obj && db.Read(q.item, o) == q.target :: db.Elems(q.target) == {})
  }

  /** The given collection has the attribute's own type: it is no inverse collection. */
  ghost predicate OwnSide(q: Call, db: Db) {
    forall w: Oid | db.Live(q.target) :: db.Read(q.inv, w) != q.target
  }

  /** What becomes of a collection the database already had. */
  lemma ElemsNow(q: Call, db: Db, made: seq<Oid>, c: Oid)
    requires db.Sane() && q.op != Remove && c < db.next
    ensures var see := Seen(q, db);
            var gone := InverseColls(see, q.inv, Abandoned(q, see));
            Now(q, db, made).Elems(c) ==
              (if q.Leaves(see) && c == q.Old(see) then {} else
                 db.Elems(c) - (if c in gone then {q.obj} else {}))
              + (if db.Live(c) && c in InverseColls(see, q.inv, Joined(q, see)) then {q.obj} else {})
  {
    assert c !in MadeColls(|made|, db.next, q.obj);
    WithoutAll(db.Elems(c));
  }

  lemma WithoutAll(es: set<Oid>)
    ensures es - es == {} && es - {} == es && es + {} == es
  {
  }

  lemma OtherMembers(q: Call, db: Db, made: seq<Oid>, z: Oid)
    requires Ready(q, db) && Made(q, db, made) && q.op != Remove && z != q.obj
    ensures Now(q, db, made).Members(q.item, z) == db.Members(q.item, z)
  {
    hide Now;
    var c := db.Read(q.item, z);
    StepNNSlots(q, db, made, q.item, z);
    ElemsNow(q, db, made, c);
    assert Apart(db, q.item, z, q.item, q.obj);
    forall e
      ensures Seen(q, db).Read(q.inv, e) == db.Read(q.inv, e) && (db.Live(c) ==> db.Read(q.inv, e) != c)
    {
      assert Apart(db, q.item, z, q.inv, e);
    }
  }

  lemma OwnMembers(q: Call, db: Db, made: seq<Oid>)
    requires Ready(q, db) && Made(q, db, made) && q.op != Remove && Free(q, db, {q.item, q.inv})
    requires db.Readable(q.target)
    ensures Now(q, db, made).Members(q.item, q.obj) == db.Elems(q.target)
  {
    hide Now;
    StepNNSlots(q, db, made, q.item, q.obj);
    ElemsNow(q, db, made, q.target);
    assert forall e :: db.Live(q.target) ==> db.Read(q.inv, e) != q.target;
    assert forall e :: Seen(q, db).Read(q.inv, e) == db.Read(q.inv, e);
  }

  lemma OwnInverse(q: Call, db: Db, m: Oid, es: set<Oid>)
    requires Ready(q, db) && db.Live(db.Read(q.inv, m))
    ensures db.Read(q.inv, m) in InverseColls(Seen(q, db), q.inv, es) <==> m in es
    ensures q.Leaves(Seen(q, db)) ==> db.Read(q.inv, m) != q.Old(Seen(q, db))
  {
    assert Seen(q, db).Read(q.inv, m) == db.Read(q.inv, m);
    forall e | e in es && Seen(q, db).Read(q.inv, e) == db.Read(q.inv, m)
      ensures e == m
    {
      assert Apart(db, q.inv, m, q.inv, e);
    }
    assert Apart(db, q.inv, m, q.item, q.obj);
  }

  lemma HousedMember(q: Call, db: Db, made: seq<Oid>, m: Oid)
    requires Ready(q, db) && Made(q, db, made) && q.op != Remove && db.Live(db.Read(q.inv, m))
    ensures var see := Seen(q, db);
            Now(q, db, made).Members(q.inv, m) ==
              db.Members(q.inv, m) - (if m in Abandoned(q, see) then {q.obj} else {})
              + (if m in Joined(q, see) then {q.obj} else {})
  {
    var see := Seen(q, db);
    ElemsNow(q, db, made, db.Read(q.inv, m));
    OwnInverse(q, db, m, Abandoned(q, see));
    OwnInverse(q, db, m, Joined(q, see));
    assert m !in made;
    MadeSlotsKeys(made, db.next, q.inv);
  }

  lemma HomelessMember(q: Call, db: Db, made: seq<Oid>, m: Oid)
    requires Ready(q, db) && Made(q, db, made) && q.op != Remove && !db.Live(db.Read(q.inv, m))
    ensures Now(q, db, made).Members(q.inv, m) == if m in Joined(q, Seen(q, db)) then {q.obj} else {}
  {
    MadeSlotsKeys(made, db.next, q.inv);
    assert Seen(q, db).Read(q.inv, m) == db.Read(q.inv, m);
    assert m in made <==> m in Joined(q, Seen(q, db));
    if m in made {
      assert Slot(m, q.inv) in MadeSlots(made, db.next, q.inv);
    } else {
      ElemsNow(q, db, made, db.Read(q.inv, m));
    }
  }

  lemma InverseMembers(q: Call, db: Db, made: seq<Oid>, m: Oid)
    requires Ready(q, db) && Made(q, db, made) && q.op != Remove
    ensures var see := Seen(q, db);
            Now(q, db, made).Members(q.inv, m) ==
              db.Members(q.inv, m) - (if m in Abandoned(q, see) then {q.obj} else {})
              + (if m in Joined(q, see) then {q.obj} else {})
  {
    if db.Live(db.Read(q.inv, m)) {
      HousedMember(q, db, made, m);
    } else {
      HomelessMember(q, db, made, m);
    }
  }

  // ----- create and update

  lemma JoinedAll(q: Call, db: Db)
    requires Ready(q, db) && q.op != Remove && Free(q, db, {q.item, q.inv})
    ensures Joined(q, Seen(q, db)) ==
      if q.target == NULL_OID || (q.op == Update && db.Read(q.item, q.obj) == q.target) then {} else db.Elems(q.target)
  {
  }

  lemma PairNN(q: Call, db: Db, made: seq<Oid>, z: Oid, m: Oid)
    requires Ready(q, db) && Made(q, db, made) && q.op != Remove && KeepsNN(q, db) && db.Readable(q.target)
    requires z != NULL_OID && m != NULL_OID
    ensures AgreeNN(Now(q, db, made), q.item, q.inv, z, m)
  {
    assert AgreeNN(db, q.item, q.inv, z, m);
    InverseMembers(q, db, made, m);
    if z == q.obj {
      OwnMembers(q, db, made);
      JoinedAll(q, db);
    } else {
      OtherMembers(q, db, made, z);
    }
  }

  lemma StepNNKeeps(q: Call, db: Db, made: seq<Oid>)
    requires Ready(q, db) && Made(q, db, made) && q.op != Remove && KeepsNN(q, db) && db.Readable(q.target)
    ensures SymNN(Now(q, db, made), q.item, q.inv)
  {
    forall z: Oid, m: Oid | z != NULL_OID && m != NULL_OID
      ensures AgreeNN(Now(q, db, made), q.item, q.inv, z, m)
    {
      PairNN(q, db, made, z, m);
    }
  }

  /** A collection that another slot holds already is then held twice. */
  lemma SharedNN(q: Call, db: Db, made: seq<Oid>, i: Item, o: Oid)
    requires Ready(q, db) && Made(q, db, made) && q.op != Remove && i in {q.item, q.inv}
    requires db.Live(q.target) && db.Read(i, o) == q.target && !IsStored(q, i, o)
    ensures !Apart(Now(q, db, made), q.item, q.obj, i, o)
  {
    hide Now;
    assert Seen(q, db).Read(q.inv, o) == db.Read(q.inv, o);
    StepNNSlots(q, db, made, i, o);
    StepNNSlots(q, db, made, q.item, q.obj);
    StepNNLive(q, db, made, q.target);
  }

  lemma StepNNBreaks(q: Call, db: Db, made: seq<Oid>)
    requires Ready(q, db) && Made(q, db, made) && q.op != Remove && !KeepsNN(q, db) && db.Readable(q.target)
    ensures var now := Now(q, db, made);
            !(SymNN(now, q.item, q.inv) && Owned(now, {q.item, q.inv}))
  {
    if !Free(q, db, {q.item, q.inv}) {
      var i: Item, o: Oid :| i in {q.item, q.inv} && db.Live(q.target) && db.Read(i, o) == q.target
          && !IsStored(q, i, o);
      SharedNN(q, db, made, i, o);
    } else {
      var m :| m in db.Members(q.item, q.obj) && m !in db.Elems(q.target);
      assert db.Read(q.item, q.obj) in db.colls;
      assert AgreeNN(db, q.item, q.inv, q.obj, m);
      OwnMembers(q, db, made);
      InverseMembers(q, db, made, m);
      assert !AgreeNN(Now(q, db, made), q.item, q.inv, q.obj, m);
    }
  }

  // ----- remove

  lemma MembersRemoved(q: Call, db: Db, i: Item, z: Oid)
    requires Ready(q, db) && q.op == Remove && OwnSide(q, db) && i in {q.item, q.inv}
    ensures Now(q, db, []).Members(i, z) ==
      if IsStored(q, i, z) then {}
      else if i == q.inv then db.Members(i, z) - (if z in db.Elems(q.target) then {q.obj} else {})
      else if db.Read(i, z) == q.target then db.Members(i, z) - Housed(db, q.inv, db.Elems(q.target))
      else db.Members(i, z)
  {
    var c, es := db.Read(i, z), db.Elems(q.target);
    forall e | db.Live(c) && db.Read(q.inv, e) == c
      ensures i == q.inv && e == z
    {
      assert Apart(db, i, z, q.inv, e);
    }
    assert db.Live(c) ==> (c in InverseColls(db, q.inv, es) <==> i == q.inv && z in es);
    WithoutAll(db.Elems(c));
  }

  lemma PairRemoved(q: Call, db: Db, z: Oid, m: Oid)
    requires Ready(q, db) && q.op == Remove && OwnSide(q, db) && KeepsNN(q, db) && z != NULL_OID && m != NULL_OID
    ensures AgreeNN(Now(q, db, []), q.item, q.inv, z, m)
  {
    assert AgreeNN(db, q.item, q.inv, z, m);
    MembersRemoved(q, db, q.item, z);
    MembersRemoved(q, db, q.inv, m);
  }

  lemma RemoveNNKeeps(q: Call, db: Db)
    requires Ready(q, db) && q.op == Remove && OwnSide(q, db) && KeepsNN(q, db)
    ensures SymNN(Now(q, db, []), q.item, q.inv)
  {
    forall z: Oid, m: Oid | z != NULL_OID && m != NULL_OID
      ensures AgreeNN(Now(q, db, []), q.item, q.inv, z, m)
    {
      PairRemoved(q, db, z, m);
    }
  }

  lemma RemoveNNBreaks(q: Call, db: Db)
    requires Ready(q, db) && q.op == Remove && OwnSide(q, db) && !KeepsNN(q, db)
    ensures !SymNN(Now(q, db, []), q.item, q.inv)
  {
    if !(db.Members(q.item, q.obj) <= db.Elems(q.target)) {
      var m :| m in db.Members(q.item, q.obj) && m !in db.Elems(q.target);
      assert db.Read(q.item, q.obj) in db.colls;
      assert AgreeNN(db, q.item, q.inv, q.obj, m);
      MembersRemoved(q, db, q.item, q.obj);
      MembersRemoved(q, db, q.inv, m);
      assert !AgreeNN(Now(q, db, []), q.item, q.inv, q.obj, m);
    } else {
      var z: Oid :| z != q.obj && db.Read(q.item, z) == q.target && db.Elems(q.target) != {};
      var e :| e in db.Elems(q.target);
      assert AgreeNN(db, q.item, q.inv, z, e);
      MembersRemoved(q, db, q.item, z);
      MembersRemoved(q, db, q.inv, e);
      assert !AgreeNN(Now(q, db, []), q.item, q.inv, z, e);
    }
  }

  // ----- the rest of the database's invariant

  lemma NullNotMade(q: Call, db: Db, made: seq<Oid>)
    requires Ready(q, db) && Made(q, db, made) && q.op != Remove && Free(q, db, {q.item, q.inv})
    ensures NULL_OID !in made
  {
    JoinedAll(q, db);
  }

  lemma RemoveNNSane(q: Call, db: Db)
    requires db.Sane() && q.op == Remove && q.obj != NULL_OID
    ensures Now(q, db, []).Sane() && forall made :: Now(q, db, made) == Now(q, db, [])
  {
  }

  lemma JoinNNSane(q: Call, db: Db, made: seq<Oid>)
    requires db.Sane() && q.op != Remove && NULL_OID < q.obj < db.next && q.target < db.next && NULL_OID !in made
    ensures Now(q, db, made).Sane()
  {
    MadeSlotsKeys(made, db.next, q.inv);
    JoinNNCollsSane(q, db, made);
    hide Add, Withdrawn, MadeColls, InverseColls, Joined, MadeSlots;
  }

  lemma JoinNNCollsSane(q: Call, db: Db, made: seq<Oid>)
    requires db.Sane() && q.op != Remove && q.obj != NULL_OID
    ensures var now := Now(q, db, made);
            NULL_OID !in now.colls && forall c <- now.colls :: c < now.next && NULL_OID !in now.colls[c].elems
  {
  }

  lemma StepNNSane(q: Call, db: Db, made: seq<Oid>)
    requires Ready(q, db) && Made(q, db, made) && q.obj < db.next && q.target < db.next
    requires q.op != Remove ==> Free(q, db, {q.item, q.inv})
    ensures Now(q, db, made).Sane()
  {
    hide Now, Made, Free, Typed, Owned, SymNN;
    if q.op != Remove {
      NullNotMade(q, db, made);
      JoinNNSane(q, db, made);
    } else {
      RemoveNNSane(q, db);
    }
  }

  lemma StepNNTyped(q: Call, db: Db, made: seq<Oid>, i: Item, o: Oid)
    requires db.Readable(db.Read(i, o)) && db.Readable(q.target)
    ensures Now(q, db, made).Readable(Now(q, db, made).Read(i, o))
  {
    MadeSlotsKeys(made, db.next, q.inv);
  }

  lemma {:induction false} MadeDistinct(made: seq<Oid>, base: Oid, inv: Item, i: nat)
    requires i < |made| && forall j, k :: 0 <= j < k < |made| ==> made[j] != made[k]
    ensures var w := MadeSlots(made, base, inv); Slot(made[i], inv) in w && w[Slot(made[i], inv)] == base + i
  {
    if i < |made| - 1 {
      MadeDistinct(made[..|made| - 1], base, inv, i);
    }
  }

  /** The value a slot of a collection attribute has after the step. */
  lemma StepNNSlots(q: Call, db: Db, made: seq<Oid>, i: Item, o: Oid)
    requires Made(q, db, made) && q.item != q.inv
    ensures var v := Now(q, db, made).Read(i, o);
            if q.op != Remove && i == q.inv && o in made then db.next <= v < db.next + |made|
            else if IsStored(q, i, o) then v == if q.op == Remove then NULL_OID else q.target
            else v == db.Read(i, o)
  {
    MadeSlotsKeys(made, db.next, q.inv);
  }

  lemma StepNNLive(q: Call, db: Db, made: seq<Oid>, c: Oid)
    requires db.Sane() && c < db.next
    ensures Now(q, db, made).Live(c) == db.Live(c)
  {
  }

  lemma MadeApart(q: Call, db: Db, made: seq<Oid>, o: Oid, p: Oid)
    requires Made(q, db, made) && q.op != Remove && o in made && p in made && o != p
    ensures Now(q, db, made).Read(q.inv, o) != Now(q, db, made).Read(q.inv, p)
  {
    var i :| 0 <= i < |made| && made[i] == o;
    var j :| 0 <= j < |made| && made[j] == p;
    MadeDistinct(made, db.next, q.inv, i);
    MadeDistinct(made, db.next, q.inv, j);
  }

  lemma StepNNApart(q: Call, db: Db, made: seq<Oid>, i: Item, o: Oid, j: Item, p: Oid)
    requires db.Sane() && Made(q, db, made) && q.item != q.inv && q.target < db.next
    requires Apart(db, i, o, j, p)
    requires q.op != Remove && db.Live(q.target) && db.Read(i, o) == q.target ==> IsStored(q, i, o)
    requires q.op != Remove && db.Live(q.target) && db.Read(j, p) == q.target ==> IsStored(q, j, p)
    ensures Apart(Now(q, db, made), i, o, j, p)
  {
    StepNNSlots(q, db, made, i, o);
    StepNNSlots(q, db, made, j, p);
    StepNNLive(q, db, made, db.Read(i, o));
    StepNNLive(q, db, made, q.target);
    StepNNLive(q, db, made, NULL_OID);
    assert db.Read(i, o) < db.next && db.Read(j, p) < db.next;
    if q.op != Remove && i == j == q.inv && o in made && p in made && o != p {
      MadeApart(q, db, made, o, p);
    }
  }

  /** A create or an update keeps an N:N relationship, and every collection to itself, exactly when
      the call is one that `KeepsNN` admits. */
  lemma StepNNExactly(q: Call, db: Db, made: seq<Oid>)
    requires Ready(q, db) && Made(q, db, made) && q.op != Remove && db.Readable(q.target)
    ensures var now := Now(q, db, made);
            SymNN(now, q.item, q.inv) && Owned(now, {q.item, q.inv}) <==> KeepsNN(q, db)
  {
    var now := Now(q, db, made);
    if KeepsNN(q, db) {
      StepNNKeeps(q, db, made);
      forall i: Item, o: Oid, j: Item, p: Oid | i in {q.item, q.inv} && j in {q.item, q.inv}
        ensures Apart(now, i, o, j, p)
      {
        assert Apart(db, i, o, j, p);
        StepNNApart(q, db, made, i, o, j, p);
      }
    } else {
      StepNNBreaks(q, db, made);
    }
  }

  lemma RemoveNNExactly(q: Call, db: Db)
    requires Ready(q, db) && q.op == Remove && OwnSide(q, db)
    ensures SymNN(Now(q, db, []), q.item, q.inv) <==> KeepsNN(q, db)
  {
    if KeepsNN(q, db) { RemoveNNKeeps(q, db); } else { RemoveNNBreaks(q, db); }
  }
}
