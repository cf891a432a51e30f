/** What one call of an inverse routine does to the relationship it maintains: exactly when
    each one leaves the two ends saying the same thing. */
module InverseLaws {
  import opened Store
  import opened InverseSpec

  // ----- the invariant of a relationship, by cardinality

  /** Both ends agree on whether `x` and `y` are related. */
  ghost predicate Agree11(db: Db, a: Item, b: Item, x: Oid, y: Oid) {
    db.Read(a, x) == y <==> db.Read(b, y) == x
  }

  ghost predicate Agree1N(db: Db, a: Item, b: Item, c: Oid, p: Oid) {
    db.Read(a, c) == p <==> c in db.Members(b, p)
  }

  ghost predicate AgreeNN(db: Db, a: Item, b: Item, x: Oid, m: Oid) {
    m in db.Members(a, x) <==> x in db.Members(b, m)
  }

  ghost predicate Sym11(db: Db, a: Item, b: Item) {
    forall x: Oid, y: Oid | x != NULL_OID && y != NULL_OID :: Agree11(db, a, b, x, y)
  }

  /** `a` is the single reference of a child, `b` the collection of its parent. */
  ghost predicate Sym1N(db: Db, a: Item, b: Item) {
    forall c: Oid, p: Oid | c != NULL_OID && p != NULL_OID :: Agree1N(db, a, b, c, p)
  }

  ghost predicate SymNN(db: Db, a: Item, b: Item) {
    forall x: Oid, m: Oid | x != NULL_OID && m != NULL_OID :: AgreeNN(db, a, b, x, m)
  }

  /** Attributes in `cs` hold null or a collection. */
  ghost predicate Typed(db: Db, cs: set<Item>) {
    forall i: Item, o: Oid | i in cs :: db.Readable(db.Read(i, o))
  }

  /** If these two slots hold the same live collection, they are the same slot. */
  ghost predicate Apart(db: Db, i: Item, o: Oid, j: Item, p: Oid) {
    db.Live(db.Read(i, o)) && db.Read(i, o) == db.Read(j, p) ==> i == j && o == p
  }

  /** No live collection is held by two slots of the attributes in `cs`. */
  ghost predicate Owned(db: Db, cs: set<Item>) {
    forall i: Item, o: Oid, j: Item, p: Oid | i in cs && j in cs :: Apart(db, i, o, j, p)
  }

  // ----- one step: the routine, and the stored object's own slot

  /** What the database holds when the routine starts: a create has already written the
      object, an update has not. */
  function Seen(q: Call, db: Db): Db {
    if q.op == Create then db.(slots := db.slots[Slot(q.obj, q.item) := q.target]) else db
  }

  /** The database once the object's slot for this attribute is settled as well. */
  function Settled(q: Call, db: Db, fx: Effect): Db {
    if q.op == Remove then Db((db.slots + fx.writes)[Slot(q.obj, q.item) := NULL_OID], fx.colls, fx.next)
    else Db(db.slots[Slot(q.obj, q.item) := q.target] + fx.writes, fx.colls, fx.next)
  }

  // ----- 1:1

  /** A create must not forget a relation the object already has; an update of a self-inverse
      attribute must not re-point an object related to itself; a remove must be given the
      stored reference. */
  predicate Keeps11(q: Call, db: Db) {
    var was := db.Read(q.item, q.obj);
    var same := q.item == q.inv;
    match q.op
    case Create => was == NULL_OID || was == q.target || (same && was == q.obj)
    case Update => !(same && was == q.obj && q.target != q.obj && q.target != NULL_OID)
    case Remove =>
      && (was == NULL_OID || was == q.target || (same && was == q.obj))
      && (q.target == NULL_OID ||
          var back := db.Read(q.inv, q.target);
          back == NULL_OID || back == q.obj || (same && back == q.target))
  }

  /** The pairs of objects a 1:1 step looks at, besides `x` and `y`. */
  ghost predicate Facts11(q: Call, db: Db) {
    && q.obj != NULL_OID
    && (var was := db.Read(q.item, q.obj); was != NULL_OID ==> db.Read(q.inv, was) == q.obj)
    && (var back := db.Read(q.inv, q.target);
        q.target != NULL_OID && back != NULL_OID ==> db.Read(q.item, back) == q.target)
  }

  lemma Looked11(q: Call, db: Db)
    requires Sym11(db, q.item, q.inv) && q.obj != NULL_OID
    ensures Facts11(q, db)
  {
    var was, back := db.Read(q.item, q.obj), db.Read(q.inv, q.target);
    assert was != NULL_OID ==> Agree11(db, q.item, q.inv, q.obj, was);
    assert back != NULL_OID && q.target != NULL_OID ==> Agree11(db, q.item, q.inv, back, q.target);
  }

  lemma Pair11Alone(q: Call, db: Db, x: Oid, y: Oid)
    requires Facts11(q, db) && Keeps11(q, db) && q.op == Create && q.target == NULL_OID
    requires x != NULL_OID && y != NULL_OID && Agree11(db, q.item, q.inv, x, y)
    ensures Agree11(Settled(q, db, Effect11(q, Seen(q, db))), q.item, q.inv, x, y)
  {
  }

  lemma Pair11Paired(q: Call, db: Db, x: Oid, y: Oid)
    requires Facts11(q, db) && Keeps11(q, db) && q.op == Create && q.target != NULL_OID
    requires x != NULL_OID && y != NULL_OID && Agree11(db, q.item, q.inv, x, y)
    ensures Agree11(Settled(q, db, Effect11(q, Seen(q, db))), q.item, q.inv, x, y)
  {
  }

  lemma Pair11Create(q: Call, db: Db, x: Oid, y: Oid)
    requires Facts11(q, db) && Keeps11(q, db) && q.op == Create
    requires x != NULL_OID && y != NULL_OID && Agree11(db, q.item, q.inv, x, y)
    ensures Agree11(Settled(q, db, Effect11(q, Seen(q, db))), q.item, q.inv, x, y)
  {
    hide *;
    if q.target == NULL_OID { Pair11Alone(q, db, x, y); } else { Pair11Paired(q, db, x, y); }
  }

  lemma Pair11Let(q: Call, db: Db, x: Oid, y: Oid)
    requires Facts11(q, db) && Keeps11(q, db) && q.op == Update && q.target == NULL_OID
    requires x != NULL_OID && y != NULL_OID && Agree11(db, q.item, q.inv, x, y)
    ensures Agree11(Settled(q, db, Effect11(q, Seen(q, db))), q.item, q.inv, x, y)
  {
  }

  lemma Pair11Moved(q: Call, db: Db, x: Oid, y: Oid)
    requires Facts11(q, db) && Keeps11(q, db) && q.op == Update && q.target != NULL_OID && (x == q.obj || y == q.target)
    requires x != NULL_OID && y != NULL_OID && Agree11(db, q.item, q.inv, x, y)
    ensures Agree11(Settled(q, db, Effect11(q, Seen(q, db))), q.item, q.inv, x, y)
  {
  }

  lemma Pair11Others(q: Call, db: Db, x: Oid, y: Oid)
    requires Facts11(q, db) && Keeps11(q, db) && q.op == Update && q.target != NULL_OID && x != q.obj && y != q.target
    requires x != NULL_OID && y != NULL_OID && Agree11(db, q.item, q.inv, x, y)
    ensures Agree11(Settled(q, db, Effect11(q, Seen(q, db))), q.item, q.inv, x, y)
  {
  }

  lemma Pair11Update(q: Call, db: Db, x: Oid, y: Oid)
    requires Facts11(q, db) && Keeps11(q, db) && q.op == Update
    requires x != NULL_OID && y != NULL_OID && Agree11(db, q.item, q.inv, x, y)
    ensures Agree11(Settled(q, db, Effect11(q, Seen(q, db))), q.item, q.inv, x, y)
  {
    hide *;
    if q.target == NULL_OID { Pair11Let(q, db, x, y); }
    else if x == q.obj || y == q.target { Pair11Moved(q, db, x, y); }
    else { Pair11Others(q, db, x, y); }
  }

  lemma Pair11Remove(q: Call, db: Db, x: Oid, y: Oid)
    requires Facts11(q, db) && Keeps11(q, db) && q.op == Remove
    requires x != NULL_OID && y != NULL_OID && Agree11(db, q.item, q.inv, x, y)
    ensures Agree11(Settled(q, db, Effect11(q, Seen(q, db))), q.item, q.inv, x, y)
  {
  }

  lemma Step11Keeps(q: Call, db: Db)
    requires Sym11(db, q.item, q.inv) && q.obj != NULL_OID && Keeps11(q, db)
    ensures Sym11(Settled(q, db, Effect11(q, Seen(q, db))), q.item, q.inv)
  {
    Looked11(q, db);
    forall x: Oid, y: Oid | x != NULL_OID && y != NULL_OID
      ensures Agree11(Settled(q, db, Effect11(q, Seen(q, db))), q.item, q.inv, x, y)
    {
      match q.op
      case Create => Pair11Create(q, db, x, y);
      case Update => Pair11Update(q, db, x, y);
      case Remove => Pair11Remove(q, db, x, y);
    }
  }

  lemma Step11Breaks(q: Call, db: Db)
    requires Sym11(db, q.item, q.inv) && q.obj != NULL_OID && !Keeps11(q, db)
    ensures !Sym11(Settled(q, db, Effect11(q, Seen(q, db))), q.item, q.inv)
  {
    var now := Settled(q, db, Effect11(q, Seen(q, db)));
    var was, back := db.Read(q.item, q.obj), db.Read(q.inv, q.target);
    Looked11(q, db);
    if q.op == Update {
      assert !Agree11(now, q.item, q.inv, q.obj, q.target);
    } else if was != NULL_OID && was != q.target && !(q.item == q.inv && was == q.obj) {
      assert !Agree11(now, q.item, q.inv, q.obj, was);
    } else {
      assert !Agree11(now, q.item, q.inv, back, q.target);
    }
  }

  /** A 1:1 step keeps the relationship exactly when the call is one that `Keeps11` admits. */
  lemma Step11Exactly(q: Call, db: Db)
    requires Sym11(db, q.item, q.inv) && q.obj != NULL_OID
    ensures Sym11(Settled(q, db, Effect11(q, Seen(q, db))), q.item, q.inv) <==> Keeps11(q, db)
  {
    if Keeps11(q, db) { Step11Keeps(q, db); } else { Step11Breaks(q, db); }
  }

  // ----- 1:N, the single reference changes

  /** A create must not forget the parent the object already has, and a remove must be given
      the stored one.  An update may be given anything. */
  predicate Keeps1N(q: Call, db: Db) {
    var was := db.Read(q.item, q.obj);
    match q.op
    case Create => was == NULL_OID || was == q.target
    case Update => true
    case Remove => was == NULL_OID || was == q.target
  }

  /** What a 1:N step relies on about the collections of `p`, the old and the new parent. */
  ghost predicate Facts1N(q: Call, db: Db, p: Oid) {
    && q.obj != NULL_OID && q.item != q.inv
    && NULL_OID !in db.colls && db.next !in db.colls && db.next != NULL_OID
    && db.Readable(db.Read(q.inv, p))
    && Apart(db, q.inv, p, q.inv, q.target)
    && Apart(db, q.inv, p, q.inv, db.Read(q.item, q.obj))
  }

  lemma Pair1NCreate(q: Call, db: Db, c: Oid, p: Oid)
    requires Facts1N(q, db, p) && Keeps1N(q, db) && q.op == Create
    requires c != NULL_OID && p != NULL_OID && Agree1N(db, q.item, q.inv, c, p)
    ensures Agree1N(Settled(q, db, Effect1N(q, Seen(q, db))), q.item, q.inv, c, p)
  {
  }

  lemma Pair1NLet(q: Call, db: Db, c: Oid, p: Oid)
    requires Facts1N(q, db, p) && Keeps1N(q, db) && q.op == Update && q.target == NULL_OID
    requires c != NULL_OID && p != NULL_OID && Agree1N(db, q.item, q.inv, c, p)
    ensures Agree1N(Settled(q, db, Effect1N(q, Seen(q, db))), q.item, q.inv, c, p)
  {
  }

  lemma Pair1NMoved(q: Call, db: Db, c: Oid, p: Oid)
    requires Facts1N(q, db, p) && Keeps1N(q, db) && q.op == Update && q.target != NULL_OID
    requires c != NULL_OID && p != NULL_OID && Agree1N(db, q.item, q.inv, c, p)
    ensures Agree1N(Settled(q, db, Effect1N(q, Seen(q, db))), q.item, q.inv, c, p)
  {
  }

  lemma Pair1NRemove(q: Call, db: Db, c: Oid, p: Oid)
    requires Facts1N(q, db, p) && Keeps1N(q, db) && q.op == Remove
    requires c != NULL_OID && p != NULL_OID && Agree1N(db, q.item, q.inv, c, p)
    ensures Agree1N(Settled(q, db, Effect1N(q, Seen(q, db))), q.item, q.inv, c, p)
  {
  }

  lemma Pair1N(q: Call, db: Db, c: Oid, p: Oid)
    requires Facts1N(q, db, p) && Keeps1N(q, db)
    requires c != NULL_OID && p != NULL_OID && Agree1N(db, q.item, q.inv, c, p)
    ensures Agree1N(Settled(q, db, Effect1N(q, Seen(q, db))), q.item, q.inv, c, p)
  {
    hide *;
    match q.op
    case Create => Pair1NCreate(q, db, c, p);
    case Update => if q.target == NULL_OID { Pair1NLet(q, db, c, p); } else { Pair1NMoved(q, db, c, p); }
    case Remove => Pair1NRemove(q, db, c, p);
  }

  lemma Step1NKeeps(q: Call, db: Db)
    requires db.Sane() && Typed(db, {q.inv}) && Owned(db, {q.inv}) && Sym1N(db, q.item, q.inv)
    requires q.obj != NULL_OID && q.item != q.inv && Keeps1N(q, db)
    ensures Sym1N(Settled(q, db, Effect1N(q, Seen(q, db))), q.item, q.inv)
  {
    forall c: Oid, p: Oid | c != NULL_OID && p != NULL_OID
      ensures Agree1N(Settled(q, db, Effect1N(q, Seen(q, db))), q.item, q.inv, c, p)
    {
      Pair1N(q, db, c, p);
    }
  }

  lemma Step1NBreaks(q: Call, db: Db)
    requires db.Sane() && Typed(db, {q.inv}) && Owned(db, {q.inv}) && Sym1N(db, q.item, q.inv)
    requires q.obj != NULL_OID && q.item != q.inv && !Keeps1N(q, db)
    ensures !Sym1N(Settled(q, db, Effect1N(q, Seen(q, db))), q.item, q.inv)
  {
    var was := db.Read(q.item, q.obj);
    assert Agree1N(db, q.item, q.inv, q.obj, was);
    assert Apart(db, q.inv, was, q.inv, q.target);
    assert !Agree1N(Settled(q, db, Effect1N(q, Seen(q, db))), q.item, q.inv, q.obj, was);
  }

  /** A 1:N step keeps the relationship exactly when the call is one that `Keeps1N` admits; an
      update always is. */
  lemma Step1NExactly(q: Call, db: Db)
    requires db.Sane() && Typed(db, {q.inv}) && Owned(db, {q.inv}) && Sym1N(db, q.item, q.inv)
    requires q.obj != NULL_OID && q.item != q.inv
    ensures Sym1N(Settled(q, db, Effect1N(q, Seen(q, db))), q.item, q.inv) <==> Keeps1N(q, db)
  {
    if Keeps1N(q, db) { Step1NKeeps(q, db); } else { Step1NBreaks(q, db); }
  }

  // ----- 1:N, the rest of the database's invariant

  lemma Step1NLeft(q: Call, db: Db)
    requires db.Sane() && NULL_OID < q.obj < db.next && (q.target == NULL_OID || (q.op == Remove && q.target < db.next))
    ensures Settled(q, db, Effect1N(q, Seen(q, db))).Sane()
  {
  }

  lemma Step1NJoined(q: Call, db: Db)
    requires db.Sane() && NULL_OID < q.obj < db.next && NULL_OID != q.target < db.next && q.op != Remove
    ensures Settled(q, db, Effect1N(q, Seen(q, db))).Sane()
  {
  }

  lemma Step1NSane(q: Call, db: Db)
    requires db.Sane() && NULL_OID < q.obj < db.next && q.target < db.next
    ensures Settled(q, db, Effect1N(q, Seen(q, db))).Sane()
  {
    hide *;
    if q.target == NULL_OID || q.op == Remove { Step1NLeft(q, db); } else { Step1NJoined(q, db); }
  }

  lemma Step1NTyped(q: Call, db: Db, i: Item, o: Oid)
    requires db.Readable(db.Read(i, o)) && i != q.item
    ensures var now := Settled(q, db, Effect1N(q, Seen(q, db))); now.Readable(now.Read(i, o))
  {
  }

  /** The value of a collection slot, and what is alive, after a 1:N step. */
  lemma Step1NSlots(q: Call, db: Db, i: Item, o: Oid)
    requires i != q.item
    ensures var v := Settled(q, db, Effect1N(q, Seen(q, db))).Read(i, o);
            if q.op != Remove && q.target != NULL_OID && !db.Live(db.Read(q.inv, q.target))
               && i == q.inv && o == q.target
            then v == db.next else v == db.Read(i, o)
  {
  }

  lemma Step1NLive(q: Call, db: Db, c: Oid)
    requires c != db.next
    ensures Settled(q, db, Effect1N(q, Seen(q, db))).Live(c) == db.Live(c)
  {
  }

  lemma Step1NApart(q: Call, db: Db, i: Item, o: Oid, j: Item, p: Oid)
    requires db.next !in db.colls && db.next != NULL_OID
    requires db.Readable(db.Read(i, o)) && db.Readable(db.Read(j, p)) && i != q.item && j != q.item
    requires Apart(db, i, o, j, p)
    ensures Apart(Settled(q, db, Effect1N(q, Seen(q, db))), i, o, j, p)
  {
    Step1NSlots(q, db, i, o);
    Step1NSlots(q, db, j, p);
    Step1NLive(q, db, db.Read(i, o));
  }

  // ----- N:1, a whole collection is assigned

  /** Every owner that would lose a member must lose all of them to the new collection; a
      create must not forget members, and a remove must be given a collection that holds
      the object's members and nobody else's. */
  predicate KeepsN1(q: Call, db: Db) {
    var es := db.Elems(q.target);
    && (q.op != Update ==> db.Members(q.item, q.obj) <= es)
    && (forall e | e in es ::
          var z := db.Read(q.inv, e);
          z == NULL_OID || z == q.obj || (q.op != Remove && db.Members(q.item, z) <= es))
  }

  lemma PairN1Removed(q: Call, db: Db, c: Oid, p: Oid)
    requires q.obj != NULL_OID && q.item != q.inv && NULL_OID !in db.colls && KeepsN1(q, db) && q.op == Remove
    requires c != NULL_OID && p != NULL_OID
    requires Agree1N(db, q.inv, q.item, c, p) && Agree1N(db, q.inv, q.item, c, q.obj)
    ensures Agree1N(Settled(q, db, EffectN1(q, db)), q.inv, q.item, c, p)
  {
  }

  /** Where a member points once a whole collection was assigned. */
  lemma MemberValue(q: Call, db: Db, c: Oid)
    requires q.item != q.inv && q.op != Remove
    ensures Settled(q, db, EffectN1(q, Seen(q, db))).Read(q.inv, c) ==
      if c in db.Elems(q.target) then q.obj
      else if c in Abandoned(q, Seen(q, db)) then NULL_OID
      else db.Read(q.inv, c)
  {
  }

  /** Which collection an object holds then. */
  lemma OwnerValue(q: Call, db: Db, p: Oid)
    requires q.item != q.inv && q.op != Remove
    ensures var see := Seen(q, db);
            var taken := Strangers(Released(q, see), q.inv, db.Elems(q.target), q.obj);
            Settled(q, db, EffectN1(q, see)).Read(q.item, p) ==
              if p in OwnersOf(Released(q, see), q.inv, taken) then NULL_OID
              else if p == q.obj then q.target
              else db.Read(q.item, p)
  {
  }

  lemma SameCollsN1(q: Call, db: Db)
    ensures Settled(q, db, EffectN1(q, Seen(q, db))).colls == db.colls
  {
  }

  lemma ReleasedReads(q: Call, db: Db, e: Oid)
    ensures Released(q, Seen(q, db)).Read(q.inv, e) ==
      if e in Abandoned(q, Seen(q, db)) then NULL_OID else Seen(q, db).Read(q.inv, e)
  {
  }

  lemma PairN1Stored(q: Call, db: Db, c: Oid, p: Oid)
    requires q.obj != NULL_OID && q.item != q.inv && NULL_OID !in db.colls && KeepsN1(q, db) && q.op != Remove
    requires c != NULL_OID && p != NULL_OID
    requires Agree1N(db, q.inv, q.item, c, p) && Agree1N(db, q.inv, q.item, c, q.obj)
    ensures Agree1N(Settled(q, db, EffectN1(q, Seen(q, db))), q.inv, q.item, c, p)
  {
    hide EffectN1, Settled;
    SameCollsN1(q, db);
    MemberValue(q, db, c);
    OwnerValue(q, db, p);
    forall e
      ensures Released(q, Seen(q, db)).Read(q.inv, e) ==
        if e in Abandoned(q, Seen(q, db)) then NULL_OID else db.Read(q.inv, e)
    {
      ReleasedReads(q, db, e);
    }
  }

  lemma StepN1Keeps(q: Call, db: Db)
    requires db.Sane() && Sym1N(db, q.inv, q.item) && q.obj != NULL_OID && q.item != q.inv && KeepsN1(q, db)
    ensures Sym1N(Settled(q, db, EffectN1(q, Seen(q, db))), q.inv, q.item)
  {
    forall c: Oid, p: Oid | c != NULL_OID && p != NULL_OID
      ensures Agree1N(Settled(q, db, EffectN1(q, Seen(q, db))), q.inv, q.item, c, p)
    {
      if q.op == Remove {
        PairN1Removed(q, db, c, p);
      } else {
        PairN1Stored(q, db, c, p);
      }
    }
  }

  /** A member left out of the collection given to a create or a remove still points back. */
  lemma ForgottenN1(q: Call, db: Db, m: Oid)
    requires q.obj != NULL_OID && q.item != q.inv && NULL_OID !in db.colls && q.op != Update
    requires m in db.Members(q.item, q.obj) && m !in db.Elems(q.target) && db.Read(q.inv, m) == q.obj
    ensures !Agree1N(Settled(q, db, EffectN1(q, Seen(q, db))), q.inv, q.item, m, q.obj)
  {
  }

  /** The members of a robbed owner that the new collection leaves out still point to it. */
  lemma OrphanedN1(q: Call, db: Db, e: Oid, z: Oid, m: Oid)
    requires q.obj != NULL_OID && q.item != q.inv && NULL_OID !in db.colls && q.op != Remove
    requires e in db.Elems(q.target) && db.Read(q.inv, e) == z == db.Read(q.inv, m) && z != NULL_OID && z != q.obj
    requires m !in db.Elems(q.target)
    requires Agree1N(db, q.inv, q.item, e, q.obj) && Agree1N(db, q.inv, q.item, m, q.obj)
    ensures !Agree1N(Settled(q, db, EffectN1(q, Seen(q, db))), q.inv, q.item, m, z)
  {
    hide EffectN1, Settled;
    SameCollsN1(q, db);
    MemberValue(q, db, m);
    OwnerValue(q, db, z);
    assert e in Strangers(Released(q, Seen(q, db)), q.inv, db.Elems(q.target), q.obj);
  }

  /** A member of another object is nulled all the same. */
  lemma StrayN1(q: Call, db: Db, e: Oid, z: Oid)
    requires q.obj != NULL_OID && q.item != q.inv && NULL_OID !in db.colls && q.op == Remove
    requires e in db.Elems(q.target) && e in db.Members(q.item, z) && z != NULL_OID && z != q.obj
    ensures !Agree1N(Settled(q, db, EffectN1(q, Seen(q, db))), q.inv, q.item, e, z)
  {
  }

  lemma MemberPoints(db: Db, a: Item, b: Item, m: Oid, p: Oid)
    requires db.Sane() && Sym1N(db, a, b) && m in db.Members(b, p) && p != NULL_OID
    ensures m != NULL_OID && db.Read(a, m) == p
  {
    assert db.Read(b, p) in db.colls;
    assert Agree1N(db, a, b, m, p);
  }

  lemma StepN1Robs(q: Call, db: Db, e: Oid)
    requires db.Sane() && Sym1N(db, q.inv, q.item) && q.obj != NULL_OID && q.item != q.inv && q.op != Remove
    requires e in db.Elems(q.target) && db.Read(q.inv, e) != NULL_OID && db.Read(q.inv, e) != q.obj
    requires !(db.Members(q.item, db.Read(q.inv, e)) <= db.Elems(q.target))
    ensures !Sym1N(Settled(q, db, EffectN1(q, Seen(q, db))), q.inv, q.item)
  {
    var z := db.Read(q.inv, e);
    var m :| m in db.Members(q.item, z) && m !in db.Elems(q.target);
    MemberPoints(db, q.inv, q.item, m, z);
    assert e != NULL_OID && Agree1N(db, q.inv, q.item, e, q.obj) && Agree1N(db, q.inv, q.item, m, q.obj);
    OrphanedN1(q, db, e, z, m);
  }

  lemma StepN1Breaks(q: Call, db: Db)
    requires db.Sane() && Sym1N(db, q.inv, q.item) && q.obj != NULL_OID && q.item != q.inv && !KeepsN1(q, db)
    ensures !Sym1N(Settled(q, db, EffectN1(q, Seen(q, db))), q.inv, q.item)
  {
    var es := db.Elems(q.target);
    if q.op != Update && !(db.Members(q.item, q.obj) <= es) {
      var m :| m in db.Members(q.item, q.obj) && m !in es;
      MemberPoints(db, q.inv, q.item, m, q.obj);
      ForgottenN1(q, db, m);
    } else {
      var e :| e in es && var z := db.Read(q.inv, e);
        z != NULL_OID && z != q.obj && !(q.op != Remove && db.Members(q.item, z) <= es);
      if q.op == Remove {
        var z := db.Read(q.inv, e);
        assert e != NULL_OID && Agree1N(db, q.inv, q.item, e, z);
        StrayN1(q, db, e, z);
      } else {
        StepN1Robs(q, db, e);
      }
    }
  }

  /** Assigning or removing a whole collection keeps the relationship exactly when every owner that
      would lose a member would lose all of them. */
  lemma StepN1Exactly(q: Call, db: Db)
    requires db.Sane() && Sym1N(db, q.inv, q.item) && q.obj != NULL_OID && q.item != q.inv
    ensures Sym1N(Settled(q, db, EffectN1(q, Seen(q, db))), q.inv, q.item) <==> KeepsN1(q, db)
  {
    if KeepsN1(q, db) { StepN1Keeps(q, db); } else { StepN1Breaks(q, db); }
  }

  /** Half of the relation survives any assignment: a member points to its owner. */
  lemma StepN1MembersPoint(q: Call, db: Db, c: Oid, p: Oid)
    requires q.obj != NULL_OID && q.item != q.inv && NULL_OID !in db.colls && q.op != Remove
    requires c != NULL_OID && p != NULL_OID
    requires Agree1N(db, q.inv, q.item, c, p) && Agree1N(db, q.inv, q.item, c, q.obj)
    ensures var now := Settled(q, db, EffectN1(q, Seen(q, db)));
            c in now.Members(q.item, p) ==> now.Read(q.inv, c) == p
  {
  }

  /** ... whatever collection is assigned. */
  lemma StepN1Half(q: Call, db: Db)
    requires db.Sane() && Sym1N(db, q.inv, q.item) && q.obj != NULL_OID && q.item != q.inv && q.op != Remove
    ensures var now := Settled(q, db, EffectN1(q, Seen(q, db)));
            forall c: Oid, p: Oid | p != NULL_OID && c in now.Members(q.item, p) :: now.Read(q.inv, c) == p
  {
    var now := Settled(q, db, EffectN1(q, Seen(q, db)));
    forall c: Oid, p: Oid | p != NULL_OID && c in now.Members(q.item, p)
      ensures now.Read(q.inv, c) == p
    {
      assert now.Live(now.Read(q.item, p));
      assert Agree1N(db, q.inv, q.item, c, p) && Agree1N(db, q.inv, q.item, c, q.obj);
      StepN1MembersPoint(q, db, c, p);
    }
  }

  // ----- who holds which collection, after a whole collection was assigned

  /** The slot is the one being stored. */
  predicate IsStored(q: Call, i: Item, o: Oid) {
    i == q.item && o == q.obj
  }

  /** Of the attributes `cs`, no slot but the stored one holds the new collection. */
  ghost predicate Free(q: Call, db: Db, cs: set<Item>) {
    forall i: Item, o: Oid | i in cs && db.Live(q.target) && db.Read(i, o) == q.target :: IsStored(q, i, o)
  }

  /** An N:1 assignment also takes a collection over from another object, provided it is not empty. */
  ghost predicate FreeN1(q: Call, db: Db, cs: set<Item>) {
    forall i: Item, o: Oid | i in cs && db.Live(q.target) && db.Read(i, o) == q.target ::
      i == q.item && (o == q.obj || db.Elems(q.target) != {})
  }

  lemma StepN1Writes(q: Call, db: Db)
    requires db.Sane() && NULL_OID < q.obj < db.next
    ensures forall k <- EffectN1(q, db).writes :: k.obj != NULL_OID && EffectN1(q, db).writes[k] < db.next
  {
  }

  /** Any step that changes no collection and writes handed-out oids to real objects. */
  lemma SettledSane(q: Call, db: Db, fx: Effect)
    requires db.Sane() && NULL_OID < q.obj && q.target < db.next && fx.colls == db.colls && fx.next == db.next
    requires forall k <- fx.writes :: k.obj != NULL_OID && fx.writes[k] < db.next
    ensures Settled(q, db, fx).Sane()
  {
  }

  lemma StepN1Sane(q: Call, db: Db)
    requires db.Sane() && NULL_OID < q.obj < db.next && q.target < db.next
    ensures Settled(q, db, EffectN1(q, Seen(q, db))).Sane()
  {
    StepN1Writes(q, Seen(q, db));
    SettledSane(q, db, EffectN1(q, Seen(q, db)));
  }

  lemma StepN1Typed(q: Call, db: Db, i: Item, o: Oid)
    requires db.Readable(db.Read(i, o)) && db.Readable(q.target) && i != q.inv
    ensures var now := Settled(q, db, EffectN1(q, Seen(q, db))); now.Readable(now.Read(i, o))
  {
  }

  /** If `o` holds the new collection, its members say so, and there is one unless `o` is the
      stored object. */
  ghost predicate Yields(q: Call, db: Db, i: Item, o: Oid) {
    db.Live(q.target) && db.Read(i, o) == q.target ==>
      && i == q.item && (o == q.obj || db.Elems(q.target) != {})
      && (forall e | e in db.Elems(q.target) :: db.Read(q.inv, e) == o)
  }

  /** An owner that yields its collection is robbed of it. */
  lemma Yielded(q: Call, db: Db, o: Oid)
    requires q.item != q.inv && NULL_OID !in db.colls && q.op != Remove
    requires forall e | e in Abandoned(q, Seen(q, db)) :: db.Read(q.inv, e) == q.obj
    requires o != NULL_OID && o != q.obj && Yields(q, db, q.item, o)
    requires db.Live(q.target) && db.Read(q.item, o) == q.target
    ensures Settled(q, db, EffectN1(q, Seen(q, db))).Read(q.item, o) == NULL_OID
  {
    var e :| e in db.Elems(q.target);
    assert e in Strangers(Released(q, Seen(q, db)), q.inv, db.Elems(q.target), q.obj);
  }

  lemma StepN1Slots(q: Call, db: Db, i: Item, o: Oid)
    requires q.item != q.inv && q.op != Remove && i != q.inv
    ensures var v := Settled(q, db, EffectN1(q, Seen(q, db))).Read(i, o);
            if IsStored(q, i, o) then v == q.target else v == db.Read(i, o) || v == NULL_OID
  {
  }

  lemma StepN1Apart(q: Call, db: Db, i: Item, o: Oid, j: Item, p: Oid)
    requires q.item != q.inv && NULL_OID !in db.colls && q.op != Remove && i != q.inv && j != q.inv
    requires forall e | e in Abandoned(q, Seen(q, db)) :: db.Read(q.inv, e) == q.obj
    requires Apart(db, i, o, j, p)
    requires o != NULL_OID && p != NULL_OID && Yields(q, db, i, o) && Yields(q, db, j, p)
    ensures Apart(Settled(q, db, EffectN1(q, Seen(q, db))), i, o, j, p)
  {
    StepN1Slots(q, db, i, o);
    StepN1Slots(q, db, j, p);
    if db.Live(q.target) {
      if db.Read(i, o) == q.target && !IsStored(q, i, o) && o != q.obj {
        Yielded(q, db, o);
      }
      if db.Read(j, p) == q.target && !IsStored(q, j, p) && p != q.obj {
        Yielded(q, db, p);
      }
    }
  }
}
