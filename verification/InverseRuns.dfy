/** Whole objects and whole runs: the attributes of an object are handled one after the other
    over one IDR, and any sequence of stores, removals and collection writes stays coherent. */
module InverseRuns {
  import opened Store
  import opened InverseSpec
  import opened InverseLaws
  import opened InverseLawsNN
  import opened InverseLawsElem
  import opened InverseDriver
  import opened InverseFrame

  function Ref(idr: map<Item, Oid>, i: Item): Oid {
    if i in idr then idr[i] else NULL_OID
  }

  /** The database and the IDR of the object being stored, between two attributes. */
  datatype Work = Work(db: Db, oid: Oid, idr: map<Item, Oid>)

  function CallOf(sch: Schema, op: Op, item: Item, w: Work): Call
    requires item in sch.inverse
  {
    Call(op, item, sch.inverse[item], w.oid, Ref(w.idr, item))
  }

  ghost predicate AppliedTo(w: Work, fx: Effect, v: Work) {
    && v.db == Db(w.db.slots + fx.writes, fx.colls, fx.next)
    && v.oid == w.oid
    && Patched(v.idr, w.idr, w.oid, fx.writes)
  }

  /** One attribute: nothing happens without an inverse. */
  ghost predicate ItemStep(sch: Schema, op: Op, item: Item, w: Work, v: Work) {
    if item !in sch.inverse then v == w
    else exists fx :: Routed(sch, CallOf(sch, op, item, w), w.db, fx) && AppliedTo(w, fx, v)
  }

  /** All attributes of the class, in order. */
  ghost predicate ItemsStep(sch: Schema, op: Op, items: seq<Item>, w: Work, v: Work) {
    if items == [] then v == w
    else exists mid :: ItemStep(sch, op, items[0], w, mid) && ItemsStep(sch, op, items[1..], mid, v)
  }

  // ----- one attribute after the other

  /** What asks of an object as a whole: each reference fits, no collection is given to two
      attributes, and where the class holds both ends of a relationship, the object is not its own
      relative by it. */
  ghost predicate ObjectFit(sch: Schema, op: Op, items: seq<Item>, w: Work, db: Db) {
    && NULL_OID < w.oid < db.next
    && (forall i, j :: 0 <= i < j < |items| ==> items[i] != items[j])
    && (forall i | i in items :: Ref(w.idr, i) < db.next)
    && (forall i | i in items && i in sch.inverse :: ItemFit(sch, op, items, i, w, db))
  }

  ghost predicate ItemFit(sch: Schema, op: Op, items: seq<Item>, i: Item, w: Work, db: Db)
    requires i in sch.inverse
  {
    && Fit(sch, CallOf(sch, op, i, w), db)
    && (sch.inverse[i] == i || sch.inverse[i] !in items || Distant(sch, CallOf(sch, op, i, w), db))
    && (op != Remove && i in sch.many ==>
          forall j | j in items && j != i && j in sch.many && Ref(w.idr, j) == Ref(w.idr, i) :: !db.Live(Ref(w.idr, i)))
  }

  /** The slot of the stored object for its attribute `i`, as if every attribute already
      handled had been settled and no other. */
  function Slotted(op: Op, base: Db, w: Work, rest: seq<Item>, i: Item): Oid {
    match op
    case Create => if i in rest then base.Read(i, w.oid) else w.db.Read(i, w.oid)
    case Update => if i in rest then w.db.Read(i, w.oid) else Ref(w.idr, i)
    case Remove => if i in rest then w.db.Read(i, w.oid) else NULL_OID
  }

  /** `t` is the database one would have if the attributes were stored one at a time. */
  ghost predicate Ahead(op: Op, t: Db, base: Db, w: Work, all: seq<Item>, rest: seq<Item>) {
    && t.colls == w.db.colls && t.next == w.db.next
    && (forall k <- w.db.slots :: k.obj != NULL_OID)
    && (forall i: Item, o: Oid ::
          t.Read(i, o) == if o == w.oid && i in all then Slotted(op, base, w, rest, i) else w.db.Read(i, o))
    && (op == Create ==> forall i | i in all :: w.db.Read(i, w.oid) == Ref(w.idr, i))
    && (op == Update ==> forall i | i in w.idr && i !in all :: w.db.Read(i, w.oid) == w.idr[i])
    && (op == Remove ==> forall i | i !in all :: w.db.Read(i, w.oid) == NULL_OID)
  }

  /** Storing a reference that has no inverse. */
  function PlainStep(op: Op, t: Db, x: Oid, i: Item, v: Oid): Db {
    t.(slots := t.slots[Slot(x, i) := if op == Remove then NULL_OID else v])
  }

  lemma PlainKeeps(sch: Schema, op: Op, t: Db, x: Oid, i: Item, v: Oid)
    requires sch.Valid() && Coherent(sch, t) && i !in sch.inverse && x != NULL_OID && v < t.next
    ensures Coherent(sch, PlainStep(op, t, x, i, v))
  {
    var now := PlainStep(op, t, x, i, v);
    forall j: Item, o: Oid | j in sch.Colls()
      ensures now.Readable(now.Read(j, o))
    {
      assert t.Readable(t.Read(j, o));
    }
    forall j: Item, o: Oid, k: Item, p: Oid | j in sch.Colls() && k in sch.Colls()
      ensures Apart(now, j, o, k, p)
    {
      assert Apart(t, j, o, k, p);
    }
    forall a | a in sch.inverse
      ensures Linked(sch, now, a)
    {
      LinkedFrame(sch, t, now, a);
    }
  }

  lemma AheadPlain(sch: Schema, op: Op, t: Db, base: Db, w: Work, all: seq<Item>, rest: seq<Item>)
    requires Ahead(op, t, base, w, all, rest) && rest != [] && rest[0] in all && rest[0] !in rest[1..]
    ensures Ahead(op, PlainStep(op, t, w.oid, rest[0], Ref(w.idr, rest[0])), base, w, all, rest[1..])
  {
    var now := PlainStep(op, t, w.oid, rest[0], Ref(w.idr, rest[0]));
    forall i: Item, o: Oid
      ensures now.Read(i, o) == if o == w.oid && i in all then Slotted(op, base, w, rest[1..], i) else w.db.Read(i, o)
    {
      assert t.Read(i, o) == if o == w.oid && i in all then Slotted(op, base, w, rest, i) else w.db.Read(i, o);
      assert i in rest <==> i == rest[0] || i in rest[1..];
    }
  }

  lemma AheadRouted(sch: Schema, op: Op, t: Db, base: Db, w: Work, all: seq<Item>, rest: seq<Item>,
                    fx: Effect)
    requires Ahead(op, t, base, w, all, rest) && rest != [] && rest[0] in all && rest[0] in sch.inverse
    requires sch.inverse[rest[0]] == rest[0] || sch.inverse[rest[0]] !in all
             || Distant(sch, CallOf(sch, op, rest[0], w), t)
    requires var q := CallOf(sch, op, rest[0], w); Routed(sch, q, w.db, fx)
    ensures var q := CallOf(sch, op, rest[0], w); Routed(sch, q, Seen(q, t), fx)
  {
    var q := CallOf(sch, op, rest[0], w);
    forall i, o | i == q.item || (i == q.inv && (o != q.obj || q.inv == q.item || q.inv !in all))
      ensures Seen(q, t).Read(i, o) == w.db.Read(i, o)
    {
    }
    hide Routed;
    if q.inv == q.item || q.inv !in all {
      RoutedSame(sch, q, w.db, Seen(q, t), fx);
    } else {
      assert op != Create ==> t.Read(q.item, q.obj) == w.db.Read(q.item, q.obj);
      RoutedApart(sch, q, w.db, Seen(q, t), fx);
    }
  }

  lemma SettledAt(q: Call, t: Db, fx: Effect, i: Item, o: Oid)
    ensures Settled(q, t, fx).Read(i, o) ==
      if q.op == Remove && o == q.obj && i == q.item then NULL_OID
      else if Slot(o, i) in fx.writes then fx.writes[Slot(o, i)]
      else if q.op != Remove && o == q.obj && i == q.item then q.target
      else t.Read(i, o)
  {
  }

  lemma AheadSlot(q: Call, t: Db, base: Db, w: Work, all: seq<Item>, rest: seq<Item>, fx: Effect,
                  v: Work, i: Item, o: Oid)
    requires rest != [] && rest[0] in all && rest[0] !in rest[1..] && q.item == rest[0] && q.obj == w.oid
    requires q.target == Ref(w.idr, q.item)
    requires q.inv == q.item || q.inv !in all || forall k <- fx.writes :: k.obj != w.oid
    requires AppliedTo(w, fx, v) && (Slot(o, i) in fx.writes ==> i == q.item || i == q.inv)
    requires t.Read(i, o) == if o == w.oid && i in all then Slotted(q.op, base, w, rest, i) else w.db.Read(i, o)
    requires q.op == Create && i in all ==> w.db.Read(i, w.oid) == Ref(w.idr, i)
    ensures Settled(q, t, fx).Read(i, o) ==
      if o == v.oid && i in all then Slotted(q.op, base, v, rest[1..], i) else v.db.Read(i, o)
    ensures q.op == Create && i in all ==> v.db.Read(i, v.oid) == Ref(v.idr, i)
    ensures q.op == Update && i !in all && i in v.idr && (i in w.idr ==> w.db.Read(i, w.oid) == w.idr[i]) ==>
      v.db.Read(i, v.oid) == v.idr[i]
  {
    SettledAt(q, t, fx, i, o);
    hide Settled;
    assert i in rest <==> i == rest[0] || i in rest[1..];
    assert v.db.Read(i, o) == if Slot(o, i) in fx.writes then fx.writes[Slot(o, i)] else w.db.Read(i, o);
    assert v.db.Read(i, w.oid) ==
      if Slot(w.oid, i) in fx.writes then fx.writes[Slot(w.oid, i)] else w.db.Read(i, w.oid);
    assert Ref(v.idr, i) == if Slot(w.oid, i) in fx.writes then fx.writes[Slot(w.oid, i)] else Ref(w.idr, i);
  }

  lemma AheadStep(sch: Schema, op: Op, t: Db, base: Db, w: Work, all: seq<Item>, rest: seq<Item>,
                  fx: Effect, v: Work)
    requires Ahead(op, t, base, w, all, rest) && rest != [] && rest[0] in all && rest[0] in sch.inverse
    requires rest[0] !in rest[1..]
    requires sch.inverse[rest[0]] == rest[0] || sch.inverse[rest[0]] !in all || forall k <- fx.writes :: k.obj != w.oid
    requires AppliedTo(w, fx, v)
    requires forall k <- fx.writes :: k.obj != NULL_OID && k.item in {rest[0], sch.inverse[rest[0]]}
    requires op == Remove ==> forall k <- fx.writes :: fx.writes[k] == NULL_OID
    ensures var q := CallOf(sch, op, rest[0], w); Ahead(op, Settled(q, t, fx), base, v, all, rest[1..])
  {
    var q := CallOf(sch, op, rest[0], w);
    forall i: Item, o: Oid
      ensures Settled(q, t, fx).Read(i, o) ==
        if o == v.oid && i in all then Slotted(op, base, v, rest[1..], i) else v.db.Read(i, o)
      ensures op == Create && i in all ==> v.db.Read(i, v.oid) == Ref(v.idr, i)
      ensures op == Update && i !in all && i in v.idr ==> v.db.Read(i, v.oid) == v.idr[i]
    {
      AheadSlot(q, t, base, w, all, rest, fx, v, i, o);
    }
  }

  lemma RoutedKeys(sch: Schema, q: Call, db: Db, fx: Effect)
    requires Routed(sch, q, Seen(q, db), fx)
    ensures forall k <- fx.writes :: k.item in {q.item, q.inv}
    ensures Settled(q, db, fx).Sane() ==> forall k <- fx.writes :: k.obj != NULL_OID
    ensures q.op == Remove ==> forall k <- fx.writes :: fx.writes[k] == NULL_OID
  {
    hide Homeless, Joined, Enumerates, Strip, Add;
    if q.item in sch.many && q.inv in sch.many {
      var made :| (q.op != Remove ==> Enumerates(made, Homeless(Seen(q, db), q.inv, Joined(q, Seen(q, db)))))
        && fx == EffectNN(q, Seen(q, db), made);
      MadeSlotsKeys(made, db.next, q.inv);
    }
    assert forall k <- fx.writes :: k in Settled(q, db, fx).slots;
  }

  /** What the remaining attributes are waiting for. */
  ghost predicate RestFit(sch: Schema, op: Op, all: seq<Item>, rest: seq<Item>, w: Work, t: Db) {
    && NULL_OID < w.oid < t.next
    && (forall i, j :: 0 <= i < j < |rest| ==> rest[i] != rest[j])
    && (forall i | i in rest :: i in all && Ref(w.idr, i) < t.next)
    && (forall i | i in rest && i in sch.inverse :: ItemFit(sch, op, all, i, w, t))
  }

  lemma RestAfterPlain(sch: Schema, op: Op, all: seq<Item>, rest: seq<Item>, w: Work, t: Db)
    requires RestFit(sch, op, all, rest, w, t) && rest != [] && rest[0] !in sch.inverse && sch.Valid()
    ensures RestFit(sch, op, all, rest[1..], w, PlainStep(op, t, w.oid, rest[0], Ref(w.idr, rest[0])))
  {
    var now := PlainStep(op, t, w.oid, rest[0], Ref(w.idr, rest[0]));
    forall i | i in rest[1..]
      ensures i in all && Ref(w.idr, i) < now.next && i in rest
      ensures i in sch.inverse ==> ItemFit(sch, op, all, i, w, now)
    {
      if i in sch.inverse {
        assert ItemFit(sch, op, all, i, w, t);
        FitPlain(sch, CallOf(sch, op, i, w), t, now);
        DistantPlain(sch, CallOf(sch, op, i, w), t, now);
      }
    }
  }

  lemma FitPlain(sch: Schema, r: Call, t: Db, now: Db)
    requires sch.Valid() && Fit(sch, r, t) && now.colls == t.colls && now.next == t.next
    requires forall i, o | i in sch.inverse :: now.Read(i, o) == t.Read(i, o)
    ensures Fit(sch, r, now)
  {
  }

  lemma DistantPlain(sch: Schema, r: Call, t: Db, now: Db)
    requires sch.Valid() && r.item in sch.inverse && r.inv == sch.inverse[r.item]
    requires now.colls == t.colls && now.next == t.next
    requires forall i, o | i in sch.inverse :: now.Read(i, o) == t.Read(i, o)
    ensures Distant(sch, r, t) ==> Distant(sch, r, now)
  {
    assert r.inv in sch.inverse;
  }

  lemma RestAfterStep(sch: Schema, op: Op, all: seq<Item>, rest: seq<Item>, w: Work, t: Db,
                      fx: Effect, v: Work)
    requires sch.Valid() && Coherent(sch, t) && RestFit(sch, op, all, rest, w, t) && rest != []
    requires rest[0] in sch.inverse
    requires var q := CallOf(sch, op, rest[0], w); Routed(sch, q, Seen(q, t), fx)
    requires AppliedTo(w, fx, v) && forall k <- fx.writes :: k.item in {rest[0], sch.inverse[rest[0]]}
    ensures RestFit(sch, op, all, rest[1..], v, Settled(CallOf(sch, op, rest[0], w), t, fx))
  {
    hide Coherent, Fit, Settled, Routed;
    var q := CallOf(sch, op, rest[0], w);
    var now := Settled(q, t, fx);
    assert rest[0] in rest;
    assert ItemFit(sch, op, all, rest[0], w, t);
    NextGrows(sch, q, t, fx);
    forall i | i in rest[1..]
      ensures i in all && Ref(v.idr, i) == Ref(w.idr, i) < now.next
      ensures i in sch.inverse ==> ItemFit(sch, op, all, i, v, now)
    {
      assert i in rest && i != rest[0];
      if i == q.inv {
        NoSelfWrites(sch, q, t, fx);
      }
      assert Slot(w.oid, i) !in fx.writes;
      if i in sch.inverse {
        assert ItemFit(sch, op, all, i, w, t);
        RestItem(sch, op, all, i, w, t, fx, v, q);
      }
    }
  }

  /** Two attributes that get different collections still do after one of them was handled. */
  lemma StillUnshared(sch: Schema, op: Op, all: seq<Item>, i: Item, j: Item, w: Work, t: Db,
                      fx: Effect, v: Work, q: Call)
    requires sch.Valid() && Coherent(sch, t) && i in sch.inverse && i in all && i != q.item && q.item in all
    requires q.item in sch.inverse && q == CallOf(sch, op, q.item, w) && Routed(sch, q, Seen(q, t), fx)
    requires ItemFit(sch, op, all, q.item, w, t) && ItemFit(sch, op, all, i, w, t)
    requires AppliedTo(w, fx, v) && forall k <- fx.writes :: k.item in {q.item, q.inv}
    requires op != Remove && i in sch.many && j in all && j != i && j in sch.many && t.Live(Ref(w.idr, i))
    ensures Ref(v.idr, j) != Ref(w.idr, i)
  {
    if Ref(v.idr, j) == Ref(w.idr, i) {
      assert Ref(w.idr, j) != Ref(w.idr, i);
      assert Slot(w.oid, j) in fx.writes;
      HoldersKept(sch, q, t, fx, CallOf(sch, op, i, w), j, w.oid);
    }
  }

  lemma RestItemFit(sch: Schema, op: Op, all: seq<Item>, i: Item, w: Work, t: Db, fx: Effect, v: Work, q: Call)
    requires sch.Valid() && Coherent(sch, t) && i in sch.inverse && i in all && i != q.item && q.item in all
    requires q.item in sch.inverse && q == CallOf(sch, op, q.item, w) && Routed(sch, q, Seen(q, t), fx)
    requires ItemFit(sch, op, all, q.item, w, t) && ItemFit(sch, op, all, i, w, t)
    requires AppliedTo(w, fx, v) && forall k <- fx.writes :: k.item in {q.item, q.inv}
    ensures Ref(v.idr, i) == Ref(w.idr, i) && Fit(sch, CallOf(sch, op, i, v), Settled(q, t, fx))
    ensures sch.inverse[i] == i || sch.inverse[i] !in all || Distant(sch, CallOf(sch, op, i, v), Settled(q, t, fx))
    ensures i in sch.many ==> Settled(q, t, fx).Live(Ref(w.idr, i)) == t.Live(Ref(w.idr, i))
  {
    hide Routed, Coherent, Settled, Distant;
    var r := CallOf(sch, op, i, w);
    if i == q.inv {
      NoSelfWrites(sch, q, t, fx);
      OtherEndFit(sch, q, t, fx, r);
    } else {
      FitFrame(sch, q, t, fx, r);
      if Distant(sch, r, t) {
        DistantFrame(sch, q, t, fx, r);
      }
      if i in sch.many {
        TargetKept(sch, q, t, fx, r);
      }
    }
    assert Ref(v.idr, i) == Ref(w.idr, i);
  }

  lemma RestItem(sch: Schema, op: Op, all: seq<Item>, i: Item, w: Work, t: Db, fx: Effect, v: Work, q: Call)
    requires sch.Valid() && Coherent(sch, t) && i in sch.inverse && i in all && i != q.item && q.item in all
    requires q.item in sch.inverse && q == CallOf(sch, op, q.item, w) && Routed(sch, q, Seen(q, t), fx)
    requires ItemFit(sch, op, all, q.item, w, t) && ItemFit(sch, op, all, i, w, t)
    requires AppliedTo(w, fx, v) && forall k <- fx.writes :: k.item in {q.item, q.inv}
    ensures ItemFit(sch, op, all, i, v, Settled(q, t, fx))
  {
    hide Routed, Coherent, Settled, Fit, Distant, AppliedTo;
    RestItemFit(sch, op, all, i, w, t, fx, v, q);
    if op != Remove && i in sch.many {
      forall j | j in all && j != i && j in sch.many && t.Live(Ref(w.idr, i))
        ensures Ref(v.idr, j) != Ref(w.idr, i)
      {
        StillUnshared(sch, op, all, i, j, w, t, fx, v, q);
      }
    }
  }

  /** One attribute stored in the database that is settled attribute by attribute. */
  ghost predicate SettledStep(sch: Schema, op: Op, item: Item, w: Work, t: Db, v: Work, u: Db) {
    if item !in sch.inverse then v == w && u == PlainStep(op, t, w.oid, item, Ref(w.idr, item))
    else
      var q := CallOf(sch, op, item, w);
      exists fx :: Routed(sch, q, Seen(q, t), fx) && AppliedTo(w, fx, v) && u == Settled(q, t, fx)
  }

  lemma OneItem(sch: Schema, op: Op, t: Db, base: Db, w: Work, all: seq<Item>, rest: seq<Item>, v: Work)
    returns (u: Db)
    requires sch.Valid() && Coherent(sch, t) && Ahead(op, t, base, w, all, rest) && RestFit(sch, op, all, rest, w, t)
    requires rest != [] && ItemStep(sch, op, rest[0], w, v)
    ensures Coherent(sch, u) && Ahead(op, u, base, v, all, rest[1..]) && RestFit(sch, op, all, rest[1..], v, u)
    ensures SettledStep(sch, op, rest[0], w, t, v, u)
  {
    hide Coherent, Fit, Ahead, Settled, PlainStep, Ref;
    assert rest[0] in rest && rest[0] !in rest[1..];
    if rest[0] !in sch.inverse {
      PlainKeeps(sch, op, t, w.oid, rest[0], Ref(w.idr, rest[0]));
      AheadPlain(sch, op, t, base, w, all, rest);
      RestAfterPlain(sch, op, all, rest, w, t);
      u := PlainStep(op, t, w.oid, rest[0], Ref(w.idr, rest[0]));
    } else {
      var q := CallOf(sch, op, rest[0], w);
      var fx :| Routed(sch, q, w.db, fx) && AppliedTo(w, fx, v);
      assert ItemFit(sch, op, all, rest[0], w, t);
      AheadRouted(sch, op, t, base, w, all, rest, fx);
      if q.inv != q.item && q.inv in all {
        NoSelfWrites(sch, q, t, fx);
      }
      StepKeeps(sch, q, t, fx);
      RoutedKeys(sch, q, t, fx);
      AheadStep(sch, op, t, base, w, all, rest, fx, v);
      RestAfterStep(sch, op, all, rest, w, t, fx, v);
      u := Settled(q, t, fx);
    }
  }

  lemma {:induction false} ItemsKeep(sch: Schema, op: Op, t: Db, base: Db, w: Work, all: seq<Item>, rest: seq<Item>,
                                     v: Work)
    returns (u: Db)
    requires sch.Valid() && Coherent(sch, t) && Ahead(op, t, base, w, all, rest) && RestFit(sch, op, all, rest, w, t)
    requires ItemsStep(sch, op, rest, w, v)
    ensures Coherent(sch, u) && Ahead(op, u, base, v, all, []) && v.oid == w.oid
    decreases |rest|
  {
    hide Coherent, Ahead, RestFit, SettledStep;
    if rest == [] {
      return t;
    }
    var mid :| ItemStep(sch, op, rest[0], w, mid) && ItemsStep(sch, op, rest[1..], mid, v);
    u := OneItem(sch, op, t, base, w, all, rest, mid);
    u := ItemsKeep(sch, op, u, base, mid, all, rest[1..], v);
  }

  // ----- whole objects, in the order the back end does things

  /** An update runs the inverse routines and then writes the patched IDR; a create writes the
      IDR first; a removal takes the object away last. */
  ghost predicate Stored(sch: Schema, op: Op, items: seq<Item>, x: Oid, idr: map<Item, Oid>, db: Db, now: Db) {
    match op
    case Create =>
      exists v :: ItemsStep(sch, op, items, Work(db.(slots := db.slots + OfObject(x, idr)), x, idr), v) && now == v.db
    case Update =>
      exists v :: ItemsStep(sch, op, items, Work(db, x, idr), v)
          && now == v.db.(slots := v.db.slots + OfObject(x, v.idr))
    case Remove =>
      exists v :: ItemsStep(sch, op, items, Work(db, x, idr), v)
        && now == v.db.(slots := map s | s in v.db.slots && s.obj != x :: v.db.slots[s])
  }

  /** The IDR holds the attributes of the class, and the object has no other. */
  ghost predicate ClassOf(items: seq<Item>, x: Oid, idr: map<Item, Oid>, db: Db) {
    && (forall i :: i in idr <==> i in items)
    && (forall i | i !in items :: db.Read(i, x) == NULL_OID)
  }

  /** A coherent database, and an object whose references fit it. */
  ghost predicate Admissible(sch: Schema, op: Op, items: seq<Item>, x: Oid, idr: map<Item, Oid>, db: Db) {
    Coherent(sch, db) && ClassOf(items, x, idr, db) && ObjectFit(sch, op, items, Work(db, x, idr), db)
  }

  lemma SameReads(sch: Schema, u: Db, now: Db)
    requires sch.Valid() && Coherent(sch, u) && now.colls == u.colls && now.next == u.next
    requires forall i, o :: now.Read(i, o) == u.Read(i, o)
    requires forall k <- now.slots :: k.obj != NULL_OID
    ensures Coherent(sch, now)
  {
    assert now.Sane() by {
      assert forall k <- now.slots :: now.slots[k] == now.Read(k.item, k.obj) == u.Read(k.item, k.obj);
    }
    forall i: Item, o: Oid | i in sch.Colls()
      ensures now.Readable(now.Read(i, o))
    {
      assert u.Readable(u.Read(i, o));
    }
    forall i: Item, o: Oid, j: Item, p: Oid | i in sch.Colls() && j in sch.Colls()
      ensures Apart(now, i, o, j, p)
    {
      assert Apart(u, i, o, j, p);
    }
    forall a | a in sch.inverse
      ensures Linked(sch, now, a)
    {
      LinkedFrame(sch, u, now, a);
    }
  }

  lemma StartCreate(items: seq<Item>, x: Oid, idr: map<Item, Oid>, db: Db)
    requires db.Sane() && x != NULL_OID && forall i :: i in idr <==> i in items
    ensures Ahead(Create, db, db, Work(db.(slots := db.slots + OfObject(x, idr)), x, idr), items, items)
  {
  }

  lemma StartOther(op: Op, items: seq<Item>, x: Oid, idr: map<Item, Oid>, db: Db)
    requires db.Sane() && op != Create && ClassOf(items, x, idr, db)
    ensures Ahead(op, db, db, Work(db, x, idr), items, items)
  {
  }

  lemma CreateFit(sch: Schema, items: seq<Item>, x: Oid, idr: map<Item, Oid>, db: Db)
    requires ObjectFit(sch, Create, items, Work(db, x, idr), db)
    ensures RestFit(sch, Create, items, items, Work(db.(slots := db.slots + OfObject(x, idr)), x, idr), db)
  {
    hide Fit;
    forall i | i in items && i in sch.inverse
      ensures ItemFit(sch, Create, items, i, Work(db.(slots := db.slots + OfObject(x, idr)), x, idr), db)
    {
      assert ItemFit(sch, Create, items, i, Work(db, x, idr), db);
    }
  }

  lemma CreateReads(items: seq<Item>, base: Db, u: Db, v: Work)
    requires Ahead(Create, u, base, v, items, [])
    ensures v.db.colls == u.colls && v.db.next == u.next
    ensures forall i, o :: v.db.Read(i, o) == u.Read(i, o)
    ensures forall k <- v.db.slots :: k.obj != NULL_OID
  {
  }

  /** Storing a new object keeps every relationship of the schema. */
  lemma CreateKeeps(sch: Schema, items: seq<Item>, x: Oid, idr: map<Item, Oid>, db: Db, now: Db)
    requires sch.Valid() && Admissible(sch, Create, items, x, idr, db) && Stored(sch, Create, items, x, idr, db, now)
    ensures Coherent(sch, now)
  {
    hide Typed, Owned, Linked, ItemStep, ItemsStep, ItemFit, Ahead, RestFit;
    var w := Work(db.(slots := db.slots + OfObject(x, idr)), x, idr);
    var v :| ItemsStep(sch, Create, items, w, v) && now == v.db;
    StartCreate(items, x, idr, db);
    CreateFit(sch, items, x, idr, db);
    var u := ItemsKeep(sch, Create, db, db, w, items, items, v);
    CreateReads(items, db, u, v);
    SameReads(sch, u, now);
  }

  lemma Rewritten(w: Work, i: Item, o: Oid)
    ensures w.db.(slots := w.db.slots + OfObject(w.oid, w.idr)).Read(i, o) ==
      if o == w.oid && i in w.idr then w.idr[i] else w.db.Read(i, o)
  {
  }

  lemma UpdateReads(items: seq<Item>, base: Db, u: Db, v: Work, now: Db)
    requires Ahead(Update, u, base, v, items, []) && v.oid != NULL_OID && forall i | i in items :: i in v.idr
    requires now == v.db.(slots := v.db.slots + OfObject(v.oid, v.idr))
    ensures now.colls == u.colls && now.next == u.next
    ensures forall i, o :: now.Read(i, o) == u.Read(i, o)
    ensures forall k <- now.slots :: k.obj != NULL_OID
  {
    forall i, o
      ensures now.Read(i, o) == u.Read(i, o)
    {
      Rewritten(v, i, o);
    }
  }

  /** Storing an object again, with any IDR that fits, keeps every relationship of the schema. */
  lemma UpdateKeeps(sch: Schema, items: seq<Item>, x: Oid, idr: map<Item, Oid>, db: Db, now: Db)
    requires sch.Valid() && Admissible(sch, Update, items, x, idr, db) && Stored(sch, Update, items, x, idr, db, now)
    ensures Coherent(sch, now)
  {
    hide Typed, Owned, Linked, ItemStep, ItemFit, Ahead, ItemsStep;
    var w := Work(db, x, idr);
    var v :| ItemsStep(sch, Update, items, w, v) && now == v.db.(slots := v.db.slots + OfObject(x, v.idr));
    StartOther(Update, items, x, idr, db);
    assert RestFit(sch, Update, items, items, w, db);
    var u := ItemsKeep(sch, Update, db, db, w, items, items, v);
    KeysKept(sch, Update, items, w, v);
    UpdateReads(items, db, u, v, now);
    SameReads(sch, u, now);
  }

  /** The engine never takes an attribute out of the IDR. */
  lemma {:induction false} KeysKept(sch: Schema, op: Op, items: seq<Item>, w: Work, v: Work)
    requires ItemsStep(sch, op, items, w, v)
    ensures w.idr.Keys <= v.idr.Keys
    decreases |items|
  {
    if items != [] {
      var mid :| ItemStep(sch, op, items[0], w, mid) && ItemsStep(sch, op, items[1..], mid, v);
      KeysKept(sch, op, items[1..], mid, v);
    }
  }

  /** Where a removed object holds nothing, nothing holds it. */
  lemma NobodyRefers(sch: Schema, now: Db, x: Oid, a: Item, o: Oid)
    requires sch.Valid() && Coherent(sch, now) && x != NULL_OID && a in sch.inverse
    requires forall i :: now.Read(i, x) == NULL_OID
    ensures a !in sch.many ==> now.Read(a, o) != x
    ensures a in sch.many ==> x !in now.Members(a, o)
  {
    var b := sch.inverse[a];
    assert Linked(sch, now, a);
    assert now.Read(b, x) == NULL_OID && now.Read(a, NULL_OID) == NULL_OID;
    if o != NULL_OID {
      if a in sch.many && b in sch.many {
        assert AgreeNN(now, a, b, o, x);
      } else if a in sch.many {
        assert Agree1N(now, b, a, x, o);
      } else if b in sch.many {
        assert Agree1N(now, a, b, o, x);
      } else {
        assert Agree11(now, a, b, o, x);
      }
    }
  }

  lemma RemoveReads(items: seq<Item>, base: Db, u: Db, v: Work, now: Db)
    requires Ahead(Remove, u, base, v, items, []) && v.oid != NULL_OID
    requires now == v.db.(slots := map s | s in v.db.slots && s.obj != v.oid :: v.db.slots[s])
    ensures now.colls == u.colls && now.next == u.next
    ensures forall i, o :: now.Read(i, o) == u.Read(i, o)
    ensures forall i :: now.Read(i, v.oid) == NULL_OID
    ensures forall k <- now.slots :: k.obj != NULL_OID
  {
    forall i, o
      ensures now.Read(i, o) == u.Read(i, o)
    {
      assert now.Read(i, o) == if o == v.oid then NULL_OID else v.db.Read(i, o);
    }
  }

  /** Removing an object keeps every relationship of the schema, and no other end refers to it. */
  lemma RemoveKeeps(sch: Schema, items: seq<Item>, x: Oid, idr: map<Item, Oid>, db: Db, now: Db)
    requires sch.Valid() && Admissible(sch, Remove, items, x, idr, db) && Stored(sch, Remove, items, x, idr, db, now)
    ensures Coherent(sch, now)
    ensures forall a, o | a in sch.inverse :: a !in sch.many ==> now.Read(a, o) != x
    ensures forall a, o | a in sch.inverse :: a in sch.many ==> x !in now.Members(a, o)
  {
    hide Typed, Owned, Linked, ItemStep, ItemsStep, ItemFit, Ahead;
    var w := Work(db, x, idr);
    var v :| ItemsStep(sch, Remove, items, w, v)
      && now == v.db.(slots := map s | s in v.db.slots && s.obj != x :: v.db.slots[s]);
    StartOther(Remove, items, x, idr, db);
    assert RestFit(sch, Remove, items, items, w, db);
    var u := ItemsKeep(sch, Remove, db, db, w, items, items, v);
    RemoveReads(items, db, u, v, now);
    SameReads(sch, u, now);
    forall a, o | a in sch.inverse
      ensures (a !in sch.many ==> now.Read(a, o) != x) && (a in sch.many ==> x !in now.Members(a, o))
    {
      NobodyRefers(sch, now, x, a, o);
    }
  }

  // ----- collection writes in a whole schema

  ghost predicate WriteFit(sch: Schema, w: Write) {
    && w.item in sch.inverse && w.inv == sch.inverse[w.item] && w.item in sch.many
    && w.many == (w.inv in sch.many) && w.owner != NULL_OID
  }

  /** The invariant but for what the relationships say. */
  ghost predicate Shaped(sch: Schema, db: Db) {
    db.Sane() && Typed(db, sch.Colls()) && Owned(db, sch.Colls())
  }

  lemma PerformSlots(w: Write, ch: Change, db: Db, i: Item, o: Oid)
    requires i != w.inv
    ensures Perform(w, ch, db).Read(i, o) == db.Read(i, o)
  {
  }

  lemma PerformElems(w: Write, ch: Change, db: Db, c: Oid)
    requires c < db.next
    requires forall z :: db.Live(c) ==> db.Read(w.item, z) != c
    requires w.many && db.Live(c) ==> db.Read(w.inv, ch.elem) != c
    requires NULL_OID !in db.colls
    ensures Perform(w, ch, db).Elems(c) == db.Elems(c)
  {
  }

  lemma PerformMembers(sch: Schema, w: Write, ch: Change, db: Db, i: Item, o: Oid)
    requires sch.Valid() && WriteFit(sch, w) && Shaped(sch, db) && i in sch.Colls() && i != w.item && i != w.inv
    ensures Perform(w, ch, db).Members(i, o) == db.Members(i, o)
  {
    var c := db.Read(i, o);
    forall z
      ensures db.Live(c) ==> db.Read(w.item, z) != c
    {
      assert Apart(db, i, o, w.item, z);
    }
    assert w.many ==> Apart(db, i, o, w.inv, ch.elem);
    PerformSlots(w, ch, db, i, o);
    PerformElems(w, ch, db, c);
  }

  lemma PerformApart(w: Write, ch: Change, db: Db, i: Item, o: Oid, j: Item, p: Oid)
    requires db.Sane() && Apart(db, i, o, j, p) && w.item != w.inv
    requires w.many || (i != w.inv && j != w.inv)
    ensures Apart(Perform(w, ch, db), i, o, j, p)
  {
  }

  lemma PerformTyped(w: Write, ch: Change, db: Db, i: Item, o: Oid)
    requires db.Readable(db.Read(i, o)) && (w.many || i != w.inv)
    ensures Perform(w, ch, db).Readable(Perform(w, ch, db).Read(i, o))
  {
  }

  lemma PerformShaped(sch: Schema, w: Write, ch: Change, db: Db)
    requires sch.Valid() && WriteFit(sch, w) && Shaped(sch, db) && w.owner < db.next && ch.elem != NULL_OID
    ensures Shaped(sch, Perform(w, ch, db)) && w.owner < Perform(w, ch, db).next
  {
    var now := Perform(w, ch, db);
    PerformSane(w, ch, db);
    forall i: Item, o: Oid | i in sch.Colls()
      ensures now.Readable(now.Read(i, o))
    {
      PerformTyped(w, ch, db, i, o);
    }
    forall i: Item, o: Oid, j: Item, p: Oid | i in sch.Colls() && j in sch.Colls()
      ensures Apart(now, i, o, j, p)
    {
      PerformApart(w, ch, db, i, o, j, p);
    }
  }

  /** The relationships of other attributes, over a whole list of changes. */
  lemma {:induction false} PerformAllFrame(sch: Schema, w: Write, rest: seq<Change>, db: Db, a: Item)
    requires sch.Valid() && WriteFit(sch, w) && Shaped(sch, db) && w.owner < db.next
    requires forall ch | ch in rest :: ch.elem != NULL_OID
    requires a in sch.inverse && a != w.item && a != w.inv && Linked(sch, db, a)
    ensures Linked(sch, PerformAll(w, rest, db), a)
    decreases |rest|
  {
    if rest != [] {
      var now := Perform(w, rest[0], db);
      assert rest[0] in rest;
      PerformShaped(sch, w, rest[0], db);
      forall i, o | i in {a, sch.inverse[a]}
        ensures now.Read(i, o) == db.Read(i, o)
        ensures i in sch.many ==> now.Members(i, o) == db.Members(i, o)
      {
        PerformSlots(w, rest[0], db, i, o);
        if i in sch.many {
          PerformMembers(sch, w, rest[0], db, i, o);
        }
      }
      LinkedFrame(sch, db, now, a);
      PerformAllFrame(sch, w, rest[1..], now, a);
    }
  }

  lemma {:induction false} PerformAllShaped(sch: Schema, w: Write, rest: seq<Change>, db: Db)
    requires sch.Valid() && WriteFit(sch, w) && Shaped(sch, db) && w.owner < db.next
    requires forall ch | ch in rest :: ch.elem != NULL_OID
    ensures Shaped(sch, PerformAll(w, rest, db))
    decreases |rest|
  {
    if rest != [] {
      assert rest[0] in rest;
      PerformShaped(sch, w, rest[0], db);
      PerformAllShaped(sch, w, rest[1..], Perform(w, rest[0], db));
    }
  }

  /** Writing a collection keeps every relationship of the schema; where the inverse is a
      collection too, an element may be taken out only if it has no other owner. */
  lemma WriteKeeps(sch: Schema, w: Write, c: Oid, changes: seq<Change>, db: Db)
    requires sch.Valid() && Coherent(sch, db) && WriteFit(sch, w) && Writable(w, c, changes, db)
    requires w.many ==> SoleOwner(w, changes, db)
    ensures Coherent(sch, Written(w, c, changes, db))
  {
    var mid := WithElems(db, c, Edited(db.Elems(c), changes));
    var now := Written(w, c, changes, db);
    EditedOthers(w, c, changes, db, sch.Colls());
    PerformAllShaped(sch, w, changes, mid);
    assert Linked(sch, db, w.item);
    forall a | a in sch.inverse
      ensures Linked(sch, now, a)
    {
      if a == w.item || a == w.inv {
        if w.many {
          WrittenNKeeps(w, c, changes, db);
        } else {
          Written1Keeps(w, c, changes, db);
        }
        assert Linked(sch, now, w.item);
        LinkedBack(sch, now, w.item);
      } else {
        forall i, o | i in {a, sch.inverse[a]}
          ensures mid.Read(i, o) == db.Read(i, o)
          ensures i in sch.many ==> mid.Members(i, o) == db.Members(i, o)
        {
        }
        LinkedFrame(sch, db, mid, a);
        PerformAllFrame(sch, w, changes, mid, a);
      }
    }
  }

  lemma {:induction false} PerformAllMembers(sch: Schema, w: Write, rest: seq<Change>, db: Db, i: Item, o: Oid)
    requires sch.Valid() && WriteFit(sch, w) && Shaped(sch, db) && w.owner < db.next
    requires forall ch | ch in rest :: ch.elem != NULL_OID
    requires i in sch.Colls() && i != w.item && i != w.inv
    ensures PerformAll(w, rest, db).Members(i, o) == db.Members(i, o)
    decreases |rest|
  {
    if rest != [] {
      assert rest[0] in rest;
      PerformShaped(sch, w, rest[0], db);
      PerformMembers(sch, w, rest[0], db, i, o);
      PerformAllMembers(sch, w, rest[1..], Perform(w, rest[0], db), i, o);
    }
  }

  /** The collections of other attributes hold what they held. */
  lemma WrittenApart(sch: Schema, w: Write, c: Oid, changes: seq<Change>, db: Db, i: Item, o: Oid)
    requires sch.Valid() && Coherent(sch, db) && WriteFit(sch, w) && Writable(w, c, changes, db)
    requires i in sch.Colls() && i != w.item && i != w.inv
    ensures Written(w, c, changes, db).Members(i, o) == db.Members(i, o)
  {
    EditedOthers(w, c, changes, db, sch.Colls());
    PerformAllMembers(sch, w, changes, WithElems(db, c, Edited(db.Elems(c), changes)), i, o);
  }

  /** In a coherent database, every relationship may be written through. */
  lemma CoherentWrites(sch: Schema, w: Write, db: Db)
    requires sch.Valid() && Coherent(sch, db) && WriteFit(sch, w)
    ensures Consistent(w, db)
  {
    assert Linked(sch, db, w.item);
    assert w.item in sch.Colls() && (w.many ==> w.inv in sch.Colls());
  }

  // ----- runs

  datatype Event =
    | Object(op: Op, items: seq<Item>, oid: Oid, idr: map<Item, Oid>)
    | Collection(write: Write, coll: Oid, changes: seq<Change>)
    | NewOid
    | NewCollection(elems: set<Oid>)

  /** What the caller of one event has to respect. */
  ghost predicate Allowed(sch: Schema, e: Event, db: Db) {
    match e
    case Object(op, items, x, idr) =>
      ClassOf(items, x, idr, db) && ObjectFit(sch, op, items, Work(db, x, idr), db)
    case Collection(w, c, changes) =>
      WriteFit(sch, w) && Writable(w, c, changes, db) && (w.many ==> SoleOwner(w, changes, db))
    case NewOid => true
    case NewCollection(es) => NULL_OID !in es
  }

  /** The database before and after one event. */
  ghost predicate Happens(sch: Schema, e: Event, db: Db, now: Db) {
    match e
    case Object(op, items, x, idr) => Stored(sch, op, items, x, idr, db, now)
    case Collection(w, c, changes) => now == Written(w, c, changes, db)
    case NewOid => now == db.(next := db.next + 1)
    case NewCollection(es) => now == Db(db.slots, db.colls[db.next := Coll(es, false)], db.next + 1)
  }

  ghost predicate Run(sch: Schema, events: seq<Event>, states: seq<Db>) {
    && |states| == |events| + 1
    && states[0] == Db(map[], map[], 1)
    && forall i | 0 <= i < |events| ::
         Allowed(sch, events[i], states[i]) && Happens(sch, events[i], states[i], states[i + 1])
  }

  lemma NewKeeps(sch: Schema, es: set<Oid>, db: Db)
    requires sch.Valid() && Coherent(sch, db) && NULL_OID !in es
    ensures Coherent(sch, db.(next := db.next + 1))
    ensures Coherent(sch, Db(db.slots, db.colls[db.next := Coll(es, false)], db.next + 1))
  {
    forall now | now in {db.(next := db.next + 1), Db(db.slots, db.colls[db.next := Coll(es, false)], db.next + 1)}
      ensures Coherent(sch, now)
    {
      forall i: Item, o: Oid
        ensures now.Read(i, o) == db.Read(i, o) && db.Read(i, o) < db.next && now.Members(i, o) == db.Members(i, o)
      {
      }
      forall i: Item, o: Oid | i in sch.Colls()
        ensures now.Readable(now.Read(i, o))
      {
        assert db.Readable(db.Read(i, o));
      }
      forall i: Item, o: Oid, j: Item, p: Oid | i in sch.Colls() && j in sch.Colls()
        ensures Apart(now, i, o, j, p)
      {
        assert Apart(db, i, o, j, p);
      }
      forall a | a in sch.inverse
        ensures Linked(sch, now, a)
      {
        LinkedFrame(sch, db, now, a);
      }
    }
  }

  lemma EventKeeps(sch: Schema, e: Event, db: Db, now: Db)
    requires sch.Valid() && Coherent(sch, db) && Allowed(sch, e, db) && Happens(sch, e, db, now)
    ensures Coherent(sch, now)
  {
    match e
    case Object(op, items, x, idr) =>
      match op {
        case Create => CreateKeeps(sch, items, x, idr, db, now);
        case Update => UpdateKeeps(sch, items, x, idr, db, now);
        case Remove => RemoveKeeps(sch, items, x, idr, db, now);
      }
    case Collection(w, c, changes) => WriteKeeps(sch, w, c, changes, db);
    case NewOid => NewKeeps(sch, {}, db);
    case NewCollection(es) => NewKeeps(sch, es, db);
  }

  /** Referential integrity over every run, for every relationship of the schema. */
  lemma {:induction false} RunKeeps(sch: Schema, events: seq<Event>, states: seq<Db>, n: nat)
    requires sch.Valid() && Run(sch, events, states) && n < |states|
    ensures Coherent(sch, states[n])
  {
    if n == 0 {
      EmptyCoherent(sch);
    } else {
      RunKeeps(sch, events, states, n - 1);
      EventKeeps(sch, events[n - 1], states[n - 1], states[n]);
    }
  }

  lemma EmptyCoherent(sch: Schema)
    requires sch.Valid()
    ensures Coherent(sch, Db(map[], map[], 1))
  {
  }
}
