/** Special updates: those that change nothing, and those of a class that holds both ends of
    the relationship. */
module SameClass {
  import opened Store
  import opened InverseSpec
  import opened InverseLaws
  import opened InverseLawsNN
  import opened InverseDriver
  import opened InverseFrame
  import opened InverseRuns
  import opened ClassFrame

  // ----- an update whose reference is the stored one

  lemma Idle11(q: Call, db: Db)
    requires Sym11(db, q.item, q.inv) && q.op == Update && q.obj != NULL_OID && q.target == db.Read(q.item, q.obj)
    ensures forall k <- Effect11(q, db).writes :: Effect11(q, db).writes[k] == db.Read(k.item, k.obj)
  {
    if q.target != NULL_OID {
      assert Agree11(db, q.item, q.inv, q.obj, q.target);
    }
  }

  lemma Idle1N(q: Call, db: Db)
    requires Sym1N(db, q.item, q.inv) && q.op == Update && q.obj != NULL_OID && q.target == db.Read(q.item, q.obj)
    ensures Effect1N(q, db) == Effect(map[], db.colls, db.next)
  {
    if q.target != NULL_OID {
      assert Agree1N(db, q.item, q.inv, q.obj, q.target);
      var c := db.Read(q.inv, q.target);
      assert db.colls[c].elems + {q.obj} == db.colls[c].elems;
      assert Add(db.colls, {c}, q.obj) == db.colls;
    }
  }

  lemma IdleN1(q: Call, db: Db)
    requires db.Sane() && Sym1N(db, q.inv, q.item) && q.op == Update && q.obj != NULL_OID
    requires q.target == db.Read(q.item, q.obj)
    ensures EffectN1(q, db) == Effect(map[], db.colls, db.next)
  {
    assert Abandoned(q, db) == {};
    forall e | e in db.Elems(q.target)
      ensures Released(q, db).Read(q.inv, e) == q.obj
    {
      MemberPoints(db, q.inv, q.item, e, q.obj);
    }
    assert Strangers(Released(q, db), q.inv, db.Elems(q.target), q.obj) == {};
    assert OwnersOf(Released(q, db), q.inv, {}) == {};
  }

  lemma {:induction false} EnumerationSize(made: seq<Oid>, es: set<Oid>)
    requires Enumerates(made, es)
    ensures |made| == |es|
  {
    if made == [] {
      assert es == {};
    } else {
      var e, rest := made[|made| - 1], made[..|made| - 1];
      assert made == rest + [e];
      EnumerationSize(rest, es - {e});
    }
  }

  lemma IdleNN(q: Call, db: Db, made: seq<Oid>)
    requires q.op == Update && q.target == db.Read(q.item, q.obj)
    requires Enumerates(made, Homeless(db, q.inv, Joined(q, db)))
    ensures EffectNN(q, db, made) == Effect(map[], db.colls, db.next)
  {
    assert Joined(q, db) == {} && Homeless(db, q.inv, {}) == {};
    EnumerationSize(made, {});
    assert InverseColls(db, q.inv, {}) == {};
    assert Add(db.colls, {}, q.obj) == db.colls;
    assert Withdrawn(q, db) == db.colls;
  }

  /** Storing the reference the database already holds changes no slot and no collection,
      whatever the cardinalities. */
  lemma IdleKeepsAll(sch: Schema, q: Call, db: Db, fx: Effect)
    requires sch.Valid() && Coherent(sch, db) && q.item in sch.inverse && q.inv == sch.inverse[q.item]
    requires q.op == Update && q.obj != NULL_OID && q.target == db.Read(q.item, q.obj) && Routed(sch, q, db, fx)
    ensures fx.colls == db.colls && fx.next == db.next
    ensures forall k <- fx.writes :: fx.writes[k] == db.Read(k.item, k.obj)
    ensures forall i, o :: Settled(q, db, fx).Read(i, o) == db.Read(i, o)
  {
    hide EffectNN, Effect1N, EffectN1, SymNN, Sym1N, Sym11, Homeless, Joined;
    assert Linked(sch, db, q.item);
    if q.item in sch.many && q.inv in sch.many {
      var made :| (q.op != Remove ==> Enumerates(made, Homeless(db, q.inv, Joined(q, db))))
          && fx == EffectNN(q, db, made);
      IdleNN(q, db, made);
    } else if q.item in sch.many {
      IdleN1(q, db);
    } else if q.inv in sch.many {
      Idle1N(q, db);
    } else {
      Idle11(q, db);
    }
  }

  // ----- both ends in the class: the attributes are handled one after the other, and the
  // database keeps the object's old reference until the final write

  /** An update of an object of a class with the attributes `items`, in that order. */
  ghost predicate Updated(sch: Schema, items: seq<Item>, x: Oid, idr: map<Item, Oid>, db: Db, now: Db) {
    Stored(sch, Update, items, x, idr, db, now)
  }

  /** `first` is declared before `second`, and no attribute twice. */
  ghost predicate Declared(items: seq<Item>, first: Item, second: Item, p: nat, s: nat) {
    && p < s < |items| && items[p] == first && items[s] == second
    && forall i, j :: 0 <= i < j < |items| ==> items[i] != items[j]
  }

  /** Of the two ends `a` and `b` only `a` gets a new reference; the other attributes may get any. */
  ghost predicate OnlyMoves(sch: Schema, a: Item, b: Item, x: Oid, idr: map<Item, Oid>, db: Db) {
    && Pair(sch, a, b) && a in idr && b in idr && idr[b] == db.Read(b, x) && x != NULL_OID
  }

  /** The final value of a slot, given the work before the last of the two routines and its effect. */
  function FinalRead(mid: Work, gx: Effect, i: Item, o: Oid): Oid {
    if Slot(o, i) in gx.writes then gx.writes[Slot(o, i)]
    else if o == mid.oid && i in mid.idr then mid.idr[i]
    else mid.db.Read(i, o)
  }

  lemma LastWrite(mid: Work, gx: Effect, v: Work, i: Item, o: Oid)
    requires AppliedTo(mid, gx, v)
    ensures (if o == v.oid && i in v.idr then v.idr[i] else v.db.Read(i, o)) == FinalRead(mid, gx, i, o)
  {
  }

  /** What the two ends of the pair go through: `w` before the first of the two routines, `mid` before
      the second, whose effect is `gx`; in between and around, attributes of other relationships. */
  ghost predicate Through(sch: Schema, first: Item, second: Item, x: Oid, idr: map<Item, Oid>, db: Db, now: Db,
                          w: Work, fx: Effect, mid0: Work, mid: Work, gx: Effect)
    requires first in sch.inverse && second in sch.inverse
  {
    && SamePair(first, second, Work(db, x, idr), w) && w.oid == x
    && Routed(sch, CallOf(sch, Update, first, w), w.db, fx) && AppliedTo(w, fx, mid0)
    && SamePair(first, second, mid0, mid)
    && Routed(sch, CallOf(sch, Update, second, mid), mid.db, gx)
    && forall i, o | i in {first, second} :: now.Read(i, o) == FinalRead(mid, gx, i, o)
  }

  lemma NotAround(items: seq<Item>, first: Item, second: Item, p: nat, s: nat)
    requires Declared(items, first, second, p, s)
    ensures first !in items[..p] && second !in items[..p]
    ensures first !in items[p + 1..s] && second !in items[p + 1..s]
    ensures first !in items[s + 1..] && second !in items[s + 1..]
  {
  }

  lemma PairBack(sch: Schema, a: Item, b: Item)
    requires Pair(sch, a, b)
    ensures Pair(sch, b, a)
  {
  }

  lemma WrittenBack(first: Item, second: Item, mid: Work, gx: Effect, v: Work, end: Work, now: Db)
    requires AppliedTo(mid, gx, v) && SamePair(first, second, v, end)
    requires now == end.db.(slots := end.db.slots + OfObject(end.oid, end.idr))
    ensures forall i, o | i in {first, second} :: now.Read(i, o) == FinalRead(mid, gx, i, o)
  {
    forall i, o | i in {first, second} ensures now.Read(i, o) == FinalRead(mid, gx, i, o) {
      LastWrite(mid, gx, v, i, o);
      Rewritten(end, i, o);
      assert SameEnd(i, v, end);
    }
  }

  /** The final database, slot by slot, from the effects of the two routines; `g` are the stages. */
  lemma TwoSteps(sch: Schema, items: seq<Item>, p: nat, s: nat, first: Item, second: Item, x: Oid,
                 idr: map<Item, Oid>, db: Db, now: Db) returns (g: Stages, fx: Effect, gx: Effect)
    requires Pair(sch, first, second) && Declared(items, first, second, p, s) && Updated(sch, items, x, idr, db, now)
    ensures second in sch.inverse
    ensures Through(sch, first, second, x, idr, db, now, g.before, fx, g.first, g.between, gx)
    ensures ItemsStep(sch, Update, items[..p], Work(db, x, idr), g.before)
    ensures ItemsStep(sch, Update, items[p + 1..s], g.first, g.between)
    ensures ItemsStep(sch, Update, items[s + 1..], g.second, g.end)
    ensures AppliedTo(g.between, gx, g.second) && now.colls == g.end.db.colls && now.next == g.end.db.next
  {
    var w := Work(db, x, idr);
    var v :| ItemsStep(sch, Update, items, w, v) && now == v.db.(slots := v.db.slots + OfObject(x, v.idr));
    g := Staged(sch, items, p, s, w, v);
    PairBack(sch, first, second);
    NotAround(items, first, second, p, s);
    fx :| Routed(sch, CallOf(sch, Update, first, g.before), g.before.db, fx) && AppliedTo(g.before, fx, g.first);
    gx :| Routed(sch, CallOf(sch, Update, second, g.between), g.between.db, gx) && AppliedTo(g.between, gx, g.second);
    hide Routed, AppliedTo, SamePair, ItemsStep, FinalRead;
    Others(sch, first, second, items[..p], w, g.before);
    Others(sch, first, second, items[p + 1..s], g.first, g.between);
    Others(sch, first, second, items[s + 1..], g.second, g.end);
    OidsKept(sch, first, second, w, g, fx, gx);
    WrittenBack(first, second, g.between, gx, g.second, g.end, now);
  }

  lemma OidsKept(sch: Schema, first: Item, second: Item, w: Work, g: Stages, fx: Effect, gx: Effect)
    requires SamePair(first, second, w, g.before) && AppliedTo(g.before, fx, g.first)
    requires SamePair(first, second, g.first, g.between) && AppliedTo(g.between, gx, g.second)
    requires SamePair(first, second, g.second, g.end)
    ensures g.before.oid == w.oid && g.end.oid == w.oid
  {
  }

  // ----- 1:1

  lemma SameSym11(t: Db, now: Db, a: Item, b: Item)
    requires Sym11(t, a, b) && forall i, o | i in {a, b} :: now.Read(i, o) == t.Read(i, o)
    ensures Sym11(now, a, b)
  {
    forall u: Oid, v: Oid | u != NULL_OID && v != NULL_OID ensures Agree11(now, a, b, u, v) {
      assert Agree11(t, a, b, u, v);
    }
  }

  lemma PairSym11(a: Item, b: Item, w: Work, v: Work)
    requires Sym11(w.db, a, b) && SamePair(a, b, w, v)
    ensures Sym11(v.db, a, b)
  {
    SameSym11(w.db, v.db, a, b);
  }

  /** What a routine writes, slot by slot. */
  lemma Wrote11(q: Call, db: Db, o: Oid)
    requires q.op == Update && q.item != q.inv
    ensures var w, cur := Effect11(q, db).writes, db.Read(q.inv, q.target);
            && (Slot(o, q.item) in w <==> q.target != NULL_OID && cur != NULL_OID && cur != q.obj && o == cur)
            && (Slot(o, q.item) in w ==> w[Slot(o, q.item)] == NULL_OID)
    ensures var w, was := Effect11(q, db).writes, db.Read(q.item, q.obj);
            && (Slot(o, q.inv) in w <==>
                  || (q.target != NULL_OID && o == q.target)
                  || (was != NULL_OID && was != q.target && o == was && db.Read(q.inv, was) == q.obj))
            && (Slot(o, q.inv) in w ==>
                  w[Slot(o, q.inv)] == if q.target != NULL_OID && o == q.target then q.obj else NULL_OID)
  {
  }

  /** The slots of the end declared first, and of the other, after the first routine, which stores `y`
      for `x`; the slot of `x` itself is written later. */
  function FirstA(db: Db, a: Item, b: Item, x: Oid, y: Oid, o: Oid): Oid {
    var cur := db.Read(b, y);
    if y != NULL_OID && cur != NULL_OID && cur != x && o == cur then NULL_OID else db.Read(a, o)
  }

  function FirstB(db: Db, a: Item, b: Item, x: Oid, y: Oid, o: Oid): Oid {
    var was := db.Read(a, x);
    if y != NULL_OID && o == y then x
    else if was != NULL_OID && was != y && o == was && db.Read(b, was) == x then NULL_OID
    else db.Read(b, o)
  }

  /** The reference for the second end, `z` as given, when its routine comes to it: the first routine
      has written it over if it reached `x` itself. */
  function GivenBack(db: Db, a: Item, x: Oid, y: Oid, z: Oid): Oid {
    if y == x then x else if db.Read(a, x) == x then NULL_OID else z
  }

  /** The slots at the end. */
  function EndA(db: Db, a: Item, b: Item, x: Oid, y: Oid, z: Oid, o: Oid): Oid {
    var z1, was := GivenBack(db, a, x, y, z), FirstB(db, a, b, x, y, x);
    if z1 != NULL_OID && o == z1 then x
    else if was != NULL_OID && was != z1 && o == was && FirstA(db, a, b, x, y, was) == x then NULL_OID
    else if o == x then y else FirstA(db, a, b, x, y, o)
  }

  function EndB(db: Db, a: Item, b: Item, x: Oid, y: Oid, z: Oid, o: Oid): Oid {
    var z1 := GivenBack(db, a, x, y, z);
    var cur := FirstA(db, a, b, x, y, z1);
    if z1 != NULL_OID && cur != NULL_OID && cur != x && o == cur then NULL_OID
    else if o == x then z1 else FirstB(db, a, b, x, y, o)
  }

  lemma Begun11(a: Item, b: Item, w: Work, first: Work)
    requires a != b && a in w.idr && b in w.idr && w.oid != NULL_OID && Sym11(w.db, a, b)
    requires AppliedTo(w, Effect11(Call(Update, a, b, w.oid, w.idr[a]), w.db), first)
    ensures first.oid == w.oid && a in first.idr && b in first.idr && first.idr[a] == w.idr[a]
    ensures first.idr[b] == GivenBack(w.db, a, w.oid, w.idr[a], w.idr[b])
    ensures forall o :: first.db.Read(a, o) == FirstA(w.db, a, b, w.oid, w.idr[a], o)
    ensures forall o :: first.db.Read(b, o) == FirstB(w.db, a, b, w.oid, w.idr[a], o)
  {
    var q := Call(Update, a, b, w.oid, w.idr[a]);
    assert Agree11(w.db, a, b, w.oid, w.oid);
    hide Effect11, Sym11;
    Wrote11(q, w.db, w.oid);
    forall o
      ensures first.db.Read(a, o) == FirstA(w.db, a, b, w.oid, w.idr[a], o)
      ensures first.db.Read(b, o) == FirstB(w.db, a, b, w.oid, w.idr[a], o)
    {
      Wrote11(q, w.db, o);
    }
  }

  lemma Ended11(a: Item, b: Item, db: Db, x: Oid, y: Oid, z: Oid, mid: Work, gx: Effect, o: Oid)
    requires a != b && a in mid.idr && b in mid.idr && mid.oid == x && mid.idr[a] == y
    requires mid.idr[b] == GivenBack(db, a, x, y, z)
    requires forall u :: mid.db.Read(a, u) == FirstA(db, a, b, x, y, u)
    requires forall u :: mid.db.Read(b, u) == FirstB(db, a, b, x, y, u)
    requires gx == Effect11(Call(Update, b, a, x, mid.idr[b]), mid.db)
    ensures FinalRead(mid, gx, a, o) == EndA(db, a, b, x, y, z, o)
    ensures FinalRead(mid, gx, b, o) == EndB(db, a, b, x, y, z, o)
  {
    hide Effect11, FirstA, FirstB, GivenBack;
    Wrote11(Call(Update, b, a, x, mid.idr[b]), mid.db, o);
  }

  /** The object is related to itself by the second end alone, which leaves the partner it is given for
      the first with nobody to point to. */
  predicate Torn11(db: Db, a: Item, x: Oid, y: Oid, z: Oid) {
    z == x && db.Read(a, x) != x && y != NULL_OID && y != x && y != db.Read(a, x)
  }

  lemma Kept11(db: Db, a: Item, b: Item, x: Oid, y: Oid, z: Oid, u: Oid, v: Oid)
    requires Sym11(db, a, b) && x != NULL_OID && u != NULL_OID && v != NULL_OID && !Torn11(db, a, x, y, z)
    ensures EndA(db, a, b, x, y, z, u) == v <==> EndB(db, a, b, x, y, z, v) == u
  {
    var z1 := GivenBack(db, a, x, y, z);
    var p, q := db.Read(b, y), db.Read(a, z1);
    assert Agree11(db, a, b, u, v) && Agree11(db, a, b, x, x) && Agree11(db, a, b, x, v) && Agree11(db, a, b, u, x);
    assert db.Read(a, x) != NULL_OID ==> Agree11(db, a, b, x, db.Read(a, x));
    assert db.Read(b, x) != NULL_OID ==> Agree11(db, a, b, db.Read(b, x), x);
    assert y != NULL_OID && p != NULL_OID ==> Agree11(db, a, b, p, y);
    assert z1 != NULL_OID && q != NULL_OID ==> Agree11(db, a, b, z1, q);
  }

  /** What becomes of the object's own slots, and of the partner in the bad case. */
  lemma Own11(db: Db, a: Item, b: Item, x: Oid, y: Oid, z: Oid)
    requires Sym11(db, a, b) && x != NULL_OID
    ensures EndA(db, a, b, x, y, z, x) == if y == x || (z == x && db.Read(a, x) != x) then x else y
    ensures EndB(db, a, b, x, y, z, x) == if y == x then x else if db.Read(a, x) == x then NULL_OID else z
    ensures Torn11(db, a, x, y, z) ==> EndB(db, a, b, x, y, z, y) == x
  {
    assert Agree11(db, a, b, x, x);
    assert db.Read(a, x) != NULL_OID ==> Agree11(db, a, b, x, db.Read(a, x));
    assert db.Read(b, x) != NULL_OID ==> Agree11(db, a, b, db.Read(b, x), x);
    assert y != NULL_OID && db.Read(b, y) != NULL_OID ==> Agree11(db, a, b, db.Read(b, y), y);
  }

  lemma Stages11(sch: Schema, a: Item, b: Item, w: Work, fx: Effect, first: Work, mid: Work,
                 gx: Effect, now: Db)
    requires Pair(sch, a, b) && b in sch.inverse && a !in sch.many && b !in sch.many
    requires a in w.idr && b in w.idr && w.oid != NULL_OID && Sym11(w.db, a, b)
    requires Routed(sch, CallOf(sch, Update, a, w), w.db, fx) && AppliedTo(w, fx, first) && SamePair(a, b, first, mid)
    requires Routed(sch, CallOf(sch, Update, b, mid), mid.db, gx)
    requires forall i, o | i in {a, b} :: now.Read(i, o) == FinalRead(mid, gx, i, o)
    ensures forall o :: now.Read(a, o) == EndA(w.db, a, b, w.oid, w.idr[a], w.idr[b], o)
    ensures forall o :: now.Read(b, o) == EndB(w.db, a, b, w.oid, w.idr[a], w.idr[b], o)
  {
    PairBack(sch, a, b);
    hide Effect11, Sym11, FinalRead, FirstA, FirstB, EndA, EndB, GivenBack, AppliedTo;
    Begun11(a, b, w, first);
    assert SameEnd(a, first, mid) && SameEnd(b, first, mid);
    forall o
      ensures now.Read(a, o) == EndA(w.db, a, b, w.oid, w.idr[a], w.idr[b], o)
      ensures now.Read(b, o) == EndB(w.db, a, b, w.oid, w.idr[a], w.idr[b], o)
    {
      Ended11(a, b, w.db, w.oid, w.idr[a], w.idr[b], mid, gx, o);
    }
  }

  /** 1:1 in one class, `a` declared before `b`, and any two references given for them: the relationship
      survives unless the second is the object itself and the first is somebody new; and what is stored
      is what was given, unless a routine that reaches the object itself writes it over. */
  lemma BothEnds11(sch: Schema, items: seq<Item>, p: nat, s: nat, a: Item, b: Item, x: Oid,
                   idr: map<Item, Oid>, db: Db, now: Db)
    requires Pair(sch, a, b) && a !in sch.many && b !in sch.many && a in idr && b in idr && x != NULL_OID
    requires Sym11(db, a, b) && Declared(items, a, b, p, s) && Updated(sch, items, x, idr, db, now)
    ensures Sym11(now, a, b) <==> !Torn11(db, a, x, idr[a], idr[b])
    ensures now.Read(a, x) == if idr[a] == x || (idr[b] == x && db.Read(a, x) != x) then x else idr[a]
    ensures now.Read(b, x) == if idr[a] == x then x else if db.Read(a, x) == x then NULL_OID else idr[b]
  {
    var g, fx, gx := TwoSteps(sch, items, p, s, a, b, x, idr, db, now);
    var w, y, z := g.before, idr[a], idr[b];
    PairSym11(a, b, Work(db, x, idr), w);
    assert w.db.Read(a, x) == db.Read(a, x) && w.idr[a] == y && w.idr[b] == z && w.oid == x by {
      assert SameEnd(a, Work(db, x, idr), w) && SameEnd(b, Work(db, x, idr), w);
    }
    hide FinalRead, AppliedTo, Effect11, EndA, EndB, Declared, Updated, SameEnd;
    Stages11(sch, a, b, w, fx, g.first, g.between, gx, now);
    Own11(w.db, a, b, x, y, z);
    if Torn11(w.db, a, x, y, z) {
      assert !Agree11(now, a, b, x, y);
    } else {
      forall u: Oid, v: Oid | u != NULL_OID && v != NULL_OID ensures Agree11(now, a, b, u, v) {
        Kept11(w.db, a, b, x, y, z, u, v);
      }
    }
  }

  /** Where one end moves only, in either order: the relationship always survives; the reference given is
      stored unless the end that moves is declared second and takes the object away from itself. */
  lemma OneEnd11(sch: Schema, items: seq<Item>, p: nat, s: nat, a: Item, b: Item, x: Oid,
                 idr: map<Item, Oid>, db: Db, now: Db)
    requires OnlyMoves(sch, a, b, x, idr, db) && a !in sch.many && b !in sch.many && Sym11(db, a, b)
    requires (Declared(items, a, b, p, s) || Declared(items, b, a, p, s)) && Updated(sch, items, x, idr, db, now)
    ensures Sym11(now, a, b)
    ensures now.Read(a, x) == if items[p] == a || db.Read(a, x) != x then idr[a] else x
    ensures now.Read(a, x) == idr[a] <==> items[p] == a || db.Read(a, x) != x || idr[a] == x
  {
    assert Agree11(db, a, b, x, x);
    hide Updated, Sym11;
    if items[p] == a {
      BothEnds11(sch, items, p, s, a, b, x, idr, db, now);
    } else {
      PairBack(sch, a, b);
      Turned11(db, a, b);
      BothEnds11(sch, items, p, s, b, a, x, idr, db, now);
      Turned11(now, b, a);
    }
  }

  lemma Turned11(db: Db, a: Item, b: Item)
    ensures Sym11(db, a, b) ==> Sym11(db, b, a)
  {
    forall u: Oid, v: Oid | Sym11(db, a, b) && u != NULL_OID && v != NULL_OID ensures Agree11(db, b, a, u, v) {
      assert Agree11(db, a, b, v, u);
    }
  }
}
