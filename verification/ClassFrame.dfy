/** The attributes of a class that have nothing to do with one relationship: storing them leaves
    both ends of it alone. */
module ClassFrame {
  import opened Store
  import opened InverseSpec
  import opened InverseLaws
  import opened InverseLawsNN
  import opened InverseDriver
  import opened InverseFrame
  import opened InverseRuns
  import opened ObjectStore

  /** An attribute, in the database and in the IDR. */
  ghost predicate SameEnd(i: Item, w: Work, v: Work) {
    && (i in v.idr <==> i in w.idr) && (i in w.idr ==> v.idr[i] == w.idr[i])
    && forall o :: v.db.Read(i, o) == w.db.Read(i, o)
  }

  /** The two ends `a` and `b` of a relationship. */
  ghost predicate SamePair(a: Item, b: Item, w: Work, v: Work) {
    v.oid == w.oid && SameEnd(a, w, v) && SameEnd(b, w, v)
  }

  /** The collections that attribute `b` holds. */
  ghost predicate SameHomes(b: Item, w: Work, v: Work) {
    forall o :: var c := w.db.Read(b, o); v.db.Live(c) == w.db.Live(c) && v.db.Elems(c) == w.db.Elems(c)
  }

  /** The database between two attributes: whatever has been written so far, no collection is
      held by two slots. */
  ghost predicate Sound(sch: Schema, w: Work) {
    && w.db.Sane() && NULL_OID < w.oid < w.db.next
    && Typed(w.db, sch.Colls()) && Owned(w.db, sch.Colls())
  }

  ghost predicate Pair(sch: Schema, a: Item, b: Item) {
    sch.Valid() && a in sch.inverse && sch.inverse[a] == b && a != b
  }

  // ----- one attribute

  lemma RoutedItems(sch: Schema, q: Call, db: Db, fx: Effect)
    requires q.op == Update && Routed(sch, q, db, fx)
    ensures forall k <- fx.writes :: k.item in {q.item, q.inv}
  {
    if q.item in sch.many && q.inv in sch.many {
      var made :| (q.op != Remove ==> Enumerates(made, Homeless(db, q.inv, Joined(q, db))))
          && fx == EffectNN(q, db, made);
      MadeSlotsKeys(made, db.next, q.inv);
    }
  }

  lemma OtherItem(sch: Schema, a: Item, b: Item, j: Item, w: Work, v: Work)
    requires Pair(sch, a, b) && j !in {a, b} && ItemStep(sch, Update, j, w, v)
    ensures SamePair(a, b, w, v) && w.idr.Keys <= v.idr.Keys
  {
    if j in sch.inverse {
      var q := CallOf(sch, Update, j, w);
      var fx :| Routed(sch, q, w.db, fx) && AppliedTo(w, fx, v);
      RoutedItems(sch, q, w.db, fx);
      Elsewhere(sch, a, b, j);
      forall i, o | i in {a, b} ensures v.db.Read(i, o) == w.db.Read(i, o) && Slot(o, i) !in fx.writes {
      }
    }
  }

  lemma Elsewhere(sch: Schema, a: Item, b: Item, j: Item)
    requires Pair(sch, a, b) && j in sch.inverse && j !in {a, b}
    ensures sch.inverse[j] !in {a, b}
  {
    assert sch.inverse[sch.inverse[j]] == j && sch.inverse[b] == a;
  }

  /** The value of a collection slot after a routine: as it was, null, or a collection just made. */
  lemma CollSlot(sch: Schema, q: Call, db: Db, fx: Effect, i: Item, o: Oid)
    requires sch.Valid() && q.op == Update && q.item in sch.inverse && q.inv == sch.inverse[q.item] && i in sch.Colls()
    requires Routed(sch, q, db, fx) && db.Sane()
    ensures Slot(o, i) in fx.writes ==>
              var c := fx.writes[Slot(o, i)];
              c == NULL_OID || (c in fx.colls && db.next <= c)
  {
    if q.item in sch.many && q.inv in sch.many {
      var made :| (q.op != Remove ==> Enumerates(made, Homeless(db, q.inv, Joined(q, db))))
          && fx == EffectNN(q, db, made);
      MadeSlotsKeys(made, db.next, q.inv);
    }
  }

  lemma MadeOnceNN(made: seq<Oid>, base: Oid, inv: Item, o: Oid, p: Oid)
    requires (forall i, j :: 0 <= i < j < |made| ==> made[i] != made[j]) && o in made && p in made
    ensures var w := MadeSlots(made, base, inv);
            Slot(o, inv) in w && Slot(p, inv) in w && (w[Slot(o, inv)] == w[Slot(p, inv)] ==> o == p)
  {
    hide MadeSlots;
    var k :| 0 <= k < |made| && made[k] == o;
    var l :| 0 <= l < |made| && made[l] == p;
    MadeDistinct(made, base, inv, k);
    MadeDistinct(made, base, inv, l);
  }

  /** Two collection slots are never given the same collection. */
  lemma MadeOnce(sch: Schema, q: Call, db: Db, fx: Effect, i: Item, o: Oid, j: Item, p: Oid)
    requires sch.Valid() && q.op == Update && q.item in sch.inverse && q.inv == sch.inverse[q.item]
    requires Routed(sch, q, db, fx)
    requires i in sch.Colls() && j in sch.Colls() && Slot(o, i) in fx.writes && Slot(p, j) in fx.writes
    requires fx.writes[Slot(o, i)] == fx.writes[Slot(p, j)] != NULL_OID
    ensures i == j && o == p
  {
    hide Homeless, Joined, MadeSlots, Add, Withdrawn;
    if q.item in sch.many && q.inv in sch.many {
      var made :| (q.op != Remove ==> Enumerates(made, Homeless(db, q.inv, Joined(q, db))))
          && fx == EffectNN(q, db, made);
      MadeSlotsKeys(made, db.next, q.inv);
      MadeOnceNN(made, db.next, q.inv, o, p);
    }
  }

  /** No routine removes a collection or brings one back. */
  lemma LiveKept(sch: Schema, q: Call, db: Db, fx: Effect, c: Oid)
    requires q.op == Update && Routed(sch, q, db, fx) && db.Sane() && c < db.next
    ensures db.next <= fx.next && (c in fx.colls <==> c in db.colls)
    ensures Db(db.slots + fx.writes, fx.colls, fx.next).Live(c) == db.Live(c)
  {
    if q.item in sch.many && q.inv in sch.many {
      var made :| (q.op != Remove ==> Enumerates(made, Homeless(db, q.inv, Joined(q, db))))
          && fx == EffectNN(q, db, made);
      assert c !in MadeColls(|made|, db.next, q.obj);
    }
  }

  lemma SoundStep(sch: Schema, q: Call, w: Work, fx: Effect, v: Work)
    requires sch.Valid() && Sound(sch, w) && q.op == Update && q.item in sch.inverse
    requires q == CallOf(sch, Update, q.item, w)
    requires Routed(sch, q, w.db, fx) && AppliedTo(w, fx, v)
    ensures Sound(sch, v) && w.db.next <= v.db.next
  {
    RoutedSane(sch, q, w.db, fx);
    forall i: Item, o: Oid | i in sch.Colls() ensures v.db.Readable(v.db.Read(i, o)) {
      assert w.db.Readable(w.db.Read(i, o));
      CollSlot(sch, q, w.db, fx, i, o);
      LiveKept(sch, q, w.db, fx, w.db.Read(i, o));
    }
    forall i: Item, o: Oid, j: Item, p: Oid | i in sch.Colls() && j in sch.Colls() ensures Apart(v.db, i, o, j, p) {
      ApartStep(sch, q, w, fx, v, i, o, j, p);
    }
  }

  lemma ApartStep(sch: Schema, q: Call, w: Work, fx: Effect, v: Work, i: Item, o: Oid, j: Item,
                  p: Oid)
    requires sch.Valid() && Sound(sch, w) && q.op == Update && q.item in sch.inverse
    requires q == CallOf(sch, Update, q.item, w)
    requires Routed(sch, q, w.db, fx) && AppliedTo(w, fx, v) && i in sch.Colls() && j in sch.Colls()
    requires v.db.Sane()
    ensures Apart(v.db, i, o, j, p)
  {
    assert Apart(w.db, i, o, j, p);
    assert w.db.Read(i, o) < w.db.next && w.db.Read(j, p) < w.db.next;
    CollSlot(sch, q, w.db, fx, i, o);
    CollSlot(sch, q, w.db, fx, j, p);
    LiveKept(sch, q, w.db, fx, w.db.Read(i, o));
    if Slot(o, i) in fx.writes && Slot(p, j) in fx.writes
        && fx.writes[Slot(o, i)] == fx.writes[Slot(p, j)] != NULL_OID {
      MadeOnce(sch, q, w.db, fx, i, o, j, p);
    }
  }

  /** The collection `c`. */
  ghost predicate SameColl(c: Oid, w: Work, v: Work) {
    v.db.Live(c) == w.db.Live(c) && v.db.Elems(c) == w.db.Elems(c) && (c in v.db.colls <==> c in w.db.colls)
  }

  /** No slot of another attribute than those in `bs` holds `c`. */
  ghost predicate Ours(sch: Schema, bs: set<Item>, c: Oid, w: Work) {
    c < w.db.next && forall i: Item, o: Oid | i in sch.Colls() && i !in bs && w.db.Live(c) :: w.db.Read(i, o) != c
  }

  /** Any routine leaves the other attributes' hands off `c`. */
  lemma OursStep(sch: Schema, bs: set<Item>, q: Call, w: Work, fx: Effect, v: Work, c: Oid)
    requires sch.Valid() && Sound(sch, w) && q.op == Update && q.item in sch.inverse
    requires q == CallOf(sch, Update, q.item, w)
    requires Routed(sch, q, w.db, fx) && AppliedTo(w, fx, v) && Ours(sch, bs, c, w)
    ensures Ours(sch, bs, c, v)
  {
    LiveKept(sch, q, w.db, fx, c);
    hide Routed, Typed, Owned;
    forall i: Item, o: Oid | i in sch.Colls() && i !in bs && v.db.Live(c) ensures v.db.Read(i, o) != c {
      CollSlot(sch, q, w.db, fx, i, o);
      assert w.db.Live(c) && c != NULL_OID && w.db.Read(i, o) != c;
      assert v.db.Read(i, o) == if Slot(o, i) in fx.writes then fx.writes[Slot(o, i)] else w.db.Read(i, o);
    }
  }

  /** A collection that no slot of the two attributes holds keeps its elements. */
  lemma CollStep(sch: Schema, q: Call, w: Work, fx: Effect, v: Work, c: Oid)
    requires sch.Valid() && Sound(sch, w) && q.op == Update && q.item in sch.inverse
    requires q == CallOf(sch, Update, q.item, w) && Routed(sch, q, w.db, fx) && AppliedTo(w, fx, v)
    requires c < w.db.next
    requires forall i: Item, o: Oid | i in {q.item, q.inv} && i in sch.many && w.db.Live(c) :: w.db.Read(i, o) != c
    ensures SameColl(c, w, v)
  {
    hide EffectNN, Homeless, Joined, Enumerates, Effect1N;
    var db := w.db;
    LiveKept(sch, q, db, fx, c);
    if q.item in sch.many && q.inv in sch.many {
      var made :| (q.op != Remove ==> Enumerates(made, Homeless(db, q.inv, Joined(q, db))))
          && fx == EffectNN(q, db, made);
      ElemsKeptNN(q, db, made, c);
      assert Now(q, db, made).colls == v.db.colls;
    } else if q.item !in sch.many && q.inv in sch.many {
      Elems1N(q, db, c);
      assert Settled(q, db, fx).colls == v.db.colls;
    }
  }

  /** The collections of another attribute keep their elements. */
  lemma HomesStep(sch: Schema, b: Item, q: Call, w: Work, fx: Effect, v: Work, o: Oid)
    requires sch.Valid() && Sound(sch, w) && q.op == Update && q.item in sch.inverse
    requires q == CallOf(sch, Update, q.item, w)
    requires Routed(sch, q, w.db, fx) && AppliedTo(w, fx, v) && b in sch.Colls() && b !in {q.item, q.inv}
    ensures SameColl(w.db.Read(b, o), w, v)
  {
    forall i, p | i in {q.item, q.inv} && i in sch.many && w.db.Live(w.db.Read(b, o))
      ensures w.db.Read(i, p) != w.db.Read(b, o)
    {
      assert Apart(w.db, b, o, i, p);
    }
    assert w.db.Readable(w.db.Read(b, o));
    CollStep(sch, q, w, fx, v, w.db.Read(b, o));
  }

  // ----- any number of attributes

  lemma {:induction false} Others(sch: Schema, a: Item, b: Item, others: seq<Item>, w: Work, v: Work)
    requires Pair(sch, a, b) && a !in others && b !in others && ItemsStep(sch, Update, others, w, v)
    ensures SamePair(a, b, w, v) && w.idr.Keys <= v.idr.Keys
    decreases |others|
  {
    if others != [] {
      var mid :| ItemStep(sch, Update, others[0], w, mid) && ItemsStep(sch, Update, others[1..], mid, v);
      OtherItem(sch, a, b, others[0], w, mid);
      Others(sch, a, b, others[1..], mid, v);
    }
  }

  lemma {:induction false} OthersHomes(sch: Schema, a: Item, b: Item, others: seq<Item>, w: Work, v: Work)
    requires Pair(sch, a, b) && b in sch.many && a !in others && b !in others && ItemsStep(sch, Update, others, w, v)
    requires Sound(sch, w)
    ensures Sound(sch, v) && SameHomes(b, w, v) && w.db.next <= v.db.next
    decreases |others|
  {
    hide Sound, SameHomes, SamePair, ItemStep, Pair;
    if others == [] {
      HomesItself(b, w);
    } else {
      var mid :| ItemStep(sch, Update, others[0], w, mid) && ItemsStep(sch, Update, others[1..], mid, v);
      OtherItem(sch, a, b, others[0], w, mid);
      OtherHomes(sch, a, b, others[0], w, mid);
      OthersHomes(sch, a, b, others[1..], mid, v);
      HomesOn(a, b, w, mid, v);
    }
  }

  /** So does a collection that they have nothing to do with. */
  lemma {:induction false} OthersColl(sch: Schema, a: Item, b: Item, bs: set<Item>, others: seq<Item>, w: Work,
                                      v: Work, c: Oid)
    requires Pair(sch, a, b) && a !in others && b !in others && bs <= {a, b} && ItemsStep(sch, Update, others, w, v)
    requires Sound(sch, w) && Ours(sch, bs, c, w)
    ensures SameColl(c, w, v) && Ours(sch, bs, c, v)
    decreases |others|
  {
    hide Sound, Ours, ItemStep;
    if others != [] {
      var mid :| ItemStep(sch, Update, others[0], w, mid) && ItemsStep(sch, Update, others[1..], mid, v);
      OtherSound(sch, others[0], w, mid);
      OtherColl(sch, a, b, bs, others[0], w, mid, c);
      OthersColl(sch, a, b, bs, others[1..], mid, v, c);
    }
  }

  lemma OtherSound(sch: Schema, j: Item, w: Work, v: Work)
    requires sch.Valid() && ItemStep(sch, Update, j, w, v) && Sound(sch, w)
    ensures Sound(sch, v) && w.db.next <= v.db.next
  {
    if j in sch.inverse {
      var q := CallOf(sch, Update, j, w);
      var fx :| Routed(sch, q, w.db, fx) && AppliedTo(w, fx, v);
      SoundStep(sch, q, w, fx, v);
    }
  }

  lemma OtherColl(sch: Schema, a: Item, b: Item, bs: set<Item>, j: Item, w: Work, v: Work, c: Oid)
    requires Pair(sch, a, b) && bs <= {a, b} && j !in {a, b} && ItemStep(sch, Update, j, w, v)
    requires Sound(sch, w) && Ours(sch, bs, c, w)
    ensures SameColl(c, w, v) && Ours(sch, bs, c, v)
  {
    if j in sch.inverse {
      var q := CallOf(sch, Update, j, w);
      var fx :| Routed(sch, q, w.db, fx) && AppliedTo(w, fx, v);
      Elsewhere(sch, a, b, j);
      OursStep(sch, bs, q, w, fx, v, c);
      CollStep(sch, q, w, fx, v, c);
    }
  }

  lemma HomesItself(b: Item, w: Work)
    ensures SameHomes(b, w, w)
  {
  }

  lemma HomesOn(a: Item, b: Item, w: Work, mid: Work, v: Work)
    requires SamePair(a, b, w, mid) && SameHomes(b, w, mid) && SameHomes(b, mid, v)
    ensures SameHomes(b, w, v)
  {
    forall o ensures var c := w.db.Read(b, o); v.db.Live(c) == w.db.Live(c) && v.db.Elems(c) == w.db.Elems(c) {
      assert mid.db.Read(b, o) == w.db.Read(b, o);
    }
  }

  lemma OtherHomes(sch: Schema, a: Item, b: Item, j: Item, w: Work, v: Work)
    requires Pair(sch, a, b) && b in sch.many && j !in {a, b} && ItemStep(sch, Update, j, w, v) && Sound(sch, w)
    ensures Sound(sch, v) && SameHomes(b, w, v) && w.db.next <= v.db.next
  {
    if j in sch.inverse {
      var q := CallOf(sch, Update, j, w);
      var fx :| Routed(sch, q, w.db, fx) && AppliedTo(w, fx, v);
      SoundStep(sch, q, w, fx, v);
      Elsewhere(sch, a, b, j);
      forall o ensures var c := w.db.Read(b, o); v.db.Live(c) == w.db.Live(c) && v.db.Elems(c) == w.db.Elems(c) {
        HomesStep(sch, b, q, w, fx, v, o);
      }
    }
  }

  /** The list of attributes, cut in two. */
  lemma {:induction false} CutItems(sch: Schema, pre: seq<Item>, post: seq<Item>, w: Work, v: Work) returns (mid: Work)
    requires ItemsStep(sch, Update, pre + post, w, v)
    ensures ItemsStep(sch, Update, pre, w, mid) && ItemsStep(sch, Update, post, mid, v)
    decreases |pre|
  {
    if pre == [] {
      assert pre + post == post;
      mid := w;
    } else {
      assert (pre + post)[1..] == pre[1..] + post && (pre + post)[0] == pre[0];
      var next :| ItemStep(sch, Update, pre[0], w, next) && ItemsStep(sch, Update, pre[1..] + post, next, v);
      mid := CutItems(sch, pre[1..], post, next, v);
    }
  }

  lemma OneItem(sch: Schema, i: Item, w: Work, v: Work)
    requires ItemsStep(sch, Update, [i], w, v)
    ensures ItemStep(sch, Update, i, w, v)
  {
    assert [i][1..] == [];
  }

  /** The database and the IDR around the routines of two attributes, the first at `p` and the
      second at `s` of the class. */
  datatype Stages = Stages(before: Work, first: Work, between: Work, second: Work, end: Work)

  lemma Staged(sch: Schema, items: seq<Item>, p: nat, s: nat, w: Work, v: Work) returns (g: Stages)
    requires p < s < |items| && ItemsStep(sch, Update, items, w, v)
    ensures ItemsStep(sch, Update, items[..p], w, g.before) && ItemStep(sch, Update, items[p], g.before, g.first)
    ensures ItemsStep(sch, Update, items[p + 1..s], g.first, g.between)
    ensures ItemStep(sch, Update, items[s], g.between, g.second)
    ensures ItemsStep(sch, Update, items[s + 1..], g.second, g.end) && g.end == v
  {
    assert items == items[..p] + ([items[p]] + (items[p + 1..s] + ([items[s]] + items[s + 1..])));
    var before := CutItems(sch, items[..p], [items[p]] + (items[p + 1..s] + ([items[s]] + items[s + 1..])), w, v);
    var first := CutItems(sch, [items[p]], items[p + 1..s] + ([items[s]] + items[s + 1..]), before, v);
    var between := CutItems(sch, items[p + 1..s], [items[s]] + items[s + 1..], first, v);
    var second := CutItems(sch, [items[s]], items[s + 1..], between, v);
    OneItem(sch, items[p], before, first);
    OneItem(sch, items[s], between, second);
    g := Stages(before, first, between, second, v);
  }
}
