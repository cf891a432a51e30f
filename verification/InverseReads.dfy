/** What each inverse routine leaves, read slot by slot and collection by collection, from any database
    whatever: no symmetry, no types and no ownership are assumed. */
module InverseReads {
  import opened Store
  import opened InverseSpec
  import opened InverseLaws
  import opened InverseLawsNN

  function After(d: Db, fx: Effect): Db {
    Db(d.slots + fx.writes, fx.colls, fx.next)
  }

  /** The oid an update moves its object away from, or null. */
  function Leaving(q: Call, d: Db): Oid {
    var was := d.Read(q.item, q.obj);
    if q.op == Update && was != q.target then was else NULL_OID
  }

  /** 1:1.  The target points back to the object, whoever pointed to the target lets it go, and so does
      the old target, if it pointed back; a removal only nulls the target's reference. */
  lemma Reads11(q: Call, d: Db, i: Item, o: Oid)
    ensures var now, t, was := After(d, Effect11(q, d)), q.target, Leaving(q, d);
            now.colls == d.colls && now.next == d.next &&
            now.Read(i, o) ==
              if t != NULL_OID && i == q.inv && o == t then if q.op == Remove then NULL_OID else q.obj
              else if q.op == Remove then d.Read(i, o)
              else if t != NULL_OID && d.Read(q.inv, t) == o && o != NULL_OID && o != q.obj && i == q.item then NULL_OID
              else if was != NULL_OID && d.Read(q.inv, was) == q.obj && i == q.inv && o == was then NULL_OID
              else d.Read(i, o)
  {
  }

  /** 1:N.  The object leaves the old parent's collection and joins the new one's; if that is not alive, one
      is made for it and recorded in the parent. */
  lemma Reads1N(q: Call, d: Db, c: Oid)
    requires c < d.next && NULL_OID !in d.colls
    ensures var now, t, was := After(d, Effect1N(q, d)), q.target, Leaving(q, d);
            var home := d.Read(q.inv, t);
            now.Live(c) == d.Live(c) &&
            now.Elems(c) ==
              if !d.Live(c) then {}
              else if t != NULL_OID && c == home then
                if q.op == Remove then d.Elems(c) - {q.obj} else d.Elems(c) + {q.obj}
              else if was != NULL_OID && c == d.Read(q.inv, was) then d.Elems(c) - {q.obj}
              else d.Elems(c)
  {
  }

  lemma Made1N(q: Call, d: Db, i: Item, o: Oid)
    ensures var now, t := After(d, Effect1N(q, d)), q.target;
            var makes := q.op != Remove && t != NULL_OID && !d.Live(d.Read(q.inv, t));
            && (now.Read(i, o) == if makes && i == q.inv && o == t then d.next else d.Read(i, o))
            && (makes ==> now.Live(d.next) && now.Elems(d.next) == {q.obj})
            && now.next == if makes then d.next + 1 else d.next
  {
  }

  /** The members of the collection an update moves its object away from. */
  function LeftBehind(q: Call, d: Db): set<Oid> {
    if Leaving(q, d) == NULL_OID then {} else d.Elems(Leaving(q, d))
  }

  /** A member of the given collection points to `o`, and the object did not just let it go. */
  predicate RobbedN1(q: Call, d: Db, o: Oid) {
    exists e :: e in d.Elems(q.target) && e !in LeftBehind(q, d) && d.Read(q.inv, e) == o
  }

  lemma RemovesN1(q: Call, d: Db, i: Item, o: Oid)
    requires q.op == Remove
    ensures After(d, EffectN1(q, d)).Read(i, o) ==
      if i == q.inv && o in d.Elems(q.target) then NULL_OID else d.Read(i, o)
  {
  }

  lemma RobbedAre(q: Call, d: Db, o: Oid)
    requires q.item != q.inv && q.op != Remove
    ensures var ts := Strangers(Released(q, d), q.inv, d.Elems(q.target), q.obj);
            o in OwnersOf(Released(q, d), q.inv, ts) <==> o != NULL_OID && o != q.obj && RobbedN1(q, d, o)
  {
    var ts := Strangers(Released(q, d), q.inv, d.Elems(q.target), q.obj);
    forall e
      ensures Released(q, d).Read(q.inv, e) == if e in LeftBehind(q, d) then NULL_OID else d.Read(q.inv, e)
    {
    }
    hide Released;
    if o != NULL_OID && o != q.obj && RobbedN1(q, d, o) {
      var e :| e in d.Elems(q.target) && e !in LeftBehind(q, d) && d.Read(q.inv, e) == o;
      assert e in ts;
    }
  }

  lemma OwnersN1(q: Call, d: Db, o: Oid)
    requires q.item != q.inv && q.op != Remove
    ensures After(d, EffectN1(q, d)).Read(q.item, o) ==
      if o != NULL_OID && o != q.obj && RobbedN1(q, d, o) then NULL_OID else d.Read(q.item, o)
  {
    RobbedAre(q, d, o);
    hide Released, RobbedN1, Strangers, OwnersOf;
  }

  lemma MembersN1(q: Call, d: Db, i: Item, o: Oid)
    requires q.item != q.inv && q.op != Remove && i != q.item
    ensures After(d, EffectN1(q, d)).Read(i, o) ==
      if i == q.inv && o in d.Elems(q.target) then q.obj
      else if i == q.inv && o in LeftBehind(q, d) then NULL_OID
      else d.Read(i, o)
  {
  }

  /** N:1.  The members of the given collection point to the object, the other members of its old one to
      nobody, and whoever a new member pointed to has no collection left; a removal only nulls the
      members. */
  lemma ReadsN1(q: Call, d: Db, i: Item, o: Oid)
    requires q.item != q.inv
    ensures var now := After(d, EffectN1(q, d));
            now.colls == d.colls && now.next == d.next &&
            now.Read(i, o) ==
              if i == q.inv && o in d.Elems(q.target) then if q.op == Remove then NULL_OID else q.obj
              else if q.op == Remove then d.Read(i, o)
              else if i == q.inv && o in LeftBehind(q, d) then NULL_OID
              else if i == q.item && o != NULL_OID && o != q.obj && RobbedN1(q, d, o) then NULL_OID
              else d.Read(i, o)
  {
    if q.op == Remove { RemovesN1(q, d, i, o); }
    else if i == q.item { OwnersN1(q, d, o); }
    else { MembersN1(q, d, i, o); }
    assert After(d, EffectN1(q, d)).colls == d.colls && After(d, EffectN1(q, d)).next == d.next;
    hide After, EffectN1;
  }

  /** A member of `es` has `c` for its inverse collection. */
  predicate HomeOf(q: Call, d: Db, es: set<Oid>, c: Oid) {
    exists e :: e in es && d.Read(q.inv, e) == c
  }

  /** The members of the given collection, unless it is the one the object has already; where the collection
      is also the inverse collection of a member left behind, the object has left it. */
  function Joining(q: Call, d: Db): set<Oid> {
    if q.target == NULL_OID || (q.op == Update && d.Read(q.item, q.obj) == q.target) then {}
    else d.Elems(q.target) - (if HomeOf(q, d, LeftBehind(q, d), q.target) then {q.obj} else {})
  }

  lemma JoiningAre(q: Call, d: Db)
    requires q.op != Remove
    ensures Joined(q, d) == Joining(q, d)
  {
    WithoutAll(d.Elems(q.target));
  }

  /** N:N, the collections there were.  The old one is emptied, the object leaves the inverse collections of
      its members and joins those of the new one's. */
  lemma ReadsNN(q: Call, d: Db, made: seq<Oid>, c: Oid)
    requires q.op != Remove && c < d.next && NULL_OID !in d.colls
    ensures var now := After(d, EffectNN(q, d, made));
            now.Elems(c) ==
              if !d.Live(c) then {}
              else
                (if c == Leaving(q, d) then {}
                 else if HomeOf(q, d, LeftBehind(q, d), c) then d.Elems(c) - {q.obj}
                 else d.Elems(c))
                + (if HomeOf(q, d, Joining(q, d), c) then {q.obj} else {})
  {
    JoiningAre(q, d);
    WithoutAll(d.Elems(c));
    hide Joined, Joining;
  }

  lemma NewNN(q: Call, d: Db, made: seq<Oid>)
    requires q.op != Remove
    ensures var now := After(d, EffectNN(q, d, made));
            now.next == d.next + |made| && forall c | d.next <= c < now.next :: now.Elems(c) == {q.obj}
  {
  }

  /** N:N, the collections there were not: each member without a live inverse collection gets a new one,
      which holds the object, and no other slot is written. */
  lemma MadeNN(q: Call, d: Db, made: seq<Oid>, i: Item, o: Oid)
    requires q.op != Remove && Enumerates(made, Homeless(d, q.inv, Joined(q, d)))
    ensures var now := After(d, EffectNN(q, d, made));
            now.next == d.next + |made| &&
            if i == q.inv && o in Joining(q, d) && !d.Live(d.Read(q.inv, o)) then
              && d.next <= now.Read(i, o) < now.next && now.Elems(now.Read(i, o)) == {q.obj}
              && forall p | p in Joining(q, d) && !d.Live(d.Read(q.inv, p))
                && p != o :: now.Read(i, p) != now.Read(i, o)
            else now.Read(i, o) == d.Read(i, o)
  {
    JoiningAre(q, d);
    MadeSlotsKeys(made, d.next, q.inv);
    NewNN(q, d, made);
    hide Joined, Joining, Add, Withdrawn, MadeColls, MadeSlots, InverseColls;
    forall p | p in made
      ensures exists k: nat ::
          k < |made| && made[k] == p && MadeSlots(made, d.next, q.inv)[Slot(p, q.inv)] == d.next + k
    {
      var k: nat :| k < |made| && made[k] == p;
      MadeDistinct(made, d.next, q.inv, k);
    }
  }

  /** N:N, removal.  The members that have an inverse collection leave the given one, and the object leaves
      their inverse collections. */
  lemma RemovesNN(q: Call, d: Db, made: seq<Oid>, c: Oid)
    requires q.op == Remove
    ensures var now := After(d, EffectNN(q, d, made));
            && now.slots == d.slots && now.next == d.next && now.colls.Keys == d.colls.Keys && now.Live(c) == d.Live(c)
            && now.Elems(c) ==
                 set e | e in d.Elems(c)
                         && !(c == q.target && d.Read(q.inv, e) != NULL_OID)
                         && !(e == q.obj && HomeOf(q, d, d.Elems(q.target), c))
  {
  }

  // ----- one element inserted into or taken out of a collection

  /** 1:N.  The element points to the owner, and whoever it pointed to before loses all members, which then
      point to nobody; an element taken out points to nobody. */
  lemma ReadsElem1(w: Write, ch: Change, d: Db, i: Item, o: Oid)
    requires !w.many && NULL_OID !in d.colls
    ensures var now, z := Perform(w, ch, d), d.Read(w.inv, ch.elem);
            var robbed := if !ch.added || z == NULL_OID || z == w.owner then {} else d.Members(w.item, z);
            && now.Read(i, o) == (if i != w.inv then d.Read(i, o)
                                  else if o == ch.elem then if ch.added then w.owner else NULL_OID
                                  else if o in robbed then NULL_OID
                                  else d.Read(i, o))
            && now.next == d.next && now.colls.Keys == d.colls.Keys
            && forall c :: now.Live(c) == d.Live(c) && now.Elems(c) == if robbed != {}
              && c == d.Read(w.item, z) then {} else d.Elems(c)
  {
  }

  /** N:N.  An element that is taken out leaves the collection of every owner that it names, but for the one
      that is written; and the owner that is written leaves its inverse collection. */
  lemma ReadsElemN(w: Write, ch: Change, d: Db, c: Oid)
    requires w.many && !ch.added
    ensures var now := Perform(w, ch, d);
            && now.slots == d.slots && now.next == d.next && now.Live(c) == d.Live(c)
            && now.Elems(c) ==
                 set e | e in d.Elems(c)
                         && !(e == w.owner && c == d.Read(w.inv, ch.elem))
                         && !(e == ch.elem && c != NULL_OID && c != d.Read(w.item, w.owner)
                              && exists z :: z in d.Members(w.inv, ch.elem) && d.Read(w.item, z) == c)
  {
  }

  /** An element that is inserted has the owner put into its inverse collection, or into a new one. */
  lemma JoinsElemN(w: Write, ch: Change, d: Db, i: Item, o: Oid, c: Oid)
    requires w.many && ch.added && c < d.next && NULL_OID !in d.colls
    ensures var now, home := Perform(w, ch, d), d.Read(w.inv, ch.elem);
            && now.Elems(c) == d.Elems(c) + (if d.Live(c) && c == home then {w.owner} else {})
            && now.Read(i, o) == (if !d.Live(home) && i == w.inv && o == ch.elem then d.next else d.Read(i, o))
            && (!d.Live(home) ==> now.Elems(d.next) == {w.owner})
            && now.next == if d.Live(home) then d.next else d.next + 1
  {
  }
}
