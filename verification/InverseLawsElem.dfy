/** What a write of a collection does to its relationship: while the changes are reported one
    by one, only the pairs still to be reported may disagree. */
module InverseLawsElem {
  import opened Store
  import opened InverseSpec
  import opened InverseLaws
  import opened InverseLawsNN

  ghost predicate Among(c: Oid, rest: seq<Change>) {
    exists ch :: ch in rest && ch.elem == c
  }

  ghost predicate Distinct(changes: seq<Change>) {
    forall i, j :: 0 <= i < j < |changes| ==> changes[i].elem != changes[j].elem
  }

  // ----- the inverse is a single reference

  /** The relation, but for the owner's pairs in `rest`: those that were inserted are in the
      collection, those that were taken out still point to the owner. */
  ghost predicate Pending1(w: Write, db: Db, rest: seq<Change>) {
    && (forall c: Oid, z: Oid | c != NULL_OID && z != NULL_OID && !(z == w.owner && Among(c, rest)) ::
          Agree1N(db, w.inv, w.item, c, z))
    && (forall ch | ch in rest :: PendingElem1(w, db, ch))
  }

  ghost predicate PendingElem1(w: Write, db: Db, ch: Change) {
    && ch.elem != NULL_OID
    && (ch.added <==> ch.elem in db.Members(w.item, w.owner))
    && (!ch.added ==> db.Read(w.inv, ch.elem) == w.owner)
  }

  ghost predicate Ready1(w: Write, db: Db) {
    && db.Sane() && w.item != w.inv && !w.many && w.owner != NULL_OID
    && Typed(db, {w.item}) && Owned(db, {w.item})
  }

  lemma Elem1Pair(w: Write, db: Db, ch: Change, c: Oid, z: Oid)
    requires NULL_OID !in db.colls && w.item != w.inv && !w.many && w.owner != NULL_OID && PendingElem1(w, db, ch)
    requires c != NULL_OID && z != NULL_OID
    requires ch.elem != c || z != w.owner ==> Agree1N(db, w.inv, w.item, c, z)
    requires var old1 := db.Read(w.inv, ch.elem);
             && Apart(db, w.item, z, w.item, old1)
             && (old1 != NULL_OID && old1 != w.owner ==> Agree1N(db, w.inv, w.item, c, old1))
    ensures Agree1N(Perform(w, ch, db), w.inv, w.item, c, z)
  {
  }

  lemma Elem1Rest(w: Write, db: Db, ch: Change, other: Change)
    requires NULL_OID !in db.colls && w.item != w.inv && !w.many && w.owner != NULL_OID
    requires PendingElem1(w, db, ch) && PendingElem1(w, db, other) && other.elem != ch.elem
    requires var old1 := db.Read(w.inv, ch.elem);
             && Apart(db, w.item, w.owner, w.item, old1)
             && (old1 != NULL_OID && old1 != w.owner ==> Agree1N(db, w.inv, w.item, other.elem, old1))
    ensures PendingElem1(w, Perform(w, ch, db), other)
  {
  }

  lemma Elem1Slots(w: Write, db: Db, ch: Change, o: Oid)
    requires !w.many && w.item != w.inv
    ensures var now := Perform(w, ch, db);
            && now.Read(w.item, o) == db.Read(w.item, o) && now.colls.Keys == db.colls.Keys
            && forall c :: now.Live(c) == db.Live(c)
  {
  }

  lemma Elem1Ready(w: Write, db: Db, ch: Change)
    requires Ready1(w, db) && w.owner < db.next && ch.elem != NULL_OID
    ensures Ready1(w, Perform(w, ch, db)) && w.owner < Perform(w, ch, db).next
  {
    PerformSane(w, ch, db);
    var now := Perform(w, ch, db);
    forall o: Oid
      ensures now.Readable(now.Read(w.item, o))
    {
      Elem1Slots(w, db, ch, o);
      assert db.Readable(db.Read(w.item, o));
    }
    forall o: Oid, p: Oid
      ensures Apart(now, w.item, o, w.item, p)
    {
      Elem1Slots(w, db, ch, o);
      Elem1Slots(w, db, ch, p);
      assert Apart(db, w.item, o, w.item, p);
    }
  }

  lemma Elem1Step(w: Write, db: Db, rest: seq<Change>)
    requires Ready1(w, db) && rest != [] && Distinct(rest) && Pending1(w, db, rest)
    ensures Pending1(w, Perform(w, rest[0], db), rest[1..])
  {
    var ch := rest[0];
    var old1 := db.Read(w.inv, ch.elem);
    assert ch in rest;
    forall c: Oid, z: Oid | c != NULL_OID && z != NULL_OID && !(z == w.owner && Among(c, rest[1..]))
      ensures Agree1N(Perform(w, ch, db), w.inv, w.item, c, z)
    {
      assert Apart(db, w.item, z, w.item, old1);
      assert Among(c, rest) && c != ch.elem ==> Among(c, rest[1..]) by {
        assert forall d | d in rest :: d == ch || d in rest[1..];
      }
      Elem1Pair(w, db, ch, c, z);
    }
    forall d | d in rest[1..]
      ensures PendingElem1(w, Perform(w, ch, db), d)
    {
      assert d in rest && d.elem != ch.elem;
      assert Apart(db, w.item, w.owner, w.item, old1);
      Elem1Rest(w, db, ch, d);
    }
  }

  lemma {:induction false} Elem1All(w: Write, db: Db, rest: seq<Change>)
    requires Ready1(w, db) && w.owner < db.next && Distinct(rest) && Pending1(w, db, rest)
    ensures var now := PerformAll(w, rest, db); Ready1(w, now) && Sym1N(now, w.inv, w.item)
    decreases |rest|
  {
    if rest == [] {
      assert forall c :: !Among(c, rest);
    } else {
      assert rest[0] in rest;
      Elem1Step(w, db, rest);
      Elem1Ready(w, db, rest[0]);
      Elem1All(w, Perform(w, rest[0], db), rest[1..]);
    }
  }

  // ----- the collection's own contents

  lemma {:induction false} EditedHolds(es: set<Oid>, changes: seq<Change>, c: Oid)
    requires Distinct(changes) && Editable(es, changes)
    ensures !Among(c, changes) ==> (c in Edited(es, changes) <==> c in es)
    ensures forall ch | ch in changes && ch.elem == c :: ch.added <==> c in Edited(es, changes)
    ensures forall ch | ch in changes && ch.elem == c && !ch.added :: c in es
    decreases |changes|
  {
    if changes != [] {
      assert changes[0] in changes;
      assert forall ch | ch in changes :: ch == changes[0] || ch in changes[1..];
      assert forall ch | ch in changes[1..] :: ch in changes && ch.elem != changes[0].elem;
      EditedHolds(Edit(es, changes[0]), changes[1..], c);
    }
  }

  /** The write starts from a symmetric relation. */
  ghost predicate Writable(w: Write, c: Oid, changes: seq<Change>, db: Db) {
    && db.Live(c) && db.Read(w.item, w.owner) == c && w.owner < db.next
    && Distinct(changes) && Editable(db.Elems(c), changes)
    && (forall ch | ch in changes :: ch.elem != NULL_OID)
  }

  lemma {:induction false} EditedNull(es: set<Oid>, changes: seq<Change>)
    requires NULL_OID !in es && forall ch | ch in changes :: ch.elem != NULL_OID
    ensures NULL_OID !in Edited(es, changes)
    decreases |changes|
  {
    if changes != [] {
      assert changes[0] in changes;
      EditedNull(Edit(es, changes[0]), changes[1..]);
    }
  }

  lemma EditedOthers(w: Write, c: Oid, changes: seq<Change>, db: Db, cs: set<Item>)
    requires db.Sane() && Typed(db, cs) && Owned(db, cs) && w.item in cs && Writable(w, c, changes, db)
    ensures var now := WithElems(db, c, Edited(db.Elems(c), changes));
            && now.Sane() && Typed(now, cs) && Owned(now, cs)
            && now.Members(w.item, w.owner) == Edited(db.Elems(c), changes)
            && forall i: Item, o: Oid | i in cs && !(i == w.item && o == w.owner) ::
                 now.Members(i, o) == db.Members(i, o)
  {
    var now := WithElems(db, c, Edited(db.Elems(c), changes));
    EditedNull(db.Elems(c), changes);
    forall i: Item, o: Oid | i in cs
      ensures now.Readable(now.Read(i, o)) && now.Read(i, o) == db.Read(i, o)
    {
      assert db.Readable(db.Read(i, o));
    }
    forall i: Item, o: Oid, j: Item, p: Oid | i in cs && j in cs
      ensures Apart(now, i, o, j, p)
    {
      assert Apart(db, i, o, j, p);
    }
    forall i: Item, o: Oid | i in cs && !(i == w.item && o == w.owner)
      ensures now.Members(i, o) == db.Members(i, o)
    {
      assert Apart(db, w.item, w.owner, i, o);
    }
  }

  /** Inserting into and taking out of a collection keeps a 1:N relation, whatever the changes. */
  lemma Written1Keeps(w: Write, c: Oid, changes: seq<Change>, db: Db)
    requires Ready1(w, db) && Sym1N(db, w.inv, w.item) && Writable(w, c, changes, db)
    ensures var now := Written(w, c, changes, db); Ready1(w, now) && Sym1N(now, w.inv, w.item)
  {
    PendingAtFirst1(w, c, changes, db);
    Elem1All(w, WithElems(db, c, Edited(db.Elems(c), changes)), changes);
  }

  /** An insertion that takes a child from another parent costs that parent all its children. */
  lemma SiblingsLetGo(w: Write, db: Db, e: Oid, s: Oid)
    requires Ready1(w, db) && Sym1N(db, w.inv, w.item)
    requires var old1 := db.Read(w.inv, e);
             e != NULL_OID && old1 != NULL_OID && old1 != w.owner && s in db.Members(w.item, old1)
    ensures var now := Perform(w, Change(e, true), db);
            && now.Members(w.item, db.Read(w.inv, e)) == {}
            && now.Read(w.inv, s) == if s == e then w.owner else NULL_OID
  {
  }

  // ----- what every reference and collection of the relationship holds after a write: a single reference

  /** `z` is another parent, and an element of its collection is among those inserted. */
  ghost predicate Robs(w: Write, db: Db, changes: seq<Change>, z: Oid) {
    z != NULL_OID && z != w.owner && exists f :: Change(f, true) in changes && db.Read(w.inv, f) == z
  }

  lemma Elem1Points(w: Write, db: Db, rest: seq<Change>, e: Oid)
    requires Ready1(w, db) && rest != [] && Pending1(w, db, rest)
    ensures Perform(w, rest[0], db).Read(w.inv, e) ==
      if e == rest[0].elem then (if rest[0].added then w.owner else NULL_OID)
      else if rest[0].added && db.Read(w.inv, e) == db.Read(w.inv, rest[0].elem) != w.owner then NULL_OID
      else db.Read(w.inv, e)
  {
    var was := db.Read(w.inv, rest[0].elem);
    assert rest[0] in rest;
    if was != NULL_OID && was != w.owner && e != NULL_OID {
      assert Agree1N(db, w.inv, w.item, e, was);
    }
  }

  lemma HeadAndTail(rest: seq<Change>, e: Oid, b: bool)
    requires rest != [] && Distinct(rest)
    ensures Change(e, b) in rest <==> rest[0] == Change(e, b) || Change(e, b) in rest[1..]
    ensures rest[0].elem == e ==> Change(e, b) !in rest[1..]
  {
  }

  lemma RobsOn(w: Write, db: Db, rest: seq<Change>, z: Oid)
    requires Ready1(w, db) && rest != [] && Distinct(rest) && Pending1(w, db, rest)
    ensures Robs(w, db, rest, z) <==>
      || Robs(w, Perform(w, rest[0], db), rest[1..], z)
      || (rest[0].added && db.Read(w.inv, rest[0].elem) == z && z != NULL_OID && z != w.owner)
  {
    hide Perform;
    var now := Perform(w, rest[0], db);
    if Robs(w, db, rest, z) {
      var f :| Change(f, true) in rest && db.Read(w.inv, f) == z;
      HeadAndTail(rest, f, true);
      Elem1Points(w, db, rest, f);
    }
    if Robs(w, now, rest[1..], z) {
      var f :| Change(f, true) in rest[1..] && now.Read(w.inv, f) == z;
      HeadAndTail(rest, f, true);
      Elem1Points(w, db, rest, f);
    }
    assert rest[0].added ==> Change(rest[0].elem, true) in rest;
  }

  lemma {:induction false} PointsAfter(w: Write, db: Db, rest: seq<Change>, e: Oid)
    requires Ready1(w, db) && w.owner < db.next && Distinct(rest) && Pending1(w, db, rest)
    ensures PerformAll(w, rest, db).Read(w.inv, e) ==
      if Change(e, true) in rest then w.owner
      else if Change(e, false) in rest || Robs(w, db, rest, db.Read(w.inv, e)) then NULL_OID
      else db.Read(w.inv, e)
    decreases |rest|
  {
    hide Perform;
    if rest != [] {
      assert rest[0] in rest;
      Elem1Step(w, db, rest);
      Elem1Ready(w, db, rest[0]);
      Elem1Points(w, db, rest, e);
      HeadAndTail(rest, e, true);
      HeadAndTail(rest, e, false);
      RobsOn(w, db, rest, db.Read(w.inv, e));
      PointsAfter(w, Perform(w, rest[0], db), rest[1..], e);
    }
  }

  lemma EditedExactly(es: set<Oid>, changes: seq<Change>, e: Oid)
    requires Distinct(changes) && Editable(es, changes)
    ensures e in Edited(es, changes) <==> Change(e, true) in changes || (e in es && Change(e, false) !in changes)
  {
    EditedHolds(es, changes, e);
    if Among(e, changes) {
      var ch :| ch in changes && ch.elem == e;
      assert ch == Change(e, ch.added);
    }
  }

  lemma PendingAtFirst1(w: Write, c: Oid, changes: seq<Change>, db: Db)
    requires Ready1(w, db) && Sym1N(db, w.inv, w.item) && Writable(w, c, changes, db)
    ensures var mid := WithElems(db, c, Edited(db.Elems(c), changes));
            Ready1(w, mid) && w.owner < mid.next && Pending1(w, mid, changes)
  {
    var mid := WithElems(db, c, Edited(db.Elems(c), changes));
    EditedOthers(w, c, changes, db, {w.item});
    forall d: Oid, z: Oid | d != NULL_OID && z != NULL_OID && !(z == w.owner && Among(d, changes))
      ensures Agree1N(mid, w.inv, w.item, d, z)
    {
      EditedHolds(db.Elems(c), changes, d);
      assert Agree1N(db, w.inv, w.item, d, z);
    }
    forall ch | ch in changes
      ensures PendingElem1(w, mid, ch)
    {
      EditedHolds(db.Elems(c), changes, ch.elem);
      assert Agree1N(db, w.inv, w.item, ch.elem, w.owner);
    }
  }

  /** What a write of a parent's collection leaves: a child that is inserted has this parent, one that
      is taken out has none, and neither have the children of a parent who lost one of them to this
      collection; every other child keeps its parent. */
  lemma WrittenPoints(w: Write, c: Oid, changes: seq<Change>, db: Db, e: Oid)
    requires Ready1(w, db) && Sym1N(db, w.inv, w.item) && Writable(w, c, changes, db)
    ensures Written(w, c, changes, db).Read(w.inv, e) ==
      if Change(e, true) in changes then w.owner
      else if Change(e, false) in changes then NULL_OID
      else if db.Read(w.inv, e) != w.owner
              && exists f :: Change(f, true) in changes && db.Read(w.inv, f) == db.Read(w.inv, e)
        then NULL_OID
      else db.Read(w.inv, e)
  {
    var mid := WithElems(db, c, Edited(db.Elems(c), changes));
    PendingAtFirst1(w, c, changes, db);
    PointsAfter(w, mid, changes, e);
    assert forall f :: mid.Read(w.inv, f) == db.Read(w.inv, f);
  }

  /** And the collections: this one holds what it is asked to, one that lost a child to it nothing,
      and all others what they held. */
  lemma WrittenHolds(w: Write, c: Oid, changes: seq<Change>, db: Db, e: Oid, p: Oid)
    requires Ready1(w, db) && Sym1N(db, w.inv, w.item) && Writable(w, c, changes, db) && p != w.owner
    ensures var now := Written(w, c, changes, db);
            && (e in now.Members(w.item, w.owner) <==>
                  Change(e, true) in changes || (e in db.Members(w.item, w.owner) && Change(e, false) !in changes))
            && (e in now.Members(w.item, p) <==>
                  e in db.Members(w.item, p) && !exists f :: Change(f, true) in changes && db.Read(w.inv, f) == p)
  {
    var now := Written(w, c, changes, db);
    Written1Keeps(w, c, changes, db);
    WrittenPoints(w, c, changes, db, e);
    hide Written;
    if e == NULL_OID {
      assert e !in now.Members(w.item, w.owner) && e !in now.Members(w.item, p);
      assert e !in db.Members(w.item, w.owner) && e !in db.Members(w.item, p);
      assert Change(e, true) !in changes;
    } else {
      assert Agree1N(now, w.inv, w.item, e, w.owner) && Agree1N(db, w.inv, w.item, e, w.owner);
      if p == NULL_OID {
        assert now.Read(w.item, p) == NULL_OID == db.Read(w.item, p);
      } else {
        assert Agree1N(now, w.inv, w.item, e, p) && Agree1N(db, w.inv, w.item, e, p);
      }
      if Change(e, false) in changes {
        EditedHolds(db.Elems(c), changes, e);
      }
    }
  }

  // ----- the inverse is a collection

  ghost predicate PendingN(w: Write, db: Db, rest: seq<Change>) {
    && (forall z: Oid, m: Oid | z != NULL_OID && m != NULL_OID && !(z == w.owner && Among(m, rest)) ::
          AgreeNN(db, w.item, w.inv, z, m))
    && (forall ch | ch in rest :: PendingElemN(w, db, ch))
  }

  /** An element that was taken out has no other owner. */
  ghost predicate PendingElemN(w: Write, db: Db, ch: Change) {
    && ch.elem != NULL_OID
    && (ch.added <==> ch.elem in db.Members(w.item, w.owner))
    && (!ch.added ==> db.Members(w.inv, ch.elem) <= {w.owner})
  }

  ghost predicate ReadyN(w: Write, db: Db) {
    && db.Sane() && w.item != w.inv && w.many && w.owner != NULL_OID
    && Typed(db, {w.item, w.inv}) && Owned(db, {w.item, w.inv})
  }

  lemma ElemNMembers(w: Write, db: Db, ch: Change, i: Item, o: Oid)
    requires db.Sane() && w.many && w.item != w.inv && i in {w.item, w.inv}
    requires !ch.added ==> db.Members(w.inv, ch.elem) <= {w.owner}
    requires Apart(db, i, o, w.inv, ch.elem)
    ensures Perform(w, ch, db).Members(i, o) ==
      if i == w.inv && o == ch.elem then
        if ch.added then db.Members(i, o) + {w.owner} else db.Members(i, o) - {w.owner}
      else db.Members(i, o)
  {
  }

  lemma ElemNApart(w: Write, db: Db, ch: Change, i: Item, o: Oid, j: Item, p: Oid)
    requires db.Sane() && w.many && w.item != w.inv
    requires Apart(db, i, o, j, p)
    ensures Apart(Perform(w, ch, db), i, o, j, p)
  {
  }

  lemma ElemNTyped(w: Write, db: Db, ch: Change, i: Item, o: Oid)
    requires w.many && db.Readable(db.Read(i, o))
    ensures Perform(w, ch, db).Readable(Perform(w, ch, db).Read(i, o))
  {
  }

  lemma ElemNReady(w: Write, db: Db, ch: Change)
    requires ReadyN(w, db) && w.owner < db.next && ch.elem != NULL_OID
    ensures ReadyN(w, Perform(w, ch, db)) && w.owner < Perform(w, ch, db).next
  {
    PerformSane(w, ch, db);
    var now := Perform(w, ch, db);
    forall i: Item, o: Oid | i in {w.item, w.inv}
      ensures now.Readable(now.Read(i, o))
    {
      ElemNTyped(w, db, ch, i, o);
    }
    forall i: Item, o: Oid, j: Item, p: Oid | i in {w.item, w.inv} && j in {w.item, w.inv}
      ensures Apart(now, i, o, j, p)
    {
      ElemNApart(w, db, ch, i, o, j, p);
    }
  }

  lemma ElemNStep(w: Write, db: Db, rest: seq<Change>)
    requires ReadyN(w, db) && rest != [] && Distinct(rest) && PendingN(w, db, rest)
    ensures PendingN(w, Perform(w, rest[0], db), rest[1..])
  {
    var ch := rest[0];
    assert ch in rest;
    forall z: Oid, m: Oid | z != NULL_OID && m != NULL_OID && !(z == w.owner && Among(m, rest[1..]))
      ensures AgreeNN(Perform(w, ch, db), w.item, w.inv, z, m)
    {
      assert Among(m, rest) && m != ch.elem ==> Among(m, rest[1..]) by {
        assert forall d | d in rest :: d == ch || d in rest[1..];
      }
      assert PendingElemN(w, db, ch);
      assert !(z == w.owner && m == ch.elem) ==> AgreeNN(db, w.item, w.inv, z, m);
      ElemNMembers(w, db, ch, w.item, z);
      ElemNMembers(w, db, ch, w.inv, m);
    }
    forall d | d in rest[1..]
      ensures PendingElemN(w, Perform(w, ch, db), d)
    {
      assert d in rest && d.elem != ch.elem;
      ElemNMembers(w, db, ch, w.item, w.owner);
      ElemNMembers(w, db, ch, w.inv, d.elem);
    }
  }

  lemma {:induction false} ElemNAll(w: Write, db: Db, rest: seq<Change>)
    requires ReadyN(w, db) && w.owner < db.next && Distinct(rest) && PendingN(w, db, rest)
    ensures var now := PerformAll(w, rest, db); ReadyN(w, now) && SymNN(now, w.item, w.inv)
    decreases |rest|
  {
    if rest == [] {
      assert forall c :: !Among(c, rest);
    } else {
      assert rest[0] in rest;
      ElemNStep(w, db, rest);
      ElemNReady(w, db, rest[0]);
      ElemNAll(w, Perform(w, rest[0], db), rest[1..]);
    }
  }

  /** No element taken out has an owner besides the one whose collection is written. */
  ghost predicate SoleOwner(w: Write, changes: seq<Change>, db: Db) {
    forall ch | ch in changes && !ch.added :: db.Members(w.inv, ch.elem) <= {w.owner}
  }

  lemma WrittenNKeeps(w: Write, c: Oid, changes: seq<Change>, db: Db)
    requires ReadyN(w, db) && SymNN(db, w.item, w.inv) && Writable(w, c, changes, db) && SoleOwner(w, changes, db)
    ensures var now := Written(w, c, changes, db); ReadyN(w, now) && SymNN(now, w.item, w.inv)
  {
    var now := WithElems(db, c, Edited(db.Elems(c), changes));
    EditedOthers(w, c, changes, db, {w.item, w.inv});
    forall z: Oid, m: Oid | z != NULL_OID && m != NULL_OID && !(z == w.owner && Among(m, changes))
      ensures AgreeNN(now, w.item, w.inv, z, m)
    {
      EditedHolds(db.Elems(c), changes, m);
      assert AgreeNN(db, w.item, w.inv, z, m);
    }
    forall ch | ch in changes
      ensures PendingElemN(w, now, ch)
    {
      EditedHolds(db.Elems(c), changes, ch.elem);
      assert AgreeNN(db, w.item, w.inv, w.owner, ch.elem);
    }
    ElemNAll(w, now, changes);
  }

  // ----- one element taken out, whoever else owns it

  lemma TakenOutOwner(w: Write, db: Db, e: Oid, z: Oid)
    requires ReadyN(w, db)
    ensures Perform(w, Change(e, false), db).Members(w.item, z) ==
      db.Members(w.item, z) -
        (if z in OtherOwners(w.Of(Change(e, false)), db) then {e} else {})
  {
    var q, c := w.Of(Change(e, false)), db.Read(w.item, z);
    var hs := InverseColls(db, w.item, OtherOwners(q, db));
    forall y | db.Live(c) && db.Read(w.item, y) == c
      ensures y == z
    {
      assert Apart(db, w.item, z, w.item, y);
    }
    assert Apart(db, w.item, z, w.inv, e);
    assert db.Live(c) ==> (c in hs <==> z in OtherOwners(q, db));
    WithoutAll(db.Elems(c));
  }

  lemma TakenOutInverse(w: Write, db: Db, e: Oid, m: Oid)
    requires ReadyN(w, db)
    ensures Perform(w, Change(e, false), db).Members(w.inv, m) ==
      db.Members(w.inv, m) - (if m == e then {w.owner} else {})
  {
    var q, c := w.Of(Change(e, false)), db.Read(w.inv, m);
    var hs := InverseColls(db, w.item, OtherOwners(q, db));
    forall y | db.Live(c)
      ensures db.Read(w.item, y) != c
    {
      assert Apart(db, w.inv, m, w.item, y);
    }
    assert db.Live(c) ==> c !in hs;
    assert Apart(db, w.inv, m, w.inv, e);
    WithoutAll(db.Elems(c));
  }

  lemma TakeOutOne(w: Write, c: Oid, e: Oid, db: Db)
    ensures Written(w, c, [Change(e, false)], db) == Perform(w, Change(e, false), WithElems(db, c, db.Elems(c) - {e}))
  {
    var changes := [Change(e, false)];
    assert changes[1..] == [];
    assert Edited(db.Elems(c), changes) == Edited(db.Elems(c) - {e}, []);
    assert PerformAll(w, changes, WithElems(db, c, db.Elems(c) - {e}))
        == PerformAll(w, [], Perform(w, Change(e, false), WithElems(db, c, db.Elems(c) - {e})));
  }

  /** After one removal, whatever the element's other owners: an owner that still has a member
      is still named by it.  The converse fails for every other owner of the element. */
  lemma TakenOut(w: Write, c: Oid, e: Oid, db: Db, z: Oid, m: Oid)
    requires ReadyN(w, db) && SymNN(db, w.item, w.inv) && Writable(w, c, [Change(e, false)], db)
    requires z != NULL_OID && m != NULL_OID
    ensures var now := Written(w, c, [Change(e, false)], db);
            && (m in now.Members(w.item, z) ==> z in now.Members(w.inv, m))
            && (AgreeNN(now, w.item, w.inv, z, m) <==> !(m == e && z != w.owner && z in db.Members(w.inv, e)))
  {
    var changes := [Change(e, false)];
    var mid := WithElems(db, c, db.Elems(c) - {e});
    TakeOutOne(w, c, e, db);
    assert Edited(db.Elems(c), changes) == db.Elems(c) - {e} by {
      assert changes[1..] == [];
    }
    EditedOthers(w, c, changes, db, {w.item, w.inv});
    assert ReadyN(w, mid);
    TakenOutOwner(w, mid, e, z);
    TakenOutInverse(w, mid, e, m);
    assert AgreeNN(db, w.item, w.inv, z, m) && AgreeNN(db, w.item, w.inv, z, e);
    assert Apart(db, w.item, z, w.item, w.owner);
  }

  /** Taking one element out keeps an N:N relation exactly when it has no other owner. */
  lemma TakenOutExactly(w: Write, c: Oid, e: Oid, db: Db)
    requires ReadyN(w, db) && SymNN(db, w.item, w.inv) && Writable(w, c, [Change(e, false)], db)
    ensures SymNN(Written(w, c, [Change(e, false)], db), w.item, w.inv) <==> db.Members(w.inv, e) <= {w.owner}
  {
    var now := Written(w, c, [Change(e, false)], db);
    var ch := Change(e, false);
    assert ch in [ch];
    forall z: Oid, m: Oid | z != NULL_OID && m != NULL_OID
      ensures AgreeNN(now, w.item, w.inv, z, m) <==> !(m == e && z != w.owner && z in db.Members(w.inv, e))
    {
      TakenOut(w, c, e, db, z, m);
    }
    if z :| z in db.Members(w.inv, e) && z != w.owner {
      assert db.Read(w.inv, e) in db.colls;
      assert !AgreeNN(now, w.item, w.inv, z, e);
    }
  }

  // ----- a list of changes that takes out an element with another owner

  /** `z` is named as an owner of `e`, whose collection does not hold `e`. */
  ghost predicate Stray(w: Write, db: Db, z: Oid, e: Oid) {
    z in db.Members(w.inv, e) && e !in db.Members(w.item, z)
  }

  /** A change of another element makes no owner join or leave `e`, and puts `e` nowhere. */
  lemma NamedStays(w: Write, db: Db, ch: Change, z: Oid, e: Oid)
    requires ReadyN(w, db) && ch.elem != e && z in db.Members(w.inv, e)
    ensures z in Perform(w, ch, db).Members(w.inv, e)
    ensures e !in db.Members(w.item, z) ==> e !in Perform(w, ch, db).Members(w.item, z)
  {
    if ch.added {
      assert Apart(db, w.inv, e, w.inv, ch.elem) && Apart(db, w.item, z, w.inv, ch.elem);
      ElemNMembers(w, db, ch, w.inv, e);
      ElemNMembers(w, db, ch, w.item, z);
    } else {
      assert ch == Change(ch.elem, false);
      TakenOutInverse(w, db, ch.elem, e);
      TakenOutOwner(w, db, ch.elem, z);
    }
  }

  /** Taking `e` out takes it out of the collections of all owners it names, and it goes on naming them. */
  lemma StrayComes(w: Write, db: Db, z: Oid, e: Oid)
    requires ReadyN(w, db) && z in db.Members(w.inv, e) && z != w.owner
    ensures Stray(w, Perform(w, Change(e, false), db), z, e)
  {
    TakenOutInverse(w, db, e, e);
    TakenOutOwner(w, db, e, z);
    assert Apart(db, w.item, z, w.item, w.owner);
    assert db.Readable(db.Read(w.item, z));
  }

  lemma {:induction false} StrayStays(w: Write, db: Db, rest: seq<Change>, z: Oid, e: Oid)
    requires ReadyN(w, db) && w.owner < db.next && Stray(w, db, z, e)
    requires forall ch | ch in rest :: ch.elem != NULL_OID && ch.elem != e
    ensures Stray(w, PerformAll(w, rest, db), z, e)
    decreases |rest|
  {
    if rest != [] {
      assert rest[0] in rest;
      NamedStays(w, db, rest[0], z, e);
      ElemNReady(w, db, rest[0]);
      StrayStays(w, Perform(w, rest[0], db), rest[1..], z, e);
    }
  }

  lemma {:induction false} StrayAtEnd(w: Write, db: Db, rest: seq<Change>, z: Oid, e: Oid)
    requires ReadyN(w, db) && w.owner < db.next && Distinct(rest) && Change(e, false) in rest
    requires forall ch | ch in rest :: ch.elem != NULL_OID
    requires z in db.Members(w.inv, e) && z != w.owner
    ensures Stray(w, PerformAll(w, rest, db), z, e)
    decreases |rest|
  {
    assert rest[0] in rest;
    ElemNReady(w, db, rest[0]);
    if rest[0] == Change(e, false) {
      StrayComes(w, db, z, e);
      StrayStays(w, Perform(w, rest[0], db), rest[1..], z, e);
    } else {
      var k :| 0 <= k < |rest| && rest[k] == Change(e, false);
      assert Change(e, false) == rest[1..][k - 1];
      NamedStays(w, db, rest[0], z, e);
      StrayAtEnd(w, Perform(w, rest[0], db), rest[1..], z, e);
    }
  }

  /** A list of distinct changes keeps an N:N relation exactly when no element taken out has another owner. */
  lemma WrittenNExactly(w: Write, c: Oid, changes: seq<Change>, db: Db)
    requires ReadyN(w, db) && SymNN(db, w.item, w.inv) && Writable(w, c, changes, db)
    ensures SymNN(Written(w, c, changes, db), w.item, w.inv) <==> SoleOwner(w, changes, db)
  {
    if SoleOwner(w, changes, db) {
      WrittenNKeeps(w, c, changes, db);
    } else {
      var ch :| ch in changes && !ch.added && !(db.Members(w.inv, ch.elem) <= {w.owner});
      var z :| z in db.Members(w.inv, ch.elem) && z != w.owner;
      var mid := WithElems(db, c, Edited(db.Elems(c), changes));
      EditedOthers(w, c, changes, db, {w.item, w.inv});
      assert ch == Change(ch.elem, false);
      assert mid.Members(w.inv, ch.elem) == db.Members(w.inv, ch.elem);
      StrayAtEnd(w, mid, changes, z, ch.elem);
      assert z != NULL_OID by { assert db.Read(w.inv, ch.elem) in db.colls; }
      assert !AgreeNN(Written(w, c, changes, db), w.item, w.inv, z, ch.elem);
    }
  }

  // ----- what the collections hold after a list of changes, whoever else owns the elements

  /** One change: in the element's inverse collection the owner comes or goes, and an element that is taken
      out leaves every other collection whose owner it names. */
  lemma ElemNChanges(w: Write, db: Db, ch: Change, e: Oid, z: Oid)
    requires ReadyN(w, db) && z != w.owner
    ensures var now := Perform(w, ch, db);
            && now.Members(w.inv, e) ==
                 (if e != ch.elem then db.Members(w.inv, e)
                  else if ch.added then db.Members(w.inv, e) + {w.owner} else db.Members(w.inv, e) - {w.owner})
            && now.Members(w.item, w.owner) == db.Members(w.item, w.owner)
            && now.Members(w.item, z) ==
                 db.Members(w.item, z) - (if !ch.added && z in db.Members(w.inv, ch.elem) then {ch.elem} else {})
  {
    if ch.added {
      assert Apart(db, w.inv, e, w.inv, ch.elem) && Apart(db, w.item, z, w.inv, ch.elem);
      assert Apart(db, w.item, w.owner, w.inv, ch.elem);
      ElemNMembers(w, db, ch, w.inv, e);
      ElemNMembers(w, db, ch, w.item, z);
      ElemNMembers(w, db, ch, w.item, w.owner);
    } else {
      assert ch == Change(ch.elem, false);
      TakenOutInverse(w, db, ch.elem, e);
      TakenOutOwner(w, db, ch.elem, z);
      TakenOutOwner(w, db, ch.elem, w.owner);
      assert Apart(db, w.item, z, w.item, w.owner);
      assert db.Readable(db.Read(w.item, z));
    }
  }

  lemma {:induction false} NamesAfter(w: Write, db: Db, rest: seq<Change>, e: Oid, z: Oid)
    requires ReadyN(w, db) && w.owner < db.next && Distinct(rest) && z != w.owner
    requires forall ch | ch in rest :: ch.elem != NULL_OID
    ensures var now := PerformAll(w, rest, db);
            && now.Members(w.inv, e) ==
                 (if Change(e, true) in rest then db.Members(w.inv, e) + {w.owner}
                  else if Change(e, false) in rest then db.Members(w.inv, e) - {w.owner}
                  else db.Members(w.inv, e))
            && now.Members(w.item, w.owner) == db.Members(w.item, w.owner)
            && (e in now.Members(w.item, z) <==>
                  e in db.Members(w.item, z) && !(Change(e, false) in rest && z in db.Members(w.inv, e)))
    decreases |rest|
  {
    hide Perform, ReadyN;
    if rest != [] {
      assert rest[0] in rest;
      ElemNChanges(w, db, rest[0], e, z);
      ElemNReady(w, db, rest[0]);
      HeadAndTail(rest, e, true);
      HeadAndTail(rest, e, false);
      NamesAfter(w, Perform(w, rest[0], db), rest[1..], e, z);
    }
  }

  /** What a write of a collection leaves where the inverse is a collection too: this one holds what it is
      asked to, the inverse collection of each element that is inserted or taken out gains or loses this
      owner, and elements that are taken out leave the collections of all other owners as well. */
  lemma WrittenNames(w: Write, c: Oid, changes: seq<Change>, db: Db, e: Oid, z: Oid)
    requires ReadyN(w, db) && SymNN(db, w.item, w.inv) && Writable(w, c, changes, db) && z != w.owner
    ensures var now := Written(w, c, changes, db);
            && now.Members(w.inv, e) ==
                 (if Change(e, true) in changes then db.Members(w.inv, e) + {w.owner}
                  else if Change(e, false) in changes then db.Members(w.inv, e) - {w.owner}
                  else db.Members(w.inv, e))
            && (e in now.Members(w.item, w.owner) <==>
                  Change(e, true) in changes || (e in db.Members(w.item, w.owner) && Change(e, false) !in changes))
            && (e in now.Members(w.item, z) <==> e in db.Members(w.item, z) && Change(e, false) !in changes)
  {
    var mid := WithElems(db, c, Edited(db.Elems(c), changes));
    EditedOthers(w, c, changes, db, {w.item, w.inv});
    EditedExactly(db.Elems(c), changes, e);
    assert ReadyN(w, mid);
    NamesAfter(w, mid, changes, e, z);
    hide ReadyN, WithElems, Edited;
    if z != NULL_OID && e != NULL_OID {
      assert AgreeNN(db, w.item, w.inv, z, e);
    }
    if Change(e, false) in changes {
      assert e != NULL_OID;
    }
    assert z == NULL_OID ==> db.Read(w.item, z) == NULL_OID;
  }

  lemma {:induction false} ReadsAfter(w: Write, db: Db, rest: seq<Change>, i: Item, o: Oid)
    requires i != w.inv || (w.many && Change(o, true) !in rest)
    ensures PerformAll(w, rest, db).Read(i, o) == db.Read(i, o)
    decreases |rest|
  {
    if rest != [] {
      assert rest[0] == Change(rest[0].elem, rest[0].added) && rest[0] in rest;
      assert Perform(w, rest[0], db).Read(i, o) == db.Read(i, o);
      ReadsAfter(w, Perform(w, rest[0], db), rest[1..], i, o);
    }
  }

  /** Only the inverse ends of the changes are written, and where these are collections only to record
      one that was made. */
  lemma WrittenElsewhere(w: Write, c: Oid, changes: seq<Change>, db: Db, i: Item, o: Oid)
    requires i != w.inv || (w.many && Change(o, true) !in changes)
    ensures Written(w, c, changes, db).Read(i, o) == db.Read(i, o)
  {
    ReadsAfter(w, WithElems(db, c, Edited(db.Elems(c), changes)), changes, i, o);
  }

  /** The relationship that is written through is in order. */
  ghost predicate Consistent(w: Write, db: Db) {
    if w.many then ReadyN(w, db) && SymNN(db, w.item, w.inv) else Ready1(w, db) && Sym1N(db, w.inv, w.item)
  }

  /** Distinct changes of the collection that the attribute holds, in such a relationship. */
  ghost predicate Orderly(w: Write, c: Oid, changes: seq<Change>, db: Db) {
    Consistent(w, db) && Distinct(changes) && db.Read(w.item, w.owner) == c
  }

  /** The collection that was written holds what was inserted, and of what it held all that was not
      taken out. */
  ghost predicate Holds(w: Write, changes: seq<Change>, was: Db, now: Db) {
    forall e :: e in now.Members(w.item, w.owner) <==>
      Change(e, true) in changes || (e in was.Members(w.item, w.owner) && Change(e, false) !in changes)
  }

  /** An element was inserted that had the parent `p`. */
  ghost predicate Lost(w: Write, changes: seq<Change>, was: Db, p: Oid) {
    exists f :: Change(f, true) in changes && was.Read(w.inv, f) == p
  }

  /** The other end of a write, and the collections of other owners. */
  ghost predicate OtherEnd1(w: Write, changes: seq<Change>, was: Db, now: Db) {
    && (forall e | Change(e, true) in changes :: now.Read(w.inv, e) == w.owner)
    && (forall e | Change(e, false) in changes :: now.Read(w.inv, e) == NULL_OID)
    && (forall e | Change(e, true) !in changes && Change(e, false) !in changes ::
          now.Read(w.inv, e) ==
            if was.Read(w.inv, e) != w.owner && Lost(w, changes, was, was.Read(w.inv, e)) then NULL_OID
            else was.Read(w.inv, e))
    && (forall p | p != w.owner ::
          now.Members(w.item, p) == if Lost(w, changes, was, p) then {} else was.Members(w.item, p))
  }

  ghost predicate OtherEndN(w: Write, changes: seq<Change>, was: Db, now: Db) {
    && (forall e | Change(e, true) in changes :: now.Members(w.inv, e) == was.Members(w.inv, e) + {w.owner})
    && (forall e | Change(e, false) in changes :: now.Members(w.inv, e) == was.Members(w.inv, e) - {w.owner})
    && (forall e | Change(e, true) !in changes && Change(e, false) !in changes ::
          now.Members(w.inv, e) == was.Members(w.inv, e))
    && (forall p | p != w.owner ::
          now.Members(w.item, p) == set e | e in was.Members(w.item, p) && Change(e, false) !in changes)
  }

  /** All that a write leaves in the relationship, for either kind of inverse. */
  lemma WrittenThrough(w: Write, c: Oid, changes: seq<Change>, db: Db, now: Db)
    requires Consistent(w, db) && Writable(w, c, changes, db) && now == Written(w, c, changes, db)
    ensures Holds(w, changes, db, now)
    ensures if w.many then OtherEndN(w, changes, db, now) else OtherEnd1(w, changes, db, now)
    ensures forall i, o | i != w.inv || (w.many && Change(o, true) !in changes) :: now.Read(i, o) == db.Read(i, o)
  {
    hide Written, ReadyN, Ready1, SymNN, Sym1N, Writable, Holds, OtherEnd1, OtherEndN;
    forall i, o | i != w.inv || (w.many && Change(o, true) !in changes)
      ensures now.Read(i, o) == db.Read(i, o)
    {
      WrittenElsewhere(w, c, changes, db, i, o);
    }
    if w.many {
      WrittenThroughN(w, c, changes, db, now);
    } else {
      WrittenThrough1(w, c, changes, db, now);
    }
  }

  lemma WrittenThrough1(w: Write, c: Oid, changes: seq<Change>, db: Db, now: Db)
    requires Ready1(w, db) && Sym1N(db, w.inv, w.item) && Writable(w, c, changes, db)
    requires now == Written(w, c, changes, db)
    ensures Holds(w, changes, db, now) && OtherEnd1(w, changes, db, now)
  {
    NeverBoth(w, c, changes, db);
    var other: Oid :| other != w.owner;
    hide Written, Ready1, Sym1N, Writable;
    forall e, p | p != w.owner
      ensures e in now.Members(w.item, w.owner) <==>
        Change(e, true) in changes || (e in db.Members(w.item, w.owner) && Change(e, false) !in changes)
      ensures e in now.Members(w.item, p) <==> e in db.Members(w.item, p) && !Lost(w, changes, db, p)
    {
      WrittenHolds(w, c, changes, db, e, p);
    }
    forall e
      ensures now.Read(w.inv, e) ==
        if Change(e, true) in changes then w.owner
        else if Change(e, false) in changes then NULL_OID
        else if db.Read(w.inv, e) != w.owner && Lost(w, changes, db, db.Read(w.inv, e)) then NULL_OID
        else db.Read(w.inv, e)
    {
      WrittenPoints(w, c, changes, db, e);
    }
  }

  lemma WrittenThroughN(w: Write, c: Oid, changes: seq<Change>, db: Db, now: Db)
    requires ReadyN(w, db) && SymNN(db, w.item, w.inv) && Writable(w, c, changes, db)
    requires now == Written(w, c, changes, db)
    ensures Holds(w, changes, db, now) && OtherEndN(w, changes, db, now)
  {
    NeverBoth(w, c, changes, db);
    var other: Oid :| other != w.owner;
    hide Written, ReadyN, SymNN, Writable;
    forall e
      ensures e in now.Members(w.item, w.owner) <==>
        Change(e, true) in changes || (e in db.Members(w.item, w.owner) && Change(e, false) !in changes)
      ensures Change(e, true) in changes ==> now.Members(w.inv, e) == db.Members(w.inv, e) + {w.owner}
      ensures Change(e, false) in changes ==> now.Members(w.inv, e) == db.Members(w.inv, e) - {w.owner}
      ensures Change(e, true) !in changes && Change(e, false) !in changes ==>
        now.Members(w.inv, e) == db.Members(w.inv, e)
    {
      WrittenNames(w, c, changes, db, e, other);
    }
    forall e, p | p != w.owner
      ensures e in now.Members(w.item, p) <==> e in db.Members(w.item, p) && Change(e, false) !in changes
    {
      WrittenNames(w, c, changes, db, e, p);
    }
  }

  lemma NeverBoth(w: Write, c: Oid, changes: seq<Change>, db: Db)
    requires Writable(w, c, changes, db)
    ensures forall e | Change(e, true) in changes :: Change(e, false) !in changes
  {
  }

  /** Distinct changes can be made exactly when what they take out is there. */
  lemma {:induction false} EditableExactly(es: set<Oid>, changes: seq<Change>)
    requires Distinct(changes)
    ensures Editable(es, changes) <==> forall e | Change(e, false) in changes :: e in es
    decreases |changes|
  {
    if changes != [] {
      EditableExactly(Edit(es, changes[0]), changes[1..]);
      assert forall e, b :: Change(e, b) in changes <==> changes[0] == Change(e, b) || Change(e, b) in changes[1..];
      assert forall e, b | Change(e, b) in changes[1..] :: e != changes[0].elem;
    }
  }
}
