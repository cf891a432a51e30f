/** The recursive store: it ends, whatever the shape of the graph, and stores each object once. */
module GraphWalk {
  import opened GraphStore

  /** The objects the walk is not at. */
  ghost function Free(s: State): set<Node> {
    set x | x in s.nodes && !s.nodes[x].realizing
  }

  /** The walk is at `n`, which it came to in state `s`, and has been through the references
      before `i`. */
  ghost predicate Inside(s: State, c: State, n: Node, i: nat, creating: bool) {
    && n in s.nodes && n in c.nodes && Inv(c)
    && Revised(Entered(s, n).nodes[n], c.nodes[n]) && i <= |c.nodes[n].refs|
    && Grows(Put(Entered(s, n), n, c.nodes[n]), c)
    && Partly(c, n, i) && Pending(c, n, creating)
    && (n in c.done <==> n in s.done)
    && (n in s.done ==> c.nodes[n] == Entered(s, n).nodes[n] && !creating)
  }

  lemma Started(s: State, n: Node)
    requires Inv(s) && n in s.nodes && !s.nodes[n].realizing
    ensures Inside(s, Entered(s, n), n, 0, s.nodes[n].oid == NO_OID)
  {
    var e := Entered(s, n);
    EnterSound(s, n);
    assert Sound(s, n);
    assert Put(e, n, e.nodes[n]) == e;
    GrowsItself(e);
  }

  lemma ChildDone(s: State, c: State, t: State, n: Node, i: nat, creating: bool)
    requires Inside(s, c, n, i, creating) && Inv(t) && Grows(c, t)
    ensures Inside(s, t, n, i, creating)
  {
    PendingOn(c, t, n, creating);
    GrowsOn(Put(Entered(s, n), n, c.nodes[n]), c, t);
    forall k: nat | k < i ensures Linked(t, n, k) {
      LinkedOn(c, t, n, k);
    }
  }

  /** What a slot's object becomes when the slot gets the oid of `r`. */
  ghost predicate Filled(a: Info, b: Info, i: nat, o: Oid) {
    && i < |a.oids| && b == a.(oids := a.oids[i := o], touched := b.touched)
    && b.touched == (a.touched || a.oids[i] != o)
  }

  /** On a second visit the slot has it already. */
  lemma SlotAgain(c: State, n: Node, i: nat, b: Info, r: Node)
    requires Inv(c) && n in c.done && n in c.nodes && i < |c.nodes[n].refs| && c.nodes[n].refs[i] == r && r in c.nodes
    requires Filled(c.nodes[n], b, i, c.nodes[r].oid)
    ensures b == c.nodes[n] && Put(c, n, b) == c && Linked(c, n, i)
  {
    assert Sound(c, n) && Linked(c, n, i);
  }

  /** The object's own part of the account, and the rest of the graph's. */
  lemma SlotOwn(s: State, c: State, n: Node, i: nat, creating: bool, b: Info, r: Node)
    requires Inside(s, c, n, i, creating) && n !in c.done
    requires i < |c.nodes[n].refs| && c.nodes[n].refs[i] == r && r in c.nodes && Met(c, r)
    requires Filled(c.nodes[n], b, i, c.nodes[r].oid)
    ensures Revised(c.nodes[n], b) && Pending(Put(c, n, b), n, creating) && Partly(Put(c, n, b), n, i + 1)
  {
    assert Sound(c, n);
    SlotKeeps(c, n, i, b);
    assert Linked(Put(c, n, b), n, i);
  }

  lemma PutTwice(e: State, n: Node, a: Info, b: Info)
    ensures Put(Put(e, n, a), n, b) == Put(e, n, b)
  {
  }

  lemma SlotRest(e: State, c: State, n: Node, a: Info, b: Info)
    requires Grows(Put(e, n, a), c) && Revised(a, b)
    ensures Grows(Put(e, n, b), Put(c, n, b))
  {
    PutTwice(e, n, a, b);
    GrowsPut(Put(e, n, a), c, n, b);
  }

  lemma SlotFirst(s: State, c: State, n: Node, i: nat, creating: bool, b: Info, r: Node)
    requires Inside(s, c, n, i, creating) && n !in c.done
    requires i < |c.nodes[n].refs| && c.nodes[n].refs[i] == r && r in c.nodes && Met(c, r)
    requires Filled(c.nodes[n], b, i, c.nodes[r].oid)
    ensures Inside(s, Put(c, n, b), n, i + 1, creating)
  {
    SlotOwn(s, c, n, i, creating, b, r);
    SlotRest(Entered(s, n), c, n, c.nodes[n], b);
    assert Inv(Put(c, n, b)) by {
      InvPut(c, n, b);
    }
  }

  /** The slot gets the oid of what it refers to. */
  lemma SlotDone(s: State, c: State, n: Node, i: nat, creating: bool, b: Info, r: Node)
    requires Inside(s, c, n, i, creating)
    requires i < |c.nodes[n].refs| && c.nodes[n].refs[i] == r && r in c.nodes && Met(c, r)
    requires Filled(c.nodes[n], b, i, c.nodes[r].oid)
    ensures Inside(s, Put(c, n, b), n, i + 1, creating)
  {
    if n in c.done {
      SlotAgain(c, n, i, b, r);
    } else {
      SlotFirst(s, c, n, i, creating, b, r);
    }
  }

  lemma NoRef(s: State, c: State, n: Node, i: nat, creating: bool)
    requires Inside(s, c, n, i, creating) && i < |c.nodes[n].refs| && c.nodes[n].refs[i] == null
    ensures Inside(s, c, n, i + 1, creating)
  {
  }

  lemma Ended(s: State, c: State, n: Node, creating: bool)
    requires Inv(s) && n in s.nodes && n in c.nodes && !s.nodes[n].realizing
    requires Inside(s, c, n, |c.nodes[n].refs|, creating)
    ensures Inv(Left(c, n, creating)) && Grows(s, Left(c, n, creating))
  {
    assert Sound(s, n) && Sound(c, n);
    LeaveSound(c, n, creating);
    LeaveGrows(s, c, n, creating);
  }

  // ----- the walk as a function

  /** What the walk needs of a graph to go through it at all. */
  ghost predicate Shaped(s: State) {
    forall x | x in s.nodes :: Closed(s, s.nodes[x]) && |s.nodes[x].oids| == |s.nodes[x].refs|
  }

  /** The same graph, with the walk where it was at the least. */
  ghost predicate Same(s: State, t: State) {
    && t.nodes.Keys == s.nodes.Keys
    && forall x | x in s.nodes :: t.nodes[x].refs == s.nodes[x].refs && |t.nodes[x].oids| == |s.nodes[x].oids|
                                  && (s.nodes[x].realizing ==> t.nodes[x].realizing)
  }

  lemma SameOn(s: State, t: State, u: State)
    requires Shaped(s) && Same(s, t) && Same(t, u)
    ensures Same(s, u) && Shaped(t)
  {
  }

  lemma SameFree(s: State, t: State)
    requires Same(s, t)
    ensures Free(t) <= Free(s)
  {
  }

  ghost function Fill(s: State, n: Node, i: nat, o: Oid): (t: State)
    requires n in s.nodes && i < |s.nodes[n].oids|
    ensures Same(s, t)
  {
    var a := s.nodes[n];
    Put(s, n, a.(oids := a.oids[i := o], touched := a.touched || a.oids[i] != o))
  }

  lemma EnteredSame(s: State, n: Node)
    requires Shaped(s) && n in s.nodes && !s.nodes[n].realizing
    ensures var e := Entered(s, n); Same(s, e) && Shaped(e) && e.nodes[n].realizing && Free(e) < Free(s)
  {
    var e := Entered(s, n);
    assert n in Free(s) && n !in Free(e);
  }

  lemma LeftSameAt(t: State, n: Node, creating: bool, x: Node)
    requires n in t.nodes && x in t.nodes
    ensures var u := Left(t, n, creating);
            && u.nodes.Keys == t.nodes.Keys && u.nodes[x].refs == t.nodes[x].refs && u.nodes[x].oids == t.nodes[x].oids
            && (x != n ==> u.nodes[x].realizing == t.nodes[x].realizing)
  {
  }

  lemma LeftSame(s: State, t: State, n: Node, creating: bool)
    requires n in s.nodes && !s.nodes[n].realizing && Same(Entered(s, n), t)
    ensures Same(s, Left(t, n, creating))
  {
    hide Left;
    var e, u := Entered(s, n), Left(t, n, creating);
    LeftSameAt(t, n, creating, n);
    forall x | x in s.nodes
      ensures u.nodes[x].refs == s.nodes[x].refs && |u.nodes[x].oids| == |s.nodes[x].oids|
              && (s.nodes[x].realizing ==> u.nodes[x].realizing)
    {
      LeftSameAt(t, n, creating, x);
      assert e.nodes[x].refs == s.nodes[x].refs && |e.nodes[x].oids| == |s.nodes[x].oids|;
    }
  }

  /** The recursive store. */
  ghost function Walked(s: State, n: Node): (t: State)
    requires Shaped(s) && n in s.nodes
    ensures Same(s, t)
    decreases Free(s), 0
  {
    var a := s.nodes[n];
    if a.realizing then s
    else if s.useMap && n in s.done then Put(s, n, a.(realizing := true))
    else
      EnteredSame(s, n);
      var t := Followed(Entered(s, n), n, 0);
      LeftSame(s, t, n, a.oid == NO_OID);
      Left(t, n, a.oid == NO_OID)
  }

  /** One reference of `n`. */
  ghost function Referred(c: State, n: Node, i: nat, r: Node): (t: State)
    requires Shaped(c) && n in c.nodes && i < |c.nodes[n].oids| && r in c.nodes
    ensures Same(c, t)
    decreases Free(c), 1
  {
    var d := Walked(c, r);
    SameOn(c, d, Fill(d, n, i, d.nodes[r].oid));
    Fill(d, n, i, d.nodes[r].oid)
  }

  /** The references of `n` from the one at `i` on. */
  ghost function Followed(c: State, n: Node, i: nat): (t: State)
    requires Shaped(c) && n in c.nodes && c.nodes[n].realizing && i <= |c.nodes[n].refs|
    ensures Same(c, t)
    decreases Free(c), 2, |c.nodes[n].refs| - i
  {
    if i == |c.nodes[n].refs| then c
    else
      var r := c.nodes[n].refs[i];
      if r == null then Followed(c, n, i + 1)
      else
        var e := Referred(c, n, i, r);
        SameFree(c, e);
        SameOn(c, e, e);
        Followed(e, n, i + 1)
  }

  // ----- the laws of the walk

  lemma {:induction false} WalkedLaws(s: State, n: Node)
    requires Inv(s) && Shaped(s) && n in s.nodes
    ensures Inv(Walked(s, n)) && Grows(s, Walked(s, n)) && Met(Walked(s, n), n)
    decreases Free(s), 0
  {
    hide Grows, Partly, Pending, Revised, Sound, Distinct, Free;
    var a := s.nodes[n];
    if a.realizing {
      GrowsItself(s);
    } else if s.useMap && n in s.done {
      Again(s, n);
    } else {
      var e, creating := Entered(s, n), a.oid == NO_OID;
      EnteredSame(s, n);
      Started(s, n);
      FollowedLaws(s, e, n, 0, creating);
      Ended(s, Followed(e, n, 0), n, creating);
    }
  }

  lemma {:induction false} ReferredLaws(s: State, c: State, n: Node, i: nat, creating: bool, r: Node)
    requires Shaped(c) && Inside(s, c, n, i, creating) && i < |c.nodes[n].refs| && c.nodes[n].refs[i] == r
    requires r in c.nodes && i < |c.nodes[n].oids|
    ensures Inside(s, Referred(c, n, i, r), n, i + 1, creating)
    decreases Free(c), 1
  {
    hide Grows, Partly, Pending, Revised, Sound, Distinct, Free;
    var d := Walked(c, r);
    WalkedLaws(c, r);
    ChildDone(s, c, d, n, i, creating);
    SlotDone(s, d, n, i, creating, Fill(d, n, i, d.nodes[r].oid).nodes[n], r);
  }

  lemma {:induction false} FollowedLaws(s: State, c: State, n: Node, i: nat, creating: bool)
    requires Shaped(c) && Inside(s, c, n, i, creating) && i <= |c.nodes[n].refs|
    ensures Inside(s, Followed(c, n, i), n, |c.nodes[n].refs|, creating)
    decreases Free(c), 2, |c.nodes[n].refs| - i
  {
    hide Grows, Partly, Pending, Revised, Sound, Distinct, Free;
    if i < |c.nodes[n].refs| {
      var r := c.nodes[n].refs[i];
      if r == null {
        NoRef(s, c, n, i, creating);
        FollowedLaws(s, c, n, i + 1, creating);
      } else {
        var e := Referred(c, n, i, r);
        ReferredLaws(s, c, n, i, creating, r);
        SameFree(c, e);
        SameOn(c, e, e);
        FollowedLaws(s, e, n, i + 1, creating);
      }
    }
  }

  lemma ReferredSame(s: State, c: State, n: Node, i: nat, r: Node)
    requires Shaped(s) && Shaped(c) && Same(s, c) && n in c.nodes && i < |c.nodes[n].oids| && r in c.nodes
    ensures var e := Referred(c, n, i, r); Shaped(e) && Same(s, e) && Same(c, e) && Free(e) <= Free(s)
  {
  }

  // ----- the walk in place

  /** Gives the object an oid if it has none. */
  method Identify(n: Node, db: Database, ghost g: set<Node>) returns (creating: bool)
    requires n in g && n.realizing
    modifies n`oid, db`next
    ensures creating == (old(n.oid) == NO_OID)
    ensures View(g, db) == Entered(old(View(g, db)), n)
  {
    hide Entered;
    ghost var s := View(g, db);
    creating := n.oid == NO_OID;
    if creating {
      var o := db.OidMake();
      n.oid := o;
    }
    EnteredIs(s, View(g, db), n);
  }

  lemma EnteredAgain(s: State, n: Node)
    requires n in s.nodes
    ensures Entered(Put(s, n, s.nodes[n].(realizing := true)), n) == Entered(s, n)
  {
    var t := Put(s, n, s.nodes[n].(realizing := true));
    assert Entered(t, n).nodes == Entered(s, n).nodes;
  }

  /** Creates the object, or writes it if it has changed. */
  method WriteBack(n: Node, creating: bool, db: Database)
    modifies n`touched, db`objects, db`creations
    ensures !n.touched
    ensures db.objects == if creating || old(n.touched) then old(db.objects)[n.oid := n.oids] else old(db.objects)
    ensures db.creations == if creating then old(db.creations) + 1 else old(db.creations)
  {
    if creating {
      db.ObjectCreate(n.oid, n.oids);
      n.touched := false;
    } else if n.touched {
      db.ObjectWrite(n.oid, n.oids);
      n.touched := false;
    }
  }

  /** Writes the object back and clears its flag. */
  method Leave(n: Node, creating: bool, db: Database, ghost g: set<Node>)
    requires n in g
    modifies n`touched, n`realizing, db
    ensures View(g, db) == Left(old(View(g, db)), n, creating)
    ensures db.useMap == old(db.useMap) && db.done == old(db.done) + {n}
    ensures db.realized == (if old(db.useMap) then old(db.realized) + {n} else old(db.realized))
  {
    hide Left;
    ghost var s := View(g, db);
    WriteBack(n, creating, db);
    n.realizing := false;
    if db.useMap {
      db.realized := db.realized + {n};
    }
    db.done := db.done + {n};
    LeftIs(s, View(g, db), n, creating);
  }

  lemma LeftIs(s: State, t: State, n: Node, creating: bool)
    requires n in s.nodes && n in t.nodes && t.nodes.Keys == s.nodes.Keys
    requires forall x | x in s.nodes && x != n :: t.nodes[x] == s.nodes[x]
    requires t.nodes[n] == s.nodes[n].(touched := false, realizing := false)
    requires t.next == s.next && t.useMap == s.useMap && t.done == s.done + {n}
    requires var a := s.nodes[n];
             && t.objects == (if creating || a.touched then s.objects[a.oid := a.oids] else s.objects)
             && t.creations == (if creating then s.creations + 1 else s.creations)
    ensures t == Left(s, n, creating)
  {
  }

  lemma ShapedAt(s: State, n: Node)
    requires Shaped(s) && n in s.nodes
    ensures Closed(s, s.nodes[n]) && |s.nodes[n].oids| == |s.nodes[n].refs|
  {
  }

  /** One reference: stores what it refers to, and notes its oid. */
  method Refer(n: Node, i: nat, r: Node, db: Database, ghost g: set<Node>)
    requires n in g && n.realizing && i < |n.refs| && n.refs[i] == r && Shaped(View(g, db))
    requires r in g && i < |n.oids| && (db.useMap ==> db.realized == db.done)
    modifies g`oid, g`oids, g`touched, g`realizing, db
    ensures View(g, db) == Referred(old(View(g, db)), n, i, r)
    ensures db.useMap ==> db.realized == db.done
    decreases Free(View(g, db)), 1
  {
    hide Entered, Left, Shaped, Walked, Free;
    ghost var c := View(g, db);
    Realize(r, db, g);
    assert |c.nodes[n].oids| == |View(g, db).nodes[n].oids|;
    NoteOid(n, i, r.oid, db, g);
  }

  method NoteOid(n: Node, i: nat, o: Oid, db: Database, ghost g: set<Node>)
    requires n in g && i < |n.oids|
    modifies n`oids, n`touched
    ensures View(g, db) == Fill(old(View(g, db)), n, i, o)
  {
    hide Fill, Same;
    ghost var s := View(g, db);
    n.SetItemOid(i, o);
    FillIs(s, View(g, db), n, i, o);
  }

  lemma FillIs(s: State, t: State, n: Node, i: nat, o: Oid)
    requires n in s.nodes && n in t.nodes && i < |s.nodes[n].oids| && t.nodes.Keys == s.nodes.Keys
    requires forall x | x in s.nodes && x != n :: t.nodes[x] == s.nodes[x]
    requires var a := s.nodes[n];
             t.nodes[n] == a.(oids := a.oids[i := o], touched := a.touched || a.oids[i] != o)
    requires t == s.(nodes := t.nodes)
    ensures t == Fill(s, n, i, o)
  {
  }

  lemma AgainIs(s: State, t: State, n: Node)
    requires n in s.nodes && n in t.nodes && t.nodes.Keys == s.nodes.Keys
    requires forall x | x in s.nodes && x != n :: t.nodes[x] == s.nodes[x]
    requires t.nodes[n] == s.nodes[n].(realizing := true) && t == s.(nodes := t.nodes)
    ensures t == Put(s, n, s.nodes[n].(realizing := true))
  {
  }

  method Follow(n: Node, db: Database, ghost g: set<Node>)
    requires n in g && n.realizing && Shaped(View(g, db)) && (db.useMap ==> db.realized == db.done)
    modifies g`oid, g`oids, g`touched, g`realizing, db
    ensures View(g, db) == Followed(old(View(g, db)), n, 0)
    ensures db.useMap ==> db.realized == db.done
    decreases Free(View(g, db)), 2
  {
    hide Walked, Fill, Referred, Shaped, Same, Free;
    ghost var s := View(g, db);
    SameOn(s, s, s);
    SameFree(s, s);
    var i := 0;
    while i < |n.refs|
      invariant i <= |n.refs| && n.realizing && (db.useMap ==> db.realized == db.done)
      invariant Shaped(View(g, db)) && Same(s, View(g, db)) && Free(View(g, db)) <= Free(s)
      invariant Followed(View(g, db), n, i) == Followed(s, n, 0)
    {
      ghost var c := View(g, db);
      var r := n.refs[i];
      if r != null {
        ShapedAt(c, n);
        Refer(n, i, r, db, g);
        ReferredSame(s, c, n, i, r);
      }
      i := i + 1;
    }
  }

  lemma WalkedCases(s: State, n: Node)
    requires Shaped(s) && n in s.nodes
    ensures s.nodes[n].realizing ==> Walked(s, n) == s
    ensures !s.nodes[n].realizing && s.useMap && n in s.done ==>
      Walked(s, n) == Put(s, n, s.nodes[n].(realizing := true))
    ensures !s.nodes[n].realizing && !(s.useMap && n in s.done) ==>
              var e := Entered(s, n);
              && n in e.nodes && Shaped(e) && e.nodes[n].realizing && Free(e) < Free(s) && n in Followed(e, n, 0).nodes
              && Walked(s, n) == Left(Followed(e, n, 0), n, s.nodes[n].oid == NO_OID)
  {
    hide Left, Shaped, Free, Followed, Entered;
    if !s.nodes[n].realizing {
      EnteredSame(s, n);
    }
  }

  method Realize(n: Node, db: Database, ghost g: set<Node>)
    requires n in g && Shaped(View(g, db)) && (db.useMap ==> db.realized == db.done)
    modifies g`oid, g`oids, g`touched, g`realizing, db
    ensures View(g, db) == Walked(old(View(g, db)), n)
    ensures db.useMap ==> db.realized == db.done
    decreases Free(View(g, db)), 0
  {
    hide Left, Shaped, Same, Free, Followed, Entered, Put, Walked;
    ghost var s := View(g, db);
    WalkedCases(s, n);
    if n.realizing {
      return;
    }
    n.realizing := true;
    AgainIs(s, View(g, db), n);
    if db.useMap && n in db.realized {
      return;
    }
    var creating := Identify(n, db, g);
    EnteredAgain(s, n);
    Follow(n, db, g);
    Leave(n, creating, db, g);
  }

  lemma EnteredIs(s: State, t: State, n: Node)
    requires n in s.nodes && n in t.nodes && t.nodes.Keys == s.nodes.Keys
    requires forall x | x in s.nodes && x != n :: t.nodes[x] == s.nodes[x]
    requires var a := s.nodes[n];
             t.nodes[n] == a.(oid := if a.oid == NO_OID then s.next else a.oid, realizing := true)
    requires t == s.(nodes := t.nodes, next := if s.nodes[n].oid == NO_OID then s.next + 1 else s.next)
    ensures t == Entered(s, n)
  {
  }
}
