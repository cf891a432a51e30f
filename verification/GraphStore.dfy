/** Storing an object with everything it refers to: a walk over a graph that may share objects
    and run in circles, told apart by a flag on each object. */
module GraphStore {

  /** 0 is the oid of no object. */
  type Oid = nat
  const NO_OID: Oid := 0

  class Node {
    var oid: Oid
    var refs: seq<Node?>
    /** The reference slots of the IDR. */
    var oids: seq<Oid>
    /** The `modify` flag: the IDR has changed since it was read or written. */
    var touched: bool
    /** The `Realizing` flag. */
    var realizing: bool

    constructor (n: nat)
      ensures oid == NO_OID && refs == seq(n, _ => null) && oids == seq(n, _ => NO_OID)
      ensures !touched && !realizing
    {
      oid, refs, oids := NO_OID, seq(n, _ => null), seq(n, _ => NO_OID);
      touched, realizing := false, false;
    }

    /** Changes a reference slot of the IDR, and notes it only if it does change. */
    method SetItemOid(j: nat, o: Oid)
      requires j < |oids|
      modifies `oids, `touched
      ensures oids == old(oids)[j := o]
      ensures touched == (old(touched) || old(oids)[j] != o)
    {
      if oids[j] != o {
        oids := oids[j := o];
        touched := true;
      }
    }
  }

  class Database {
    var next: Oid
    var objects: map<Oid, seq<Oid>>
    var useMap: bool
    var realized: set<Node>
    /** The objects that the walk has stored. */
    ghost var done: set<Node>
    /** How often an object has been created. */
    ghost var creations: nat

    constructor ()
      ensures next == 1 && objects == map[] && !useMap && realized == {} && done == {} && creations == 0
    {
      next, objects, useMap, realized, done, creations := 1, map[], false, {}, {}, 0;
    }

    /** Reserves an oid. */
    method OidMake() returns (o: Oid)
      modifies `next
      ensures o == old(next) && next == old(next) + 1
    {
      o := next;
      next := next + 1;
    }

    method ObjectCreate(o: Oid, idr: seq<Oid>)
      modifies `objects, `creations
      ensures objects == old(objects)[o := idr] && creations == old(creations) + 1
    {
      objects := objects[o := idr];
      creations := creations + 1;
    }

    method ObjectWrite(o: Oid, idr: seq<Oid>)
      modifies `objects
      ensures objects == old(objects)[o := idr]
    {
      objects := objects[o := idr];
    }
  }

  // ----- the state of a walk, as a value

  datatype Info = Info(oid: Oid, refs: seq<Node?>, oids: seq<Oid>, touched: bool, realizing: bool)

  datatype State = State(nodes: map<Node, Info>, next: Oid, objects: map<Oid, seq<Oid>>, useMap: bool, done: set<Node>,
                         creations: nat)

  ghost function Seen(x: Node): Info
    reads x
  {
    Info(x.oid, x.refs, x.oids, x.touched, x.realizing)
  }

  ghost function View(g: set<Node>, db: Database): State
    reads g, db
  {
    State(map x | x in g :: Seen(x), db.next, db.objects, db.useMap, db.done, db.creations)
  }

  /** The walk is at an object, or has been there. */
  ghost predicate Met(s: State, x: Node)
    requires x in s.nodes
  {
    x in s.done || s.nodes[x].realizing
  }

  /** A reference slot holds the oid of the object referred to, which the walk has met. */
  ghost predicate Linked(s: State, x: Node, i: nat)
    requires x in s.nodes && i < |s.nodes[x].refs|
  {
    var r := s.nodes[x].refs[i];
    r != null ==> r in s.nodes && Met(s, r) && i < |s.nodes[x].oids| && s.nodes[x].oids[i] == s.nodes[r].oid
  }

  ghost predicate Settled(s: State, x: Node)
    requires x in s.nodes
  {
    var a := s.nodes[x];
    && a.oid in s.objects && s.objects[a.oid] == a.oids && !a.touched
    && forall i | 0 <= i < |a.refs| :: Linked(s, x, i)
  }

  /** An object the walk has yet to come to: new, or stored and then as stored unless touched. */
  ghost predicate Waiting(s: State, x: Node)
    requires x in s.nodes
  {
    var a := s.nodes[x];
    a.oid != NO_OID ==> a.oid in s.objects && (a.touched || s.objects[a.oid] == a.oids)
  }

  ghost predicate Closed(s: State, a: Info) {
    forall i | 0 <= i < |a.refs| :: a.refs[i] != null ==> a.refs[i] in s.nodes
  }

  ghost predicate Sound(s: State, x: Node)
    requires x in s.nodes
  {
    var a := s.nodes[x];
    && |a.oids| == |a.refs| && Closed(s, a) && a.oid < s.next
    && (a.realizing ==> a.oid != NO_OID)
    && (x in s.done ==> Settled(s, x))
    && (!Met(s, x) ==> Waiting(s, x))
  }

  ghost predicate Distinct(s: State) {
    forall x, y | x in s.nodes && y in s.nodes && x != y ::
      s.nodes[x].oid != s.nodes[y].oid || s.nodes[x].oid == NO_OID
  }

  ghost predicate Inv(s: State) {
    && NO_OID < s.next && (forall o | o in s.objects :: NO_OID < o < s.next)
    && s.done <= s.nodes.Keys && Distinct(s)
    && forall x | x in s.nodes :: Sound(s, x)
  }

  // ----- what a walk may do

  /** An object that was met is left alone; one that is not stored either; an oid is for life. The
      flags of others come back as they were, except, when the map of stored objects is used, on
      what it holds. */
  ghost predicate NodeGrows(s: State, t: State, x: Node)
    requires x in s.nodes && x in t.nodes
  {
    var a, b := s.nodes[x], t.nodes[x];
    && b.refs == a.refs
    && (Met(s, x) || x !in t.done ==> b.oid == a.oid && b.oids == a.oids && b.touched == a.touched)
    && (a.oid != NO_OID ==> b.oid == a.oid)
    && (a.oid == NO_OID ==> b.oid == NO_OID || s.next <= b.oid)
    && (a.realizing ==> b.realizing && (x in t.done ==> x in s.done))
    && (b.realizing ==> a.realizing || (s.useMap && x in t.done))
  }

  /** The oids of the objects stored between two states. */
  ghost function Stored(s: State, t: State): set<Oid>
    requires t.done <= t.nodes.Keys
  {
    set x | x in t.done && x !in s.done :: t.nodes[x].oid
  }

  ghost predicate NodesGrow(s: State, t: State) {
    && t.nodes.Keys == s.nodes.Keys && t.useMap == s.useMap && s.next <= t.next
    && s.done <= t.done <= t.nodes.Keys
    && forall x | x in s.nodes :: NodeGrows(s, t, x)
  }

  /** Only what was stored has changed in the database, and each creation added an object. */
  ghost predicate ObjectsGrow(s: State, t: State)
    requires t.done <= t.nodes.Keys
  {
    && t.creations - s.creations == |t.objects| - |s.objects|
    && t.objects.Keys == s.objects.Keys + Stored(s, t)
    && forall o | o in s.objects && o !in Stored(s, t) :: o in t.objects && t.objects[o] == s.objects[o]
  }

  ghost predicate Grows(s: State, t: State) {
    NodesGrow(s, t) && ObjectsGrow(s, t)
  }

  lemma GrowsItself(s: State)
    requires s.done <= s.nodes.Keys
    ensures Grows(s, s)
  {
  }

  lemma StoredOn(s: State, t: State, u: State)
    requires Grows(s, t) && Grows(t, u)
    ensures Stored(s, t) + Stored(t, u) == Stored(s, u)
  {
    hide ObjectsGrow;
    forall x | x in t.done && x !in s.done ensures u.nodes[x].oid == t.nodes[x].oid {
      assert NodeGrows(t, u, x);
    }
    forall o | o in Stored(s, t) ensures o in Stored(s, u) {
      var x :| x in t.done && x !in s.done && t.nodes[x].oid == o;
      assert x in u.done;
    }
    forall o | o in Stored(t, u) ensures o in Stored(s, u) {
      var x :| x in u.done && x !in t.done && u.nodes[x].oid == o;
    }
    forall o | o in Stored(s, u) ensures o in Stored(s, t) + Stored(t, u) {
      var x :| x in u.done && x !in s.done && u.nodes[x].oid == o;
    }
  }

  lemma ObjectsOn(m: map<Oid, seq<Oid>>, m': map<Oid, seq<Oid>>, m'': map<Oid, seq<Oid>>,
                  stored: set<Oid>, own: set<Oid>)
    requires m'.Keys == m.Keys + stored && (forall o | o in m && o !in stored :: m'[o] == m[o])
    requires m''.Keys == m'.Keys + own && (forall o | o in m' && o !in own :: m''[o] == m'[o])
    ensures m''.Keys == m.Keys + (stored + own)
    ensures forall o | o in m && o !in stored + own :: m''[o] == m[o]
  {
  }

  lemma NodesGrowOn(s: State, t: State, u: State)
    requires NodesGrow(s, t) && NodesGrow(t, u)
    ensures NodesGrow(s, u)
  {
  }

  lemma ObjectsGrowOn(s: State, t: State, u: State)
    requires t.done <= t.nodes.Keys && u.done <= u.nodes.Keys && ObjectsGrow(s, t) && ObjectsGrow(t, u)
    requires Stored(s, t) + Stored(t, u) == Stored(s, u)
    ensures ObjectsGrow(s, u)
  {
    hide Stored;
    ObjectsOn(s.objects, t.objects, u.objects, Stored(s, t), Stored(t, u));
  }

  lemma GrowsOn(s: State, t: State, u: State)
    requires Grows(s, t) && Grows(t, u)
    ensures Grows(s, u)
  {
    assert t.done <= t.nodes.Keys && u.done <= u.nodes.Keys;
    hide ObjectsGrow, NodesGrow, Stored;
    NodesGrowOn(s, t, u);
    StoredOn(s, t, u);
    ObjectsGrowOn(s, t, u);
  }

  // ----- the steps of a walk

  ghost function Put(s: State, n: Node, a: Info): State {
    s.(nodes := s.nodes[n := a])
  }

  /** An object at which the walk is may change its IDR, but for its oid. */
  ghost predicate Revised(a: Info, b: Info) {
    b.refs == a.refs && b.oid == a.oid && b.realizing && a.realizing && |b.oids| == |a.oids|
  }

  lemma InvPut(s: State, n: Node, b: Info)
    requires Inv(s) && n in s.nodes && n !in s.done && Revised(s.nodes[n], b)
    ensures Inv(Put(s, n, b))
  {
    var t := Put(s, n, b);
    assert Sound(s, n);
    forall x | x in t.nodes ensures Sound(t, x) {
      assert Sound(s, x);
      if x in s.done {
        forall i | 0 <= i < |t.nodes[x].refs| ensures Linked(t, x, i) {
          assert Linked(s, x, i);
        }
      }
    }
  }

  lemma GrowsPut(s: State, t: State, n: Node, b: Info)
    requires Grows(s, t) && n in s.nodes && Revised(s.nodes[n], b)
    ensures Grows(Put(s, n, b), Put(t, n, b))
  {
    hide ObjectsGrow;
    var s', t' := Put(s, n, b), Put(t, n, b);
    assert NodeGrows(s, t, n);
    forall x | x in s'.nodes ensures NodeGrows(s', t', x) {
      assert NodeGrows(s, t, x);
    }
    assert NodesGrow(s', t');
    ObjectsPut(s, t, n, b);
  }

  lemma StoredSame(s: State, t: State, s': State, t': State)
    requires t.done <= t.nodes.Keys && t'.done <= t'.nodes.Keys && s.done == s'.done && t.done == t'.done
    requires forall x | x in t.done && x !in s.done :: t'.nodes[x].oid == t.nodes[x].oid
    ensures Stored(s', t') == Stored(s, t)
  {
  }

  lemma ObjectsPut(s: State, t: State, n: Node, b: Info)
    requires Grows(s, t) && n in s.nodes && Revised(s.nodes[n], b)
    ensures var t' := Put(t, n, b); t'.done <= t'.nodes.Keys && ObjectsGrow(Put(s, n, b), t')
  {
    var s', t' := Put(s, n, b), Put(t, n, b);
    assert NodeGrows(s, t, n);
    hide NodeGrows;
    forall x | x in t.done && x !in s.done ensures t'.nodes[x].oid == t.nodes[x].oid {
      assert x in t.nodes;
    }
    StoredSame(s, t, s', t');
  }

  /** The walk comes to `n`. */
  ghost function Entered(s: State, n: Node): State
    requires n in s.nodes
  {
    var a := s.nodes[n];
    if a.oid == NO_OID then Put(s.(next := s.next + 1), n, a.(oid := s.next, realizing := true))
    else Put(s, n, a.(realizing := true))
  }

  lemma EnterNode(s: State, n: Node, x: Node)
    requires Inv(s) && n in s.nodes && !s.nodes[n].realizing && x in s.nodes
    ensures Sound(Entered(s, n), x)
  {
    var t := Entered(s, n);
    assert Sound(s, x) && Sound(s, n);
    if x in s.done {
      forall i | 0 <= i < |t.nodes[x].refs| ensures Linked(t, x, i) {
        assert Linked(s, x, i);
        var r := s.nodes[x].refs[i];
        if r != null { assert Sound(s, r); }
      }
    }
  }

  lemma EnterSound(s: State, n: Node)
    requires Inv(s) && n in s.nodes && !s.nodes[n].realizing
    ensures Inv(Entered(s, n))
  {
    var t := Entered(s, n);
    forall x | x in t.nodes ensures Sound(t, x) {
      EnterNode(s, n, x);
    }
    hide Waiting, Settled, Closed;
    forall x, y | x in t.nodes && y in t.nodes && x != y
      ensures t.nodes[x].oid != t.nodes[y].oid || t.nodes[x].oid == NO_OID
    {
      assert Sound(s, x) && Sound(s, y);
    }
  }

  /** With the map of stored objects, the walk does not enter an object twice, and leaves its flag
      set. */
  lemma Again(s: State, n: Node)
    requires Inv(s) && n in s.done && s.useMap && n in s.nodes
    ensures var t := Put(s, n, s.nodes[n].(realizing := true)); Inv(t) && Grows(s, t)
  {
    var t := Put(s, n, s.nodes[n].(realizing := true));
    assert Sound(s, n);
    forall x | x in t.nodes ensures Sound(t, x) && NodeGrows(s, t, x) {
      assert Sound(s, x);
      if x in s.done {
        forall i | 0 <= i < |t.nodes[x].refs| ensures Linked(t, x, i) {
          assert Linked(s, x, i);
        }
      }
    }
    assert Stored(s, t) == {};
  }

  // ----- what is due for the object the walk is at

  /** The slots before `i` hold the oids of what they refer to. */
  ghost predicate Partly(s: State, n: Node, i: nat)
    requires n in s.nodes && i <= |s.nodes[n].refs|
  {
    forall k: nat | k < i :: Linked(s, n, k)
  }

  /** Its IDR has yet to be created; or it is stored, and then as it is unless touched. */
  ghost predicate Pending(s: State, n: Node, creating: bool)
    requires n in s.nodes
  {
    var a := s.nodes[n];
    if creating then n !in s.done && a.oid !in s.objects
    else a.oid in s.objects && (a.touched || s.objects[a.oid] == a.oids)
  }

  lemma LinkedOn(s: State, t: State, n: Node, k: nat)
    requires Grows(s, t) && n in s.nodes && s.nodes[n].realizing && k < |s.nodes[n].refs| && Linked(s, n, k)
    ensures NodeGrows(s, t, n) && Linked(t, n, k)
  {
  }

  lemma PendingOn(s: State, t: State, n: Node, creating: bool)
    requires Inv(s) && Inv(t) && Grows(s, t) && n in s.nodes && s.nodes[n].realizing && Pending(s, n, creating)
    ensures t.nodes[n] == s.nodes[n] && Pending(t, n, creating) && (n in t.done <==> n in s.done)
  {
    assert NodeGrows(s, t, n) && Sound(s, n);
    var o := s.nodes[n].oid;
    forall x | x in t.done && x !in s.done ensures t.nodes[x].oid != o {
      assert NodeGrows(s, t, x);
    }
    assert o !in Stored(s, t);
  }

  lemma SlotKeeps(s: State, n: Node, i: nat, b: Info)
    requires n in s.nodes && i < |s.nodes[n].refs| && Revised(s.nodes[n], b) && |b.oids| == |b.refs|
    requires Partly(s, n, i) && b.oids == s.nodes[n].oids[i := b.oids[i]]
    ensures Partly(Put(s, n, b), n, i)
  {
    var t := Put(s, n, b);
    forall k: nat | k < i ensures Linked(t, n, k) {
      assert Linked(s, n, k);
    }
  }

  /** The walk is through with `n`: it has been created, or written if touched. */
  ghost function Left(s: State, n: Node, creating: bool): State
    requires n in s.nodes
  {
    var a := s.nodes[n];
    var t := s.(nodes := s.nodes[n := a.(realizing := false, touched := false)], done := s.done + {n});
    if creating then t.(objects := s.objects[a.oid := a.oids], creations := s.creations + 1)
    else if a.touched then t.(objects := s.objects[a.oid := a.oids])
    else t
  }

  lemma LeaveSoundAt(s: State, n: Node, creating: bool, x: Node)
    requires Inv(s) && n in s.nodes && s.nodes[n].realizing && Pending(s, n, creating)
    requires Partly(s, n, |s.nodes[n].refs|) && x in s.nodes
    ensures Sound(Left(s, n, creating), x)
  {
    var t := Left(s, n, creating);
    assert Sound(s, n) && Sound(s, x);
    if x in t.done {
      forall i | 0 <= i < |t.nodes[x].refs| ensures Linked(t, x, i) {
        assert Linked(s, x, i);
      }
    }
  }

  lemma LeaveSound(s: State, n: Node, creating: bool)
    requires Inv(s) && n in s.nodes && s.nodes[n].realizing && Pending(s, n, creating)
    requires Partly(s, n, |s.nodes[n].refs|)
    ensures Inv(Left(s, n, creating))
  {
    var t := Left(s, n, creating);
    assert Sound(s, n);
    forall x | x in t.nodes ensures Sound(t, x) {
      LeaveSoundAt(s, n, creating, x);
    }
  }

  /** What was stored between the walk's coming to `n` and its leaving it. */
  lemma LeaveNew(s: State, e: State, t: State, u: State, n: Node, creating: bool, x: Node)
    requires Inv(s) && n in s.nodes && n in t.nodes && e == Put(Entered(s, n), n, t.nodes[n])
    requires u == Left(t, n, creating)
    requires t.nodes[n].realizing && Grows(e, t)
    ensures x in u.done && x !in s.done <==> (x in t.done && x !in e.done) || (x == n && n !in s.done)
    ensures x in t.nodes ==> x in u.nodes && u.nodes[x].oid == t.nodes[x].oid
  {
    assert NodeGrows(e, t, n);
  }

  lemma LeaveDone(s: State, e: State, t: State, u: State, n: Node, creating: bool)
    requires Inv(s) && n in s.nodes && n in t.nodes && e == Put(Entered(s, n), n, t.nodes[n])
    requires u == Left(t, n, creating)
    requires t.nodes[n].realizing && Grows(e, t)
    ensures t.done <= t.nodes.Keys && u.done <= u.nodes.Keys && e.objects == s.objects && e.creations == s.creations
  {
  }

  lemma StoredWith(s: State, e: State, t: State, u: State, n: Node)
    requires t.done <= t.nodes.Keys && u.done <= u.nodes.Keys && n in t.nodes
    requires forall x :: x in u.done && x !in s.done <==> (x in t.done && x !in e.done) || (x == n && n !in s.done)
    requires forall x :: x in t.nodes ==> x in u.nodes && u.nodes[x].oid == t.nodes[x].oid
    ensures Stored(s, u) == Stored(e, t) + if n in s.done then {} else {t.nodes[n].oid}
  {
    forall p | p in Stored(e, t) ensures p in Stored(s, u) {
      var x :| x in t.done && x !in e.done && t.nodes[x].oid == p;
      assert x in u.done && u.nodes[x].oid == p;
    }
    forall p | p in Stored(s, u) && p !in Stored(e, t) ensures n !in s.done && p == t.nodes[n].oid {
      var x :| x in u.done && x !in s.done && u.nodes[x].oid == p;
    }
    assert n !in s.done ==> n in u.done && u.nodes[n].oid == t.nodes[n].oid;
  }

  lemma LeaveStored(s: State, e: State, t: State, u: State, n: Node, creating: bool)
    requires Inv(s) && n in s.nodes && n in t.nodes && e == Put(Entered(s, n), n, t.nodes[n])
    requires u == Left(t, n, creating)
    requires t.nodes[n].realizing && Grows(e, t)
    ensures t.done <= t.nodes.Keys && u.done <= u.nodes.Keys
    ensures Stored(s, u) == Stored(e, t) + if n in s.done then {} else {t.nodes[n].oid}
  {
    hide *;
    LeaveDone(s, e, t, u, n, creating);
    forall x
      ensures x in u.done && x !in s.done <==> (x in t.done && x !in e.done) || (x == n && n !in s.done)
      ensures x in t.nodes ==> x in u.nodes && u.nodes[x].oid == t.nodes[x].oid
    {
      LeaveNew(s, e, t, u, n, creating, x);
    }
    StoredWith(s, e, t, u, n);
  }

  lemma LeaveNode(s: State, t: State, n: Node, creating: bool, x: Node)
    requires n in s.nodes && n in t.nodes && x in s.nodes && x in t.nodes && x != n
    requires Put(Entered(s, n), n, t.nodes[n]).useMap == s.useMap && t.useMap == s.useMap
    requires NodeGrows(Put(Entered(s, n), n, t.nodes[n]), t, x)
    ensures NodeGrows(s, Left(t, n, creating), x)
  {
    assert Put(Entered(s, n), n, t.nodes[n]).nodes[x] == s.nodes[x] && Left(t, n, creating).nodes[x] == t.nodes[x];
  }

  lemma LeaveSelf(s: State, t: State, n: Node, creating: bool)
    requires Inv(s) && n in s.nodes && n in t.nodes && !s.nodes[n].realizing
    requires Revised(Entered(s, n).nodes[n], t.nodes[n])
    requires n in s.done ==> t.nodes[n] == Entered(s, n).nodes[n] && !t.nodes[n].touched
    ensures NodeGrows(s, Left(t, n, creating), n)
  {
    assert Sound(s, n);
  }

  lemma Counted(m: map<Oid, seq<Oid>>, o: Oid, idr: seq<Oid>)
    ensures |m[o := idr]| == if o in m then |m| else |m| + 1
  {
  }

  lemma LeaveOwn(t: State, n: Node, creating: bool, again: bool)
    requires n in t.nodes && Pending(t, n, creating) && (again ==> !creating && !t.nodes[n].touched)
    ensures var own, u := if again then {} else {t.nodes[n].oid}, Left(t, n, creating);
            && u.creations - t.creations == |u.objects| - |t.objects| && u.objects.Keys == t.objects.Keys + own
            && forall o | o in t.objects && o !in own :: u.objects[o] == t.objects[o]
  {
    Counted(t.objects, t.nodes[n].oid, t.nodes[n].oids);
  }

  lemma ObjectsGrowWith(s: State, e: State, t: State, u: State, own: set<Oid>)
    requires e.objects == s.objects && e.creations == s.creations
    requires t.done <= t.nodes.Keys && u.done <= u.nodes.Keys && ObjectsGrow(e, t) && Stored(s, u) == Stored(e, t) + own
    requires u.creations - t.creations == |u.objects| - |t.objects| && u.objects.Keys == t.objects.Keys + own
    requires forall o | o in t.objects && o !in own :: u.objects[o] == t.objects[o]
    ensures ObjectsGrow(s, u)
  {
    hide Stored;
    ObjectsOn(s.objects, t.objects, u.objects, Stored(e, t), own);
  }

  lemma LeaveObjects(s: State, t: State, n: Node, creating: bool)
    requires Inv(s) && n in s.nodes && n in t.nodes && t.nodes[n].realizing
    requires Grows(Put(Entered(s, n), n, t.nodes[n]), t)
    requires Pending(t, n, creating)
    requires n in s.done ==> !creating && !t.nodes[n].touched
    ensures var u := Left(t, n, creating); u.done <= u.nodes.Keys && ObjectsGrow(s, u)
  {
    var e, u := Put(Entered(s, n), n, t.nodes[n]), Left(t, n, creating);
    var own := if n in s.done then {} else {t.nodes[n].oid};
    LeaveDone(s, e, t, u, n, creating);
    hide Inv, NodesGrow, ObjectsGrow, Stored, Put, Left, Entered, Pending;
    LeaveOwn(t, n, creating, n in s.done);
    LeaveStored(s, e, t, u, n, creating);
    ObjectsGrowWith(s, e, t, u, own);
  }

  lemma LeaveNodes(s: State, t: State, n: Node, creating: bool)
    requires Inv(s) && n in s.nodes && !s.nodes[n].realizing && n in t.nodes
    requires Revised(Entered(s, n).nodes[n], t.nodes[n])
    requires Grows(Put(Entered(s, n), n, t.nodes[n]), t)
    requires n in s.done ==> t.nodes[n] == Entered(s, n).nodes[n] && !t.nodes[n].touched
    ensures NodesGrow(s, Left(t, n, creating))
  {
    hide Sound, Distinct, NodeGrows, ObjectsGrow;
    var e, u := Put(Entered(s, n), n, t.nodes[n]), Left(t, n, creating);
    assert u.nodes.Keys == s.nodes.Keys && s.done <= u.done <= u.nodes.Keys && s.next <= u.next;
    forall x | x in s.nodes ensures NodeGrows(s, u, x) {
      if x == n {
        LeaveSelf(s, t, n, creating);
      } else {
        assert NodeGrows(e, t, x);
        LeaveNode(s, t, n, creating, x);
      }
    }
  }

  /** From the state in which the walk came to `n` to the one in which it leaves. */
  lemma LeaveGrows(s: State, t: State, n: Node, creating: bool)
    requires Inv(s) && n in s.nodes && !s.nodes[n].realizing && n in t.nodes
    requires Revised(Entered(s, n).nodes[n], t.nodes[n])
    requires Grows(Put(Entered(s, n), n, t.nodes[n]), t)
    requires Pending(t, n, creating) && (creating ==> n !in s.done)
    requires n in s.done ==> t.nodes[n] == Entered(s, n).nodes[n] && !t.nodes[n].touched
    ensures Grows(s, Left(t, n, creating))
  {
    hide Sound, Distinct, NodeGrows, ObjectsGrow, NodesGrow;
    LeaveObjects(s, t, n, creating);
    LeaveNodes(s, t, n, creating);
  }
}
