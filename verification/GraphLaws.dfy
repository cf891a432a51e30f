/** What a recursive store achieves: everything that can be reached is stored, and nothing else. */
module GraphLaws {
  import opened GraphStore
  import opened GraphWalk

  /** A set of objects that refer to nothing outside it. */
  ghost predicate Within(s: State, k: set<Node>) {
    forall x | x in k ::
      x in s.nodes && forall i | 0 <= i < |s.nodes[x].refs| :: s.nodes[x].refs[i] != null ==> s.nodes[x].refs[i] in k
  }

  /** A walk does not leave a set it cannot leave. */
  lemma {:induction false} WalkedWithin(s: State, n: Node, k: set<Node>)
    requires Shaped(s) && n in s.nodes && n in k && Within(s, k)
    ensures s.done <= Walked(s, n).done <= s.done + k
    decreases Free(s), 0
  {
    hide Shaped, Free, Followed, Left, Entered;
    var a := s.nodes[n];
    if !a.realizing && !(s.useMap && n in s.done) {
      EnteredSame(s, n);
      SameWithin(s, Entered(s, n), k);
      hide Within, Same;
      FollowedWithin(Entered(s, n), n, 0, k);
      EntersAndLeaves(s, Followed(Entered(s, n), n, 0), n, a.oid == NO_OID);
    }
  }

  lemma EntersAndLeaves(s: State, t: State, n: Node, creating: bool)
    requires n in s.nodes && n in t.nodes
    ensures Entered(s, n).done == s.done && Left(t, n, creating).done == t.done + {n}
  {
  }

  lemma SameWithin(s: State, t: State, k: set<Node>)
    requires Same(s, t) && Within(s, k)
    ensures Within(t, k)
  {
  }

  lemma {:induction false} FollowedWithin(c: State, n: Node, i: nat, k: set<Node>)
    requires Shaped(c) && n in c.nodes && c.nodes[n].realizing && i <= |c.nodes[n].refs|
    requires n in k && Within(c, k)
    ensures c.done <= Followed(c, n, i).done <= c.done + k
    decreases Free(c), 2, |c.nodes[n].refs| - i
  {
    hide Shaped, Free, Walked;
    if i < |c.nodes[n].refs| {
      var r := c.nodes[n].refs[i];
      if r == null {
        FollowedNull(c, n, i);
        FollowedWithin(c, n, i + 1, k);
      } else {
        ShapedAt(c, n);
        var e := Referred(c, n, i, r);
        WalkedWithin(c, r, k);
        ReferredKept(c, n, i, r);
        SameFree(c, e);
        SameWithin(c, e, k);
        assert e.done == Walked(c, r).done;
        hide Referred, Followed, Same, Within;
        FollowedWithin(e, n, i + 1, k);
      }
    }
  }

  // ----- a whole store

  /** A graph at rest: no walk is on. */
  ghost predicate AtRest(s: State) {
    Inv(s) && s.done == {} && forall x | x in s.nodes :: !s.nodes[x].realizing
  }

  /** `t` is what a store of `root` makes of `s`. */
  ghost predicate StoredFrom(s: State, t: State, root: Node) {
    AtRest(s) && Shaped(s) && root in s.nodes && t == Walked(s, root)
  }

  /** What was stored is what can be reached: the least set that holds the root and what its
      members refer to. */
  lemma StoresReachable(s: State, t: State, root: Node)
    requires StoredFrom(s, t, root)
    ensures root in t.done && Within(t, t.done)
    ensures forall k | root in k && Within(s, k) :: t.done <= k
  {
    WalkedLaws(s, root);
    assert NodeGrows(s, t, root) && Met(t, root);
    forall x | x in t.done
      ensures x in t.nodes
      ensures forall i | 0 <= i < |t.nodes[x].refs| :: t.nodes[x].refs[i] != null ==> t.nodes[x].refs[i] in t.done
    {
      assert Sound(t, x);
      forall i | 0 <= i < |t.nodes[x].refs| && t.nodes[x].refs[i] != null ensures t.nodes[x].refs[i] in t.done {
        assert Linked(t, x, i);
        assert NodeGrows(s, t, t.nodes[x].refs[i]);
      }
    }
    forall k | root in k && Within(s, k) ensures t.done <= k {
      WalkedWithin(s, root, k);
    }
  }

  /** Every object stored is in the database as it is in memory, with the oids of what it refers
      to; what was not stored is untouched, and so is the rest of the database. */
  lemma StoresFaithfully(s: State, t: State, root: Node)
    requires StoredFrom(s, t, root)
    ensures t.nodes.Keys == s.nodes.Keys
    ensures forall x | x in t.done :: x in t.nodes && Settled(t, x)
    ensures forall x | x in t.done && s.nodes[x].oid != NO_OID :: t.nodes[x].oid == s.nodes[x].oid
    ensures forall x | x in s.nodes && x !in t.done ::
              t.nodes[x].oid == s.nodes[x].oid && t.nodes[x].oids == s.nodes[x].oids
                  && t.nodes[x].touched == s.nodes[x].touched
    ensures forall o | o in s.objects && (forall x | x in t.done :: t.nodes[x].oid != o) ::
              o in t.objects && t.objects[o] == s.objects[o]
  {
    WalkedLaws(s, root);
    forall x | x in t.done ensures x in t.nodes && Settled(t, x) {
      assert Sound(t, x);
    }
    forall x | x in s.nodes ensures NodeGrows(s, t, x) {
    }
  }

  lemma {:induction false} ImageSize(xs: set<Node>, m: map<Node, Info>)
    requires xs <= m.Keys
    requires forall x, y | x in xs && y in xs && x != y :: m[x].oid != m[y].oid
    ensures |OidsOf(xs, m)| == |xs|
    decreases |xs|
  {
    if xs == {} {
      assert OidsOf(xs, m) == {};
    } else {
      var y :| y in xs;
      var rest := xs - {y};
      ImageSize(rest, m);
      assert OidsOf(xs, m) == OidsOf(rest, m) + {m[y].oid};
    }
  }

  ghost function NewOnes(s: State, t: State): set<Node>
    requires t.done <= s.nodes.Keys
  {
    set x | x in t.done && s.nodes[x].oid == NO_OID
  }

  ghost function OidsOf(xs: set<Node>, m: map<Node, Info>): set<Oid>
    requires xs <= m.Keys
  {
    set x | x in xs :: m[x].oid
  }

  lemma NewKey(s: State, t: State, x: Node)
    requires AtRest(s) && Inv(t) && Grows(s, t) && x in t.done
    ensures x in s.nodes && t.nodes[x].oid in t.objects && t.nodes[x].oid != NO_OID
    ensures s.nodes[x].oid == NO_OID <==> t.nodes[x].oid !in s.objects
  {
    assert NodeGrows(s, t, x) && Sound(t, x) && Sound(s, x);
    assert Waiting(s, x);
  }

  /** The keys that come into the database are those of the new objects. */
  lemma NewKeys(s: State, t: State)
    requires AtRest(s) && Inv(t) && Grows(s, t)
    ensures t.done <= s.nodes.Keys && NewOnes(s, t) <= t.nodes.Keys
    ensures s.objects.Keys + Stored(s, t) == s.objects.Keys + OidsOf(NewOnes(s, t), t.nodes)
    ensures s.objects.Keys !! OidsOf(NewOnes(s, t), t.nodes)
    ensures forall x | x in NewOnes(s, t) :: t.nodes[x].oid != NO_OID
  {
    hide Sound, Distinct, NodeGrows, ObjectsGrow;
    var news := NewOnes(s, t);
    forall x | x in t.done ensures x in s.nodes && t.nodes[x].oid in t.objects && t.nodes[x].oid != NO_OID
                                   && (x in news <==> t.nodes[x].oid !in s.objects) {
      NewKey(s, t, x);
    }
    forall o | o in Stored(s, t) ensures o in s.objects.Keys || o in OidsOf(news, t.nodes) {
      var x :| x in t.done && x !in s.done && t.nodes[x].oid == o;
      assert x in news || o in s.objects;
    }
    assert OidsOf(news, t.nodes) <= Stored(s, t);
  }

  lemma KeysAdded(m: map<Oid, seq<Oid>>, m': map<Oid, seq<Oid>>, os: set<Oid>)
    requires m'.Keys == m.Keys + os && m.Keys !! os
    ensures |m'| == |m| + |os|
  {
    assert |m'| == |m'.Keys| && |m| == |m.Keys|;
  }

  /** Each new object is created exactly once, each other never. */
  lemma CreatesOnce(s: State, t: State, root: Node)
    requires StoredFrom(s, t, root)
    ensures t.done <= s.nodes.Keys
    ensures t.creations - s.creations == |NewOnes(s, t)|
  {
    WalkedLaws(s, root);
    NewKeys(s, t);
    hide Sound, NodesGrow, Walked, NewOnes, Shaped;
    var news := NewOnes(s, t);
    ImageSize(news, t.nodes);
    KeysAdded(s.objects, t.objects, OidsOf(news, t.nodes));
  }

  /** Without the map of stored objects every flag is as it was; with it, on what was stored a flag
      may be left. */
  lemma Flags(s: State, t: State, root: Node)
    requires StoredFrom(s, t, root)
    ensures t.nodes.Keys == s.nodes.Keys && !t.nodes[root].realizing
    ensures !s.useMap ==> forall x | x in t.nodes :: !t.nodes[x].realizing
    ensures forall x | x in t.nodes && t.nodes[x].realizing :: x in t.done
  {
    WalkedLaws(s, root);
    RootClear(s, root);
    hide Sound, Distinct, Walked, ObjectsGrow, Shaped;
    forall x | x in t.nodes && t.nodes[x].realizing ensures x in t.done && s.useMap {
      assert NodeGrows(s, t, x);
    }
  }

  lemma RootClear(s: State, root: Node)
    requires AtRest(s) && Shaped(s) && root in s.nodes
    ensures !Walked(s, root).nodes[root].realizing
  {
  }

  // ----- what a walk does not change

  lemma FollowedNull(c: State, n: Node, i: nat)
    requires Shaped(c) && n in c.nodes && c.nodes[n].realizing && i < |c.nodes[n].refs| && c.nodes[n].refs[i] == null
    ensures Followed(c, n, i) == Followed(c, n, i + 1)
  {
  }

  lemma {:induction false} ReferredKept(c: State, n: Node, i: nat, r: Node)
    requires Shaped(c) && n in c.nodes && c.nodes[n].realizing && i < |c.nodes[n].refs| && c.nodes[n].refs[i] == r
    requires r in c.nodes && i < |c.nodes[n].oids|
    ensures var e := Referred(c, n, i, r);
            && Shaped(e) && e.nodes.Keys == c.nodes.Keys && e.nodes[n].realizing && e.nodes[n].refs == c.nodes[n].refs
            && e.useMap == c.useMap
            && Followed(c, n, i) == Followed(e, n, i + 1)
    decreases Free(c), 1
  {
    var e := Referred(c, n, i, r);
    SameOn(c, e, e);
    WalkedMode(c, r);
    hide Walked, Shaped;
  }

  lemma {:induction false} WalkedMode(s: State, n: Node)
    requires Shaped(s) && n in s.nodes
    ensures Walked(s, n).useMap == s.useMap
    decreases Free(s), 0
  {
    hide Shaped, Free;
    var a := s.nodes[n];
    if !a.realizing && !(s.useMap && n in s.done) {
      EnteredSame(s, n);
      FollowedMode(Entered(s, n), n, 0);
    }
  }

  lemma {:induction false} FollowedMode(c: State, n: Node, i: nat)
    requires Shaped(c) && n in c.nodes && c.nodes[n].realizing && i <= |c.nodes[n].refs|
    ensures Followed(c, n, i).useMap == c.useMap
    decreases Free(c), 2, |c.nodes[n].refs| - i
  {
    hide Walked;
    if i < |c.nodes[n].refs| {
      var r := c.nodes[n].refs[i];
      if r == null {
        FollowedNull(c, n, i);
        FollowedMode(c, n, i + 1);
      } else {
        ShapedAt(c, n);
        hide Shaped, Free, Referred, Followed, Same;
        var e := Referred(c, n, i, r);
        ReferredKept(c, n, i, r);
        SameFree(c, e);
        FollowedMode(e, n, i + 1);
      }
    }
  }

  // ----- the store itself

  /** Stores `root` and all it refers to. */
  method Store(root: Node, db: Database, ghost g: set<Node>)
    requires root in g
    requires var s := View(g, db).(useMap := true, done := {}); AtRest(s) && Shaped(s)
    modifies g`oid, g`oids, g`touched, g`realizing, db
    ensures StoredFrom(old(View(g, db)).(useMap := true, done := {}), View(g, db).(useMap := true), root)
    ensures !db.useMap
  {
    hide Sound, Distinct, Grows, Walked, Free, Inv, Shaped, Same, AtRest;
    ghost var v := View(g, db);
    db.realized := {};
    db.done := {};
    db.useMap := true;
    assert View(g, db).nodes == v.nodes;
    Realize(root, db, g);
    ghost var t := View(g, db);
    WalkedMode(v.(useMap := true, done := {}), root);
    db.useMap := false;
    assert View(g, db).nodes == t.nodes;
  }
}
