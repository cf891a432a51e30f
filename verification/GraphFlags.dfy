/** Exactly when a store leaves no object flagged, the map of stored objects being in use. */
module GraphFlags {
  import opened GraphStore
  import opened GraphWalk
  import opened GraphLaws

  type Refs = map<Node, seq<Node?>>

  ghost function RefsIn(s: State): Refs {
    map x | x in s.nodes :: s.nodes[x].refs
  }

  lemma SameRefs(s: State, t: State)
    requires Same(s, t)
    ensures RefsIn(t) == RefsIn(s)
  {
  }

  // ----- the condition, on the graph alone

  ghost predicate Refers(m: Refs, u: Node, i: nat, v: Node) {
    u in m && i < |m[u]| && m[u][i] == v
  }

  /** `p` goes from the root to `u`. */
  ghost predicate Path(m: Refs, root: Node, older p: seq<Node>, u: Node) {
    && p != [] && p[0] == root && p[|p| - 1] == u
    && forall k | 0 <= k < |p| - 1 :: p[k] in m && p[k + 1] in m[p[k]]
  }

  /** `u` can be reached without going through `v`. */
  ghost predicate Around(m: Refs, root: Node, v: Node, u: Node) {
    exists p :: Path(m, root, p, u) && v !in p
  }

  /** No object is referred to twice, references from objects behind it apart. */
  ghost predicate EnteredOnce(m: Refs, root: Node) {
    forall v, u, i: nat, u', i': nat | v in m && u in m && u' in m && Refers(m, u, i, v) && Refers(m, u', i', v) ::
      Around(m, root, v, u) && Around(m, root, v, u') ==> u == u' && i == i'
  }

  // ----- no flag is left: what lies behind each object is entered through it, by one reference

  ghost predicate NoneFlagged(t: State) {
    forall x | x in t.done && x in t.nodes :: !t.nodes[x].realizing
  }

  ghost function Gray(s: State): set<Node> {
    set x | x in s.nodes && s.nodes[x].realizing
  }

  /** A reference of an object in `d`, or one of `n` from the one at `from` on. */
  ghost predicate Edge(m: Refs, d: set<Node>, n: Node, from: nat, x: Node, i: nat) {
    x in m && i < |m[x]| && (x in d || (x == n && from <= i))
  }

  /** `behind[v]` is what the walk stored while it was at `v`. */
  ghost predicate Behind(d: set<Node>, behind: map<Node, set<Node>>) {
    behind.Keys == d && forall v | v in d :: v in behind[v] && behind[v] <= d
  }

  ghost predicate Through(m: Refs, d: set<Node>, n: Node, from: nat, behind: map<Node, set<Node>>) {
    forall v, x, i: nat | v in behind && x in m && Edge(m, d, n, from, x, i) && m[x][i] != v ::
      m[x][i] != null && m[x][i] in behind[v] ==> x in behind[v]
  }

  ghost predicate ByOne(m: Refs, d: set<Node>, n: Node, from: nat, behind: map<Node, set<Node>>) {
    forall v, x, i: nat, y, j: nat | v in behind && x in m && y in m
                                     && Edge(m, d, n, from, x, i) && Edge(m, d, n, from, y, j)
                                     && m[x][i] == v && m[y][j] == v && x !in behind[v] && y !in behind[v] ::
      x == y && i == j
  }

  ghost predicate Bounded(m: Refs, d: set<Node>, n: Node, from: nat, gray: set<Node>) {
    forall x, i: nat | x in m && Edge(m, d, n, from, x, i) :: m[x][i] == null || m[x][i] in d || m[x][i] in gray
  }

  ghost predicate Ordered(m: Refs, d: set<Node>, n: Node, from: nat, gray: set<Node>, behind: map<Node, set<Node>>) {
    Behind(d, behind) && Through(m, d, n, from, behind) && ByOne(m, d, n, from, behind) && Bounded(m, d, n, from, gray)
  }

  /** The first reference leads to objects `d1` behind `r`, the others to `d2`. */
  lemma OrderedJoin(m: Refs, d1: set<Node>, d2: set<Node>, n: Node, i: nat, r: Node, gray: set<Node>,
                    b1: map<Node, set<Node>>, b2: map<Node, set<Node>>)
    requires Ordered(m, d1, r, 0, gray, b1) && r in d1 && b1[r] == d1 && (forall v | v in d1 && v != r :: r !in b1[v])
    requires Ordered(m, d2, n, i + 1, gray, b2) && d1 !! d2 && d1 !! gray && d2 !! gray && n in gray
    requires Refers(m, n, i, r)
    ensures Ordered(m, d1 + d2, n, i, gray, b1 + b2)
  {
    var d, b := d1 + d2, b1 + b2;
    forall x, k: nat | Edge(m, d, n, i, x, k)
      ensures if x in d1 then Edge(m, d1, r, 0, x, k) && (m[x][k] == null || m[x][k] in d1 || m[x][k] in gray)
              else if x == n && k == i then m[x][k] == r
              else Edge(m, d2, n, i + 1, x, k) && (m[x][k] == null || m[x][k] in d2 || m[x][k] in gray)
    {
    }
    assert Bounded(m, d, n, i, gray);
    assert Behind(d, b);
    forall v, x, k: nat | v in b && Edge(m, d, n, i, x, k) && m[x][k] != v && m[x][k] != null && m[x][k] in b[v]
      ensures x in b[v]
    {
      assert v in d1 ==> b[v] == b1[v] && b1[v] <= d1;
      assert v in d2 ==> b[v] == b2[v] && b2[v] <= d2;
    }
    forall v, x, k: nat, y, j: nat | v in b && Edge(m, d, n, i, x, k) && Edge(m, d, n, i, y, j)
                                     && m[x][k] == v && m[y][j] == v && x !in b[v] && y !in b[v]
      ensures x == y && k == j
    {
      assert v in d1 ==> b[v] == b1[v] && b1[v] <= d1;
      assert v in d2 ==> b[v] == b2[v] && b2[v] <= d2;
    }
  }

  /** The object itself closes what lies behind it. */
  lemma OrderedClose(m: Refs, d: set<Node>, n: Node, gray: set<Node>, b: map<Node, set<Node>>)
    requires Ordered(m, d, n, 0, gray + {n}, b) && n !in d && n !in gray
    ensures Ordered(m, d + {n}, n, 0, gray, b[n := d + {n}]) && forall v | v in d :: n !in b[v]
  {
    var d', b' := d + {n}, b[n := d + {n}];
    forall x, i: nat ensures Edge(m, d', n, 0, x, i) <==> Edge(m, d, n, 0, x, i) {
    }
    assert Behind(d', b') && Bounded(m, d', n, 0, gray);
    forall v, x, i: nat | v in b' && Edge(m, d', n, 0, x, i) && m[x][i] != v && m[x][i] != null && m[x][i] in b'[v]
      ensures x in b'[v]
    {
    }
    forall v, x, i: nat, y, j: nat | v in b' && Edge(m, d', n, 0, x, i) && Edge(m, d', n, 0, y, j)
                                     && m[x][i] == v && m[y][j] == v && x !in b'[v] && y !in b'[v]
      ensures x == y && i == j
    {
    }
  }

  lemma OrderedNone(m: Refs, n: Node, from: nat, gray: set<Node>)
    requires n in m && from == |m[n]|
    ensures Ordered(m, {}, n, from, gray, map[])
  {
  }

  /** A reference to an object the walk is at adds nothing. */
  lemma OrderedSkip(m: Refs, d: set<Node>, n: Node, i: nat, gray: set<Node>, b: map<Node, set<Node>>)
    requires Ordered(m, d, n, i + 1, gray, b) && d !! gray && n in m && i < |m[n]|
    requires m[n][i] == null || m[n][i] in gray
    ensures Ordered(m, d, n, i, gray, b)
  {
    forall x, k: nat | Edge(m, d, n, i, x, k) ensures Edge(m, d, n, i + 1, x, k) || (x == n && k == i) {
    }
  }

  // ----- a walk that leaves no flag

  lemma DoneGrows(c: State, n: Node, i: nat)
    requires Shaped(c) && n in c.nodes && c.nodes[n].realizing && i <= |c.nodes[n].refs| && c.done <= c.nodes.Keys
    ensures c.done <= Followed(c, n, i).done <= c.nodes.Keys
  {
    assert Within(c, c.nodes.Keys);
    FollowedWithin(c, n, i, c.nodes.Keys);
  }

  /** What ends up stored and without a flag was without one before. */
  lemma FlagsBefore(c: State, t: State)
    requires Same(c, t) && c.done <= t.done && t.done <= t.nodes.Keys && NoneFlagged(t)
    ensures NoneFlagged(c) && t.done !! Gray(c)
  {
  }

  lemma GrayKept(c: State, t: State)
    requires Grows(c, t) && NoneFlagged(t)
    ensures Gray(t) == Gray(c)
  {
    forall x | x in Gray(t) ensures x in Gray(c) {
      assert NodeGrows(c, t, x);
    }
    forall x | x in Gray(c) ensures x in Gray(t) {
      assert NodeGrows(c, t, x);
    }
  }

  /** The walk goes on after one reference of an object. */
  lemma ReferredStep(s: State, c: State, n: Node, i: nat, creating: bool, r: Node)
    requires Shaped(c) && Inside(s, c, n, i, creating) && i < |c.nodes[n].refs| && c.nodes[n].refs[i] == r && c.useMap
    ensures n in c.nodes && r in c.nodes && i < |c.nodes[n].oids|
    ensures var e := Referred(c, n, i, r);
            && Inside(s, e, n, i + 1, creating) && Shaped(e) && e.useMap && e.nodes.Keys == c.nodes.Keys
            && Followed(c, n, i) == Followed(e, n, i + 1) && Free(e) <= Free(c)
            && e.nodes[n].refs == c.nodes[n].refs && RefsIn(e) == RefsIn(c)
  {
    ShapedAt(c, n);
    assert n in c.nodes && c.nodes[n].realizing;
    hide Inv, Grows, Walked, Shaped, Inside;
    var e := Referred(c, n, i, r);
    ReferredLaws(s, c, n, i, creating, r);
    ReferredKept(c, n, i, r);
    SameFree(c, e);
    SameRefs(c, e);
  }

  lemma SlotFlags(c: State, n: Node, i: nat, r: Node)
    requires Shaped(c) && n in c.nodes && i < |c.nodes[n].oids| && r in c.nodes
    ensures var d, e := Walked(c, r), Referred(c, n, i, r);
            e.done == d.done && Gray(e) == Gray(d) && (NoneFlagged(e) ==> NoneFlagged(d))
  {
    hide Walked, Shaped;
  }

  lemma InsideInv(s: State, c: State, n: Node, i: nat, creating: bool)
    requires Inside(s, c, n, i, creating)
    ensures Inv(c) && n in c.nodes && c.nodes[n].realizing && i <= |c.nodes[n].refs| && c.done <= c.nodes.Keys
  {
  }

  /** One reference of an object, no flag being left in the end. */
  lemma ReferredFlags(s: State, c: State, n: Node, i: nat, creating: bool, r: Node)
    requires Shaped(c) && Inside(s, c, n, i, creating) && i < |c.nodes[n].refs| && c.nodes[n].refs[i] == r && c.useMap
    requires NoneFlagged(Followed(c, n, i))
    ensures r in c.nodes && i < |c.nodes[n].oids|
    ensures var d, e, t := Walked(c, r), Referred(c, n, i, r), Followed(c, n, i);
            && e.done == d.done && Gray(e) == Gray(c) && NoneFlagged(d)
            && c.done <= d.done && d.done !! Gray(c) && e.done <= t.done && t.done !! Gray(c)
            && (c.nodes[r].realizing <==> d == c) && r !in c.done
  {
    ReferredStep(s, c, n, i, creating, r);
    InsideInv(s, c, n, i, creating);
    var d, e, t := Walked(c, r), Referred(c, n, i, r), Followed(c, n, i);
    InsideInv(s, e, n, i + 1, creating);
    WalkedLaws(c, r);
    assert c.done <= d.done && d.done <= d.nodes.Keys;
    hide Inv, Inside, Shaped, Walked, Referred, Followed;
    SlotFlags(c, n, i, r);
    DoneGrows(e, n, i + 1);
    FlagsBefore(e, t);
    GrayKept(c, d);
    FlagsBefore(c, d);
    WalkedMet(c, r);
  }

  lemma WalkedMet(c: State, r: Node)
    requires Shaped(c) && r in c.nodes && c.useMap && Inv(c) && NoneFlagged(Walked(c, r))
    ensures c.nodes[r].realizing <==> Walked(c, r) == c
    ensures r !in c.done
  {
    WalkedLaws(c, r);
  }

  lemma EnteredGray(c: State, n: Node)
    requires n in c.nodes
    ensures var e := Entered(c, n); e.useMap == c.useMap && e.done == c.done && Gray(e) == Gray(c) + {n}
  {
    var e := Entered(c, n);
    forall x ensures x in Gray(e) <==> x in Gray(c) + {n} {
      assert x != n ==> (x in e.nodes <==> x in c.nodes) && (x in c.nodes ==> e.nodes[x] == c.nodes[x]);
    }
  }

  /** The walk enters an object, goes through its references, and leaves. */
  lemma EnteredFlags(c: State, n: Node)
    requires Inv(c) && Shaped(c) && n in c.nodes && c.useMap && !c.nodes[n].realizing && n !in c.done
    requires NoneFlagged(Walked(c, n))
    ensures var e := Entered(c, n);
            && Shaped(e) && e.nodes.Keys == c.nodes.Keys && e.nodes[n].realizing
            && Inside(c, e, n, 0, c.nodes[n].oid == NO_OID)
            && e.useMap && e.done == c.done && Gray(e) == Gray(c) + {n} && RefsIn(e) == RefsIn(c) && Free(e) < Free(c)
            && NoneFlagged(Followed(e, n, 0)) && n !in Followed(e, n, 0).done
            && c.done <= Followed(e, n, 0).done
            && Walked(c, n).done == Followed(e, n, 0).done + {n}
  {
    var e, creating := Entered(c, n), c.nodes[n].oid == NO_OID;
    EnteredSame(c, n);
    Started(c, n);
    SameRefs(c, e);
    FollowedLaws(c, e, n, 0, creating);
    EnteredGray(c, n);
    assert Walked(c, n) == Left(Followed(e, n, 0), n, creating);
    var f := Followed(e, n, 0);
    assert n in f.done <==> n in c.done;
    hide Inv, Walked, Followed, Entered, Shaped, Inside;
    InsideInv(c, f, n, |e.nodes[n].refs|, creating);
    InsideInv(c, e, n, 0, creating);
    DoneGrows(e, n, 0);
    LeftFlags(c, f, n, creating);
  }

  lemma LeftFlags(c: State, f: State, n: Node, creating: bool)
    requires n in f.nodes && n !in f.done && NoneFlagged(Left(f, n, creating))
    ensures NoneFlagged(f)
  {
    assert forall x | x in f.nodes && x != n :: Left(f, n, creating).nodes[x] == f.nodes[x];
  }

  /** Where no flag is left, what the walk stores while it is at an object lies behind it. */
  lemma {:induction false} WalkedOrdered(c: State, n: Node) returns (b: map<Node, set<Node>>)
    requires Inv(c) && Shaped(c) && n in c.nodes && c.useMap && !c.nodes[n].realizing && n !in c.done
    requires NoneFlagged(Walked(c, n))
    ensures var d := Walked(c, n).done - c.done;
            && Ordered(RefsIn(c), d, n, 0, Gray(c), b) && n in d && b[n] == d
            && forall v | v in d && v != n :: n !in b[v]
    decreases Free(c), 0
  {
    hide Inv, Inside, Shaped, Walked, Followed, Referred, Entered, NoneFlagged, Ordered, RefsIn, Gray;
    var e, creating := Entered(c, n), c.nodes[n].oid == NO_OID;
    EnteredFlags(c, n);
    var b' := FollowedOrdered(c, e, n, 0, creating);
    var d := Followed(e, n, 0).done - c.done;
    NotGray(c, n);
    OrderedClose(RefsIn(c), d, n, Gray(c), b');
    assert Walked(c, n).done - c.done == d + {n};
    b := b'[n := d + {n}];
    OrderedKeys(RefsIn(c), d, n, 0, Gray(c) + {n}, b');
  }

  lemma NotGray(c: State, n: Node)
    requires n in c.nodes
    ensures n in Gray(c) <==> c.nodes[n].realizing
  {
  }

  lemma OrderedKeys(m: Refs, d: set<Node>, n: Node, from: nat, gray: set<Node>,
                    b: map<Node, set<Node>>)
    requires Ordered(m, d, n, from, gray, b)
    ensures b.Keys == d
  {
  }

  lemma {:induction false} FollowedOrdered(s: State, c: State, n: Node, i: nat, creating: bool)
    returns (b: map<Node, set<Node>>)
    requires Shaped(c) && Inside(s, c, n, i, creating) && c.useMap && NoneFlagged(Followed(c, n, i))
    ensures Ordered(RefsIn(c), Followed(c, n, i).done - c.done, n, i, Gray(c), b)
    decreases Free(c), 2, |c.nodes[n].refs| - i, 1
  {
    hide Inv, Inside, Shaped, Followed, Referred, NoneFlagged, Ordered, RefsIn, Gray, Free, Grows, Same;
    InsideInv(s, c, n, i, creating);
    RefsAt(c, n);
    if i == |c.nodes[n].refs| {
      OrderedNone(RefsIn(c), n, i, Gray(c));
      FollowedEnd(c, n);
      b := map[];
    } else {
      var r := c.nodes[n].refs[i];
      if r == null {
        b := NullOrdered(s, c, n, i, creating);
      } else {
        ReferredStep(s, c, n, i, creating, r);
        if c.nodes[r].realizing {
          b := GrayOrdered(s, c, n, i, creating, r);
        } else {
          b := WhiteOrdered(s, c, n, i, creating, r);
        }
      }
    }
  }

  lemma RefsAt(c: State, n: Node)
    requires n in c.nodes
    ensures n in RefsIn(c) && RefsIn(c)[n] == c.nodes[n].refs
  {
  }

  lemma FollowedEnd(c: State, n: Node)
    requires Shaped(c) && n in c.nodes && c.nodes[n].realizing
    ensures Followed(c, n, |c.nodes[n].refs|).done - c.done == {}
  {
  }

  lemma {:induction false} NullOrdered(s: State, c: State, n: Node, i: nat, creating: bool)
    returns (b: map<Node, set<Node>>)
    requires Shaped(c) && Inside(s, c, n, i, creating) && c.useMap && NoneFlagged(Followed(c, n, i))
    requires i < |c.nodes[n].refs| && c.nodes[n].refs[i] == null
    ensures Ordered(RefsIn(c), Followed(c, n, i).done - c.done, n, i, Gray(c), b)
    decreases Free(c), 2, |c.nodes[n].refs| - i, 0
  {
    InsideInv(s, c, n, i, creating);
    RefsAt(c, n);
    NoRef(s, c, n, i, creating);
    FollowedNull(c, n, i);
    DoneGrows(c, n, i);
    FlagsBefore(c, Followed(c, n, i));
    hide Inv, Inside, Shaped, Followed, NoneFlagged, Ordered, RefsIn, Gray, Free;
    b := FollowedOrdered(s, c, n, i + 1, creating);
    OrderedSkip(RefsIn(c), Followed(c, n, i).done - c.done, n, i, Gray(c), b);
  }

  lemma {:induction false} GrayOrdered(s: State, c: State, n: Node, i: nat, creating: bool, r: Node)
    returns (b: map<Node, set<Node>>)
    requires Shaped(c) && Inside(s, c, n, i, creating) && c.useMap && NoneFlagged(Followed(c, n, i))
    requires i < |c.nodes[n].refs| && c.nodes[n].refs[i] == r && r in c.nodes && c.nodes[r].realizing
    ensures Ordered(RefsIn(c), Followed(c, n, i).done - c.done, n, i, Gray(c), b)
    decreases Free(c), 2, |c.nodes[n].refs| - i, 0
  {
    hide Inv, Inside, Shaped, Walked, Followed, Referred, NoneFlagged, Ordered, RefsIn, Gray, Free, Grows, Same;
    InsideInv(s, c, n, i, creating);
    ReferredStep(s, c, n, i, creating, r);
    ReferredFlags(s, c, n, i, creating, r);
    RefsAt(c, n);
    NotGray(c, r);
    b := FollowedOrdered(s, Referred(c, n, i, r), n, i + 1, creating);
    OrderedSkip(RefsIn(c), Followed(c, n, i).done - c.done, n, i, Gray(c), b);
  }

  lemma {:induction false} WhiteOrdered(s: State, c: State, n: Node, i: nat, creating: bool, r: Node)
    returns (b: map<Node, set<Node>>)
    requires Shaped(c) && Inside(s, c, n, i, creating) && c.useMap && NoneFlagged(Followed(c, n, i))
    requires i < |c.nodes[n].refs| && c.nodes[n].refs[i] == r && r in c.nodes && !c.nodes[r].realizing
    ensures Ordered(RefsIn(c), Followed(c, n, i).done - c.done, n, i, Gray(c), b)
    decreases Free(c), 2, |c.nodes[n].refs| - i, 0
  {
    hide Inv, Inside, Shaped, Walked, Followed, Referred, NoneFlagged, Ordered, RefsIn, Gray, Free, Grows, Same;
    InsideInv(s, c, n, i, creating);
    ReferredStep(s, c, n, i, creating, r);
    ReferredFlags(s, c, n, i, creating, r);
    RefsAt(c, n);
    NotGray(c, n);
    var d, t := Walked(c, r).done, Followed(c, n, i).done;
    var b1 := WalkedOrdered(c, r);
    var b2 := FollowedOrdered(s, Referred(c, n, i, r), n, i + 1, creating);
    OrderedJoin(RefsIn(c), d - c.done, t - d, n, i, r, Gray(c), b1, b2);
    assert (d - c.done) + (t - d) == t - c.done;
    b := b1 + b2;
  }

  // ----- no flag left: every object is entered once

  lemma {:induction false} PathInside(m: Refs, d: set<Node>, root: Node, p: seq<Node>, u: Node)
    requires Bounded(m, d, root, 0, {}) && root in d && Path(m, root, p, u)
    ensures u in d
    decreases |p|
  {
    if |p| > 1 {
      var q, w := p[..|p| - 1], p[|p| - 2];
      PathInside(m, d, root, q, w);
      var i :| 0 <= i < |m[w]| && m[w][i] == u;
      assert Edge(m, d, root, 0, w, i);
    }
  }

  /** What is reached without going through an object does not lie behind it. */
  lemma {:induction false} NotBehind(m: Refs, d: set<Node>, root: Node, b: map<Node, set<Node>>, p: seq<Node>,
                                     u: Node, v: Node)
    requires Ordered(m, d, root, 0, {}, b) && root in d && v in d && root !in b[v] && Path(m, root, p, u) && v !in p
    ensures u !in b[v]
    decreases |p|
  {
    if |p| > 1 {
      var q, w := p[..|p| - 1], p[|p| - 2];
      NotBehind(m, d, root, b, q, w, v);
      PathInside(m, d, root, q, w);
      var i :| 0 <= i < |m[w]| && m[w][i] == u;
      assert Edge(m, d, root, 0, w, i);
    }
  }

  lemma OnceFrom(m: Refs, d: set<Node>, root: Node, b: map<Node, set<Node>>)
    requires Ordered(m, d, root, 0, {}, b) && root in d && forall v | v in d && v != root :: root !in b[v]
    ensures EnteredOnce(m, root)
  {
    forall v, u, i: nat, u', i': nat | v in m && u in m && u' in m && Refers(m, u, i, v) && Refers(m, u', i', v)
                                        && Around(m, root, v, u) && Around(m, root, v, u')
      ensures u == u' && i == i'
    {
      var p :| Path(m, root, p, u) && v !in p;
      var p' :| Path(m, root, p', u') && v !in p';
      PathInside(m, d, root, p, u);
      PathInside(m, d, root, p', u');
      assert Edge(m, d, root, 0, u, i) && Edge(m, d, root, 0, u', i');
      NotBehind(m, d, root, b, p, u, v);
      NotBehind(m, d, root, b, p', u', v);
    }
  }

  // ----- every object is entered once: no flag left

  ghost predicate Used(done: set<Node>, prog: map<Node, nat>, u: Node, i: nat) {
    u in done || (u in prog && i < prog[u])
  }

  /** The reference by which the walk came to `v`. */
  ghost predicate EntryBy(m: Refs, root: Node, done: set<Node>, prog: map<Node, nat>, v: Node, u: Node, i: nat) {
    Refers(m, u, i, v) && Around(m, root, v, u) && Used(done, prog, u, i)
  }

  /** `prog` tells of each object the walk is at how many of its references are behind it. */
  ghost predicate Entries(m: Refs, root: Node, done: set<Node>, prog: map<Node, nat>) {
    forall v | v in done + prog.Keys && v != root :: exists u, i: nat | u in m :: EntryBy(m, root, done, prog, v, u, i)
  }

  lemma EntriesMore(m: Refs, root: Node, done: set<Node>, prog: map<Node, nat>,
                    done': set<Node>, prog': map<Node, nat>)
    requires Entries(m, root, done, prog) && done' + prog'.Keys <= done + prog.Keys
    requires forall u, i: nat | u in m && HasRef(m, u, i) && Used(done, prog, u, i) :: Used(done', prog', u, i)
    ensures Entries(m, root, done', prog')
  {
    forall v | v in done' + prog'.Keys && v != root
      ensures exists u, i: nat | u in m :: EntryBy(m, root, done', prog', v, u, i)
    {
      var u, i: nat :| u in m && EntryBy(m, root, done, prog, v, u, i);
      assert HasRef(m, u, i);
      assert EntryBy(m, root, done', prog', v, u, i);
    }
  }

  ghost predicate HasRef(m: Refs, u: Node, i: nat) {
    u in m && i < |m[u]|
  }

  /** The walk is at `n`, along `p`, with `i` of its references behind it. */
  ghost predicate Along(c: State, root: Node, p: seq<Node>, n: Node, i: nat, prog: map<Node, nat>) {
    && Path(RefsIn(c), root, p, n) && (forall x | x in p :: x in Gray(c))
    && prog.Keys == Gray(c) && n in prog && prog[n] == i
    && NoneFlagged(c) && Entries(RefsIn(c), root, c.done, prog) && EnteredOnce(RefsIn(c), root)
  }

  /** The next reference does not lead to an object stored already. */
  lemma NotStored(c: State, root: Node, p: seq<Node>, n: Node, i: nat, prog: map<Node, nat>, r: Node)
    requires Along(c, root, p, n, i, prog) && Refers(RefsIn(c), n, i, r) && r in c.nodes && c.done <= c.nodes.Keys
    ensures r !in c.done
  {
    var m := RefsIn(c);
    assert p[0] in p && root in Gray(c) && n in p && !Used(c.done, prog, n, i);
    assert r !in Gray(c) ==> Around(m, root, r, n);
    assert r in c.done ==> r !in Gray(c) && r in c.done + prog.Keys;
    forall u, k: nat | u in m && r !in Gray(c) && EntryBy(m, root, c.done, prog, r, u, k) ensures u == n && k == i {
    }
  }

  lemma AlongNext(c: State, e: State, root: Node, p: seq<Node>, n: Node, i: nat,
                  prog: map<Node, nat>)
    requires Along(c, root, p, n, i, prog) && RefsIn(e) == RefsIn(c) && Gray(e) == Gray(c) && NoneFlagged(e)
    requires Entries(RefsIn(c), root, e.done, prog[n := i + 1])
    ensures Along(e, root, p, n, i + 1, prog[n := i + 1])
  {
  }

  lemma EntriesNext(c: State, root: Node, p: seq<Node>, n: Node, i: nat, prog: map<Node, nat>)
    requires Along(c, root, p, n, i, prog)
    ensures Entries(RefsIn(c), root, c.done, prog[n := i + 1])
  {
    EntriesMore(RefsIn(c), root, c.done, prog, c.done, prog[n := i + 1]);
  }

  lemma SameFlags(c: State, e: State)
    requires e.done == c.done && Gray(e) == Gray(c) && e.nodes.Keys == c.nodes.Keys && NoneFlagged(c)
    ensures NoneFlagged(e)
  {
    forall x | x in e.done && x in e.nodes ensures !e.nodes[x].realizing {
      assert x in Gray(e) <==> x in Gray(c);
    }
  }

  lemma RefsOne(c: State, n: Node, i: nat)
    requires n in c.nodes && i < |c.nodes[n].refs| && c.nodes[n].refs[i] != null
    ensures Refers(RefsIn(c), n, i, c.nodes[n].refs[i])
  {
  }

  lemma SameAlong(c: State, n: Node, i: nat, r: Node)
    requires Shaped(c) && n in c.nodes && i < |c.nodes[n].oids| && r in c.nodes
    ensures var d, e := Walked(c, r), Referred(c, n, i, r);
            e.done == d.done && Gray(e) == Gray(d) && e.nodes.Keys == c.nodes.Keys
  {
    hide Walked, Shaped;
  }

  /** The walk comes to an object it has not met, through reference `i` of `u`. */
  lemma AlongInto(c: State, root: Node, p: seq<Node>, u: Node, i: nat, prog: map<Node, nat>, r: Node)
    requires Along(c, root, p, u, i, prog) && Refers(RefsIn(c), u, i, r) && r in c.nodes && !c.nodes[r].realizing
    requires r !in c.done
    requires RefsIn(Entered(c, r)) == RefsIn(c)
    ensures Along(Entered(c, r), root, p + [r], r, 0, prog[u := i + 1][r := 0])
  {
    var m, e, prog' := RefsIn(c), Entered(c, r), prog[u := i + 1][r := 0];
    EnteredGray(c, r);
    assert r !in Gray(c) && p[|p| - 1] in p;
    assert Path(m, root, p + [r], r) by {
      forall k | 0 <= k < |p + [r]| - 1 ensures (p + [r])[k] in m && (p + [r])[k + 1] in m[(p + [r])[k]] {
        if k < |p| - 1 { assert p[k + 1] in m[p[k]]; }
      }
    }
    forall v | v in c.done + prog'.Keys && v != root
      ensures exists w, k: nat | w in m :: EntryBy(m, root, c.done, prog', v, w, k)
    {
      if v == r {
        assert Around(m, root, r, u);
        assert EntryBy(m, root, c.done, prog', r, u, i);
      } else {
        assert v in c.done + prog.Keys;
        var w, k: nat :| w in m && EntryBy(m, root, c.done, prog, v, w, k);
        assert w != r;
        assert EntryBy(m, root, c.done, prog', v, w, k);
      }
    }
    assert NoneFlagged(e) by {
      forall x | x in e.done && x in e.nodes ensures !e.nodes[x].realizing {
        assert x in Gray(e) <==> x in Gray(c) || x == r;
      }
    }
  }

  /** ... and leaves it. */
  lemma AlongOut(c: State, f: State, root: Node, p: seq<Node>, u: Node, i: nat, prog: map<Node, nat>,
                 r: Node, q: seq<Node>, k: nat, prog': map<Node, nat>, creating: bool)
    requires Along(c, root, p, u, i, prog) && r in c.nodes && !c.nodes[r].realizing
    requires Along(f, root, q, r, k, prog') && r in f.nodes && k == |f.nodes[r].refs| && f.nodes.Keys == c.nodes.Keys
    requires RefsIn(f) == RefsIn(c) && Gray(f) == Gray(c) + {r}
    requires prog' == prog[u := i + 1][r := k] && r != u && r !in f.done
    ensures var t := Left(f, r, creating);
            && Gray(t) == Gray(c) && NoneFlagged(t) && Entries(RefsIn(c), root, t.done, prog[u := i + 1])
  {
    var t, m := Left(f, r, creating), RefsIn(c);
    AlongParts(c, root, p, u, i, prog, r);
    LeftGray(f, r, creating);
    assert r !in Gray(c) && m[r] == f.nodes[r].refs;
    assert NoneFlagged(t) by { NoneAfter(f, r, creating); }
    hide Path, Gray, RefsIn, NoneFlagged, EnteredOnce, EntryBy;
    EntriesMore(m, root, f.done, prog', t.done, prog[u := i + 1]);
  }

  lemma LeftGray(f: State, r: Node, creating: bool)
    requires r in f.nodes
    ensures Gray(Left(f, r, creating)) == Gray(f) - {r}
  {
    var t := Left(f, r, creating);
    forall x ensures x in Gray(t) <==> x in Gray(f) && x != r {
      assert x != r ==> (x in t.nodes <==> x in f.nodes) && (x in f.nodes ==> t.nodes[x] == f.nodes[x]);
    }
  }

  lemma NoneAfter(f: State, r: Node, creating: bool)
    requires r in f.nodes && NoneFlagged(f)
    ensures NoneFlagged(Left(f, r, creating))
  {
    var t := Left(f, r, creating);
    forall x | x in t.done && x in t.nodes ensures !t.nodes[x].realizing {
      assert x != r ==> x in f.done && t.nodes[x] == f.nodes[x];
    }
  }

  lemma {:induction false} WalkedAlong(c: State, root: Node, p: seq<Node>, u: Node, i: nat, prog: map<Node, nat>,
                                       r: Node)
    requires Inv(c) && Shaped(c) && c.useMap && r in c.nodes && !c.nodes[r].realizing && r !in c.done
    requires Along(c, root, p, u, i, prog) && Refers(RefsIn(c), u, i, r)
    ensures var t := Walked(c, r);
            Gray(t) == Gray(c) && NoneFlagged(t) && Entries(RefsIn(c), root, t.done, prog[u := i + 1])
    decreases Free(c), 0
  {
    hide Inv, Inside, Shaped, Followed, Referred, Entered, NoneFlagged, RefsIn, Gray, Along, Entries, Free;
    var e, creating := Entered(c, r), c.nodes[r].oid == NO_OID;
    var q, prog' := p + [r], prog[u := i + 1][r := 0];
    EnteredSame(c, r);
    Started(c, r);
    SameRefs(c, e);
    EnteredGray(c, r);
    EnteredMode(c, r);
    AlongInto(c, root, p, u, i, prog, r);
    FollowedAlong(c, e, r, 0, creating, root, q, prog');
    var f, k := Followed(e, r, 0), |e.nodes[r].refs|;
    AlongParts(c, root, p, u, i, prog, r);
    AlongParts(f, root, q, r, k, prog'[r := k], r);
    assert prog'[r := k] == prog[u := i + 1][r := k];
    AlongOut(c, f, root, p, u, i, prog, r, q, k, prog'[r := k], creating);
  }

  lemma EnteredMode(c: State, r: Node)
    requires r in c.nodes
    ensures Entered(c, r).useMap == c.useMap && Entered(c, r).nodes.Keys == c.nodes.Keys
  {
  }

  lemma AlongParts(c: State, root: Node, p: seq<Node>, u: Node, i: nat, prog: map<Node, nat>,
                   r: Node)
    requires Along(c, root, p, u, i, prog) && r in c.nodes
    ensures u in c.nodes && c.nodes[u].realizing && u !in c.done && NoneFlagged(c) && (!c.nodes[r].realizing ==> r != u)
  {
    assert u in Gray(c);
  }

  /** The references of an object, one after the other: none leads to an object stored already. */
  lemma {:induction false} FollowedAlong(s: State, c: State, n: Node, i: nat, creating: bool, root: Node, p: seq<Node>,
                                         prog: map<Node, nat>)
    requires Shaped(c) && Inside(s, c, n, i, creating) && c.useMap && Along(c, root, p, n, i, prog)
    ensures var f, k := Followed(c, n, i), |c.nodes[n].refs|;
            && Along(f, root, p, n, k, prog[n := k]) && Gray(f) == Gray(c) && RefsIn(f) == RefsIn(c)
    decreases Free(c), 2, |c.nodes[n].refs| - i, 1
  {
    hide Inv, Inside, Shaped, Referred, NoneFlagged, RefsIn, Gray, Along, Entries, Free, Walked;
    InsideInv(s, c, n, i, creating);
    AlongParts(c, root, p, n, i, prog, n);
    EntriesNext(c, root, p, n, i, prog);
    if i == |c.nodes[n].refs| {
      AlongHere(c, root, p, n, i, prog);
    } else {
      var r := c.nodes[n].refs[i];
      if r == null {
        NoRef(s, c, n, i, creating);
        AlongNext(c, c, root, p, n, i, prog);
        FollowedAlong(s, c, n, i + 1, creating, root, p, prog[n := i + 1]);
        assert prog[n := i + 1][n := |c.nodes[n].refs|] == prog[n := |c.nodes[n].refs|];
      } else {
        ReferredAlong(s, c, n, i, creating, root, p, prog, r);
      }
    }
  }

  lemma AlongHere(c: State, root: Node, p: seq<Node>, n: Node, i: nat, prog: map<Node, nat>)
    requires Along(c, root, p, n, i, prog)
    ensures prog[n := i] == prog
  {
  }

  lemma {:induction false} ReferredAlong(s: State, c: State, n: Node, i: nat, creating: bool, root: Node, p: seq<Node>,
                                         prog: map<Node, nat>, r: Node)
    requires Shaped(c) && Inside(s, c, n, i, creating) && c.useMap && Along(c, root, p, n, i, prog)
    requires i < |c.nodes[n].refs| && c.nodes[n].refs[i] == r
    ensures var f, k := Followed(c, n, i), |c.nodes[n].refs|;
            && Along(f, root, p, n, k, prog[n := k]) && Gray(f) == Gray(c) && RefsIn(f) == RefsIn(c)
    decreases Free(c), 2, |c.nodes[n].refs| - i, 0
  {
    hide Inv, Inside, Shaped, Referred, NoneFlagged, RefsIn, Gray, Along, Entries, Free, Walked, Followed, Grows;
    InsideInv(s, c, n, i, creating);
    ReferredStep(s, c, n, i, creating, r);
    SameAlong(c, n, i, r);
    RefsOne(c, n, i);
    var d, e := Walked(c, r), Referred(c, n, i, r);
    NotStored(c, root, p, n, i, prog, r);
    AlongParts(c, root, p, n, i, prog, r);
    if c.nodes[r].realizing {
      WalkedFlagged(c, r);
      SameFlags(c, e);
      EntriesNext(c, root, p, n, i, prog);
    } else {
      WalkedAlong(c, root, p, n, i, prog, r);
      SameFlags(d, e);
    }
    AlongNext(c, e, root, p, n, i, prog);
    FollowedAlong(s, e, n, i + 1, creating, root, p, prog[n := i + 1]);
    assert prog[n := i + 1][n := |c.nodes[n].refs|] == prog[n := |c.nodes[n].refs|];
  }

  lemma WalkedFlagged(c: State, r: Node)
    requires Shaped(c) && r in c.nodes && c.nodes[r].realizing
    ensures Walked(c, r) == c
  {
  }

  // ----- exactly

  lemma StartAlong(s: State, root: Node)
    requires AtRest(s) && root in s.nodes && EnteredOnce(RefsIn(s), root) && RefsIn(Entered(s, root)) == RefsIn(s)
    ensures Along(Entered(s, root), root, [root], root, 0, map[root := 0])
  {
    var e := Entered(s, root);
    EnteredGray(s, root);
    assert Gray(s) == {};
    assert NoneFlagged(e) && root in Gray(e);
    hide Inv, Entered;
    assert Path(RefsIn(e), root, [root], root);
  }

  lemma LeftNone(f: State, root: Node, creating: bool)
    requires root in f.nodes && Gray(f) <= {root}
    ensures NoneFlagged(Left(f, root, creating))
  {
    var t := Left(f, root, creating);
    forall x | x in t.nodes ensures !t.nodes[x].realizing {
      assert x != root ==> x !in Gray(f) && t.nodes[x] == f.nodes[x];
    }
  }

  lemma WalkedLeft(s: State, root: Node)
    requires Shaped(s) && root in s.nodes && !s.nodes[root].realizing && root !in s.done
    ensures var e := Entered(s, root);
            && Shaped(e) && root in e.nodes && e.nodes[root].realizing
            && Walked(s, root) == Left(Followed(e, root, 0), root, s.nodes[root].oid == NO_OID)
  {
    EnteredSame(s, root);
  }

  lemma OnceLeavesNone(s: State, root: Node)
    requires AtRest(s) && Shaped(s) && root in s.nodes && s.useMap && EnteredOnce(RefsIn(s), root)
    ensures NoneFlagged(Walked(s, root))
  {
    var e, creating := Entered(s, root), s.nodes[root].oid == NO_OID;
    assert Inv(s) && !s.nodes[root].realizing && s.done == {} && Gray(s) == {};
    hide Inv, AtRest, Inside, Shaped, Followed, Entered, Walked, Gray, RefsIn, Along, NoneFlagged;
    EnteredSame(s, root);
    Started(s, root);
    SameRefs(s, e);
    StartAlong(s, root);
    EnteredGray(s, root);
    EnteredMode(s, root);
    FollowedAlong(s, e, root, 0, creating, root, [root], map[root := 0]);
    WalkedLeft(s, root);
    LeftNone(Followed(e, root, 0), root, creating);
  }

  lemma OnceIfClear(s: State, t: State, root: Node)
    requires StoredFrom(s, t, root) && s.useMap && NoneFlagged(t)
    ensures EnteredOnce(RefsIn(s), root)
  {
    assert AtRest(s) && Gray(s) == {} && t.done - s.done == t.done;
    hide Inv, AtRest, Shaped, Walked, Gray, RefsIn, EnteredOnce;
    var b := WalkedOrdered(s, root);
    OnceFrom(RefsIn(s), t.done, root, b);
  }

  /** After a store from rest, with the map of stored objects, no object is left flagged exactly when
      none is referred to twice, references from objects that can only be reached through it apart. */
  lemma FlagsClearExactly(s: State, t: State, root: Node)
    requires StoredFrom(s, t, root) && s.useMap
    ensures (forall x | x in t.nodes :: !t.nodes[x].realizing) <==> EnteredOnce(RefsIn(s), root)
  {
    Flags(s, t, root);
    hide Inv, AtRest, Shaped, Walked, RefsIn, EnteredOnce;
    if EnteredOnce(RefsIn(s), root) {
      OnceLeavesNone(s, root);
    }
    if NoneFlagged(t) {
      OnceIfClear(s, t, root);
    }
  }

  /** Two references of the root to one other object are enough. */
  lemma DoubleReference(s: State, root: Node, v: Node, j: nat, k: nat)
    requires root in s.nodes && v in s.nodes && v != root && j < k < |s.nodes[root].refs|
    requires s.nodes[root].refs[j] == v && s.nodes[root].refs[k] == v
    ensures !EnteredOnce(RefsIn(s), root)
  {
    var m := RefsIn(s);
    assert Path(m, root, [root], root);
    assert Around(m, root, v, root) && Refers(m, root, j, v) && Refers(m, root, k, v);
  }

  // ----- what a flag left costs

  /** No store is on, though flags may be left. */
  ghost predicate Resting(s: State) {
    Inv(s) && Shaped(s) && s.done == {}
  }

  /** The database has under `o` in `t` what it had in `s`. */
  ghost predicate SameUnder(s: State, t: State, o: Oid) {
    (o in t.objects <==> o in s.objects) && (o in s.objects ==> t.objects[o] == s.objects[o])
  }

  /** A store of whatever root passes over a flagged object. */
  lemma PassedOver(u: State, r: Node, v: Node)
    requires Resting(u) && r in u.nodes && v in u.nodes && u.nodes[v].realizing
    ensures var t := Walked(u, r);
            v in t.nodes && v !in t.done && t.nodes[v] == u.nodes[v] && SameUnder(u, t, u.nodes[v].oid)
  {
    var t := Walked(u, r);
    WalkedLaws(u, r);
    assert NodeGrows(u, t, v) && Sound(u, v);
    forall x | x in t.done ensures x in t.nodes && t.nodes[x].oid != u.nodes[v].oid {
    }
    assert u.nodes[v].oid !in Stored(u, t);
  }

  /** What a program may do between two stores: change objects and make new ones, but not the flags. */
  ghost predicate Between(t: State, u: State) {
    && Resting(u) && t.nodes.Keys <= u.nodes.Keys && u.objects == t.objects
    && forall x | x in t.nodes :: u.nodes[x].oid == t.nodes[x].oid && u.nodes[x].realizing == t.nodes[x].realizing
  }

  /** It may do nothing, or change the slots of a flagged object in any way. */
  lemma MayChange(t: State, v: Node, b: Info, useMap: bool)
    requires Inv(t) && Shaped(t) && v in t.nodes && t.nodes[v].realizing && Revised(t.nodes[v], b)
    ensures Between(t, Put(t.(done := {}, useMap := useMap), v, b))
  {
    var u := t.(done := {}, useMap := useMap);
    forall x | x in u.nodes ensures Sound(u, x) {
      assert Sound(t, x);
    }
    InvPut(u, v, b);
  }

  /** Stores of `roots`, one after the other, from the states `states`; each leads to the next. */
  ghost predicate LaterStores(t: State, states: seq<State>, roots: seq<Node>)
    requires |states| == |roots|
    decreases |states|
  {
    states != [] ==>
      Between(t, states[0]) && roots[0] in states[0].nodes
          && LaterStores(Walked(states[0], roots[0]), states[1..], roots[1..])
  }

  ghost function AfterStores(t: State, states: seq<State>, roots: seq<Node>): State
    requires |states| == |roots| && LaterStores(t, states, roots)
    decreases |states|
  {
    if states == [] then t else AfterStores(Walked(states[0], roots[0]), states[1..], roots[1..])
  }

  lemma {:induction false} NeverWritten(t: State, states: seq<State>, roots: seq<Node>, v: Node)
    requires |states| == |roots| && LaterStores(t, states, roots) && v in t.nodes && t.nodes[v].realizing
    ensures var u := AfterStores(t, states, roots);
            && v in u.nodes && u.nodes[v].realizing && u.nodes[v].oid == t.nodes[v].oid
            && SameUnder(t, u, t.nodes[v].oid)
    decreases |states|
  {
    if states != [] {
      PassedOver(states[0], roots[0], v);
      NeverWritten(Walked(states[0], roots[0]), states[1..], roots[1..], v);
    }
  }

  /** Where an object is entered twice, some object that was stored is never written again: whatever
      becomes of it in memory, and whatever is stored later and from wherever, the database keeps what
      it has now. */
  lemma UpdatesLost(s: State, t: State, root: Node) returns (v: Node)
    requires StoredFrom(s, t, root) && s.useMap && !EnteredOnce(RefsIn(s), root)
    ensures v in t.done && v in t.nodes && t.nodes[v].realizing
    ensures forall states: seq<State>, roots: seq<Node> | |states| == |roots| && LaterStores(t, states, roots) ::
              var u := AfterStores(t, states, roots);
              var o := t.nodes[v].oid;
              && v in u.nodes && u.nodes[v].oid == o && u.nodes[v].realizing
              && o in u.objects && u.objects[o] == t.nodes[v].oids
  {
    FlagsClearExactly(s, t, root);
    Flags(s, t, root);
    v :| v in t.nodes && t.nodes[v].realizing;
    StoresFaithfully(s, t, root);
    assert Settled(t, v);
    hide LaterStores, AfterStores, EnteredOnce, StoredFrom, RefsIn;
    forall states: seq<State>, roots: seq<Node> | |states| == |roots| && LaterStores(t, states, roots)
      ensures var u := AfterStores(t, states, roots);
              var o := t.nodes[v].oid;
              && v in u.nodes && u.nodes[v].oid == o && u.nodes[v].realizing
              && o in u.objects && u.objects[o] == t.nodes[v].oids
    {
      NeverWritten(t, states, roots, v);
    }
  }
}
