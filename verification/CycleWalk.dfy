/** The search for a cycle through an object that is being released: along every path of objects
    that are not on the path already, up to the first one that comes back. */
module CycleWalk {
  import opened Outcomes

  /** Whether an object has been deleted, or has lost its class, does not change during a search. */
  class GbxObject {
    const deleted: bool
    const hasClass: bool
    var refs: seq<GbxObject?>
    var chgRefCnt: bool

    constructor (hasClass: bool)
      ensures refs == [] && !deleted && this.hasClass == hasClass && !chgRefCnt
    {
      this.deleted, this.hasClass := false, hasClass;
      refs, chgRefCnt := [], false;
    }
  }

  class CycleContext {
    const ref: GbxObject
    var cycle: bool

    constructor (o: GbxObject)
      ensures ref == o && !cycle
    {
      ref, cycle := o, false;
    }

    /** Coming back to an object on the path is a cycle if it is the one in question. */
    method ManageCycle(o: GbxObject)
      modifies this
      ensures cycle == (old(cycle) || o == ref)
    {
      if ref == o {
        cycle := true;
      }
    }

    predicate MustClean(o: GbxObject) {
      ref == o
    }
  }

  // ----- the search as a function of the links

  type Links = map<GbxObject, seq<GbxObject?>>

  /** A reference slot. */
  datatype Slot = Slot(o: GbxObject, i: nat)

  /** The links that the search follows. */
  ghost function LinksOf(o: GbxObject, refs: seq<GbxObject?>): (links: seq<GbxObject?>)
    ensures |links| == if o.hasClass then |refs| else 0
    ensures forall i | 0 <= i < |links| :: links[i] == if refs[i] == null || refs[i].deleted then null else refs[i]
  {
    if o.hasClass then
      seq(|refs|, i requires 0 <= i < |refs| => if refs[i] == null || refs[i].deleted then null else refs[i])
    else []
  }

  ghost predicate Closed(m: Links) {
    forall o, i | o in m && 0 <= i < |m[o]| :: m[o][i] != null ==> m[o][i] in m
  }

  /** The slot, from the one at `i` of `o` on, that the search finds to come back to `ref`, with
      the objects of `path` on the path. */
  ghost function Search(m: Links, path: set<GbxObject>, o: GbxObject, i: nat, ref: GbxObject): Option<Slot>
    requires Closed(m) && o in m && i <= |m[o]|
    decreases m.Keys - path, |m[o]| - i
  {
    if i == |m[o]| then None
    else
      var r := m[o][i];
      if r == ref then Some(Slot(o, i))
      else if r == null || r in path then Search(m, path, o, i + 1, ref)
      else
        var found := Search(m, path + {r}, r, 0, ref);
        if found.Some? then found else Search(m, path, o, i + 1, ref)
  }

  /** A walk along links, through no object of `path` on the way. */
  ghost predicate Walk(m: Links, path: set<GbxObject>, p: seq<GbxObject>) {
    && |p| >= 2 && p[0] in m
    && (forall k | 0 <= k < |p| - 1 :: p[k] in m && p[k + 1] in m[p[k]])
    && (forall k | 0 < k < |p| - 1 :: p[k] !in path)
  }

  /** What is found closes a cycle. */
  lemma {:induction false} FoundWalk(m: Links, path: set<GbxObject>, o: GbxObject, i: nat, ref: GbxObject)
    returns (p: seq<GbxObject>)
    requires Closed(m) && o in m && i <= |m[o]| && Search(m, path, o, i, ref).Some?
    ensures var s := Search(m, path, o, i, ref).value;
            && Walk(m, path, p) && p[0] == o && p[|p| - 1] == ref && p[|p| - 2] == s.o
            && s.o in m && s.i < |m[s.o]| && m[s.o][s.i] == ref
    decreases m.Keys - path, |m[o]| - i
  {
    var r := m[o][i];
    if r == ref {
      p := [o, ref];
    } else if r == null || r in path {
      p := FoundWalk(m, path, o, i + 1, ref);
    } else if Search(m, path + {r}, r, 0, ref).Some? {
      var q := FoundWalk(m, path + {r}, r, 0, ref);
      p := [o] + q;
      assert forall k | 0 <= k < |q| - 1 :: q[k] in m && q[k + 1] in m[q[k]];
      forall k | 0 <= k < |p| - 1 ensures p[k] in m && p[k + 1] in m[p[k]] {
        if k > 0 { assert p[k] == q[k - 1] && p[k + 1] == q[k]; }
      }
    } else {
      p := FoundWalk(m, path, o, i + 1, ref);
    }
  }

  /** The last visit to `r` on a walk. */
  ghost function LastVisit(p: seq<GbxObject>, r: GbxObject): (k: nat)
    requires r in p
    ensures k < |p| && p[k] == r && forall j | k < j < |p| :: p[j] != r
  {
    if p[|p| - 1] == r then |p| - 1 else LastVisit(p[..|p| - 1], r)
  }

  /** When nothing is found there is no walk back. */
  lemma {:induction false} NoWalk(m: Links, path: set<GbxObject>, o: GbxObject, i: nat, ref: GbxObject,
                                  p: seq<GbxObject>, n: nat)
    requires Closed(m) && o in m && i <= n < |m[o]| && Search(m, path, o, i, ref).None? && ref in path
    requires Walk(m, path, p) && p[0] == o && p[1] == m[o][n]
    ensures p[|p| - 1] != ref
    decreases m.Keys - path, |m[o]| - i
  {
    var r := m[o][i];
    if i < n {
      NoWalk(m, path, o, i + 1, ref, p, n);
    } else if p[|p| - 1] == ref {
      assert |p| > 2 && r !in path && r in m;
      var k := LastVisit(p, r);
      var q := p[k..];
      assert Walk(m, path + {r}, q) by {
        assert k < |p| - 1;
        forall j | 0 <= j < |q| - 1 ensures q[j] in m && q[j + 1] in m[q[j]] {
          assert p[k + j] == q[j] && p[k + j + 1] == q[j + 1];
        }
      }
      var n' :| 0 <= n' < |m[r]| && m[r][n'] == q[1];
      NoWalk(m, path + {r}, r, 0, ref, q, n');
    }
  }

  /** Starting from `ref`, the search finds a slot exactly when `ref` can be reached from itself. */
  lemma FoundExactly(m: Links, ref: GbxObject)
    requires Closed(m) && ref in m
    ensures Search(m, {ref}, ref, 0, ref).Some? <==>
            exists p: seq<GbxObject> :: Walk(m, {}, p) && p[0] == ref && p[|p| - 1] == ref
  {
    if Search(m, {ref}, ref, 0, ref).Some? {
      var p := FoundWalk(m, {ref}, ref, 0, ref);
      assert Walk(m, {}, p);
    } else {
      forall p: seq<GbxObject> | Walk(m, {}, p) && p[0] == ref ensures p[|p| - 1] != ref {
        if p[|p| - 1] == ref {
          var k := LastVisit(p[..|p| - 1], ref);
          var q := p[k..];
          assert Walk(m, {ref}, q) by {
            forall j | 0 <= j < |q| - 1 ensures q[j] in m && q[j + 1] in m[q[j]] {
              assert p[k + j] == q[j] && p[k + j + 1] == q[j + 1];
            }
            forall j | 0 < j < |q| - 1 ensures q[j] != ref {
              assert p[..|p| - 1][k + j] == q[j];
            }
          }
          var n :| 0 <= n < |m[ref]| && m[ref][n] == q[1];
          NoWalk(m, {ref}, ref, 0, ref, q, n);
          assert false;
        }
      }
    }
  }

  // ----- the search in place

  ghost function RefMap(g: set<GbxObject>): Links
    reads g
  {
    map o | o in g :: o.refs
  }

  ghost function LinkMap(refs: Links): (m: Links)
    requires Closed(refs)
    ensures Closed(m) && m.Keys == refs.Keys
  {
    map o | o in refs :: LinksOf(o, refs[o])
  }

  ghost function Marked(g: set<GbxObject>): set<GbxObject>
    reads g
  {
    set o | o in g && o.chgRefCnt
  }

  /** The references once the slot found has been cleared. */
  ghost function Cleared(refs: Links, found: Option<Slot>): Links {
    match found
    case None => refs
    case Some(s) =>
      if s.o in refs && s.i < |refs[s.o]| then refs[s.o := refs[s.o][s.i := null]] else refs
  }

  /** One slot of an object on the path. */
  method FollowSlot(o: GbxObject, i: nat, r: CycleContext, ghost g: set<GbxObject>)
    requires o in g && o.chgRefCnt && o.hasClass && i < |o.refs| && Closed(RefMap(g))
    requires r.ref in g && !r.ref.deleted && r.ref.chgRefCnt && !r.cycle
    modifies g`chgRefCnt, g`refs, r
    ensures Marked(g) == old(Marked(g))
    ensures var m, path := LinkMap(old(RefMap(g))), old(Marked(g));
            var found := Search(m, path, o, i, r.ref);
            if r.cycle then found.Some? && RefMap(g) == Cleared(old(RefMap(g)), found)
            else RefMap(g) == old(RefMap(g)) && found == Search(m, path, o, i + 1, r.ref)
    decreases g - Marked(g), 1
  {
    ghost var refs := RefMap(g);
    assert refs[o] == o.refs;
    var x := o.refs[i];
    if x != null && !x.deleted {
      assert x in refs;
      ManageCycle(x, r, g);
      if r.MustClean(x) {
        o.refs := o.refs[i := null];
      }
    }
  }

  /** The slots of an object on the path, up to one that closes a cycle. */
  method SearchSlots(o: GbxObject, r: CycleContext, ghost g: set<GbxObject>)
    requires o in g && o.chgRefCnt && o.hasClass && Closed(RefMap(g))
    requires r.ref in g && !r.ref.deleted && r.ref.chgRefCnt && !r.cycle
    modifies g`chgRefCnt, g`refs, r
    ensures Marked(g) == old(Marked(g))
    ensures var found := Search(LinkMap(old(RefMap(g))), old(Marked(g)), o, 0, r.ref);
            r.cycle == found.Some? && RefMap(g) == Cleared(old(RefMap(g)), found)
    decreases g - Marked(g), 2
  {
    ghost var path, refs := Marked(g), RefMap(g);
    ghost var m := LinkMap(refs);
    ghost var found := Search(m, path, o, 0, r.ref);
    hide Cleared;
    var i := 0;
    var n := |o.refs|;
    while i < n
      invariant 0 <= i <= n == |refs[o]| && !r.cycle
      invariant Marked(g) == path && RefMap(g) == refs && found == Search(m, path, o, i, r.ref)
    {
      assert refs[o] == o.refs && o in Marked(g) && r.ref in Marked(g);
      FollowSlot(o, i, r, g);
      i := i + 1;
      if r.cycle {
        return;
      }
    }
    ClearedNone(refs);
  }

  lemma ClearedNone(refs: Links)
    ensures Cleared(refs, None) == refs
  {
  }

  lemma ClasslessNone(refs: Links, path: set<GbxObject>, o: GbxObject, ref: GbxObject)
    requires Closed(refs) && o in refs && !o.hasClass
    ensures Search(LinkMap(refs), path, o, 0, ref) == None
  {
  }

  /** Searches from `o`; the marks are as they were afterwards, and a slot has been cleared if it
      was found to close a cycle. */
  method ManageCycle(o: GbxObject, r: CycleContext, ghost g: set<GbxObject>)
    requires o in g && Closed(RefMap(g)) && r.ref in g && !r.ref.deleted && (r.ref.chgRefCnt || o == r.ref)
    modifies g`chgRefCnt, g`refs, r
    ensures Marked(g) == old(Marked(g))
    ensures old(r.cycle) ==> r.cycle && RefMap(g) == old(RefMap(g))
    ensures !old(r.cycle) && old(o.chgRefCnt) ==> r.cycle == (o == r.ref) && RefMap(g) == old(RefMap(g))
    ensures !old(r.cycle) && !old(o.chgRefCnt) ==>
              var found := Search(LinkMap(old(RefMap(g))), old(Marked(g)) + {o}, o, 0, r.ref);
              r.cycle == found.Some? && RefMap(g) == Cleared(old(RefMap(g)), found)
    decreases g - Marked(g), 0
  {
    hide Search, Cleared, LinkMap;
    if r.cycle {
      return;
    }
    if o.chgRefCnt {
      r.ManageCycle(o);
      return;
    }
    ghost var path, refs := Marked(g), RefMap(g);
    if !o.hasClass {
      ClasslessNone(refs, path + {o}, o, r.ref);
      ClearedNone(refs);
      return;
    }
    o.chgRefCnt := true;
    assert Marked(g) == path + {o} && RefMap(g) == refs;
    SearchSlots(o, r, g);
    label searched:
    o.chgRefCnt := false;
    assert Marked(g) == path;
    assert RefMap(g) == old@searched(RefMap(g));
  }

  /** The search made for an object about to be released, no other search being on: it tells whether
      the object can be reached from itself, clears one slot that refers to it if so, and leaves no
      mark. */
  method DetectCycle(o: GbxObject, ghost g: set<GbxObject>) returns (cycle: bool)
    requires o in g && Closed(RefMap(g)) && !o.deleted && Marked(g) == {}
    modifies g`chgRefCnt, g`refs
    ensures Marked(g) == {}
    ensures cycle <==> exists p: seq<GbxObject> ::
              Walk(LinkMap(old(RefMap(g))), {}, p) && p[0] == o && p[|p| - 1] == o
    ensures !cycle ==> RefMap(g) == old(RefMap(g))
    ensures cycle ==> exists s: Slot ::
              && s.o in g && s.i < |old(s.o.refs)| && old(s.o.refs[s.i]) == o
              && RefMap(g) == old(RefMap(g))[s.o := old(s.o.refs)[s.i := null]]
  {
    var r := new CycleContext(o);
    ghost var refs := RefMap(g);
    ghost var m := LinkMap(refs);
    assert o !in Marked(g);
    ManageCycle(o, r, g);
    cycle := r.cycle;
    assert {} + {o} == {o};
    FoundExactly(m, o);
    if cycle {
      ghost var s := Search(m, {o}, o, 0, o).value;
      ghost var p := FoundWalk(m, {o}, o, 0, o);
      assert s.o in g && s.i < |refs[s.o]| && refs[s.o][s.i] == o && m[s.o] == LinksOf(s.o, refs[s.o]);
    }
  }
}
