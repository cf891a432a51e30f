/** Both ends of a 1:N relationship in one class, and an update that may give an object a new parent and
    a new collection of children at once: what it leaves, and exactly when both ends still agree. */
module SameClassMany {
  import opened Store
  import opened InverseSpec
  import opened InverseLaws
  import opened InverseLawsNN
  import opened InverseDriver
  import opened InverseFrame
  import opened InverseRuns
  import opened ClassFrame
  import opened SameClass

  /** `a` is the single reference and `b` the collection; the object `x` is given `y` and `c` for them. */
  datatype Gift = Gift(a: Item, b: Item, x: Oid, y: Oid, c: Oid) {

    function Parent(db: Db): Oid { db.Read(a, x) }

    function Own(db: Db): Oid { db.Read(b, x) }

    predicate Leaves(db: Db) { Parent(db) != NULL_OID && Parent(db) != y }

    // ----- the reference first

    /** The object becomes its own parent and gets a collection for it, whatever collection was given. */
    predicate NewHome(db: Db) { y == x && !db.Live(Own(db)) }

    /** The elements of `d` once the object has changed its parent. */
    function Moved(db: Db, d: Oid): set<Oid> {
      (if Leaves(db) && d == db.Read(b, Parent(db)) then db.Elems(d) - {x} else db.Elems(d))
      + if y != NULL_OID && db.Live(d) && d == db.Read(b, y) then {x} else {}
    }

    /** The children that `p` then has. */
    function Children(db: Db, p: Oid): set<Oid> {
      (if Leaves(db) && p == Parent(db) then db.Members(b, p) - {x} else db.Members(b, p))
      + if y != NULL_OID && p == y then {x} else {}
    }

    /** The members the object is given, and those it lets go. */
    function Got(db: Db): set<Oid> {
      if NewHome(db) then {x} else Moved(db, c)
    }

    function Dropped(db: Db): set<Oid> {
      if NewHome(db) || Own(db) == c then {} else Moved(db, Own(db))
    }

    // ----- the collection first

    function DroppedFirst(db: Db): set<Oid> {
      if Own(db) == c then {} else db.Elems(Own(db))
    }

    predicate TakesItself(db: Db) {
      x in db.Elems(c) && Holder(db, a, DroppedFirst(db), x) != x
    }

    /** The reference as the second routine comes to it: the first has written it over where the object
        was among the members it took or let go. */
    function Left(db: Db): Oid {
      if TakesItself(db) then x else if x in DroppedFirst(db) then NULL_OID else y
    }
  }

  /** Whom `e` still refers to, once `dropped` were let go. */
  function Holder(db: Db, a: Item, dropped: set<Oid>, e: Oid): Oid {
    if e in dropped then NULL_OID else db.Read(a, e)
  }

  /** `p` loses its whole collection, because one of the members taken belongs to it. */
  ghost predicate Robs(db: Db, g: Gift, got: set<Oid>, dropped: set<Oid>, p: Oid) {
    p != NULL_OID && p != g.x && exists e | e in got :: Holder(db, g.a, dropped, e) == p
  }

  // ----- the reference first

  function EndUp(db: Db, g: Gift, e: Oid): Oid {
    if e in g.Got(db) && Holder(db, g.a, g.Dropped(db), e) != g.x then g.x
    else if e in g.Dropped(db) then NULL_OID
    else if e == g.x then g.y else db.Read(g.a, e)
  }

  ghost function EndDown(db: Db, g: Gift, p: Oid): set<Oid> {
    if Robs(db, g, g.Got(db), g.Dropped(db), p) then {}
    else if p == g.x then g.Got(db)
    else g.Children(db, p)
  }

  /** The object is among its own new members without becoming its own parent, or a parent loses some
      children it cannot pass on. */
  ghost predicate TornUp(db: Db, g: Gift) {
    || (g.x in g.Got(db) && g.y != g.x
        && (g.Parent(db) == g.x
            || (g.y != NULL_OID && g.y != g.Parent(db) && !Robs(db, g, g.Got(db), g.Dropped(db), g.y))))
    || exists p :: Robs(db, g, g.Got(db), g.Dropped(db), p) && !(g.Children(db, p) <= g.Got(db))
  }

  // ----- the collection first

  function EndUpLast(db: Db, g: Gift, e: Oid): Oid {
    if e == g.x then g.Left(db)
    else if e in db.Elems(g.c) && Holder(db, g.a, g.DroppedFirst(db), e) != g.x then g.x
    else if e in g.DroppedFirst(db) then NULL_OID
    else db.Read(g.a, e)
  }

  ghost function EndDownLast(db: Db, g: Gift, p: Oid): set<Oid> {
    var left := g.Left(db);
    var robbed := Robs(db, g, db.Elems(g.c), g.DroppedFirst(db), p);
    var goes := !g.TakesItself(db) && g.x !in g.DroppedFirst(db) && g.Leaves(db);
    if p == g.x then
      if left == g.x && !db.Live(g.Own(db)) then {g.x}
      else
        (if goes && g.Parent(db) == g.x then db.Elems(g.c) - {g.x} else db.Elems(g.c))
        + if left != NULL_OID && db.Live(g.c)
             && (if left == g.x then g.c == g.Own(db)
                 else g.c == db.Read(g.b, left) && !Robs(db, g, db.Elems(g.c), g.DroppedFirst(db), left))
          then {g.x} else {}
    else
      (if robbed then {} else if goes && p == g.Parent(db) then db.Members(g.b, p) - {g.x} else db.Members(g.b, p))
      + if left != NULL_OID && p == left then {g.x} else {}
  }

  ghost predicate TornDown(db: Db, g: Gift) {
    var got, left := db.Elems(g.c), g.Left(db);
    || (exists p :: Robs(db, g, got, g.DroppedFirst(db), p) && !(db.Members(g.b, p) <= got + {g.x}))
    || (left != NULL_OID && left != g.x && db.Live(g.c) && g.c == db.Read(g.b, left)
        && !Robs(db, g, got, g.DroppedFirst(db), left))
    || (left == g.x && if db.Live(g.Own(db)) then g.x !in got && g.c != g.Own(db) else !(got <= {g.x}))
  }

  // ----- exactly when the ends agree

  ghost predicate Sound1N(db: Db, g: Gift) {
    && db.Sane() && Owned(db, {g.b}) && Sym1N(db, g.a, g.b) && g.a != g.b && g.x != NULL_OID
  }

  /** The parent of `e`, were the object's new one written. */
  function Up(db: Db, g: Gift, e: Oid): Oid {
    if e == g.x then g.y else db.Read(g.a, e)
  }

  lemma ChildrenAre(db: Db, g: Gift, e: Oid, p: Oid)
    requires Sound1N(db, g) && e != NULL_OID && p != NULL_OID
    ensures e in g.Children(db, p) <==> Up(db, g, e) == p
    ensures e in db.Members(g.b, p) <==> db.Read(g.a, e) == p
  {
    assert Agree1N(db, g.a, g.b, e, p);
  }

  lemma MovedAre(db: Db, g: Gift, p: Oid)
    requires Sound1N(db, g) && p != NULL_OID && db.Live(db.Read(g.b, p))
    ensures g.Moved(db, db.Read(g.b, p)) == g.Children(db, p)
  {
    assert Apart(db, g.b, p, g.b, g.Parent(db)) && Apart(db, g.b, p, g.b, g.y);
  }

  /** What is let go had the object for its parent, and whatever did and is not among the new members is. */
  lemma DroppedAre(db: Db, g: Gift, e: Oid)
    requires Sound1N(db, g) && e != NULL_OID
    ensures e in g.Dropped(db) ==> Up(db, g, e) == g.x
    ensures Up(db, g, e) == g.x && e !in g.Got(db) ==> e in g.Dropped(db)
  {
    ChildrenAre(db, g, e, g.x);
    if db.Live(g.Own(db)) {
      MovedAre(db, g, g.x);
    }
  }

  lemma KeptUpOwn(db: Db, g: Gift, e: Oid)
    requires Sound1N(db, g) && e != NULL_OID && !TornUp(db, g)
    ensures EndUp(db, g, e) == g.x <==> e in g.Got(db)
  {
    DroppedAre(db, g, e);
  }

  lemma KeptUpOther(db: Db, g: Gift, e: Oid, p: Oid)
    requires Sound1N(db, g) && e != NULL_OID && p != NULL_OID && p != g.x && !TornUp(db, g)
    ensures EndUp(db, g, e) == p <==> e in EndDown(db, g, p)
  {
    DroppedAre(db, g, e);
    ChildrenAre(db, g, e, p);
    assert e in g.Got(db) && Holder(db, g.a, g.Dropped(db), e) == p ==> Robs(db, g, g.Got(db), g.Dropped(db), p);
  }

  lemma DroppedFirstAre(db: Db, g: Gift, e: Oid)
    requires Sound1N(db, g) && e != NULL_OID
    ensures e in g.DroppedFirst(db) ==> db.Read(g.a, e) == g.x
    ensures db.Read(g.a, e) == g.x && e !in db.Elems(g.c) ==> e in g.DroppedFirst(db)
  {
    ChildrenAre(db, g, e, g.x);
  }

  lemma KeptDownOwn(db: Db, g: Gift, e: Oid)
    requires Sound1N(db, g) && e != NULL_OID && !TornDown(db, g)
    ensures EndUpLast(db, g, e) == g.x <==> e in EndDownLast(db, g, g.x)
  {
    DroppedFirstAre(db, g, e);
    DroppedFirstAre(db, g, g.x);
    ChildrenAre(db, g, g.x, g.x);
  }

  lemma KeptDownOther(db: Db, g: Gift, e: Oid, p: Oid)
    requires Sound1N(db, g) && e != NULL_OID && p != NULL_OID && p != g.x && !TornDown(db, g)
    ensures EndUpLast(db, g, e) == p <==> e in EndDownLast(db, g, p)
  {
    DroppedFirstAre(db, g, e);
    DroppedFirstAre(db, g, g.x);
    ChildrenAre(db, g, e, p);
    ChildrenAre(db, g, g.x, p);
    assert e in db.Elems(g.c) && Holder(db, g.a, g.DroppedFirst(db), e) == p ==>
        Robs(db, g, db.Elems(g.c), g.DroppedFirst(db), p);
    assert g.x in db.Elems(g.c) && Holder(db, g.a, g.DroppedFirst(db), g.x) == p ==>
        Robs(db, g, db.Elems(g.c), g.DroppedFirst(db), p);
  }

  /** Where the ends come apart, some pair shows it. */
  lemma BrokenUp(db: Db, g: Gift) returns (e: Oid, p: Oid)
    requires Sound1N(db, g) && NULL_OID !in g.Got(db) && TornUp(db, g)
    ensures e != NULL_OID && p != NULL_OID && !(EndUp(db, g, e) == p <==> e in EndDown(db, g, p))
  {
    var got, dropped := g.Got(db), g.Dropped(db);
    DroppedAre(db, g, g.x);
    if g.x in got && g.y != g.x && g.Parent(db) == g.x {
      e, p := g.x, g.x;
    } else if g.x in got && g.y != g.x && g.y != NULL_OID && g.y != g.Parent(db) && !Robs(db, g, got, dropped, g.y) {
      e, p := g.x, g.y;
      ChildrenAre(db, g, e, p);
    } else {
      p :| Robs(db, g, got, dropped, p) && !(g.Children(db, p) <= got);
      e :| e in g.Children(db, p) && e !in got;
      assert e != NULL_OID by { assert db.Read(g.b, p) in db.colls || e == g.x; }
      ChildrenAre(db, g, e, p);
      DroppedAre(db, g, e);
    }
  }

  lemma BrokenDown(db: Db, g: Gift) returns (e: Oid, p: Oid)
    requires Sound1N(db, g) && NULL_OID !in db.Elems(g.c) && TornDown(db, g)
    ensures e != NULL_OID && p != NULL_OID && !(EndUpLast(db, g, e) == p <==> e in EndDownLast(db, g, p))
  {
    var got, dropped, left := db.Elems(g.c), g.DroppedFirst(db), g.Left(db);
    DroppedFirstAre(db, g, g.x);
    if left != NULL_OID && left != g.x && db.Live(g.c) && g.c == db.Read(g.b, left)
        && !Robs(db, g, got, dropped, left) {
      e, p := g.x, g.x;
    } else if left == g.x && db.Live(g.Own(db)) && g.x !in got && g.c != g.Own(db) {
      e, p := g.x, g.x;
    } else if left == g.x && !db.Live(g.Own(db)) && !(got <= {g.x}) {
      p := g.x;
      e :| e in got && e != g.x;
      DroppedFirstAre(db, g, e);
    } else {
      p :| Robs(db, g, got, dropped, p) && !(db.Members(g.b, p) <= got + {g.x});
      e :| e in db.Members(g.b, p) && e !in got && e != g.x;
      assert e != NULL_OID by { assert db.Read(g.b, p) in db.colls; }
      ChildrenAre(db, g, e, p);
      DroppedFirstAre(db, g, e);
    }
  }

  // ----- the two routines

  /** What both routines start from: a database without shared collections, and a collection given that
      no other attribute holds. */
  ghost predicate Starts(sch: Schema, g: Gift, w: Work) {
    && Pair(sch, g.a, g.b) && g.a !in sch.many && g.b in sch.many && w.oid == g.x
    && g.a in w.idr && g.b in w.idr && w.idr[g.a] == g.y && w.idr[g.b] == g.c && g.y < w.db.next
    && Sound(sch, w) && Ours(sch, {g.b}, g.c, w) && Sym1N(w.db, g.a, g.b)
  }

  lemma StartsSound(sch: Schema, g: Gift, w: Work)
    requires Starts(sch, g, w)
    ensures Sound1N(w.db, g) && Typed(w.db, {g.b}) && Pair(sch, g.b, g.a)
  {
    PairBack(sch, g.a, g.b);
    assert g.b in sch.Colls();
  }

  /** After the routine of the single reference. */
  ghost predicate Referenced(g: Gift, w: Work, first: Work) {
    var made := g.y != NULL_OID && !w.db.Live(w.db.Read(g.b, g.y));
    && first.oid == g.x && g.a in first.idr && first.idr[g.a] == g.y
    && g.b in first.idr && first.idr[g.b] == (if g.NewHome(w.db) then w.db.next else g.c)
    && (forall o :: first.db.Read(g.a, o) == w.db.Read(g.a, o))
    && (forall o :: first.db.Read(g.b, o) == if made && o == g.y then w.db.next else w.db.Read(g.b, o))
    && (forall d: Oid | d < w.db.next :: first.db.Live(d) == w.db.Live(d) && first.db.Elems(d) == g.Moved(w.db, d))
    && (made ==> first.db.Live(w.db.next) && first.db.Elems(w.db.next) == {g.x})
  }

  lemma JoinedColls(g: Gift, db: Db, fx: Effect, d: Oid)
    requires db.Sane() && g.a != g.b && g.x != NULL_OID && Typed(db, {g.b}) && g.y < db.next
    requires fx == Effect1N(Call(Update, g.a, g.b, g.x, g.y), db)
    ensures var now := Db(db.slots + fx.writes, fx.colls, fx.next);
            && (d < db.next ==> now.Live(d) == db.Live(d) && now.Elems(d) == g.Moved(db, d))
            && (g.y != NULL_OID && !db.Live(db.Read(g.b, g.y)) ==> now.Live(db.next) && now.Elems(db.next) == {g.x})
  {
    assert db.Readable(db.Read(g.b, g.y)) && db.Readable(db.Read(g.b, g.Parent(db)));
  }

  lemma JoinedSlots(g: Gift, db: Db)
    requires g.a != g.b
    ensures Effect1N(Call(Update, g.a, g.b, g.x, g.y), db).writes ==
      if g.y != NULL_OID && !db.Live(db.Read(g.b, g.y)) then map[Slot(g.y, g.b) := db.next] else map[]
  {
  }

  lemma ReferencedBy(sch: Schema, g: Gift, w: Work, first: Work)
    requires Starts(sch, g, w) && AppliedTo(w, Effect1N(Call(Update, g.a, g.b, g.x, g.y), w.db), first)
    ensures Referenced(g, w, first)
  {
    StartsSound(sch, g, w);
    var fx := Effect1N(Call(Update, g.a, g.b, g.x, g.y), w.db);
    hide Effect1N, Gift.Moved, Typed, Owned, Sym1N;
    JoinedSlots(g, w.db);
    JoinedColls(g, w.db, fx, w.db.next);
    forall d: Oid | d < w.db.next ensures first.db.Live(d) == w.db.Live(d) && first.db.Elems(d) == g.Moved(w.db, d) {
      JoinedColls(g, w.db, fx, d);
    }
  }

  /** What the routine of the collection finds: the members given and let go, and the references. */
  ghost predicate Finds(g: Gift, db: Db, mid: Work, got: set<Oid>, dropped: set<Oid>) {
    && mid.oid == g.x && g.a in mid.idr && g.b in mid.idr
    && mid.db.Elems(mid.idr[g.b]) == got
    && (var own := mid.db.Read(g.b, g.x); dropped == if own == mid.idr[g.b] then {} else mid.db.Elems(own))
    && (forall o :: mid.db.Read(g.a, o) == db.Read(g.a, o))
    && NULL_OID !in mid.db.colls
  }

  lemma WroteN1(r: Call, db: Db, g: Gift, dropped: set<Oid>, o: Oid)
    requires r.op == Update && r.item == g.b && r.inv == g.a && r.obj == g.x && g.a != g.b && NULL_OID !in db.colls
    requires var own := db.Read(g.b, g.x); dropped == if own == r.target then {} else db.Elems(own)
    ensures var w, got := EffectN1(r, db).writes, db.Elems(r.target);
            && (Slot(o, g.a) in w <==> o in dropped || (o in got && Holder(db, g.a, dropped, o) != g.x))
            && (Slot(o, g.a) in w ==>
                  w[Slot(o, g.a)] == if o in got && Holder(db, g.a, dropped, o) != g.x then g.x else NULL_OID)
            && (Slot(o, g.b) in w <==> Robs(db, g, got, dropped, o))
            && (Slot(o, g.b) in w ==> w[Slot(o, g.b)] == NULL_OID)
  {
    assert Abandoned(r, db) == dropped;
    forall e ensures Released(r, db).Read(g.a, e) == Holder(db, g.a, dropped, e) {
    }
    var got, see := db.Elems(r.target), Released(r, db);
    var taken := Strangers(see, g.a, got, g.x);
    assert o in OwnersOf(see, g.a, taken) <==> Robs(db, g, got, dropped, o);
  }

  /** The references at the end, and the collection slots. */
  lemma EndReads(g: Gift, db: Db, mid: Work, gx: Effect, got: set<Oid>, dropped: set<Oid>, o: Oid)
    requires Finds(g, db, mid, got, dropped) && g.a != g.b
    requires gx == EffectN1(Call(Update, g.b, g.a, g.x, mid.idr[g.b]), mid.db)
    ensures FinalRead(mid, gx, g.a, o) ==
      if o in got && Holder(db, g.a, dropped, o) != g.x then g.x
      else if o in dropped then NULL_OID else if o == g.x then mid.idr[g.a] else db.Read(g.a, o)
    ensures FinalRead(mid, gx, g.b, o) ==
      if Robs(db, g, got, dropped, o) then NULL_OID else if o == g.x then mid.idr[g.b] else mid.db.Read(g.b, o)
    ensures Slot(o, g.b) in gx.writes <==> Robs(db, g, got, dropped, o)
  {
    hide EffectN1;
    WroteN1(Call(Update, g.b, g.a, g.x, mid.idr[g.b]), mid.db, g, dropped, o);
    forall e ensures Holder(mid.db, g.a, dropped, e) == Holder(db, g.a, dropped, e) {
    }
  }

  // ----- among the other attributes of the class

  /** Around the two routines, the collections of `c` (one of the two ends) keep their elements. */
  ghost predicate Framed(sch: Schema, first: Item, second: Item, c: Item, w: Work, g: Stages) {
    && SamePair(first, second, w, g.before) && SameHomes(c, w, g.before) && w.db.next <= g.before.db.next
    && SamePair(first, second, g.first, g.between) && SameHomes(c, g.first, g.between)
      && g.first.db.next <= g.between.db.next
    && SamePair(first, second, g.second, g.end) && SameHomes(c, g.second, g.end)
    && Sound(sch, g.before) && Sound(sch, g.first) && Sound(sch, g.between) && Sound(sch, g.second) && Sound(sch, g.end)
  }

  lemma HomesThrough(sch: Schema, items: seq<Item>, p: nat, s: nat, first: Item, second: Item,
                     c: Item, w: Work, g: Stages, fx: Effect, gx: Effect)
    requires Pair(sch, first, second) && second in sch.inverse && Declared(items, first, second, p, s) && Sound(sch, w)
    requires c in sch.many && c in {first, second}
    requires Routed(sch, CallOf(sch, Update, first, g.before), g.before.db, fx) && AppliedTo(g.before, fx, g.first)
    requires Routed(sch, CallOf(sch, Update, second, g.between), g.between.db, gx) && AppliedTo(g.between, gx, g.second)
    requires ItemsStep(sch, Update, items[..p], w, g.before)
    requires ItemsStep(sch, Update, items[p + 1..s], g.first, g.between)
    requires ItemsStep(sch, Update, items[s + 1..], g.second, g.end)
    ensures Framed(sch, first, second, c, w, g)
  {
    NotAround(items, first, second, p, s);
    PairBack(sch, first, second);
    var d := if c == first then second else first;
    hide Sound, SameHomes, Routed, AppliedTo, ItemsStep, Declared, SameEnd;
    Others(sch, first, second, items[..p], w, g.before);
    Others(sch, first, second, items[p + 1..s], g.first, g.between);
    Others(sch, first, second, items[s + 1..], g.second, g.end);
    OthersHomes(sch, d, c, items[..p], w, g.before);
    SoundStep(sch, CallOf(sch, Update, first, g.before), g.before, fx, g.first);
    OthersHomes(sch, d, c, items[p + 1..s], g.first, g.between);
    SoundStep(sch, CallOf(sch, Update, second, g.between), g.between, gx, g.second);
    OthersHomes(sch, d, c, items[s + 1..], g.second, g.end);
  }

  lemma SameSym1N(w: Work, v: Work, a: Item, b: Item)
    requires Sym1N(w.db, a, b) && SamePair(a, b, w, v) && SameHomes(b, w, v)
    ensures Sym1N(v.db, a, b)
  {
    forall c: Oid, p: Oid | c != NULL_OID && p != NULL_OID ensures Agree1N(v.db, a, b, c, p) {
      assert Agree1N(w.db, a, b, c, p);
    }
  }

  /** Likewise the collection given, which no other attribute gets hold of. */
  ghost predicate Guarded(sch: Schema, bs: set<Item>, c: Oid, w: Work, g: Stages) {
    && SameColl(c, w, g.before) && SameColl(c, g.first, g.between) && SameColl(c, g.second, g.end)
    && Ours(sch, bs, c, g.before) && Ours(sch, bs, c, g.between)
  }

  lemma GuardedThrough(sch: Schema, items: seq<Item>, p: nat, s: nat, first: Item, second: Item, bs: set<Item>, c: Oid,
                       d: Item, w: Work, g: Stages, fx: Effect, gx: Effect)
    requires Pair(sch, first, second) && second in sch.inverse && Declared(items, first, second, p, s) && Sound(sch, w)
    requires bs <= {first, second} && Ours(sch, bs, c, w) && Framed(sch, first, second, d, w, g)
    requires Routed(sch, CallOf(sch, Update, first, g.before), g.before.db, fx) && AppliedTo(g.before, fx, g.first)
    requires Routed(sch, CallOf(sch, Update, second, g.between), g.between.db, gx) && AppliedTo(g.between, gx, g.second)
    requires ItemsStep(sch, Update, items[..p], w, g.before)
    requires ItemsStep(sch, Update, items[p + 1..s], g.first, g.between)
    requires ItemsStep(sch, Update, items[s + 1..], g.second, g.end)
    ensures Guarded(sch, bs, c, w, g)
  {
    NotAround(items, first, second, p, s);
    hide Sound, SameHomes, Routed, AppliedTo, ItemsStep, Declared, SamePair, Ours;
    OthersColl(sch, first, second, bs, items[..p], w, g.before, c);
    OursStep(sch, bs, CallOf(sch, Update, first, g.before), g.before, fx, g.first, c);
    OthersColl(sch, first, second, bs, items[p + 1..s], g.first, g.between, c);
    OursStep(sch, bs, CallOf(sch, Update, second, g.between), g.between, gx, g.second, c);
    OthersColl(sch, first, second, bs, items[s + 1..], g.second, g.end, c);
  }

  /** What the two ends see of one database is in the other. */
  ghost predicate SameView(g: Gift, w: Work, v: Work) {
    SamePair(g.a, g.b, w, v) && SameHomes(g.b, w, v) && SameColl(g.c, w, v)
  }

  lemma StartsOn(sch: Schema, g: Gift, w: Work, v: Work)
    requires Starts(sch, g, w) && SameView(g, w, v) && Sound(sch, v) && Ours(sch, {g.b}, g.c, v)
    requires w.db.next <= v.db.next
    ensures Starts(sch, g, v)
  {
    assert SameEnd(g.a, w, v) && SameEnd(g.b, w, v);
    SameSym1N(w, v, g.a, g.b);
  }

  lemma RobsSame(g: Gift, w: Work, v: Work, got: set<Oid>, dropped: set<Oid>, p: Oid)
    requires SameView(g, w, v)
    ensures Robs(v.db, g, got, dropped, p) <==> Robs(w.db, g, got, dropped, p)
  {
    forall e ensures Holder(v.db, g.a, dropped, e) == Holder(w.db, g.a, dropped, e) {
    }
  }

  lemma ViewsSame(g: Gift, w: Work, v: Work)
    requires SameView(g, w, v)
    ensures g.Got(v.db) == g.Got(w.db) && g.Dropped(v.db) == g.Dropped(w.db)
    ensures g.DroppedFirst(v.db) == g.DroppedFirst(w.db)
    ensures g.Left(v.db) == g.Left(w.db) && v.db.Elems(g.c) == w.db.Elems(g.c) && v.db.Live(g.c) == w.db.Live(g.c)
    ensures g.Parent(v.db) == g.Parent(w.db) && g.Own(v.db) == g.Own(w.db)
    ensures v.db.Live(g.Own(v.db)) == w.db.Live(g.Own(w.db))
    ensures forall p :: g.Children(v.db, p) == g.Children(w.db, p) && v.db.Members(g.b, p) == w.db.Members(g.b, p)
    ensures forall p :: v.db.Read(g.b, p) == w.db.Read(g.b, p)
  {
  }

  lemma TornSame(g: Gift, w: Work, v: Work)
    requires SameView(g, w, v)
    ensures TornUp(v.db, g) <==> TornUp(w.db, g)
    ensures TornDown(v.db, g) <==> TornDown(w.db, g)
  {
    ViewsSame(g, w, v);
    forall p, got, dropped ensures Robs(v.db, g, got, dropped, p) <==> Robs(w.db, g, got, dropped, p) {
      RobsSame(g, w, v, got, dropped, p);
    }
    hide SameView, Robs, Gift.Got, Gift.Dropped, Gift.DroppedFirst, Gift.Left, Gift.Children;
  }

  // ----- the reference declared first

  lemma HomesAfter(g: Gift, w: Work, first: Work, p: Oid)
    requires Referenced(g, w, first) && Sound1N(w.db, g) && p != NULL_OID
    ensures first.db.Elems(first.db.Read(g.b, p)) == g.Children(w.db, p)
  {
    if w.db.Live(w.db.Read(g.b, p)) {
      MovedAre(w.db, g, p);
    }
  }

  lemma FoundUp(g: Gift, w: Work, first: Work, mid: Work)
    requires Referenced(g, w, first) && Sound1N(w.db, g) && g.c < w.db.next && SameView(g, first, mid)
    requires NULL_OID !in mid.db.colls
    ensures Finds(g, w.db, mid, g.Got(w.db), g.Dropped(w.db)) && mid.idr[g.a] == g.y
    ensures forall p | p != NULL_OID :: mid.db.Elems(mid.db.Read(g.b, p)) == g.Children(w.db, p)
    ensures mid.idr[g.b] == if g.NewHome(w.db) then mid.db.Read(g.b, g.x) else g.c
  {
    assert SameEnd(g.a, first, mid) && SameEnd(g.b, first, mid);
    forall p | p != NULL_OID ensures mid.db.Elems(mid.db.Read(g.b, p)) == g.Children(w.db, p) {
      HomesAfter(g, w, first, p);
    }
    assert w.db.Read(g.b, g.x) < w.db.next by { assert g.Own(w.db) == w.db.Read(g.b, g.x); }
  }

  /** The last two steps: the object's own slots are written, and other attributes are stored. */
  ghost predicate Finishes(g: Gift, mid: Work, gx: Effect, second: Work, end: Work, now: Db) {
    && AppliedTo(mid, gx, second) && SameHomes(g.b, second, end) && SameColl(g.c, second, end)
    && now.colls == end.db.colls && NULL_OID !in end.db.colls
    && forall i, o | i in {g.a, g.b} :: now.Read(i, o) == FinalRead(mid, gx, i, o)
  }

  lemma EndElems(g: Gift, mid: Work, gx: Effect, second: Work, end: Work, now: Db, p: Oid)
    requires Finishes(g, mid, gx, second, end, now)
    ensures second.db == Db(mid.db.slots + gx.writes, gx.colls, gx.next)
    ensures now.Read(g.b, p) == FinalRead(mid, gx, g.b, p)
    ensures var d := now.Read(g.b, p);
            d == NULL_OID || d == g.c || (Slot(p, g.b) in gx.writes && d == gx.writes[Slot(p, g.b)])
            || (Slot(p, g.b) !in gx.writes && d == mid.db.Read(g.b, p)) ==>
              now.Members(g.b, p) == if d == NULL_OID then {} else second.db.Elems(d)
  {
    assert second.db.Read(g.b, p) == if Slot(p, g.b) in gx.writes then gx.writes[Slot(p, g.b)] else mid.db.Read(g.b, p);
  }

  lemma MembersUp(g: Gift, db: Db, mid: Work, gx: Effect, second: Work, end: Work, now: Db, p: Oid)
    requires Finds(g, db, mid, g.Got(db), g.Dropped(db)) && g.a != g.b && g.x != NULL_OID && p != NULL_OID
    requires mid.db.Elems(mid.db.Read(g.b, p)) == g.Children(db, p)
    requires mid.idr[g.b] == if g.NewHome(db) then mid.db.Read(g.b, g.x) else g.c
    requires gx == EffectN1(Call(Update, g.b, g.a, g.x, mid.idr[g.b]), mid.db) && Finishes(g, mid, gx, second, end, now)
    ensures now.Members(g.b, p) == EndDown(db, g, p)
  {
    assert gx.colls == mid.db.colls && !mid.db.Live(NULL_OID);
    NotRobbed(db, g);
    EndReads(g, db, mid, gx, g.Got(db), g.Dropped(db), p);
    EndElems(g, mid, gx, second, end, now, p);
    hide EffectN1, Robs, FinalRead, Finishes, Gift.Got, Gift.Dropped, Gift.Children, Gift.NewHome, Holder;
  }

  lemma Concluded(now: Db, db: Db, g: Gift)
    requires Sound1N(db, g) && NULL_OID !in g.Got(db)
    requires forall e :: now.Read(g.a, e) == EndUp(db, g, e)
    requires forall p | p != NULL_OID :: now.Members(g.b, p) == EndDown(db, g, p)
    ensures Sym1N(now, g.a, g.b) <==> !TornUp(db, g)
  {
    if TornUp(db, g) {
      var e, p := BrokenUp(db, g);
      assert !Agree1N(now, g.a, g.b, e, p);
    } else {
      forall e: Oid, p: Oid | e != NULL_OID && p != NULL_OID ensures Agree1N(now, g.a, g.b, e, p) {
        if p == g.x {
          KeptUpOwn(db, g, e);
        } else {
          KeptUpOther(db, g, e, p);
        }
      }
    }
  }

  lemma NullNotGot(db: Db, g: Gift)
    requires Sound1N(db, g)
    ensures NULL_OID !in g.Got(db) && NULL_OID !in db.Elems(g.c)
  {
  }

  lemma ReferenceStages(sch: Schema, g: Gift, w: Work, first: Work, mid: Work, gx: Effect, second: Work, end: Work,
                        now: Db)
    requires Starts(sch, g, w) && AppliedTo(w, Effect1N(Call(Update, g.a, g.b, g.x, g.y), w.db), first)
    requires SameView(g, first, mid) && NULL_OID !in mid.db.colls && g.b in mid.idr
    requires gx == EffectN1(Call(Update, g.b, g.a, g.x, mid.idr[g.b]), mid.db) && Finishes(g, mid, gx, second, end, now)
    ensures Sym1N(now, g.a, g.b) <==> !TornUp(w.db, g)
    ensures now.Read(g.a, g.x) == EndUp(w.db, g, g.x) && now.Members(g.b, g.x) == EndDown(w.db, g, g.x)
  {
    StartsSound(sch, g, w);
    ReferencedBy(sch, g, w, first);
    FoundUp(g, w, first, mid);
    NullNotGot(w.db, g);
    assert Finishes(g, mid, gx, second, end, now);
    forall e ensures now.Read(g.a, e) == EndUp(w.db, g, e) {
      EndReads(g, w.db, mid, gx, g.Got(w.db), g.Dropped(w.db), e);
    }
    forall p | p != NULL_OID ensures now.Members(g.b, p) == EndDown(w.db, g, p) {
      MembersUp(g, w.db, mid, gx, second, end, now, p);
    }
    Concluded(now, w.db, g);
  }

  lemma EndUpSame(g: Gift, w: Work, v: Work)
    requires SameView(g, w, v)
    ensures EndUp(v.db, g, g.x) == EndUp(w.db, g, g.x) && EndUpLast(v.db, g, g.x) == EndUpLast(w.db, g, g.x)
  {
    ViewsSame(g, w, v);
  }

  lemma ReferenceAmong(sch: Schema, g: Gift, w: Work, st: Stages, fx: Effect, gx: Effect, now: Db)
    requires Starts(sch, g, w) && g.b in sch.inverse && Framed(sch, g.a, g.b, g.b, w, st)
    requires Guarded(sch, {g.b}, g.c, w, st)
    requires Through(sch, g.a, g.b, g.x, w.idr, w.db, now, st.before, fx, st.first, st.between, gx)
    requires AppliedTo(st.between, gx, st.second) && now.colls == st.end.db.colls
    ensures SameView(g, w, st.before)
    ensures Sym1N(now, g.a, g.b) <==> !TornUp(st.before.db, g)
    ensures now.Read(g.a, g.x) == EndUp(st.before.db, g, g.x) && now.Members(g.b, g.x) == EndDown(st.before.db, g, g.x)
  {
    PairBack(sch, g.a, g.b);
    StartsOn(sch, g, w, st.before);
    assert st.before.idr[g.a] == g.y && st.before.oid == g.x;
    assert fx == Effect1N(Call(Update, g.a, g.b, g.x, g.y), st.before.db);
    assert st.between.oid == g.x && g.b in st.between.idr by { assert SameEnd(g.b, st.first, st.between); }
    assert gx == EffectN1(Call(Update, g.b, g.a, g.x, st.between.idr[g.b]), st.between.db);
    hide Effect1N, EffectN1, FinalRead, SameEnd, SameHomes, SameColl;
    ReferenceStages(sch, g, st.before, st.first, st.between, gx, st.second, st.end, now);
  }

  /** The reference declared before the collection: the two ends agree afterwards exactly unless the update
      is torn, and what the object is left with. */
  lemma ReferenceFirst(sch: Schema, items: seq<Item>, p: nat, s: nat, g: Gift, idr: map<Item, Oid>, db: Db, now: Db)
    requires Starts(sch, g, Work(db, g.x, idr)) && Declared(items, g.a, g.b, p, s)
    requires Updated(sch, items, g.x, idr, db, now)
    ensures Sym1N(now, g.a, g.b) <==> !TornUp(db, g)
    ensures now.Read(g.a, g.x) == EndUp(db, g, g.x) && now.Members(g.b, g.x) == g.Got(db)
  {
    var w := Work(db, g.x, idr);
    StartsSound(sch, g, w);
    var st, fx, gx := TwoSteps(sch, items, p, s, g.a, g.b, g.x, idr, db, now);
    HomesThrough(sch, items, p, s, g.a, g.b, g.b, w, st, fx, gx);
    GuardedThrough(sch, items, p, s, g.a, g.b, {g.b}, g.c, g.b, w, st, fx, gx);
    ReferenceAmong(sch, g, w, st, fx, gx, now);
    TornSame(g, w, st.before);
    ViewsSame(g, w, st.before);
    EndUpSame(g, w, st.before);
    assert EndDown(db, g, g.x) == g.Got(db);
  }

  // ----- the collection declared first

  /** The database and the IDR when the routine of the single reference comes second. */
  ghost predicate Collected(g: Gift, db: Db, mid: Work) {
    && mid.oid == g.x && g.a in mid.idr && mid.idr[g.a] == g.Left(db) && g.b in mid.idr && mid.idr[g.b] == g.c
    && (forall e | e != g.x :: mid.db.Read(g.a, e) == EndUpLast(db, g, e))
    && mid.db.Read(g.a, g.x) ==
         (if g.TakesItself(db) then g.x else if g.x in g.DroppedFirst(db) then NULL_OID else g.Parent(db))
    && (forall o :: mid.db.Read(g.b, o) ==
          if Robs(db, g, db.Elems(g.c), g.DroppedFirst(db), o) then NULL_OID else db.Read(g.b, o))
  }

  lemma CollectedAt(g: Gift, w: Work, fx: Effect, first: Work, o: Oid)
    requires g.a != g.b && g.x != NULL_OID && NULL_OID !in w.db.colls
    requires fx == EffectN1(Call(Update, g.b, g.a, g.x, g.c), w.db) && AppliedTo(w, fx, first)
    ensures var got, dropped := w.db.Elems(g.c), g.DroppedFirst(w.db);
            && first.db.Read(g.a, o) == (if o in got && Holder(w.db, g.a, dropped, o) != g.x then g.x
                                         else if o in dropped then NULL_OID else w.db.Read(g.a, o))
            && first.db.Read(g.b, o) == (if Robs(w.db, g, got, dropped, o) then NULL_OID else w.db.Read(g.b, o))
            && (Slot(o, g.a) in fx.writes <==> o in dropped || (o in got && Holder(w.db, g.a, dropped, o) != g.x))
            && (Slot(o, g.a) in fx.writes ==> fx.writes[Slot(o, g.a)] == first.db.Read(g.a, o))
            && (Slot(o, g.b) in fx.writes <==> Robs(w.db, g, got, dropped, o))
  {
    hide EffectN1, Robs, Holder;
    WroteN1(Call(Update, g.b, g.a, g.x, g.c), w.db, g, g.DroppedFirst(w.db), o);
  }

  lemma CollectedOwn(g: Gift, w: Work, first: Work)
    requires g.a != g.b && g.x != NULL_OID && NULL_OID !in w.db.colls && w.oid == g.x
    requires g.a in w.idr && w.idr[g.a] == g.y && g.b in w.idr && w.idr[g.b] == g.c
    requires AppliedTo(w, EffectN1(Call(Update, g.b, g.a, g.x, g.c), w.db), first)
    ensures first.oid == g.x && g.a in first.idr && first.idr[g.a] == g.Left(w.db) && g.b in first.idr
    ensures first.idr[g.b] == g.c
    ensures first.db.Read(g.a, g.x) ==
      if g.TakesItself(w.db) then g.x else if g.x in g.DroppedFirst(w.db) then NULL_OID else g.Parent(w.db)
  {
    CollectedAt(g, w, EffectN1(Call(Update, g.b, g.a, g.x, g.c), w.db), first, g.x);
    NotRobbed(w.db, g);
    hide EffectN1, Robs, Holder, Gift.DroppedFirst;
  }

  lemma CollectedBy(sch: Schema, g: Gift, w: Work, first: Work)
    requires Starts(sch, g, w) && AppliedTo(w, EffectN1(Call(Update, g.b, g.a, g.x, g.c), w.db), first)
    ensures Collected(g, w.db, first) && first.db.colls == w.db.colls
  {
    hide EffectN1, Robs, Gift.DroppedFirst, Gift.TakesItself, Gift.Left, AppliedTo, Ours, Typed, Owned, Sym1N;
    StartsSound(sch, g, w);
    SameCollsBy(g, w, first);
    CollectedOwn(g, w, first);
    forall o
      ensures o != g.x ==> first.db.Read(g.a, o) == EndUpLast(w.db, g, o)
      ensures first.db.Read(g.b, o) ==
        if Robs(w.db, g, w.db.Elems(g.c), g.DroppedFirst(w.db), o) then NULL_OID else w.db.Read(g.b, o)
    {
      CollectedAt(g, w, EffectN1(Call(Update, g.b, g.a, g.x, g.c), w.db), first, o);
    }
  }

  lemma SameCollsBy(g: Gift, w: Work, first: Work)
    requires AppliedTo(w, EffectN1(Call(Update, g.b, g.a, g.x, g.c), w.db), first)
    ensures first.db.colls == w.db.colls
  {
  }

  lemma NotRobbed(db: Db, g: Gift)
    ensures forall got, dropped :: !Robs(db, g, got, dropped, g.x) && !Robs(db, g, got, dropped, NULL_OID)
  {
  }

  /** What the second routine does, seen as a gift of the reference that is left. */
  function Rest(g: Gift, db: Db): Gift { g.(y := g.Left(db)) }

  lemma EndsDown(g: Gift, db: Db, mid: Work, gx: Effect, o: Oid)
    requires Collected(g, db, mid) && g.a != g.b && g.x != NULL_OID
    requires gx == Effect1N(Call(Update, g.a, g.b, g.x, mid.idr[g.a]), mid.db)
    ensures FinalRead(mid, gx, g.a, o) == EndUpLast(db, g, o)
    ensures var left := g.Left(db);
            FinalRead(mid, gx, g.b, o) ==
              if left != NULL_OID && !mid.db.Live(mid.db.Read(g.b, left)) && o == left then mid.db.next
              else if o == g.x then g.c else mid.db.Read(g.b, o)
    ensures Slot(o, g.b) in gx.writes <==>
              g.Left(db) != NULL_OID && !mid.db.Live(mid.db.Read(g.b, g.Left(db))) && o == g.Left(db)
  {
    JoinedSlots(Rest(g, db), mid.db);
    hide Effect1N, Robs;
  }

  /** The collections that the second routine can come to are as they were. */
  ghost predicate Held(g: Gift, db: Db, mid: Work) {
    && mid.db.Live(g.c) == db.Live(g.c) && mid.db.Elems(g.c) == db.Elems(g.c)
    && forall o :: var d := mid.db.Read(g.b, o); mid.db.Live(d) == db.Live(d) && mid.db.Elems(d) == db.Elems(d)
  }

  lemma RestMovedOwn(g: Gift, db: Db, mid: Work)
    requires Sound1N(db, g) && Collected(g, db, mid) && Held(g, db, mid) && mid.db.Sane()
    requires !(g.Left(db) == g.x && !mid.db.Live(mid.db.Read(g.b, g.x)))
    ensures Rest(g, db).Moved(mid.db, g.c) == EndDownLast(db, g, g.x)
  {
    var p := g.x;
    NotRobbed(db, g);
    DroppedFirstAre(db, g, g.x);
    ChildrenAre(db, g, g.x, g.x);
    var parent, left := g.Parent(db), g.Left(db);
    if parent != NULL_OID {
      ChildrenAre(db, g, g.x, parent);
    }
    assert Apart(db, g.b, p, g.b, parent) && Apart(db, g.b, p, g.b, left) && Apart(db, g.b, p, g.b, g.x);
    if g.x in db.Elems(g.c) && Holder(db, g.a, g.DroppedFirst(db), g.x) == parent != NULL_OID && parent != g.x {
      assert Robs(db, g, db.Elems(g.c), g.DroppedFirst(db), parent);
    }
  }

  lemma RestMovedOther(g: Gift, db: Db, mid: Work, p: Oid)
    requires Sound1N(db, g) && Collected(g, db, mid) && Held(g, db, mid) && mid.db.Sane() && p != NULL_OID && p != g.x
    requires !(!mid.db.Live(mid.db.Read(g.b, p)) && p == g.Left(db))
    ensures Rest(g, db).Moved(mid.db, mid.db.Read(g.b, p)) == EndDownLast(db, g, p)
  {
    NotRobbed(db, g);
    DroppedFirstAre(db, g, g.x);
    ChildrenAre(db, g, g.x, g.x);
    var parent, left := g.Parent(db), g.Left(db);
    if parent != NULL_OID {
      ChildrenAre(db, g, g.x, parent);
    }
    assert Apart(db, g.b, p, g.b, parent) && Apart(db, g.b, p, g.b, left) && Apart(db, g.b, p, g.b, g.x);
    if g.x in db.Elems(g.c) && Holder(db, g.a, g.DroppedFirst(db), g.x) == parent != NULL_OID && parent != g.x {
      assert Robs(db, g, db.Elems(g.c), g.DroppedFirst(db), parent);
    }
  }

  /** The elements, then, of the collection that `p` holds at the end, unless it was made just now. */
  lemma RestMoved(g: Gift, db: Db, mid: Work, p: Oid)
    requires Sound1N(db, g) && Collected(g, db, mid) && Held(g, db, mid) && mid.db.Sane() && p != NULL_OID
    requires !(g.Left(db) != NULL_OID && !mid.db.Live(mid.db.Read(g.b, g.Left(db))) && p == g.Left(db))
    ensures Rest(g, db).Moved(mid.db, if p == g.x then g.c else mid.db.Read(g.b, p)) == EndDownLast(db, g, p)
  {
    hide Collected, Held, Gift.Moved, EndDownLast, Gift.Left, Sym1N, Owned;
    if p == g.x { RestMovedOwn(g, db, mid); } else { RestMovedOther(g, db, mid, p); }
  }

  lemma RestMade(g: Gift, db: Db, mid: Work)
    requires Collected(g, db, mid) && Held(g, db, mid) && mid.db.Sane() && db.Sane()
    requires g.Left(db) != NULL_OID && !mid.db.Live(mid.db.Read(g.b, g.Left(db)))
    ensures EndDownLast(db, g, g.Left(db)) == {g.x}
  {
    NotRobbed(db, g);
  }

  lemma MembersDown(g: Gift, db: Db, mid: Work, gx: Effect, second: Work, end: Work, now: Db, p: Oid)
    requires Sound1N(db, g) && Collected(g, db, mid) && Held(g, db, mid) && p != NULL_OID
    requires mid.db.Sane() && Typed(mid.db, {g.b}) && g.Left(db) < mid.db.next && g.c < mid.db.next
    requires gx == Effect1N(Call(Update, g.a, g.b, g.x, mid.idr[g.a]), mid.db) && Finishes(g, mid, gx, second, end, now)
    ensures now.Members(g.b, p) == EndDownLast(db, g, p)
  {
    var d := if p == g.x then g.c else mid.db.Read(g.b, p);
    assert mid.db.Readable(mid.db.Read(g.b, p)) && mid.idr[g.a] == g.Left(db) && d < mid.db.next
        && !mid.db.Live(NULL_OID);
    EndsDown(g, db, mid, gx, p);
    JoinedColls(Rest(g, db), mid.db, gx, d);
    JoinedSlots(Rest(g, db), mid.db);
    EndElems(g, mid, gx, second, end, now, p);
    hide Effect1N, Collected, Held, EndDownLast, Gift.Left, FinalRead, Finishes, Sound1N, Typed, Gift.Moved;
    if Slot(p, g.b) in gx.writes {
      RestMade(g, db, mid);
    } else {
      RestMoved(g, db, mid, p);
      MovedNull(Rest(g, db), mid.db);
    }
  }

  lemma MovedNull(g: Gift, db: Db)
    requires db.Sane()
    ensures g.Moved(db, NULL_OID) == {}
  {
  }

  lemma ConcludedLast(now: Db, db: Db, g: Gift)
    requires Sound1N(db, g) && NULL_OID !in db.Elems(g.c)
    requires forall e :: now.Read(g.a, e) == EndUpLast(db, g, e)
    requires forall p | p != NULL_OID :: now.Members(g.b, p) == EndDownLast(db, g, p)
    ensures Sym1N(now, g.a, g.b) <==> !TornDown(db, g)
  {
    if TornDown(db, g) {
      var e, p := BrokenDown(db, g);
      assert !Agree1N(now, g.a, g.b, e, p);
    } else {
      forall e: Oid, p: Oid | e != NULL_OID && p != NULL_OID ensures Agree1N(now, g.a, g.b, e, p) {
        if p == g.x {
          KeptDownOwn(db, g, e);
        } else {
          KeptDownOther(db, g, e, p);
        }
      }
    }
  }

  lemma CollectedOn(g: Gift, db: Db, first: Work, mid: Work)
    requires Collected(g, db, first) && first.db.colls == db.colls && SameView(g, first, mid)
    ensures Collected(g, db, mid) && Held(g, db, mid)
  {
    assert SameEnd(g.a, first, mid) && SameEnd(g.b, first, mid);
    hide Robs, EndUpLast, Gift.Left, Gift.TakesItself, Gift.DroppedFirst;
  }

  lemma CollectionReady(sch: Schema, g: Gift, w: Work, first: Work, mid: Work)
    requires Starts(sch, g, w) && AppliedTo(w, EffectN1(Call(Update, g.b, g.a, g.x, g.c), w.db), first)
    requires SameView(g, first, mid) && Sound(sch, mid) && w.db.next <= mid.db.next
    ensures Sound1N(w.db, g) && Collected(g, w.db, mid) && Held(g, w.db, mid) && NULL_OID !in w.db.Elems(g.c)
    ensures mid.db.Sane() && Typed(mid.db, {g.b}) && g.Left(w.db) < mid.db.next && g.c < mid.db.next
  {
    hide Collected, Held, SameView, Sym1N, Owned, EffectN1, Gift.Left;
    StartsSound(sch, g, w);
    CollectedBy(sch, g, w, first);
    CollectedOn(g, w.db, first, mid);
    NullNotGot(w.db, g);
    assert Typed(mid.db, {g.b}) by { assert g.b in sch.Colls(); }
    LeftBounded(g, w.db);
  }

  lemma FinishReads(g: Gift, mid: Work, gx: Effect, second: Work, end: Work, now: Db, o: Oid)
    requires Finishes(g, mid, gx, second, end, now)
    ensures now.Read(g.a, o) == FinalRead(mid, gx, g.a, o) && now.Read(g.b, o) == FinalRead(mid, gx, g.b, o)
  {
  }

  lemma CollectionStages(sch: Schema, g: Gift, w: Work, first: Work, mid: Work, gx: Effect, second: Work, end: Work,
                         now: Db)
    requires Starts(sch, g, w) && AppliedTo(w, EffectN1(Call(Update, g.b, g.a, g.x, g.c), w.db), first)
    requires SameView(g, first, mid) && Sound(sch, mid) && w.db.next <= mid.db.next && g.a in mid.idr && g.a != g.b
    requires gx == Effect1N(Call(Update, g.a, g.b, g.x, mid.idr[g.a]), mid.db) && Finishes(g, mid, gx, second, end, now)
    requires g.x != NULL_OID
    ensures Sym1N(now, g.a, g.b) <==> !TornDown(w.db, g)
    ensures now.Read(g.a, g.x) == g.Left(w.db) && now.Members(g.b, g.x) == EndDownLast(w.db, g, g.x)
  {
    hide *;
    CollectionReady(sch, g, w, first, mid);
    forall e ensures now.Read(g.a, e) == EndUpLast(w.db, g, e) {
      EndsDown(g, w.db, mid, gx, e);
      FinishReads(g, mid, gx, second, end, now, e);
    }
    forall p | p != NULL_OID ensures now.Members(g.b, p) == EndDownLast(w.db, g, p) {
      MembersDown(g, w.db, mid, gx, second, end, now, p);
    }
    ConcludedLast(now, w.db, g);
    OwnLast(w.db, g);
  }

  lemma OwnLast(db: Db, g: Gift)
    ensures EndUpLast(db, g, g.x) == g.Left(db)
  {
  }

  lemma LeftBounded(g: Gift, db: Db)
    ensures g.Left(db) == NULL_OID || g.Left(db) == g.x || g.Left(db) == g.y
  {
  }

  lemma CollectionAmong(sch: Schema, g: Gift, w: Work, st: Stages, fx: Effect, gx: Effect, now: Db)
    requires Starts(sch, g, w) && g.a in sch.inverse && Framed(sch, g.b, g.a, g.b, w, st)
    requires Guarded(sch, {g.b}, g.c, w, st)
    requires Pair(sch, g.b, g.a)
    requires Through(sch, g.b, g.a, g.x, w.idr, w.db, now, st.before, fx, st.first, st.between, gx)
    requires AppliedTo(st.between, gx, st.second) && now.colls == st.end.db.colls
    ensures SameView(g, w, st.before)
    ensures Sym1N(now, g.a, g.b) <==> !TornDown(st.before.db, g)
    ensures now.Read(g.a, g.x) == g.Left(st.before.db) && now.Members(g.b, g.x) == EndDownLast(st.before.db, g, g.x)
  {
    StartsOn(sch, g, w, st.before);
    assert st.before.idr[g.b] == g.c && st.before.oid == g.x;
    assert fx == EffectN1(Call(Update, g.b, g.a, g.x, g.c), st.before.db);
    assert st.between.oid == g.x && g.a in st.between.idr by { assert SameEnd(g.a, st.first, st.between); }
    assert gx == Effect1N(Call(Update, g.a, g.b, g.x, st.between.idr[g.a]), st.between.db);
    assert st.before.db.next <= st.first.db.next;
    hide Effect1N, EffectN1, FinalRead, SameEnd, SameHomes, SameColl;
    CollectionStages(sch, g, st.before, st.first, st.between, gx, st.second, st.end, now);
  }

  /** The collection declared before the reference: likewise, with another condition. */
  lemma CollectionFirst(sch: Schema, items: seq<Item>, p: nat, s: nat, g: Gift, idr: map<Item, Oid>, db: Db, now: Db)
    requires Starts(sch, g, Work(db, g.x, idr)) && Declared(items, g.b, g.a, p, s)
    requires Updated(sch, items, g.x, idr, db, now)
    ensures Sym1N(now, g.a, g.b) <==> !TornDown(db, g)
    ensures now.Read(g.a, g.x) == g.Left(db) && now.Members(g.b, g.x) == EndDownLast(db, g, g.x)
  {
    var w := Work(db, g.x, idr);
    StartsSound(sch, g, w);
    var st, fx, gx := TwoSteps(sch, items, p, s, g.b, g.a, g.x, idr, db, now);
    HomesThrough(sch, items, p, s, g.b, g.a, g.b, w, st, fx, gx);
    GuardedThrough(sch, items, p, s, g.b, g.a, {g.b}, g.c, g.b, w, st, fx, gx);
    CollectionAmong(sch, g, w, st, fx, gx, now);
    TornSame(g, w, st.before);
    ViewsSame(g, w, st.before);
    EndDownSame(g, w, st.before);
  }

  lemma EndDownSame(g: Gift, w: Work, v: Work)
    requires SameView(g, w, v)
    ensures EndDownLast(v.db, g, g.x) == EndDownLast(w.db, g, g.x)
  {
    ViewsSame(g, w, v);
    forall p, got, dropped ensures Robs(v.db, g, got, dropped, p) <==> Robs(w.db, g, got, dropped, p) {
      RobsSame(g, w, v, got, dropped, p);
    }
    assert g.TakesItself(v.db) == g.TakesItself(w.db);
  }

  // ----- only the reference is new

  /** The object becomes its own parent while its old parent has other children. */
  ghost predicate LeavesSiblings(a: Item, b: Item, x: Oid, y: Oid, db: Db) {
    var parent := db.Read(a, x);
    y == x && parent != NULL_OID && parent != x && !(db.Members(b, parent) <= {x})
  }

  lemma GivenAre(db: Db, g: Gift, e: Oid)
    requires Sound1N(db, g) && g.c == g.Own(db)
    ensures e in db.Elems(g.c) ==> e != NULL_OID && db.Read(g.a, e) == g.x
  {
    if e in db.Elems(g.c) {
      MemberPoints(db, g.a, g.b, e, g.x);
    }
  }

  /** The members are then those the object has, and itself if it is its own parent. */
  lemma GotAre(db: Db, g: Gift, e: Oid)
    requires Sound1N(db, g) && g.c == g.Own(db)
    ensures e in g.Got(db) && e != g.x ==> db.Read(g.a, e) == g.x
    ensures g.x in g.Got(db) <==> g.y == g.x
    ensures g.Dropped(db) == {}
  {
    GivenAre(db, g, e);
    GivenAre(db, g, g.x);
    DroppedAre(db, g, g.x);
    assert Apart(db, g.b, g.x, g.b, g.y) && Apart(db, g.b, g.x, g.b, g.Parent(db));
  }

  /** Where the collection given is the stored one, nothing but that comes apart, and nothing at all where
      the collection is declared first. */
  lemma StoredCollection(db: Db, g: Gift)
    requires Sound1N(db, g) && g.c == g.Own(db)
    ensures TornUp(db, g) <==> LeavesSiblings(g.a, g.b, g.x, g.y, db)
    ensures !TornDown(db, g) && EndUp(db, g, g.x) == g.y && g.Left(db) == g.y
  {
    var parent := g.Parent(db);
    forall e | e in g.Got(db) && e != g.x ensures db.Read(g.a, e) == g.x {
      GotAre(db, g, e);
    }
    forall e | e in db.Elems(g.c) ensures db.Read(g.a, e) == g.x {
      GivenAre(db, g, e);
    }
    GivenAre(db, g, g.x);
    GotAre(db, g, g.x);
    ChildrenAre(db, g, g.x, g.x);
    if g.y == g.x && parent != NULL_OID && parent != g.x {
      ChildrenAre(db, g, g.x, parent);
      assert Robs(db, g, g.Got(db), g.Dropped(db), parent);
      forall e | e in db.Members(g.b, parent) && e != g.x ensures e !in g.Got(db) {
        MemberPoints(db, g.a, g.b, e, parent);
      }
    }
  }

  // ----- N:N, one collection being new

  /** Two works agree on both ends of an N:N relationship and on the collection `c`. */
  ghost predicate SameBoth(a: Item, b: Item, c: Oid, w: Work, v: Work) {
    SamePair(a, b, w, v) && SameHomes(a, w, v) && SameHomes(b, w, v) && SameColl(c, w, v)
  }

  lemma SameBothOn(a: Item, b: Item, c: Oid, w: Work, mid: Work, v: Work)
    requires SameBoth(a, b, c, w, mid) && SameBoth(a, b, c, mid, v)
    ensures SameBoth(a, b, c, w, v)
  {
    HomesOn(a, b, w, mid, v);
    forall o ensures var d := w.db.Read(a, o); v.db.Live(d) == w.db.Live(d) && v.db.Elems(d) == w.db.Elems(d) {
      assert mid.db.Read(a, o) == w.db.Read(a, o);
    }
  }

  lemma IdleRoutine(sch: Schema, i: Item, j: Item, w: Work, fx: Effect, v: Work)
    requires Pair(sch, i, j) && i in sch.many && j in sch.many && i in w.idr && w.idr[i] == w.db.Read(i, w.oid)
    requires Routed(sch, CallOf(sch, Update, i, w), w.db, fx) && AppliedTo(w, fx, v)
    ensures fx == Effect(map[], w.db.colls, w.db.next) && v == w
  {
    hide EffectNN, Homeless, Joined, Enumerates, Routed;
    var q := CallOf(sch, Update, i, w);
    var made := RoutedNN(sch, q, w.db, fx);
    IdleNN(q, w.db, made);
  }

  ghost predicate BothAgree(now: Db, a: Item, b: Item) {
    SymNN(now, a, b) && Owned(now, {a, b})
  }

  lemma AgreeSame(t: Db, now: Db, a: Item, b: Item)
    requires forall i, o | i in {a, b} :: now.Read(i, o) == t.Read(i, o)
    requires forall i, o | i in {a, b} :: now.Live(t.Read(i, o)) == t.Live(t.Read(i, o))
    requires forall i, o | i in {a, b} :: now.Members(i, o) == t.Members(i, o)
    ensures BothAgree(t, a, b) ==> BothAgree(now, a, b)
  {
    if BothAgree(t, a, b) {
      forall x: Oid, m: Oid | x != NULL_OID && m != NULL_OID ensures AgreeNN(now, a, b, x, m) {
        assert AgreeNN(t, a, b, x, m);
      }
      forall i: Item, o: Oid, j: Item, p: Oid | i in {a, b} && j in {a, b} ensures Apart(now, i, o, j, p) {
        assert Apart(t, i, o, j, p);
      }
    }
  }

  /** The routine of the new collection has run from `w` to `v`. */
  ghost predicate RanNN(a: Item, b: Item, c: Oid, w: Work, made: seq<Oid>, v: Work) {
    var q := Call(Update, a, b, w.oid, c);
    && Ready(q, w.db) && Made(q, w.db, made) && w.db.Readable(c) && AppliedTo(w, EffectNN(q, w.db, made), v)
    && a in w.idr && w.idr[a] == c && b in w.idr && w.idr[b] == w.db.Read(b, w.oid)
  }

  lemma SlotsNN(q: Call, db: Db, made: seq<Oid>, w: Work, v: Work, i: Item, o: Oid)
    requires q.op == Update && q.item != q.inv && i in {q.item, q.inv} && w.db == db && q.obj == w.oid
    requires AppliedTo(w, EffectNN(q, db, made), v) && q.item in w.idr && w.idr[q.item] == q.target
    requires q.inv in w.idr && w.idr[q.inv] == db.Read(q.inv, q.obj)
    ensures var t := Now(q, db, made);
            && t.colls == v.db.colls && v.oid == w.oid && q.item in v.idr
            && t.Read(i, o) == (if o == v.oid && i in v.idr then v.idr[i] else v.db.Read(i, o))
            && (t.Read(i, o) == v.db.Read(i, o) || t.Read(i, o) == q.target)
            && t.Read(q.item, q.obj) == q.target
  {
    hide Homeless, Joined, Withdrawn, Add, MadeSlots, MadeColls;
    MadeSlotsKeys(made, db.next, q.inv);
  }

  lemma RanReads(a: Item, b: Item, c: Oid, w: Work, made: seq<Oid>, v: Work, i: Item, o: Oid)
    requires RanNN(a, b, c, w, made, v) && i in {a, b}
    ensures var t := Now(Call(Update, a, b, w.oid, c), w.db, made);
            && t.colls == v.db.colls && v.oid == w.oid && a in v.idr
            && t.Read(i, o) == (if o == v.oid && i in v.idr then v.idr[i] else v.db.Read(i, o))
            && (t.Read(i, o) == v.db.Read(i, o) || t.Read(i, o) == c)
            && t.Read(a, w.oid) == c
  {
    hide EffectNN, Now, AppliedTo, Made, Typed, Owned, SymNN;
    SlotsNN(Call(Update, a, b, w.oid, c), w.db, made, w, v, i, o);
  }

  lemma RanExactly(a: Item, b: Item, c: Oid, w: Work, made: seq<Oid>, v: Work)
    requires RanNN(a, b, c, w, made, v)
    ensures var q := Call(Update, a, b, w.oid, c);
            BothAgree(Now(q, w.db, made), a, b) <==> Free(q, w.db, {a, b})
  {
    StepNNExactly(Call(Update, a, b, w.oid, c), w.db, made);
    hide EffectNN, Now, Ready, Made, AppliedTo, SymNN, Owned, Free;
  }

  /** Nothing else happens to the two ends. */
  lemma MovedNN(a: Item, b: Item, c: Oid, w: Work, made: seq<Oid>, v: Work, end: Work, now: Db)
    requires RanNN(a, b, c, w, made, v) && SameBoth(a, b, c, v, end) && now.colls == end.db.colls
    requires forall i, o | i in {a, b} :: now.Read(i, o) == if o == v.oid && i in v.idr then v.idr[i]
      else v.db.Read(i, o)
    ensures BothAgree(now, a, b) <==> Free(Call(Update, a, b, w.oid, c), w.db, {a, b})
    ensures now.Read(a, w.oid) == c
  {
    hide RanNN, EffectNN, Now, AppliedTo, SymNN, Owned, Free, BothAgree;
    var q := Call(Update, a, b, w.oid, c);
    var t := Now(q, w.db, made);
    forall i, o | i in {a, b}
      ensures now.Read(i, o) == t.Read(i, o)
      ensures now.Live(t.Read(i, o)) == t.Live(t.Read(i, o)) && now.Elems(t.Read(i, o)) == t.Elems(t.Read(i, o))
    {
      RanReads(a, b, c, w, made, v, i, o);
      assert var d := v.db.Read(i, o); end.db.Live(d) == v.db.Live(d) && end.db.Elems(d) == v.db.Elems(d);
    }
    RanReads(a, b, c, w, made, v, a, w.oid);
    RanExactly(a, b, c, w, made, v);
    AgreeSame(t, now, a, b);
    AgreeSame(now, t, a, b);
  }

  /** What both routines of an N:N relationship start from; the collection given for `b` is the stored one. */
  ghost predicate StartsNN(sch: Schema, a: Item, b: Item, c: Oid, w: Work) {
    && Pair(sch, a, b) && a in sch.many && b in sch.many && w.oid != NULL_OID && Sound(sch, w) && SymNN(w.db, a, b)
    && a in w.idr && w.idr[a] == c && b in w.idr && w.idr[b] == w.db.Read(b, w.oid)
    && w.db.Readable(c) && Ours(sch, {a, b}, c, w)
  }

  lemma RoutedNN(sch: Schema, q: Call, db: Db, fx: Effect) returns (made: seq<Oid>)
    requires q.item in sch.many && q.inv in sch.many && q.op == Update && Routed(sch, q, db, fx)
    ensures Enumerates(made, Homeless(db, q.inv, Joined(q, db))) && fx == EffectNN(q, db, made)
  {
    hide EffectNN, Homeless, Joined, Enumerates;
    made :| (q.op != Remove ==> Enumerates(made, Homeless(db, q.inv, Joined(q, db)))) && fx == EffectNN(q, db, made);
  }

  lemma BothReady(sch: Schema, a: Item, b: Item, c: Oid, w: Work)
    requires StartsNN(sch, a, b, c, w)
    ensures Ready(Call(Update, a, b, w.oid, c), w.db)
  {
    hide SymNN, Ours;
    PairBack(sch, a, b);
    assert a in sch.Colls() && b in sch.Colls();
  }

  lemma StartsReady(sch: Schema, a: Item, b: Item, c: Oid, w: Work, fx: Effect, v: Work) returns (made: seq<Oid>)
    requires StartsNN(sch, a, b, c, w) && Routed(sch, CallOf(sch, Update, a, w), w.db, fx) && AppliedTo(w, fx, v)
    ensures RanNN(a, b, c, w, made, v)
  {
    hide EffectNN, Homeless, Joined, Enumerates, AppliedTo, SymNN, Ours, Ready, Sound;
    made := RoutedNN(sch, CallOf(sch, Update, a, w), w.db, fx);
    BothReady(sch, a, b, c, w);
  }

  lemma StartsNNOn(sch: Schema, a: Item, b: Item, c: Oid, w: Work, v: Work)
    requires StartsNN(sch, a, b, c, w) && SameBoth(a, b, c, w, v) && Sound(sch, v) && Ours(sch, {a, b}, c, v)
    ensures StartsNN(sch, a, b, c, v)
    ensures Free(Call(Update, a, b, v.oid, c), v.db, {a, b}) <==> Free(Call(Update, a, b, w.oid, c), w.db, {a, b})
  {
    assert SameEnd(a, w, v) && SameEnd(b, w, v);
    forall x: Oid, m: Oid | x != NULL_OID && m != NULL_OID ensures AgreeNN(v.db, a, b, x, m) {
      assert AgreeNN(w.db, a, b, x, m) && v.db.Members(a, x) == w.db.Members(a, x);
      assert v.db.Members(b, m) == w.db.Members(b, m);
    }
  }

  lemma BothOf(sch: Schema, first: Item, second: Item, a: Item, b: Item, c: Oid, w: Work, g: Stages)
    requires (first == a && second == b) || (first == b && second == a)
    requires Framed(sch, first, second, a, w, g) && Framed(sch, first, second, b, w, g) && Guarded(sch, {a, b}, c, w, g)
    ensures SameBoth(a, b, c, w, g.before) && SameBoth(a, b, c, g.first, g.between)
    ensures SameBoth(a, b, c, g.second, g.end)
    ensures Sound(sch, g.before) && Sound(sch, g.between)
  {
  }

  /** N:N in one class, one end given a new collection, in whichever order they are declared: both ends agree
      afterwards, and every collection has one holder, exactly when nobody else holds the collection given. */
  lemma OneEndNN(sch: Schema, items: seq<Item>, p: nat, s: nat, a: Item, b: Item, x: Oid, idr: map<Item, Oid>, db: Db,
                 now: Db)
    requires a in idr && StartsNN(sch, a, b, idr[a], Work(db, x, idr)) && Updated(sch, items, x, idr, db, now)
    requires Declared(items, a, b, p, s) || Declared(items, b, a, p, s)
    ensures SymNN(now, a, b) && Owned(now, {a, b}) <==> Free(Call(Update, a, b, x, idr[a]), db, {a, b})
    ensures now.Read(a, x) == idr[a]
  {
    var w, c := Work(db, x, idr), idr[a];
    PairBack(sch, a, b);
    if Declared(items, a, b, p, s) {
      var g, fx, gx := TwoSteps(sch, items, p, s, a, b, x, idr, db, now);
      HomesThrough(sch, items, p, s, a, b, a, w, g, fx, gx);
      HomesThrough(sch, items, p, s, a, b, b, w, g, fx, gx);
      GuardedThrough(sch, items, p, s, a, b, {a, b}, c, a, w, g, fx, gx);
      BothOf(sch, a, b, a, b, c, w, g);
      MovingFirstNN(sch, a, b, c, w, g, fx, gx, now);
    } else {
      var g, fx, gx := TwoSteps(sch, items, p, s, b, a, x, idr, db, now);
      HomesThrough(sch, items, p, s, b, a, a, w, g, fx, gx);
      HomesThrough(sch, items, p, s, b, a, b, w, g, fx, gx);
      GuardedThrough(sch, items, p, s, b, a, {a, b}, c, a, w, g, fx, gx);
      BothOf(sch, b, a, a, b, c, w, g);
      MovingSecondNN(sch, a, b, c, w, g, fx, gx, now);
    }
  }

  lemma MovingFirstNN(sch: Schema, a: Item, b: Item, c: Oid, w: Work, g: Stages, fx: Effect, gx: Effect, now: Db)
    requires StartsNN(sch, a, b, c, w) && b in sch.inverse && Ours(sch, {a, b}, c, g.before)
    requires SameBoth(a, b, c, w, g.before) && SameBoth(a, b, c, g.first, g.between)
    requires SameBoth(a, b, c, g.second, g.end)
    requires Sound(sch, g.before) && AppliedTo(g.between, gx, g.second) && now.colls == g.end.db.colls
    requires Through(sch, a, b, w.oid, w.idr, w.db, now, g.before, fx, g.first, g.between, gx)
    ensures BothAgree(now, a, b) <==> Free(Call(Update, a, b, w.oid, c), w.db, {a, b})
    ensures now.Read(a, w.oid) == c
  {
    PairBack(sch, a, b);
    StartsNNOn(sch, a, b, c, w, g.before);
    hide Ready, Made, EffectNN, Routed, SymNN, Typed, Owned, Free, BothAgree, SameHomes, SameColl, Ours, Sound;
    var made := StartsReady(sch, a, b, c, g.before, fx, g.first);
    PatchKeeps(g.before, fx, g.first, b);
    assert SameEnd(a, g.first, g.between) && SameEnd(b, g.first, g.between);
    IdleRoutine(sch, b, a, g.between, gx, g.second);
    SameBothOn(a, b, c, g.first, g.between, g.end);
    forall i, o | i in {a, b}
      ensures now.Read(i, o) == if o == g.first.oid && i in g.first.idr then g.first.idr[i] else g.first.db.Read(i, o)
    {
      assert SameEnd(i, g.first, g.between);
    }
    hide RanNN, AppliedTo, SameBoth;
    MovedNN(a, b, c, g.before, made, g.first, g.end, now);
  }

  lemma PatchKeeps(w: Work, fx: Effect, v: Work, i: Item)
    requires AppliedTo(w, fx, v) && i in w.idr && w.idr[i] == w.db.Read(i, w.oid)
    ensures i in v.idr && v.idr[i] == v.db.Read(i, v.oid) && v.oid == w.oid
  {
  }

  lemma MovingSecondNN(sch: Schema, a: Item, b: Item, c: Oid, w: Work, g: Stages, fx: Effect, gx: Effect, now: Db)
    requires StartsNN(sch, a, b, c, w) && b in sch.inverse && Ours(sch, {a, b}, c, g.before)
    requires Ours(sch, {a, b}, c, g.between)
    requires SameBoth(a, b, c, w, g.before) && SameBoth(a, b, c, g.first, g.between)
    requires SameBoth(a, b, c, g.second, g.end)
    requires Sound(sch, g.before) && Sound(sch, g.between) && AppliedTo(g.between, gx, g.second)
    requires now.colls == g.end.db.colls
    requires Through(sch, b, a, w.oid, w.idr, w.db, now, g.before, fx, g.first, g.between, gx)
    ensures BothAgree(now, a, b) <==> Free(Call(Update, a, b, w.oid, c), w.db, {a, b})
    ensures now.Read(a, w.oid) == c
  {
    PairBack(sch, a, b);
    StartsNNOn(sch, a, b, c, w, g.before);
    hide Ready, Made, EffectNN, Routed, SymNN, Typed, Owned, Free, BothAgree, SameHomes, SameColl, Ours, Sound;
    IdleRoutine(sch, b, a, g.before, fx, g.first);
    StartsNNOn(sch, a, b, c, g.before, g.between);
    var made := StartsReady(sch, a, b, c, g.between, gx, g.second);
    forall i, o | i in {a, b}
      ensures now.Read(i, o) == if o == g.second.oid && i in g.second.idr then g.second.idr[i]
        else g.second.db.Read(i, o)
    {
      LastWrite(g.between, gx, g.second, i, o);
    }
    hide RanNN, AppliedTo, SameBoth, FinalRead;
    MovedNN(a, b, c, g.between, made, g.second, g.end, now);
  }
}
