/** What each inverse routine does to a database image, in closed form: the slots it
    writes, the collections it leaves, and the oids it allocates.  Nothing here follows
    the order in which a routine visits the elements of a collection. */
module InverseSpec {
  import opened Store

  datatype Op = Create | Update | Remove

  datatype Effect = Effect(writes: map<Slot, Oid>, colls: map<Oid, Coll>, next: Oid)

  /** `obj` is the stored object, `target` the oid its IDR holds for `item`, and `inv`
      the inverse attribute of `item`. */
  datatype Call = Call(op: Op, item: Item, inv: Item, obj: Oid, target: Oid) {

    /** What the database still holds for this attribute when an update starts. */
    function Old(db: Db): Oid {
      if op == Update then db.Read(item, obj) else NULL_OID
    }

    /** The update leaves its old target for another one (possibly null). */
    predicate Leaves(db: Db) {
      Old(db) != NULL_OID && Old(db) != target
    }
  }

  // ----- 1:1

  /** The old target is let go, if it still points back. */
  function Left11(q: Call, db: Db): map<Slot, Oid> {
    if q.Leaves(db) && db.Read(q.inv, q.Old(db)) == q.obj then map[Slot(q.Old(db), q.inv) := NULL_OID] else map[]
  }

  /** Besides the slots in `w`, the object the new target was related to loses it. */
  function Displaced11(q: Call, db: Db, w: map<Slot, Oid>): map<Slot, Oid> {
    var cur := db.Read(q.inv, q.target);
    if cur != NULL_OID && cur != q.obj then w[Slot(cur, q.item) := NULL_OID] else w
  }

  function Writes11(q: Call, db: Db): map<Slot, Oid> {
    var back := Slot(q.target, q.inv);
    if q.target == NULL_OID then Left11(q, db)
    else if q.op == Remove then map[back := NULL_OID]
    else if q.op == Create && db.Read(q.inv, q.target) == q.obj then map[]
    else Displaced11(q, db, Left11(q, db))[back := q.obj]
  }

  function Effect11(q: Call, db: Db): Effect {
    Effect(Writes11(q, db), db.colls, db.next)
  }

  // ----- 1:N, seen from the single reference

  predicate Runs1N(q: Call, db: Db) {
    && (q.Leaves(db) ==> db.Readable(db.Read(q.inv, q.Old(db))))
    && (q.target != NULL_OID ==> db.Readable(db.Read(q.inv, q.target)))
  }

  /** `x` leaves the collection that attribute `inv` of `e` refers to. */
  function Leave(db: Db, inv: Item, e: Oid, x: Oid): map<Oid, Coll> {
    Strip(db.colls, {db.Read(inv, e)}, {x})
  }

  /** `x` joins that collection, which is made and recorded in `e` when `e` has none. */
  function Join(db: Db, inv: Item, e: Oid, x: Oid): Effect {
    var home := db.Read(inv, e);
    if db.Live(home) then Effect(map[], Add(db.colls, {home}, x), db.next)
    else Effect(map[Slot(e, inv) := db.next], db.colls[db.next := Coll({x}, false)], db.next + 1)
  }

  /** The database once the old target's collection was left. */
  function Left1N(q: Call, db: Db): Db {
    if q.Leaves(db) then db.(colls := Leave(db, q.inv, q.Old(db), q.obj)) else db
  }

  function Effect1N(q: Call, db: Db): Effect {
    if q.target == NULL_OID then Effect(map[], Left1N(q, db).colls, db.next)
    else if q.op == Remove then Effect(map[], Leave(db, q.inv, q.target, q.obj), db.next)
    else Join(Left1N(q, db), q.inv, q.target, q.obj)
  }

  // ----- N:1, seen from the collection

  predicate RunsN1(q: Call, db: Db) {
    && (q.Leaves(db) ==> q.Old(db) in db.colls)
    && (q.target != NULL_OID ==> q.target in db.colls)
  }

  /** The members an update abandons with its old collection. */
  function Abandoned(q: Call, db: Db): set<Oid> {
    if q.Leaves(db) then db.Elems(q.Old(db)) else {}
  }

  function Nulled(es: set<Oid>, item: Item): (w: map<Slot, Oid>)
    ensures forall k :: k in w <==> k.item == item && k.obj in es
  {
    map e | e in es :: Slot(e, item) := NULL_OID
  }

  function PointedTo(es: set<Oid>, item: Item, x: Oid): (w: map<Slot, Oid>)
    ensures forall k :: k in w <==> k.item == item && k.obj in es
  {
    map e | e in es :: Slot(e, item) := x
  }

  /** The database once the abandoned members were nulled. */
  function Released(q: Call, db: Db): Db {
    db.(slots := db.slots + Nulled(Abandoned(q, db), q.inv))
  }

  /** Those of `es` that attribute `inv` does not relate to `x`. */
  function Strangers(db: Db, inv: Item, es: set<Oid>, x: Oid): set<Oid> {
    set e | e in es && db.Read(inv, e) != x
  }

  /** The objects that attribute `inv` of the members refers to. */
  function OwnersOf(db: Db, inv: Item, es: set<Oid>): set<Oid> {
    set e | e in es && db.Read(inv, e) != NULL_OID :: db.Read(inv, e)
  }

  /** `x` takes over all of `es`; whoever owned one of them loses its whole collection. */
  function TakeOver(db: Db, item: Item, inv: Item, es: set<Oid>, x: Oid): map<Slot, Oid> {
    var taken := Strangers(db, inv, es, x);
    Nulled(OwnersOf(db, inv, taken), item) + PointedTo(taken, inv, x)
  }

  function EffectN1(q: Call, db: Db): Effect {
    Effect(
      if q.op == Remove then
        Nulled(db.Elems(q.target), q.inv)
      else
        Nulled(Abandoned(q, db), q.inv) + TakeOver(Released(q, db), q.item, q.inv, db.Elems(q.target), q.obj),
      db.colls, db.next)
  }

  // ----- N:N

  function InverseColls(db: Db, inv: Item, es: set<Oid>): set<Oid> {
    set e | e in es :: db.Read(inv, e)
  }

  /** The collections once the old one was emptied and `obj` taken out of its members'. */
  function Withdrawn(q: Call, db: Db): map<Oid, Coll> {
    if q.Leaves(db) && db.Live(q.Old(db)) then
      var es := db.Elems(q.Old(db));
      Strip(Strip(db.colls, {q.Old(db)}, es), InverseColls(db, q.inv, es), {q.obj})
    else db.colls
  }

  /** The members of the new collection, when the routine gets to visit them. */
  function Joined(q: Call, db: Db): set<Oid> {
    if q.target == NULL_OID || (q.op == Update && q.Old(db) == q.target) then {}
    else Db(db.slots, Withdrawn(q, db), db.next).Elems(q.target)
  }

  /** Those of `es` that have no inverse collection and need one. */
  function Homeless(db: Db, inv: Item, es: set<Oid>): set<Oid> {
    set e | e in es && !db.Live(db.Read(inv, e))
  }

  /** Those of `es` whose attribute `inv` refers to a collection, live or not. */
  function Housed(db: Db, inv: Item, es: set<Oid>): set<Oid> {
    set e | e in es && db.Read(inv, e) != NULL_OID
  }

  predicate RunsNN(q: Call, db: Db) {
    && (q.Leaves(db) ==> q.Old(db) in db.colls)
    && (forall e | e in Abandoned(q, db) :: db.Readable(db.Read(q.inv, e)))
    && (q.target != NULL_OID && !(q.op == Update && q.Old(db) == q.target) ==> q.target in db.colls)
    && (forall e | e in (if q.op == Remove then db.Elems(q.target) else Joined(q, db)) ::
          db.Readable(db.Read(q.inv, e)))
  }

  /** The slots that record the collections made on demand: member `made[i]` gets `base + i`. */
  function MadeSlots(made: seq<Oid>, base: Oid, inv: Item): map<Slot, Oid> {
    if made == [] then map[]
    else
      var n := |made| - 1;
      MadeSlots(made[..n], base, inv)[Slot(made[n], inv) := base + n]
  }

  lemma {:induction false} MadeSlotsKeys(made: seq<Oid>, base: Oid, inv: Item)
    ensures forall k :: k in MadeSlots(made, base, inv) <==> k.item == inv && k.obj in made
    ensures forall k <- MadeSlots(made, base, inv) :: base <= MadeSlots(made, base, inv)[k] < base + |made|
  {
    if made != [] {
      MadeSlotsKeys(made[..|made| - 1], base, inv);
    }
  }

  /** Those collections themselves, each holding just `x`. */
  function MadeColls(n: nat, base: Oid, x: Oid): (m: map<Oid, Coll>)
    ensures forall c :: c in m <==> base <= c < base + n
    ensures forall c <- m :: m[c] == Coll({x}, false)
  {
    if n == 0 then map[] else MadeColls(n - 1, base, x)[base + n - 1 := Coll({x}, false)]
  }

  /** `made` lists the members of `es` that need a collection, each once. */
  ghost predicate Enumerates(made: seq<Oid>, es: set<Oid>) {
    && (forall e :: e in made <==> e in es)
    && (forall i, j :: 0 <= i < j < |made| ==> made[i] != made[j])
  }

  /** `made` is the order in which the homeless members were met. */
  function EffectNN(q: Call, db: Db, made: seq<Oid>): Effect {
    if q.op == Remove then
      var es := db.Elems(q.target);
      Effect(map[], Strip(Strip(db.colls, {q.target}, Housed(db, q.inv, es)), InverseColls(db, q.inv, es), {q.obj}),
          db.next)
    else
      Effect(
        MadeSlots(made, db.next, q.inv),
        Add(Withdrawn(q, db), InverseColls(db, q.inv, Joined(q, db)), q.obj) + MadeColls(|made|, db.next, q.obj),
        db.next + |made|)
  }

  // ----- one element inserted into or taken out of a collection

  /** Here `obj` owns the collection and `target` is the element. */
  predicate RunsElem1(q: Call, db: Db) {
    var was := db.Read(q.inv, q.target);
    q.op == Update && was != NULL_OID && was != q.obj ==> db.Readable(db.Read(q.item, was))
  }

  /** The collection of the element's previous owner, all of whose members are let go. */
  function Robbed(q: Call, db: Db): Oid {
    var was := db.Read(q.inv, q.target);
    if was != NULL_OID && was != q.obj then db.Read(q.item, was) else NULL_OID
  }

  function EffectElem1(q: Call, db: Db): Effect {
    if q.op == Remove then Effect(map[Slot(q.target, q.inv) := NULL_OID], db.colls, db.next)
    else
      var es := db.Elems(Robbed(q, db));
      Effect(Nulled(es, q.inv) + map[Slot(q.target, q.inv) := q.obj],
             Strip(db.colls, {Robbed(q, db)}, es), db.next)
  }

  /** Those of `es` whose collection exists and is not `cur`. */
  function Elsewhere(db: Db, item: Item, es: set<Oid>, cur: Oid): set<Oid> {
    set z | z in es && db.Read(item, z) != NULL_OID && db.Read(item, z) != cur
  }

  /** The other objects that the element's inverse collection names as its owners. */
  function OtherOwners(q: Call, db: Db): set<Oid> {
    Elsewhere(db, q.item, db.Members(q.inv, q.target), db.Read(q.item, q.obj))
  }

  predicate RunsElemN(q: Call, db: Db) {
    && db.Readable(db.Read(q.inv, q.target))
    && (q.op == Remove ==> forall z | z in OtherOwners(q, db) :: db.Read(q.item, z) in db.colls)
  }

  function EffectElemN(q: Call, db: Db): Effect {
    if q.op == Remove then
      var others := Strip(db.colls, InverseColls(db, q.item, OtherOwners(q, db)), {q.target});
      Effect(map[], Leave(db.(colls := others), q.inv, q.target, q.obj), db.next)
    else
      Join(db, q.inv, q.target, q.obj)
  }

  // ----- a collection is written: first its own contents, then the inverse of each change

  datatype Change = Change(elem: Oid, added: bool)

  /** The collection attribute `item` of `owner` is being written; `many` tells an inverse
      that is itself a collection. */
  datatype Write = Write(item: Item, inv: Item, many: bool, owner: Oid) {
    function Of(ch: Change): Call {
      Call(if ch.added then Update else Remove, item, inv, owner, ch.elem)
    }
  }

  function Edit(es: set<Oid>, ch: Change): set<Oid> {
    if ch.added then es + {ch.elem} else es - {ch.elem}
  }

  /** The elements after all changes. */
  function Edited(es: set<Oid>, changes: seq<Change>): set<Oid>
    decreases |changes|
  {
    if changes == [] then es else Edited(Edit(es, changes[0]), changes[1..])
  }

  /** Every element to be removed is there when its turn comes. */
  predicate Editable(es: set<Oid>, changes: seq<Change>)
    decreases |changes|
  {
    changes != [] ==> (changes[0].added || changes[0].elem in es) && Editable(Edit(es, changes[0]), changes[1..])
  }

  function PerformEffect(w: Write, ch: Change, db: Db): Effect {
    if w.many then EffectElemN(w.Of(ch), db) else EffectElem1(w.Of(ch), db)
  }

  predicate PerformRuns(w: Write, ch: Change, db: Db) {
    if w.many then RunsElemN(w.Of(ch), db) else RunsElem1(w.Of(ch), db)
  }

  function Perform(w: Write, ch: Change, db: Db): Db {
    var fx := PerformEffect(w, ch, db);
    Db(db.slots + fx.writes, fx.colls, fx.next)
  }

  lemma PerformSane(w: Write, ch: Change, db: Db)
    requires db.Sane() && NULL_OID < w.owner < db.next && ch.elem != NULL_OID
    ensures Perform(w, ch, db).Sane() && db.next <= Perform(w, ch, db).next
  {
  }

  function PerformAll(w: Write, changes: seq<Change>, db: Db): Db {
    if changes == [] then db else PerformAll(w, changes[1..], Perform(w, changes[0], db))
  }

  predicate PerformAllRuns(w: Write, changes: seq<Change>, db: Db) {
    changes != [] ==>
      PerformRuns(w, changes[0], db) && PerformAllRuns(w, changes[1..], Perform(w, changes[0], db))
  }

  /** The database once the collection `c` itself was changed. */
  function WithElems(db: Db, c: Oid, es: set<Oid>): Db {
    db.(colls := db.colls[c := Coll(es, false)])
  }

  /** The whole write. */
  function Written(w: Write, c: Oid, changes: seq<Change>, db: Db): Db {
    PerformAll(w, changes, WithElems(db, c, Edited(db.Elems(c), changes)))
  }
}
