/** The index agrees with a naive scan: one entry for each way to go along the path. */
module IndexLaws {
  import opened Outcomes
  import opened ArgumentFormat
  import opened ArgumentLaws
  import opened IndexBuild

  /** The positions taken along a path, one for each attribute. */
  type Tuple = seq<nat>

  ghost predicate Valid(o: Instance, path: seq<Attr>, ix: Tuple)
    requires Fits(o, path)
    decreases |path|
  {
    |ix| == |path| &&
    if |path| == 1 then ix[0] < path[0].pdims
    else ix[0] < |o.subs[path[0].id]| && Valid(o.subs[path[0].id][ix[0]], path[1..], ix[1..])
  }

  /** The value at the end of the way. */
  ghost function CellAt(o: Instance, path: seq<Attr>, ix: Tuple): Cell
    requires Fits(o, path) && Valid(o, path, ix)
    decreases |path|
  {
    if |path| == 1 then o.cells[path[0].id][ix[0]]
    else CellAt(o.subs[path[0].id][ix[0]], path[1..], ix[1..])
  }

  ghost function EntryAt(o: Instance, path: seq<Attr>, ix: Tuple, oid: Oid): Entry
    requires Fits(o, path) && Valid(o, path, ix)
  {
    (Key(ix[|ix| - 1], CellAt(o, path, ix)), oid)
  }

  ghost predicate Distinct<T(!new)>(s: seq<T>) {
    forall i, j | 0 <= i < j < |s| :: s[i] != s[j]
  }

  /** `es` are the entries at the tuples `list`. */
  ghost predicate Lists(o: Instance, path: seq<Attr>, oid: Oid, list: seq<Tuple>, es: seq<Entry>)
    requires Fits(o, path)
  {
    && |es| == |list| && Distinct(list)
    && forall k | 0 <= k < |list| :: Valid(o, path, list[k]) && es[k] == EntryAt(o, path, list[k], oid)
  }

  lemma ListsMore(o: Instance, path: seq<Attr>, oid: Oid, list: seq<Tuple>, es: seq<Entry>,
                  up: seq<Tuple>, es': seq<Entry>)
    requires Fits(o, path) && Lists(o, path, oid, list, es) && Lists(o, path, oid, up, es')
    requires Distinct(list + up)
    ensures Lists(o, path, oid, list + up, es + es')
  {
  }

  lemma {:induction false} CellKeys(cells: seq<Cell>, n: nat, oid: Oid) returns (es: seq<Entry>)
    requires n <= |cells|
    ensures |es| == n && forall k | 0 <= k < n :: es[k] == (Key(k, cells[k]), oid)
    ensures multiset(es) == CellEntries(cells, n, oid)
    decreases n
  {
    es := [];
    if n > 0 {
      es := CellKeys(cells, n - 1, oid);
      es := es + [(Key(n - 1, cells[n - 1]), oid)];
    }
  }

  lemma CellTuples(o: Instance, a: Attr, oid: Oid) returns (list: seq<Tuple>, es: seq<Entry>)
    requires Fits(o, [a])
    ensures Lists(o, [a], oid, list, es) && |list| == a.pdims && forall k: nat | k < a.pdims :: list[k] == [k]
    ensures multiset(es) == CellEntries(o.cells[a.id], a.pdims, oid)
  {
    es := CellKeys(o.cells[a.id], a.pdims, oid);
    list := seq(a.pdims, k requires 0 <= k < a.pdims => [k]);
    forall j, k | 0 <= j < k < |list| ensures list[j] != list[k] {
      assert list[j][0] == j && list[k][0] == k;
    }
    forall k: nat | k < a.pdims ensures Valid(o, [a], list[k]) && es[k] == EntryAt(o, [a], list[k], oid) {
      assert list[k] == [k];
    }
  }

  /** The tuples of an embedded object, seen from the object it is embedded in. */
  lemma Lift(o: Instance, path: seq<Attr>, oid: Oid, i: nat, list: seq<Tuple>, es: seq<Entry>)
    returns (up: seq<Tuple>)
    requires Fits(o, path) && |path| > 1 && i < |o.subs[path[0].id]|
    requires Lists(o.subs[path[0].id][i], path[1..], oid, list, es)
    ensures Lists(o, path, oid, up, es) && |up| == |list| && forall k | 0 <= k < |up| :: up[k] == [i] + list[k]
  {
    up := seq(|list|, k requires 0 <= k < |list| => [i] + list[k]);
    var x := o.subs[path[0].id][i];
    forall k | 0 <= k < |up| ensures Valid(o, path, up[k]) && es[k] == EntryAt(o, path, up[k], oid) {
      assert up[k][1..] == list[k] && Valid(x, path[1..], list[k]) && es[k] == EntryAt(x, path[1..], list[k], oid);
    }
    forall j, k | 0 <= j < k < |up| ensures up[j] != up[k] {
      assert up[j][1..] == list[j] && up[k][1..] == list[k];
    }
  }

  lemma DistinctJoin(list: seq<Tuple>, up: seq<Tuple>, i: nat)
    requires Distinct(list) && (forall ix | ix in list :: |ix| > 0 && ix[0] < i)
    requires Distinct(up) && (forall ix | ix in up :: |ix| > 0 && ix[0] == i)
    ensures Distinct(list + up)
  {
    var both := list + up;
    forall j, k | 0 <= j < k < |both| ensures both[j] != both[k] {
      if j < |list| <= k {
        assert both[j] in list && both[k] in up;
      }
    }
  }

  /** The tuples whose first position is before `n`. */
  ghost predicate Complete(o: Instance, path: seq<Attr>, n: nat, list: seq<Tuple>)
    requires Fits(o, path) && path != []
  {
    forall ix: Tuple :: ix in list <==> Valid(o, path, ix) && ix[0] < n
  }

  lemma CompleteMore(o: Instance, path: seq<Attr>, i: nat, list: seq<Tuple>, list': seq<Tuple>,
                     up: seq<Tuple>)
    requires Fits(o, path) && |path| > 1 && i < |o.subs[path[0].id]| && Complete(o, path, i, list)
    requires forall ix: Tuple :: ix in list' <==> Valid(o.subs[path[0].id][i], path[1..], ix)
    requires |up| == |list'| && forall k | 0 <= k < |up| :: up[k] == [i] + list'[k]
    ensures Complete(o, path, i + 1, list + up) && forall ix | ix in up :: |ix| > 0 && ix[0] == i
  {
    forall ix: Tuple ensures ix in up <==> Valid(o, path, ix) && ix[0] == i {
      if ix in up {
        var k :| 0 <= k < |up| && up[k] == ix;
        assert ix[1..] == list'[k] && list'[k] in list';
      }
      if Valid(o, path, ix) && ix[0] == i {
        assert ix[1..] in list';
        var k :| 0 <= k < |list'| && list'[k] == ix[1..];
        assert up[k] == ix;
      }
    }
  }

  lemma {:induction false} SubTuples(o: Instance, path: seq<Attr>, n: nat, oid: Oid)
    returns (list: seq<Tuple>, es: seq<Entry>)
    requires Fits(o, path) && |path| > 1 && n <= |o.subs[path[0].id]|
    ensures Lists(o, path, oid, list, es) && Complete(o, path, n, list)
    ensures multiset(es) == SubEntries(o.subs[path[0].id], n, path[1..], oid)
    decreases |path|, 0, n
  {
    list, es := [], [];
    if n > 0 {
      var i := n - 1;
      var x := o.subs[path[0].id][i];
      list, es := SubTuples(o, path, i, oid);
      var list', es' := OnePerTuple(x, path[1..], oid);
      var up := Lift(o, path, oid, i, list', es');
      CompleteMore(o, path, i, list, list', up);
      hide Fits, Valid, EntryAt;
      DistinctJoin(list, up, i);
      ListsMore(o, path, oid, list, es, up, es');
      list, es := list + up, es + es';
    }
  }

  /** The entries of an instance are those at the tuples of positions along the path: `list` holds
      each of these once. */
  lemma {:induction false} OnePerTuple(o: Instance, path: seq<Attr>, oid: Oid)
    returns (list: seq<Tuple>, es: seq<Entry>)
    requires Fits(o, path)
    ensures Lists(o, path, oid, list, es)
    ensures forall ix: Tuple :: ix in list <==> Valid(o, path, ix)
    ensures multiset(es) == Entries(o, path, oid)
    decreases |path|, 1
  {
    if |path| == 1 {
      assert path == [path[0]];
      list, es := CellTuples(o, path[0], oid);
      forall ix: Tuple | Valid(o, path, ix) ensures ix in list {
        assert list[ix[0]] == ix;
      }
    } else {
      list, es := SubTuples(o, path, |o.subs[path[0].id]|, oid);
    }
  }

  /** One instance has a key exactly when going along its path comes to a value with that key. */
  lemma KeyExactly(o: Instance, path: seq<Attr>, k: seq<Byte>, oid: Oid)
    requires Fits(o, path)
    ensures (k, oid) in Entries(o, path, oid) <==>
            exists ix: Tuple :: Valid(o, path, ix) && (k, oid) == EntryAt(o, path, ix, oid)
    ensures forall e | e in Entries(o, path, oid) :: e.1 == oid
  {
    var list, es := OnePerTuple(o, path, oid);
    hide Fits, Valid;
    forall e | e in Entries(o, path, oid)
      ensures e.1 == oid && exists ix: Tuple :: Valid(o, path, ix) && e == EntryAt(o, path, ix, oid)
    {
      assert e in multiset(es);
      var j :| 0 <= j < |es| && es[j] == e;
      assert Valid(o, path, list[j]) && e == EntryAt(o, path, list[j], oid);
    }
    forall ix: Tuple | Valid(o, path, ix) && (k, oid) == EntryAt(o, path, ix, oid)
      ensures (k, oid) in Entries(o, path, oid)
    {
      assert ix in list;
      var j :| 0 <= j < |list| && list[j] == ix;
      assert es[j] == (k, oid) && es[j] in multiset(es);
    }
  }

  /** An instance is in the index under a key exactly when going along its path comes to a value
      with that key. */
  lemma {:induction false} FoundExactly(db: map<Oid, Instance>, extent: seq<Oid>, n: nat, path: seq<Attr>,
                                        k: seq<Byte>, oid: Oid)
    requires n <= |extent| && AllFit(db, extent, path)
    ensures (k, oid) in ExtentEntries(db, extent, n, path) <==>
            oid in extent[..n]
            && exists ix: Tuple :: Valid(db[oid], path, ix) && (k, oid) == EntryAt(db[oid], path, ix, oid)
    decreases n
  {
    hide Fits, Valid, EntryAt, Entries;
    if n > 0 {
      FoundExactly(db, extent, n - 1, path, k, oid);
      var last := extent[n - 1];
      assert last in extent && extent[..n] == extent[..n - 1] + [last];
      KeyExactly(db[last], path, k, last);
      assert (k, oid) in Entries(db[last], path, last) ==> oid == last;
    }
  }

  /** How often an entry is in the index: as often as its instance is in the extent, times as often as
      going along the path comes to its key. */
  lemma {:induction false} CountExactly(db: map<Oid, Instance>, extent: seq<Oid>, n: nat, path: seq<Attr>,
                                        k: seq<Byte>, oid: Oid)
    requires n <= |extent| && AllFit(db, extent, path)
    ensures ExtentEntries(db, extent, n, path)[(k, oid)] ==
            if oid in extent[..n] then multiset(extent[..n])[oid] * Entries(db[oid], path, oid)[(k, oid)] else 0
    decreases n
  {
    hide Fits, Entries;
    if n > 0 {
      CountExactly(db, extent, n - 1, path, k, oid);
      var last := extent[n - 1];
      assert last in extent && extent[..n] == extent[..n - 1] + [last];
      KeyExactly(db[last], path, k, last);
      if oid != last {
        assert (k, oid) !in Entries(db[last], path, last);
      } else {
        Once(multiset(extent[..n - 1])[oid], Entries(db[oid], path, oid)[(k, oid)]);
        assert oid !in extent[..n - 1] ==> multiset(extent[..n - 1])[oid] == 0;
      }
    }
  }

  lemma Once(m: nat, e: nat)
    ensures m * e + e == (m + 1) * e
  {
  }

  /** The bytes of a key: '0' for a null value and '1' for another, the position with its least significant
      byte first, and the bytes of the value. */
  lemma KeyBytes(from: nat, c: Cell)
    requires from <= INT_MAX
    ensures var b := Key(from, c);
            && |b| == 5 + |c.data| && b[0] == (if c.isnull then 48 else 49) && b[5..] == c.data
            && (b[1] as int) + 256 * ((b[2] as int) + 256 * ((b[3] as int) + 256 * (b[4] as int))) == from
  {
    Digits(from);
  }

  /** A key says all: whether the value is null, where it is, and its bytes. */
  lemma KeyTellsAll(from: nat, c: Cell, from': nat, c': Cell)
    requires from <= INT_MAX && from' <= INT_MAX && Key(from, c) == Key(from', c')
    ensures from == from' && c == c'
  {
    var b := Key(from, c);
    assert b[0] == Key(from', c')[0];
    assert b[1..HEAD] == Int(from) && b[1..HEAD] == Key(from', c')[1..HEAD] == Int(from');
    IntTrip(b, 1, from);
    IntTrip(b, 1, from');
    assert c.data == b[HEAD..] == Key(from', c')[HEAD..] == c'.data;
  }
}
