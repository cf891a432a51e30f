/** Building the index of an attribute path: every instance of the class is walked along the path,
    and one buffer is filled anew for each entry. */
module IndexBuild {
  import opened Outcomes
  import opened ArgumentFormat

  type Oid = nat

  /** An attribute: what its values are stored under, whether it is an array of variable size, its
      fixed size, and the width of a value. */
  datatype Attr = Attr(id: nat, varDim: bool, pdims: nat, width: nat)

  /** A value as it lies in the IDR, which holds bytes even when it is null. */
  datatype Cell = Cell(isnull: bool, data: seq<Byte>)

  /** An object: other objects embedded in it, and plain values. */
  datatype Instance = Instance(subs: map<nat, seq<Instance>>, cells: map<nat, seq<Cell>>)

  // the characters '0' and '1'
  const IDX_NULL: Byte := 48
  const IDX_NOT_NULL: Byte := 49
  const HEAD := 1 + INT_SIZE

  /** The object has what the path asks for: embedded objects all along, and a plain attribute of
      fixed size at the end. */
  predicate Fits(o: Instance, path: seq<Attr>)
    decreases |path|
  {
    path != [] &&
    var a := path[0];
    if |path| == 1 then
      && !a.varDim && a.pdims <= INT_MAX && a.id in o.cells && |o.cells[a.id]| == a.pdims
      && forall c | c in o.cells[a.id] :: |c.data| == a.width
    else
      && a.id in o.subs && (a.varDim || |o.subs[a.id]| == a.pdims)
      && forall x | x in o.subs[a.id] :: Fits(x, path[1..])
  }

  type Entry = (seq<Byte>, Oid)

  /** The key of a value: its null flag, its position, its bytes. */
  function Key(from: nat, c: Cell): seq<Byte> {
    [if c.isnull then IDX_NULL else IDX_NOT_NULL] + Int(from) + c.data
  }

  // ----- what a scan gives

  /** The entries of a plain attribute, up to position `n`. */
  ghost function CellEntries(cells: seq<Cell>, n: nat, oid: Oid): multiset<Entry>
    requires n <= |cells|
  {
    if n == 0 then multiset{} else CellEntries(cells, n - 1, oid) + multiset{(Key(n - 1, cells[n - 1]), oid)}
  }

  /** The entries of the first `n` embedded objects. */
  ghost function SubEntries(subs: seq<Instance>, n: nat, path: seq<Attr>, oid: Oid): multiset<Entry>
    requires n <= |subs| && forall x | x in subs :: Fits(x, path)
    decreases |path|, 1, n
  {
    if n == 0 then multiset{} else SubEntries(subs, n - 1, path, oid) + Entries(subs[n - 1], path, oid)
  }

  ghost function Entries(o: Instance, path: seq<Attr>, oid: Oid): multiset<Entry>
    requires Fits(o, path)
    decreases |path|, 0, 0
  {
    var a := path[0];
    if |path| == 1 then CellEntries(o.cells[a.id], a.pdims, oid)
    else SubEntries(o.subs[a.id], |o.subs[a.id]|, path[1..], oid)
  }

  ghost predicate AllFit(db: map<Oid, Instance>, extent: seq<Oid>, path: seq<Attr>) {
    forall oid | oid in extent :: oid in db && Fits(db[oid], path)
  }

  /** The entries of the first `n` instances of the class. */
  ghost function ExtentEntries(db: map<Oid, Instance>, extent: seq<Oid>, n: nat, path: seq<Attr>): multiset<Entry>
    requires n <= |extent| && AllFit(db, extent, path)
  {
    if n == 0 then multiset{}
    else ExtentEntries(db, extent, n - 1, path) + Entries(db[extent[n - 1]], path, extent[n - 1])
  }

  // ----- the index, and the scan in place

  class Index {
    var entries: multiset<Entry>

    constructor ()
      ensures entries == multiset{}
    {
      entries := multiset{};
    }

    /** Takes a copy of the key. */
    method Insert(key: array<Byte>, oid: Oid)
      modifies this
      ensures entries == old(entries) + multiset{(key[..], oid)}
    {
      entries := entries + multiset{(key[..], oid)};
    }
  }

  /** memcpy of `s` to `p` of the buffer. */
  method Copy(s: seq<Byte>, buf: array<Byte>, p: nat)
    requires p + |s| <= buf.Length
    modifies buf
    ensures buf[..] == old(buf[..p]) + s + old(buf[p + |s|..])
  {
    var i := 0;
    while i < |s|
      invariant 0 <= i <= |s|
      invariant forall k | 0 <= k < buf.Length :: buf[k] == if p <= k < p + i then s[k - p] else old(buf[k])
    {
      buf[p + i] := s[i];
      i := i + 1;
    }
  }

  /** The buffer after a value, its flag and its position have been put in. */
  method Fill(c: Cell, from: nat, entry: array<Byte>)
    requires entry.Length == HEAD + |c.data|
    modifies entry
    ensures entry[..] == Key(from, c)
  {
    Copy(c.data, entry, HEAD);
    entry[0] := if c.isnull then IDX_NULL else IDX_NOT_NULL;
    Copy(Int(from), entry, 1);
  }

  method CreateEntriesRealize(attr: Attr, oid: Oid, o: Instance, entry: array<Byte>, idx: Index)
    requires Fits(o, [attr]) && entry.Length == HEAD + attr.width
    modifies entry, idx
    ensures idx.entries == old(idx.entries) + Entries(o, [attr], oid)
  {
    var from := 0;
    while from < attr.pdims
      invariant 0 <= from <= attr.pdims
      invariant idx.entries == old(idx.entries) + CellEntries(o.cells[attr.id], from, oid)
    {
      var c := o.cells[attr.id][from];
      assert c in o.cells[attr.id];
      Fill(c, from, entry);
      idx.Insert(entry, oid);
      from := from + 1;
    }
  }

  /** Without an object in hand the walk starts from the instance itself. */
  method CreateEntries(db: map<Oid, Instance>, oid: Oid, o: Option<Instance>, attrs: seq<Attr>, depth: nat,
                       entry: array<Byte>, idx: Index)
    requires depth < |attrs| && (o.None? ==> oid in db)
    requires Fits(if o.Some? then o.value else db[oid], attrs[depth..])
    requires entry.Length == HEAD + attrs[|attrs| - 1].width
    modifies entry, idx
    ensures idx.entries ==
            old(idx.entries) + Entries(if o.Some? then o.value else db[oid], attrs[depth..], oid)
    decreases |attrs| - depth
  {
    var attr := attrs[depth];
    var obj := if o.Some? then o.value else db[oid];
    ghost var path := attrs[depth..];
    assert path[0] == attr && path[1..] == attrs[depth + 1..];
    if depth != |attrs| - 1 {
      var sz := if attr.varDim then |obj.subs[attr.id]| else attr.pdims;
      var from := 0;
      while from < sz
        invariant 0 <= from <= sz
        invariant idx.entries == old(idx.entries) + SubEntries(obj.subs[attr.id], from, path[1..], oid)
      {
        var x := obj.subs[attr.id][from];
        CreateEntries(db, oid, Some(x), attrs, depth + 1, entry, idx);
        from := from + 1;
      }
    } else {
      assert path == [attr];
      CreateEntriesRealize(attr, oid, obj, entry, idx);
    }
  }

  /** Fills the index with the entries of every instance of the class. */
  method UpdateIndexEntries(db: map<Oid, Instance>, extent: seq<Oid>, attrs: seq<Attr>, idx: Index)
    requires attrs != [] && AllFit(db, extent, attrs)
    modifies idx
    ensures idx.entries == old(idx.entries) + ExtentEntries(db, extent, |extent|, attrs)
  {
    hide Entries, Fits;
    var entry := new Byte[HEAD + attrs[|attrs| - 1].width](_ => 0);
    var i := 0;
    while i < |extent|
      invariant 0 <= i <= |extent|
      invariant idx.entries == old(idx.entries) + ExtentEntries(db, extent, i, attrs)
    {
      assert extent[i] in extent && attrs[0..] == attrs;
      CreateEntries(db, extent[i], None, attrs, 0, entry, idx);
      i := i + 1;
    }
  }
}
