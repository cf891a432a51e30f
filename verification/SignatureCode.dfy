/** Method signatures on the wire: the code of the result type, then of each argument type. */
module SignatureCode {
  import opened Outcomes
  import opened ArgumentFormat
  import opened ArgumentLaws
  import ArgumentCode
  import ArgumentReader

  datatype ArgType = ArgType(code: nat, clname: seq<Byte>)

  datatype Signature = Signature(ret: nat, types: seq<ArgType>)

  predicate SigOk(s: Signature) {
    && s.ret <= INT_MAX && INT_SIZE * (|s.types| + 2) <= INT_MAX
    && forall t | t in s.types :: t.code <= INT_MAX && (t.code == OBJ_TYPE ==> |t.clname| <= INT_MAX)
  }

  /** An object type is followed by the name of its class. */
  function EncType(t: ArgType): seq<Byte> {
    Int(t.code) + if t.code == OBJ_TYPE then Int(|t.clname|) + t.clname else []
  }

  function EncSig(s: Signature): seq<Byte> {
    Int(s.ret) + Int(|s.types|) + EncList(s.types, EncType)
  }

  /** The size the writer allocates: it leaves out the class names. */
  function Allocated(s: Signature): nat {
    INT_SIZE * (|s.types| + 2)
  }

  predicate NoObjType(s: Signature) {
    forall t | t in s.types :: t.code != OBJ_TYPE
  }

  lemma {:induction false} TypesSize(types: seq<ArgType>)
    ensures |EncList(types, EncType)| >= INT_SIZE * |types|
    ensures |EncList(types, EncType)| == INT_SIZE * |types| <==> forall t | t in types :: t.code != OBJ_TYPE
  {
    if types == [] {
    } else {
      TypesSize(types[1..]);
      assert types == [types[0]] + types[1..];
    }
  }

  /** The allocation is never too large, and large enough exactly when no argument type is an
      object type without a flag. */
  lemma AllocationExactly(s: Signature)
    ensures |EncSig(s)| >= Allocated(s)
    ensures |EncSig(s)| == Allocated(s) <==> NoObjType(s)
  {
    TypesSize(s.types);
  }

  /** Only an object type says which class. */
  function Sent(t: ArgType): ArgType {
    if t.code == OBJ_TYPE then t else ArgType(t.code, [])
  }

  function SentAll(s: Signature): Signature {
    Signature(s.ret, seq(|s.types|, i requires 0 <= i < |s.types| => Sent(s.types[i])))
  }

  /** A type code; that of an object type is followed by the bytes of a class name. */
  function DecType(b: seq<Byte>, p: nat): (r: Read<ArgType>)
    ensures r.Got? ==> p <= r.next <= |b|
  {
    match IntAt(b, p)
    case Bad => Bad
    case Got(t, q) =>
      if t != OBJ_TYPE then Got(ArgType(t, []), q)
      else match IntAt(b, q)
        case Bad => Bad
        case Got(len, r) => Wrap(BytesAt(b, r, len), name => ArgType(t, name))
  }

  /** The name that a type gets: its bytes lie in memory without a terminator, followed by whatever
      `behind` is there. */
  function NameSet(name: seq<Byte>, behind: seq<Byte>): Read<seq<Byte>> {
    CStringAt(name + behind, 0)
  }

  /** The name is the one that was sent exactly when what lies behind it happens to start with a NUL. */
  lemma NameExactly(name: seq<Byte>, behind: seq<Byte>)
    requires 0 !in name
    ensures NameSet(name, behind) == Got(name, |name| + 1) <==> behind != [] && behind[0] == 0
  {
    if behind != [] && behind[0] == 0 {
      assert (name + behind)[..|name| + 1] == name + [0];
      CStringTrip(name + behind, 0, name);
    }
    if NameSet(name, behind) == Got(name, |name| + 1) {
      CStringEnd(name + behind, 0);
    }
  }

  lemma {:induction false} CStringEnd(b: seq<Byte>, p: nat)
    requires CStringAt(b, p).Got?
    ensures p < CStringAt(b, p).next <= |b| && b[CStringAt(b, p).next - 1] == 0
    decreases |b| - p
  {
    if b[p] != 0 {
      CStringEnd(b, p + 1);
    }
  }

  function TypeReader(b: seq<Byte>): (read: nat -> Read<ArgType>)
    ensures Advances(read, |b|)
  {
    (p: nat) => DecType(b, p)
  }

  function DecSig(b: seq<Byte>): Read<Signature> {
    match IntAt(b, 0)
    case Bad => Bad
    case Got(ret, p) =>
      match IntAt(b, p)
      case Bad => Bad
      case Got(cnt, q) =>
        match DecList(q, cnt, TypeReader(b), |b|)
        case Bad => Bad
        case Got(types, r) => Got(Signature(ret, types), r)
  }

  lemma TypeTrip(b: seq<Byte>, q: nat, t: ArgType)
    requires t.code <= INT_MAX && (t.code == OBJ_TYPE ==> |t.clname| <= INT_MAX) && At(b, q, EncType(t))
    ensures DecType(b, q) == Got(Sent(t), q + |EncType(t)|)
  {
    if t.code == OBJ_TYPE {
      AtSplit(b, q, Int(t.code), Int(|t.clname|) + t.clname);
      AtSplit(b, q + INT_SIZE, Int(|t.clname|), t.clname);
      IntTrip(b, q + INT_SIZE, |t.clname|);
    } else {
      assert EncType(t) == Int(t.code);
    }
    IntTrip(b, q, t.code);
  }

  lemma TypesTrip(b: seq<Byte>, p: nat, s: Signature)
    requires SigOk(s) && At(b, p, EncList(s.types, EncType))
    ensures DecList(p, |s.types|, TypeReader(b), |b|) == Got(SentAll(s).types, p + |EncList(s.types, EncType)|)
  {
    var sent := SentAll(s).types;
    forall i | 0 <= i < |s.types| ensures Reads(b, s.types[i], EncType, TypeReader(b), sent[i]) {
      assert s.types[i] in s.types;
      forall q: nat | At(b, q, EncType(s.types[i]))
        ensures TypeReader(b)(q) == Got(sent[i], q + |EncType(s.types[i])|)
      {
        TypeTrip(b, q, s.types[i]);
      }
    }
    ListTrip(b, p, s.types, EncType, TypeReader(b), sent);
  }

  /** A signature comes back, the bytes of its class names included, and the reader ends just past it;
      without object types that is where the allocation ends. */
  lemma SignatureTrip(s: Signature)
    requires SigOk(s)
    ensures DecSig(EncSig(s)) == Got(SentAll(s), |EncSig(s)|)
    ensures NoObjType(s) ==> DecSig(EncSig(s)) == Got(SentAll(s), Allocated(s))
  {
    var b, heads := EncSig(s), Int(s.ret) + Int(|s.types|);
    assert At(b, 0, b);
    AtSplit(b, 0, heads, EncList(s.types, EncType));
    AtSplit(b, 0, Int(s.ret), Int(|s.types|));
    IntTrip(b, 0, s.ret);
    IntTrip(b, INT_SIZE, |s.types|);
    TypesTrip(b, 2 * INT_SIZE, s);
    AllocationExactly(s);
  }

  method CodeType(t: ArgType, data: array<Byte>, p: nat) returns (q: nat)
    requires p + |EncType(t)| <= data.Length
    modifies data
    ensures data[..] == ArgumentCode.Put(old(data[..]), p, EncType(t)) && q == p + |EncType(t)|
  {
    ghost var b, n := data[..], Int(|t.clname|);
    q := ArgumentCode.Mcp(data, p, Int(t.code));
    if t.code == OBJ_TYPE {
      q := ArgumentCode.Mcp(data, q, Int(|t.clname|));
      q := ArgumentCode.Mcp(data, q, t.clname);
      ArgumentCode.PutPut(b, p, Int(t.code), n);
      ArgumentCode.PutPut(b, p, Int(t.code) + n, t.clname);
      assert Int(t.code) + n + t.clname == EncType(t);
    } else {
      assert EncType(t) == Int(t.code);
    }
  }

  /** The last thing the writer does is to assert that it has filled the allocation; it does so exactly
      where there is no object type.  What is written past the end is not followed. */
  method CodeSignature(s: Signature) returns (data: array<Byte>, filled: bool)
    requires SigOk(s)
    ensures fresh(data) && data.Length == Allocated(s)
    ensures filled <==> NoObjType(s)
    ensures filled ==> data[..] == EncSig(s)
  {
    hide EncList, EncType, ArgumentCode.Put, Int;
    AllocationExactly(s);
    data := new Byte[INT_SIZE * (|s.types| + 2)](_ => 0);
    ghost var b, done := data[..], Int(s.ret) + Int(|s.types|);
    var p := ArgumentCode.Mcp(data, 0, Int(s.ret));
    p := ArgumentCode.Mcp(data, p, Int(|s.types|));
    ArgumentCode.PutPut(b, 0, Int(s.ret), Int(|s.types|));
    ArgumentCode.ListDone(s.types, EncType, done);
    var i := 0;
    while i < |s.types|
      invariant 0 <= i <= |s.types| && p == |done|
      invariant done + EncList(s.types[i..], EncType) == EncSig(s)
      invariant p <= data.Length ==> data[..] == ArgumentCode.Put(b, 0, done)
    {
      ArgumentCode.ListFrom(s.types, EncType, i);
      ghost var e, rest := EncType(s.types[i]), EncList(s.types[i + 1..], EncType);
      assert (done + e) + rest == done + (e + rest);
      if p + |EncType(s.types[i])| <= data.Length {
        ArgumentCode.PutNext(b, 0, done, e, rest);
        p := CodeType(s.types[i], data, p);
      } else {
        p := p + |EncType(s.types[i])|;
      }
      done := done + e;
      i := i + 1;
    }
    ArgumentCode.ListDone(s.types, EncType, done);
    filled := p == data.Length;
    if filled {
      ArgumentCode.PutLast(b, 0, done);
    }
  }

  method TakeType(data: array<Byte>, p: nat) returns (t: ArgType, q: nat)
    requires DecType(data[..], p).Got?
    ensures DecType(data[..], p) == Got(t, q)
  {
    var code;
    code, q := ArgumentReader.TakeInt(data, p);
    var name := [];
    if code == OBJ_TYPE {
      var len;
      len, q := ArgumentReader.TakeInt(data, q);
      name, q := data[q..q + len], q + len;
    }
    t := ArgType(code, name);
  }

  method TakeTypes(data: array<Byte>, p: nat, n: nat) returns (types: seq<ArgType>, q: nat)
    requires DecList(p, n, TypeReader(data[..]), data.Length).Got?
    ensures DecList(p, n, TypeReader(data[..]), data.Length) == Got(types, q)
  {
    hide DecList, DecType, Prepend;
    ghost var read, whole := TypeReader(data[..]), DecList(p, n, TypeReader(data[..]), data.Length);
    types, q := [], p;
    ArgumentReader.PrependNone(whole);
    for i := 0 to n
      invariant Prepend(types, DecList(q, n - i, read, data.Length)) == whole
    {
      ArgumentReader.ListStep(types, q, n - i, read, data.Length, whole);
      var t;
      t, q := TakeType(data, q);
      types := types + [t];
    }
    ArgumentReader.ListEnd(types, q, read, data.Length);
  }

  method DecodeSignature(data: array<Byte>) returns (s: Signature, p: nat)
    requires DecSig(data[..]).Got?
    ensures DecSig(data[..]) == Got(s, p)
  {
    var ret, cnt, types;
    ret, p := ArgumentReader.TakeInt(data, 0);
    cnt, p := ArgumentReader.TakeInt(data, p);
    types, p := TakeTypes(data, p, cnt);
    s := Signature(ret, types);
  }
}
