/** The wire format of method arguments: what the bytes of an argument are, and what a reader
    makes of them. */
module ArgumentFormat {
  import opened Outcomes

  type Byte = b: nat | b < 256

  const INT_SIZE := 4
  const INT_MAX := 0x7FFF_FFFF

  /** Values that are copied as they lie in memory; sizes as sizeof gives them. */
  datatype Kind = Int16 | Int32 | Int64 | Char | Float | OidKind {
    function Width(): nat {
      match this
      case Int16 => 2
      case Int32 => 4
      case Int64 => 8
      case Char => 1
      case Float => 8
      case OidKind => OID_SIZE
    }

    function Code(): nat {
      match this
      case Int16 => 2
      case Int32 => 3
      case Int64 => 4
      case Char => 6
      case Float => 7
      case OidKind => 8
    }
  }

  const OID_SIZE := 8
  const VOID_TYPE := 1
  const STRING_TYPE := 5
  const OBJ_TYPE := 9
  const RAW_TYPE := 10
  const ARRAY_TYPE := 256

  /** An oid as it lies in memory. */
  type OidMem = s: seq<Byte> | |s| == OID_SIZE witness [0, 0, 0, 0, 0, 0, 0, 0]

  /** An object on the wire: its oid, the oid of its class, and its IDR. */
  datatype Obj = Obj(oid: OidMem, cls: OidMem, idr: seq<Byte>)

  datatype Arg =
    | Void
    | Scalar(kind: Kind, mem: seq<Byte>)
    | Str(s: seq<Byte>)
    | Raw(data: seq<Byte>)
    | Object(o: Option<Obj>)
    | Array(args: seq<Arg>)
    | Scalars(kind: Kind, mems: seq<seq<Byte>>)
    | Strs(ss: seq<seq<Byte>>)
    | Objects(os: seq<Option<Obj>>)

  // ----- well-formed arguments

  /** A C string that a count of its bytes and its terminator still fits an int. */
  predicate StrOk(s: seq<Byte>) {
    0 !in s && |s| < INT_MAX
  }

  /** Every IDR starts with a header, so none is empty. */
  predicate ObjOk(o: Option<Obj>) {
    o.Some? ==> 0 < |o.value.idr| <= INT_MAX
  }

  predicate ArgOk(a: Arg) {
    match a
    case Void => true
    case Scalar(k, m) => |m| == k.Width()
    case Str(s) => StrOk(s)
    case Raw(d) => |d| <= INT_MAX
    case Object(o) => ObjOk(o)
    case Array(args) => |args| <= INT_MAX && forall x | x in args :: ArgOk(x)
    case Scalars(k, ms) => |ms| <= INT_MAX && forall m | m in ms :: |m| == k.Width()
    case Strs(ss) => |ss| <= INT_MAX && forall s | s in ss :: StrOk(s)
    case Objects(os) => |os| <= INT_MAX && forall o | o in os :: ObjOk(o)
  }

  // ----- writing

  /** An int in memory, least significant byte first. */
  function Int(n: nat): (b: seq<Byte>)
    ensures |b| == INT_SIZE
  {
    [n % 256, n / 256 % 256, n / 65536 % 256, n / 16777216 % 256]
  }

  function TypeCode(a: Arg): (t: nat)
    ensures t <= 511
  {
    match a
    case Void => VOID_TYPE
    case Scalar(k, _) => k.Code()
    case Str(_) => STRING_TYPE
    case Raw(_) => RAW_TYPE
    case Object(_) => OBJ_TYPE
    case Array(_) => ARRAY_TYPE
    case Scalars(k, _) => ARRAY_TYPE + k.Code()
    case Strs(_) => ARRAY_TYPE + STRING_TYPE
    case Objects(_) => ARRAY_TYPE + OBJ_TYPE
  }

  function EncStr(s: seq<Byte>): seq<Byte> {
    Int(|s| + 1) + s + [0]
  }

  function EncObj(o: Option<Obj>): seq<Byte> {
    match o
    case None => Int(0)
    case Some(x) => Int(|x.idr|) + x.oid + x.cls + x.idr
  }

  /** The elements of an array, one after the other. */
  function EncList<T>(xs: seq<T>, enc: T -> seq<Byte>): seq<Byte> {
    if xs == [] then [] else enc(xs[0]) + EncList(xs[1..], enc)
  }

  function Memory(m: seq<Byte>): seq<Byte> { m }

  /** An argument: its type code, then its value. */
  function Enc(a: Arg): seq<Byte>
    decreases a, 1
  {
    Int(TypeCode(a)) + EncBody(a)
  }

  function EncBody(a: Arg): seq<Byte>
    decreases a, 0
  {
    match a
    case Void => []
    case Scalar(_, m) => m
    case Str(s) => EncStr(s)
    case Raw(d) => Int(|d|) + d
    case Object(o) => EncObj(o)
    case Array(args) => Int(|args|) + EncArgs(args)
    case Scalars(_, ms) => Int(|ms|) + EncList(ms, Memory)
    case Strs(ss) => Int(|ss|) + EncList(ss, EncStr)
    case Objects(os) => Int(|os|) + EncList(os, EncObj)
  }

  function EncArgs(args: seq<Arg>): seq<Byte>
    decreases args, 2
  {
    if args == [] then [] else Enc(args[0]) + EncArgs(args[1..])
  }

  // ----- reading

  /** What was read, and where the reader stands afterwards. */
  datatype Read<T> = Bad | Got(value: T, next: nat)

  /** An int at `p`; a reader has no use for a negative one. */
  function IntAt(b: seq<Byte>, p: nat): Read<nat> {
    if p + INT_SIZE <= |b| && b[p + 3] < 128 then
      Got((b[p] as int) + 256 * (b[p + 1] as int) + 65536 * (b[p + 2] as int) + 16777216 * (b[p + 3] as int),
          p + INT_SIZE)
    else Bad
  }

  function BytesAt(b: seq<Byte>, p: nat, n: nat): Read<seq<Byte>> {
    if p + n <= |b| then Got(b[p..p + n], p + n) else Bad
  }

  function Prepend<T>(xs: seq<T>, r: Read<seq<T>>): Read<seq<T>> {
    match r
    case Bad => Bad
    case Got(ys, p) => Got(xs + ys, p)
  }

  /** strdup: the bytes up to the first NUL, wherever that is. */
  function CStringAt(b: seq<Byte>, p: nat): Read<seq<Byte>>
    decreases |b| - p
  {
    if p >= |b| then Bad
    else if b[p] == 0 then Got([], p + 1)
    else Prepend([b[p]], CStringAt(b, p + 1))
  }

  /** A string is read up to its NUL, but the cursor advances by the length written before it. */
  function DecStr(b: seq<Byte>, p: nat): (r: Read<seq<Byte>>)
    ensures r.Got? ==> p + INT_SIZE <= r.next <= |b|
  {
    match IntAt(b, p)
    case Bad => Bad
    case Got(len, q) =>
      match CStringAt(b, q)
      case Bad => Bad
      case Got(s, _) => if q + len <= |b| then Got(s, q + len) else Bad
  }

  /** Of an object only the identity comes back: null when the length is, and null again when
      its class is not in `known`. */
  function DecObj(b: seq<Byte>, p: nat, known: set<OidMem>): (r: Read<Option<Obj>>)
    ensures r.Got? ==> p + INT_SIZE <= r.next <= |b|
  {
    match IntAt(b, p)
    case Bad => Bad
    case Got(len, q) =>
      if len == 0 then Got(None, q)
      else if q + 2 * OID_SIZE + len <= |b| then
        var oid, cls := b[q..q + OID_SIZE], b[q + OID_SIZE..q + 2 * OID_SIZE];
        Got(if cls in known then Some(Obj(oid, cls, [])) else None, q + 2 * OID_SIZE + len)
      else Bad
  }

  /** A reader only moves forward, and stays within `limit`. */
  ghost predicate Advances<T>(read: nat -> Read<T>, limit: nat) {
    forall p: nat :: read(p).Got? ==> p <= read(p).next <= limit
  }

  /** `n` elements, each read by `read`. */
  function DecList<T>(p: nat, n: nat, read: nat -> Read<T>, limit: nat): (r: Read<seq<T>>)
    requires Advances(read, limit)
    ensures r.Got? ==> p <= r.next
    ensures r.Got? && p <= limit ==> r.next <= limit
    decreases n
  {
    if n == 0 then Got([], p)
    else match read(p)
      case Bad => Bad
      case Got(x, q) => Prepend([x], DecList(q, n - 1, read, limit))
  }

  function MemReader(b: seq<Byte>, w: nat): (read: nat -> Read<seq<Byte>>)
    ensures Advances(read, |b|)
  {
    (p: nat) => BytesAt(b, p, w)
  }

  function StrReader(b: seq<Byte>): (read: nat -> Read<seq<Byte>>)
    ensures Advances(read, |b|)
  {
    (p: nat) => DecStr(b, p)
  }

  function ObjReader(b: seq<Byte>, known: set<OidMem>): (read: nat -> Read<Option<Obj>>)
    ensures Advances(read, |b|)
  {
    (p: nat) => DecObj(b, p, known)
  }

  function KindOf(code: nat): Option<Kind> {
    if code == 2 then Some(Int16)
    else if code == 3 then Some(Int32)
    else if code == 4 then Some(Int64)
    else if code == 6 then Some(Char)
    else if code == 7 then Some(Float)
    else if code == 8 then Some(OidKind)
    else None
  }

  function Wrap<T, U>(r: Read<T>, f: T -> U): Read<U> {
    match r
    case Bad => Bad
    case Got(x, p) => Got(f(x), p)
  }

  /** A count followed by that many elements. */
  function DecBody(b: seq<Byte>, p: nat, t: nat, known: set<OidMem>): (r: Read<Arg>)
    requires t != ARRAY_TYPE && p <= |b|
    ensures r.Got? ==> p <= r.next <= |b|
  {
    if t == VOID_TYPE then Got(Void, p)
    else if t == STRING_TYPE then Wrap(DecStr(b, p), s => Str(s))
    else if t == OBJ_TYPE then Wrap(DecObj(b, p, known), o => Object(o))
    else if KindOf(t).Some? then
      var k := KindOf(t).value;
      Wrap(BytesAt(b, p, k.Width()), m => Scalar(k, m))
    else match IntAt(b, p)
      case Bad => Bad
      case Got(n, q) =>
        if t == RAW_TYPE then Wrap(BytesAt(b, q, n), d => Raw(d))
        else if t == ARRAY_TYPE + STRING_TYPE then Wrap(DecList(q, n, StrReader(b), |b|), ss => Strs(ss))
        else if t == ARRAY_TYPE + OBJ_TYPE then Wrap(DecList(q, n, ObjReader(b, known), |b|), os => Objects(os))
        else if t > ARRAY_TYPE && KindOf(t - ARRAY_TYPE).Some? then
          var k := KindOf(t - ARRAY_TYPE).value;
          Wrap(DecList(q, n, MemReader(b, k.Width()), |b|), ms => Scalars(k, ms))
        else Bad
  }

  function Dec(b: seq<Byte>, p: nat, known: set<OidMem>): (r: Read<Arg>)
    ensures r.Got? ==> p + INT_SIZE <= r.next <= |b|
    decreases |b| - p, 0, 0
  {
    match IntAt(b, p)
    case Bad => Bad
    case Got(t, q) =>
      if t != ARRAY_TYPE then DecBody(b, q, t, known)
      else match IntAt(b, q)
        case Bad => Bad
        case Got(n, r) =>
          match DecArgs(b, r, n, known)
          case Bad => Bad
          case Got(args, e) => Got(Array(args), e)
  }

  function DecArgs(b: seq<Byte>, p: nat, n: nat, known: set<OidMem>): (r: Read<seq<Arg>>)
    requires p <= |b|
    ensures r.Got? ==> p <= r.next <= |b|
    decreases |b| - p, 1, n
  {
    if n == 0 then Got([], p)
    else match Dec(b, p, known)
      case Bad => Bad
      case Got(a, q) =>
        Prepend([a], DecArgs(b, q, n - 1, known))
  }

  // ----- what survives the trip

  function SeenObj(o: Option<Obj>, known: set<OidMem>): Option<Obj> {
    match o
    case None => None
    case Some(x) => if x.cls in known then Some(Obj(x.oid, x.cls, [])) else None
  }

  function SeenObjs(os: seq<Option<Obj>>, known: set<OidMem>): seq<Option<Obj>> {
    seq(|os|, i requires 0 <= i < |os| => SeenObj(os[i], known))
  }

  /** The argument as its reader has it: everything but the contents of objects. */
  function Seen(a: Arg, known: set<OidMem>): Arg {
    match a
    case Object(o) => Object(SeenObj(o, known))
    case Objects(os) => Objects(SeenObjs(os, known))
    case Array(args) => Array(SeenAll(args, known))
    case _ => a
  }

  function SeenAll(args: seq<Arg>, known: set<OidMem>): seq<Arg> {
    if args == [] then [] else [Seen(args[0], known)] + SeenAll(args[1..], known)
  }
}
