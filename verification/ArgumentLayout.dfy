/** The wire format byte by byte: where each part of an argument lies, and what a reader does at a
    string whose written length is not its own. */
module ArgumentLayout {
  import opened Outcomes
  import opened ArgumentFormat
  import opened ArgumentLaws
  import SignatureCode

  /** Four bytes, the least significant first. */
  lemma IntBytes(n: nat)
    requires n <= INT_MAX
    ensures var b := Int(n);
            && |b| == 4
            && (b[0] as int) + 256 * ((b[1] as int) + 256 * ((b[2] as int) + 256 * (b[3] as int))) == n
    ensures n < 256 ==> Int(n) == [n, 0, 0, 0] && Int(256 + n) == [n, 1, 0, 0]
  {
    Digits(n);
  }

  lemma IntFirst(n: nat, rest: seq<Byte>)
    requires n <= INT_MAX
    ensures var b := Int(n) + rest; b[..4] == Int(n) && b[4..] == rest && IntAt(b, 0) == Got(n, 4)
  {
    var b := Int(n) + rest;
    assert At(b, 0, Int(n));
    IntTrip(b, 0, n);
  }

  /** The size, and what lies behind it. */
  lemma Sized(t: nat, n: nat, rest: seq<Byte>, b: seq<Byte>)
    requires t <= INT_MAX && n <= INT_MAX && b == Int(t) + (Int(n) + rest)
    ensures |b| == 8 + |rest| && b[..4] == Int(t) && IntAt(b, 4) == Got(n, 8) && b[8..] == rest
  {
    assert b[4..8] == Int(n);
    assert At(b, 4, Int(n));
    IntTrip(b, 4, n);
  }

  /** The type code that each kind of argument starts with. */
  lemma CodeOf(a: Arg)
    ensures Enc(a)[..4] ==
      match a {
        case Void => [1, 0, 0, 0]
        case Scalar(k, _) => [KindByte(k), 0, 0, 0]
        case Str(_) => [5, 0, 0, 0]
        case Raw(_) => [10, 0, 0, 0]
        case Object(_) => [9, 0, 0, 0]
        case Array(_) => [0, 1, 0, 0]
        case Scalars(k, _) => [KindByte(k), 1, 0, 0]
        case Strs(_) => [5, 1, 0, 0]
        case Objects(_) => [9, 1, 0, 0]
      }
  {
    hide EncBody;
    assert Enc(a)[..4] == Int(TypeCode(a));
  }

  function KindByte(k: Kind): Byte {
    match k
    case Int16 => 2
    case Int32 => 3
    case Int64 => 4
    case Char => 6
    case Float => 7
    case OidKind => 8
  }

  lemma ScalarBytes(k: Kind, m: seq<Byte>)
    ensures Enc(Void) == [1, 0, 0, 0] && Enc(Scalar(k, m)) == [KindByte(k), 0, 0, 0] + m
  {
    assert EncBody(Void) == [];
  }

  /** A string: its length with the terminator, its bytes, the terminator. */
  lemma StrBytes(s: seq<Byte>)
    requires StrOk(s)
    ensures var b := Enc(Str(s));
            && |b| == 9 + |s| && b[..4] == [5, 0, 0, 0] && IntAt(b, 4) == Got(|s| + 1, 8)
            && b[8..8 + |s|] == s && b[8 + |s|] == 0
  {
    assert Enc(Str(s)) == Int(5) + (Int(|s| + 1) + (s + [0]));
    Sized(5, |s| + 1, s + [0], Enc(Str(s)));
    IntBytes(5);
    hide Enc, Int, IntAt;
  }

  lemma RawBytes(d: seq<Byte>)
    requires |d| <= INT_MAX
    ensures var b := Enc(Raw(d));
            |b| == 8 + |d| && b[..4] == [10, 0, 0, 0] && IntAt(b, 4) == Got(|d|, 8) && b[8..] == d
  {
    assert EncBody(Raw(d)) == Int(|d|) + d;
    Sized(10, |d|, d, Enc(Raw(d)));
    IntBytes(10);
    hide Enc, Int, IntAt;
  }

  /** An object: the size of its IDR, its oid, the oid of its class, the IDR; a null object: a size of zero. */
  lemma ObjectBytes(x: Obj)
    requires ObjOk(Some(x))
    ensures Enc(Object(None)) == [9, 0, 0, 0, 0, 0, 0, 0]
    ensures var b := Enc(Object(Some(x)));
            && |b| == 24 + |x.idr| && b[..4] == [9, 0, 0, 0] && IntAt(b, 4) == Got(|x.idr|, 8)
            && b[8..16] == x.oid && b[16..24] == x.cls && b[24..] == x.idr
  {
    var rest := x.oid + x.cls + x.idr;
    assert Enc(Object(Some(x))) == Int(9) + (Int(|x.idr|) + rest);
    Sized(9, |x.idr|, rest, Enc(Object(Some(x))));
    IntBytes(9);
    var b := Enc(Object(Some(x)));
    assert b[8..16] == rest[..8] && b[16..24] == rest[8..16] && b[24..] == rest[16..];
    hide Enc, Int, IntAt;
  }

  lemma BodyBehind(a: Arg, n: nat, rest: seq<Byte>)
    requires n <= INT_MAX && EncBody(a) == Int(n) + rest
    ensures |Enc(a)| == 8 + |rest| && IntAt(Enc(a), 4) == Got(n, 8) && Enc(a)[8..] == rest
  {
    Sized(TypeCode(a), n, rest, Enc(a));
  }

  lemma ArgsMore(args: seq<Arg>, a: Arg)
    ensures EncArgs([a] + args) == Enc(a) + EncArgs(args) && EncArgs([]) == []
    ensures EncBody(Array(args)) == Int(|args|) + EncArgs(args)
  {
    var longer := [a] + args;
    assert longer[0] == a && longer[1..] == args;
    hide Enc, EncBody, Int;
    BodyOfArray(args);
  }

  lemma BodyOfArray(args: seq<Arg>)
    ensures EncBody(Array(args)) == Int(|args|) + EncArgs(args)
  {
    hide EncArgs, Enc, EncList, Int;
  }

  /** The elements of an array follow its count, each in its own encoding, in order. */
  lemma ArrayBytes(args: seq<Arg>, a: Arg)
    requires |args| < INT_MAX
    ensures Enc(Array([])) == [0, 1, 0, 0, 0, 0, 0, 0]
    ensures IntAt(Enc(Array(args)), 4) == Got(|args|, 8)
    ensures |Enc(Array(args))| >= 8 && |Enc(Array([a] + args))| >= 8
    ensures Enc(Array([a] + args))[8..] == Enc(a) + Enc(Array(args))[8..]
  {
    EmptyArray();
    hide Enc, EncBody, EncArgs, IntAt, Int;
    ArgsMore(args, a);
    ArgsMore([a] + args, a);
    BodyBehind(Array(args), |args|, EncArgs(args));
    BodyBehind(Array([a] + args), |args| + 1, EncArgs([a] + args));
  }

  lemma EmptyArray()
    ensures Enc(Array([])) == [0, 1, 0, 0, 0, 0, 0, 0]
  {
    BodyOfArray([]);
    assert EncArgs([]) == [] && Int(0) + [] == Int(0);
  }

  lemma ScalarsBytes(k: Kind, ms: seq<seq<Byte>>, m: seq<Byte>)
    requires |ms| < INT_MAX
    ensures IntAt(Enc(Scalars(k, ms)), 4) == Got(|ms|, 8) && (ms == [] ==> |Enc(Scalars(k, ms))| == 8)
    ensures |Enc(Scalars(k, ms))| >= 8 && |Enc(Scalars(k, [m] + ms))| >= 8
    ensures Enc(Scalars(k, [m] + ms))[8..] == m + Enc(Scalars(k, ms))[8..]
  {
    var longer := [m] + ms;
    assert EncBody(Scalars(k, ms)) == Int(|ms|) + EncList(ms, Memory);
    Sized(ARRAY_TYPE + k.Code(), |ms|, EncList(ms, Memory), Enc(Scalars(k, ms)));
    assert EncBody(Scalars(k, longer)) == Int(|longer|) + EncList(longer, Memory);
    Sized(ARRAY_TYPE + k.Code(), |longer|, EncList(longer, Memory), Enc(Scalars(k, longer)));
    assert longer[0] == m && longer[1..] == ms;
    hide IntAt;
  }

  /** Strings and objects lie in an array as they do alone, but for the type code. */
  lemma StrsBytes(ss: seq<seq<Byte>>, s: seq<Byte>)
    requires |ss| < INT_MAX
    ensures IntAt(Enc(Strs(ss)), 4) == Got(|ss|, 8) && (ss == [] ==> |Enc(Strs(ss))| == 8)
    ensures |Enc(Strs(ss))| >= 8 && |Enc(Strs([s] + ss))| >= 8
    ensures Enc(Strs([s] + ss))[8..] == Enc(Str(s))[4..] + Enc(Strs(ss))[8..]
  {
    var longer := [s] + ss;
    assert EncBody(Strs(ss)) == Int(|ss|) + EncList(ss, EncStr);
    Sized(ARRAY_TYPE + STRING_TYPE, |ss|, EncList(ss, EncStr), Enc(Strs(ss)));
    assert EncBody(Strs(longer)) == Int(|longer|) + EncList(longer, EncStr);
    Sized(ARRAY_TYPE + STRING_TYPE, |longer|, EncList(longer, EncStr), Enc(Strs(longer)));
    assert longer[0] == s && longer[1..] == ss;
    assert Enc(Str(s))[4..] == EncStr(s);
    hide IntAt;
  }

  lemma ObjectsBytes(os: seq<Option<Obj>>, o: Option<Obj>)
    requires |os| < INT_MAX
    ensures IntAt(Enc(Objects(os)), 4) == Got(|os|, 8) && (os == [] ==> |Enc(Objects(os))| == 8)
    ensures |Enc(Objects(os))| >= 8 && |Enc(Objects([o] + os))| >= 8
    ensures Enc(Objects([o] + os))[8..] == Enc(Object(o))[4..] + Enc(Objects(os))[8..]
  {
    var longer := [o] + os;
    assert EncBody(Objects(os)) == Int(|os|) + EncList(os, EncObj);
    Sized(ARRAY_TYPE + OBJ_TYPE, |os|, EncList(os, EncObj), Enc(Objects(os)));
    assert EncBody(Objects(longer)) == Int(|longer|) + EncList(longer, EncObj);
    Sized(ARRAY_TYPE + OBJ_TYPE, |longer|, EncList(longer, EncObj), Enc(Objects(longer)));
    assert longer[0] == o && longer[1..] == os;
    assert Enc(Object(o))[4..] == EncObj(o);
    hide IntAt;
  }

  /** A reader takes a string up to its first NUL, and goes on where the written length says. */
  lemma StrCursor(b: seq<Byte>, p: nat, s: seq<Byte>, len: nat)
    requires 0 !in s && len <= INT_MAX && At(b, p, Int(len) + (s + [0])) && p + 4 + len <= |b|
    ensures DecStr(b, p) == Got(s, p + 4 + len)
  {
    AtSplit(b, p, Int(len), s + [0]);
    IntTrip(b, p, len);
    CStringTrip(b, p + INT_SIZE, s);
  }

  /** A signature: the result's code, the count, and the code of each argument; behind the code of an object
      type, the size and the bytes of the name of its class. */
  lemma SignatureBytes(ret: nat, types: seq<SignatureCode.ArgType>, t: SignatureCode.ArgType)
    requires ret <= INT_MAX && |types| < INT_MAX
    ensures var b := SignatureCode.EncSig(SignatureCode.Signature(ret, types));
            |b| >= 8 && IntAt(b, 0) == Got(ret, 4) && IntAt(b, 4) == Got(|types|, 8) && (types == [] ==> |b| == 8)
    ensures SignatureCode.EncSig(SignatureCode.Signature(ret, [t] + types))[8..] ==
              Int(t.code) + (if t.code == 9 then Int(|t.clname|) + t.clname else [])
              + SignatureCode.EncSig(SignatureCode.Signature(ret, types))[8..]
  {
    var longer := [t] + types;
    var rest, more := EncList(types, SignatureCode.EncType), EncList(longer, SignatureCode.EncType);
    var b, c := SignatureCode.EncSig(SignatureCode.Signature(ret, types)),
                SignatureCode.EncSig(SignatureCode.Signature(ret, longer));
    assert b == Int(ret) + (Int(|types|) + rest) && c == Int(ret) + (Int(|longer|) + more);
    Sized(ret, |types|, rest, b);
    Sized(ret, |longer|, more, c);
    IntFirst(ret, Int(|types|) + rest);
    assert longer[0] == t && longer[1..] == types;
    hide IntAt, Int;
  }
}
