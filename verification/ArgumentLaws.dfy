/** The wire format of arguments is unambiguous: what the writer emits, wherever it lies in a
    buffer, is what the reader takes from there, to the byte. */
module ArgumentLaws {
  import opened Outcomes
  import opened ArgumentFormat

  /** `s` lies in `b` from `p` on. */
  predicate At(b: seq<Byte>, p: nat, s: seq<Byte>) {
    p + |s| <= |b| && b[p..p + |s|] == s
  }

  lemma AtEnd(b: seq<Byte>, p: nat, s: seq<Byte>)
    requires At(b, p, s)
    ensures p + |s| <= |b|
  {
  }

  lemma AtSplit(b: seq<Byte>, p: nat, s: seq<Byte>, t: seq<Byte>)
    ensures At(b, p, s + t) <==> At(b, p, s) && At(b, p + |s|, t)
  {
    if p + |s + t| <= |b| {
      var m := b[p..p + |s + t|];
      assert b[p..p + |s|] == m[..|s|] && b[p + |s|..p + |s| + |t|] == m[|s|..];
      assert (s + t)[..|s|] == s && (s + t)[|s|..] == t;
      assert m == m[..|s|] + m[|s|..];
    }
  }

  /** The four digits of an int, to base 256. */
  lemma Digits(n: nat)
    requires n <= INT_MAX
    ensures n % 256 + 256 * (n / 256 % 256) + 65536 * (n / 65536 % 256) + 16777216 * (n / 16777216 % 256) == n
    ensures n / 16777216 % 256 < 128
  {
  }

  lemma AtFour(b: seq<Byte>, p: nat, s: seq<Byte>)
    requires |s| == 4 && At(b, p, s)
    ensures p + 4 <= |b| && b[p] == s[0] && b[p + 1] == s[1] && b[p + 2] == s[2] && b[p + 3] == s[3]
  {
  }

  lemma IntTrip(b: seq<Byte>, p: nat, n: nat)
    requires n <= INT_MAX && At(b, p, Int(n))
    ensures IntAt(b, p) == Got(n, p + INT_SIZE)
  {
    AtFour(b, p, Int(n));
    Digits(n);
  }

  lemma {:induction false} CStringTrip(b: seq<Byte>, p: nat, s: seq<Byte>)
    requires 0 !in s && At(b, p, s + [0])
    ensures CStringAt(b, p) == Got(s, p + |s| + 1)
    decreases |s|
  {
    var m := b[p..p + |s| + 1];
    assert m[0] == b[p];
    if s == [] {
    } else {
      AtSplit(b, p, [s[0]], s[1..] + [0]);
      assert [s[0]] + (s[1..] + [0]) == s + [0];
      CStringTrip(b, p + 1, s[1..]);
      assert s[0] in s && [s[0]] + s[1..] == s;
    }
  }

  lemma StrTrip(b: seq<Byte>, p: nat, s: seq<Byte>)
    requires StrOk(s) && At(b, p, EncStr(s))
    ensures DecStr(b, p) == Got(s, p + |EncStr(s)|)
  {
    assert EncStr(s) == Int(|s| + 1) + (s + [0]);
    AtSplit(b, p, Int(|s| + 1), s + [0]);
    IntTrip(b, p, |s| + 1);
    CStringTrip(b, p + INT_SIZE, s);
  }

  lemma ObjTrip(b: seq<Byte>, p: nat, o: Option<Obj>, known: set<OidMem>)
    requires ObjOk(o) && At(b, p, EncObj(o))
    ensures DecObj(b, p, known) == Got(SeenObj(o, known), p + |EncObj(o)|)
  {
    match o
    case None =>
      IntTrip(b, p, 0);
    case Some(x) =>
      var rest := x.oid + (x.cls + x.idr);
      assert EncObj(o) == Int(|x.idr|) + rest;
      AtSplit(b, p, Int(|x.idr|), rest);
      IntTrip(b, p, |x.idr|);
      AtSplit(b, p + INT_SIZE, x.oid, x.cls + x.idr);
      AtSplit(b, p + INT_SIZE + OID_SIZE, x.cls, x.idr);
  }

  /** The first of a list, and the rest of it. */
  lemma Cons<T>(xs: seq<T>)
    requires xs != []
    ensures [xs[0]] + xs[1..] == xs && |xs[1..]| == |xs| - 1
    ensures forall x | x in xs[1..] :: x in xs
  {
  }

  /** What `read` makes of the encoding of `x`, wherever it lies. */
  ghost predicate Reads<T(!new), U>(b: seq<Byte>, x: T, enc: T -> seq<Byte>, read: nat -> Read<U>, y: U) {
    forall p: nat :: At(b, p, enc(x)) ==> read(p) == Got(y, p + |enc(x)|)
  }

  lemma {:induction false} ListTrip<T(!new), U>(b: seq<Byte>, p: nat, xs: seq<T>, enc: T -> seq<Byte>,
                                               read: nat -> Read<U>, ys: seq<U>)
    requires Advances(read, |b|) && |xs| == |ys|
    requires forall i | 0 <= i < |xs| :: Reads(b, xs[i], enc, read, ys[i])
    requires At(b, p, EncList(xs, enc))
    ensures DecList(p, |xs|, read, |b|) == Got(ys, p + |EncList(xs, enc)|)
    decreases |xs|
  {
    hide At, Advances;
    if xs == [] {
    } else {
      var s, rest := enc(xs[0]), EncList(xs[1..], enc);
      AtSplit(b, p, s, rest);
      assert Reads(b, xs[0], enc, read, ys[0]);
      forall i | 0 <= i < |xs[1..]| ensures Reads(b, xs[1..][i], enc, read, ys[1..][i]) {
        assert Reads(b, xs[i + 1], enc, read, ys[i + 1]);
      }
      ListTrip(b, p + |s|, xs[1..], enc, read, ys[1..]);
      assert ys == [ys[0]] + ys[1..];
    }
  }

  lemma ScalarsTrip(b: seq<Byte>, p: nat, w: nat, ms: seq<seq<Byte>>)
    requires (forall m | m in ms :: |m| == w) && At(b, p, EncList(ms, Memory))
    ensures DecList(p, |ms|, MemReader(b, w), |b|) == Got(ms, p + |EncList(ms, Memory)|)
  {
    forall i | 0 <= i < |ms| ensures Reads(b, ms[i], Memory, MemReader(b, w), ms[i]) {
      assert ms[i] in ms;
    }
    ListTrip(b, p, ms, Memory, MemReader(b, w), ms);
  }

  lemma StrsTrip(b: seq<Byte>, p: nat, ss: seq<seq<Byte>>)
    requires (forall s | s in ss :: StrOk(s)) && At(b, p, EncList(ss, EncStr))
    ensures DecList(p, |ss|, StrReader(b), |b|) == Got(ss, p + |EncList(ss, EncStr)|)
  {
    forall i | 0 <= i < |ss| ensures Reads(b, ss[i], EncStr, StrReader(b), ss[i]) {
      assert StrOk(ss[i]);
      forall q: nat | At(b, q, EncStr(ss[i])) ensures StrReader(b)(q) == Got(ss[i], q + |EncStr(ss[i])|) {
        StrTrip(b, q, ss[i]);
      }
    }
    ListTrip(b, p, ss, EncStr, StrReader(b), ss);
  }

  lemma ObjsTrip(b: seq<Byte>, p: nat, os: seq<Option<Obj>>, known: set<OidMem>)
    requires (forall o | o in os :: ObjOk(o)) && At(b, p, EncList(os, EncObj))
    ensures DecList(p, |os|, ObjReader(b, known), |b|) == Got(SeenObjs(os, known), p + |EncList(os, EncObj)|)
  {
    var seen := SeenObjs(os, known);
    forall i | 0 <= i < |os| ensures Reads(b, os[i], EncObj, ObjReader(b, known), seen[i]) {
      assert ObjOk(os[i]);
      forall q: nat | At(b, q, EncObj(os[i])) ensures ObjReader(b, known)(q) == Got(seen[i], q + |EncObj(os[i])|) {
        ObjTrip(b, q, os[i], known);
      }
    }
    ListTrip(b, p, os, EncObj, ObjReader(b, known), seen);
  }

  /** What follows the type code of an argument that is no array. */
  lemma PlainTrip(b: seq<Byte>, p: nat, a: Arg, known: set<OidMem>)
    requires ArgOk(a) && TypeCode(a) < ARRAY_TYPE && At(b, p, EncBody(a)) && p <= |b|
    ensures DecBody(b, p, TypeCode(a), known) == Got(Seen(a, known), p + |EncBody(a)|)
  {
    hide IntAt, DecStr, DecObj, DecList, EncStr, EncObj, Int;
    match a
    case Void =>
    case Scalar(k, m) =>
    case Str(s) => StrTrip(b, p, s);
    case Raw(d) => AtSplit(b, p, Int(|d|), d); IntTrip(b, p, |d|);
    case Object(o) => ObjTrip(b, p, o, known);
  }

  lemma ScalarsBody(b: seq<Byte>, p: nat, k: Kind, ms: seq<seq<Byte>>, r: nat, known: set<OidMem>)
    requires p <= |b| && IntAt(b, p) == Got(|ms|, p + INT_SIZE)
    requires DecList(p + INT_SIZE, |ms|, MemReader(b, k.Width()), |b|) == Got(ms, r)
    ensures DecBody(b, p, ARRAY_TYPE + k.Code(), known) == Got(Scalars(k, ms), r)
  {
  }

  lemma ObjectsBody(b: seq<Byte>, p: nat, n: nat, os: seq<Option<Obj>>, r: nat, known: set<OidMem>)
    requires p <= |b| && IntAt(b, p) == Got(n, p + INT_SIZE)
    requires DecList(p + INT_SIZE, n, ObjReader(b, known), |b|) == Got(os, r)
    ensures DecBody(b, p, ARRAY_TYPE + OBJ_TYPE, known) == Got(Objects(os), r)
  {
  }

  lemma ScalarsBodyTrip(b: seq<Byte>, p: nat, a: Arg, known: set<OidMem>)
    requires ArgOk(a) && a.Scalars? && At(b, p, EncBody(a)) && p <= |b|
    ensures DecBody(b, p, TypeCode(a), known) == Got(Seen(a, known), p + |EncBody(a)|)
  {
    hide DecList, DecBody, IntAt, At;
    AtSplit(b, p, Int(|a.mems|), EncList(a.mems, Memory));
    IntTrip(b, p, |a.mems|);
    ScalarsTrip(b, p + INT_SIZE, a.kind.Width(), a.mems);
    ScalarsBody(b, p, a.kind, a.mems, p + INT_SIZE + |EncList(a.mems, Memory)|, known);
  }

  lemma StrsBodyTrip(b: seq<Byte>, p: nat, a: Arg, known: set<OidMem>)
    requires ArgOk(a) && a.Strs? && At(b, p, EncBody(a)) && p <= |b|
    ensures DecBody(b, p, TypeCode(a), known) == Got(Seen(a, known), p + |EncBody(a)|)
  {
    AtSplit(b, p, Int(|a.ss|), EncList(a.ss, EncStr));
    IntTrip(b, p, |a.ss|);
    StrsTrip(b, p + INT_SIZE, a.ss);
  }

  lemma ObjectsBodyTrip(b: seq<Byte>, p: nat, a: Arg, known: set<OidMem>)
    requires ArgOk(a) && a.Objects? && At(b, p, EncBody(a)) && p <= |b|
    ensures DecBody(b, p, TypeCode(a), known) == Got(Seen(a, known), p + |EncBody(a)|)
  {
    AtSplit(b, p, Int(|a.os|), EncList(a.os, EncObj));
    IntTrip(b, p, |a.os|);
    ObjsTrip(b, p + INT_SIZE, a.os, known);
    ObjectsBody(b, p, |a.os|, SeenObjs(a.os, known), p + INT_SIZE + |EncList(a.os, EncObj)|, known);
  }

  /** Wherever the bytes of an argument lie, reading there gives the argument back, except the
      contents of objects, and ends just past them. */
  lemma {:induction false} RoundTrip(b: seq<Byte>, p: nat, a: Arg, known: set<OidMem>)
    requires ArgOk(a) && At(b, p, Enc(a))
    ensures Dec(b, p, known) == Got(Seen(a, known), p + |Enc(a)|)
    decreases a, 0
  {
    hide DecBody, DecList, EncList, EncArgs, IntAt, Int, At;
    AtEnd(b, p, Enc(a));
    AtSplit(b, p, Int(TypeCode(a)), EncBody(a));
    IntTrip(b, p, TypeCode(a));
    var q := p + INT_SIZE;
    match a
    case Array(args) =>
      AtSplit(b, q, Int(|args|), EncArgs(args));
      IntTrip(b, q, |args|);
      ArgsTrip(b, q + INT_SIZE, args, known);
    case Scalars(_, _) => ScalarsBodyTrip(b, q, a, known);
    case Strs(_) => StrsBodyTrip(b, q, a, known);
    case Objects(_) => ObjectsBodyTrip(b, q, a, known);
    case _ => PlainTrip(b, q, a, known);
  }

  lemma ArgsStep(b: seq<Byte>, p: nat, a: Arg, q: nat, args: seq<Arg>, r: nat, known: set<OidMem>)
    requires p <= |b| && Dec(b, p, known) == Got(a, q) && DecArgs(b, q, |args|, known) == Got(args, r)
    ensures DecArgs(b, p, |args| + 1, known) == Got([a] + args, r)
  {
  }

  lemma {:induction false} SeenAllSize(args: seq<Arg>, known: set<OidMem>)
    ensures |SeenAll(args, known)| == |args|
  {
    if args == [] {
    } else {
      SeenAllSize(args[1..], known);
    }
  }

  lemma {:induction false} ArgsTrip(b: seq<Byte>, p: nat, args: seq<Arg>, known: set<OidMem>)
    requires (forall x | x in args :: ArgOk(x)) && At(b, p, EncArgs(args))
    ensures DecArgs(b, p, |args|, known) == Got(SeenAll(args, known), p + |EncArgs(args)|)
    decreases args, 1
  {
    hide Enc, Dec;
    if args == [] {
    } else {
      Cons(args);
      var s, rest := Enc(args[0]), EncArgs(args[1..]);
      assert EncArgs(args) == s + rest;
      AtSplit(b, p, s, rest);
      RoundTrip(b, p, args[0], known);
      ArgsTrip(b, p + |s|, args[1..], known);
      SeenAllSize(args[1..], known);
      ArgsStep(b, p, Seen(args[0], known), p + |s|, SeenAll(args[1..], known), p + |s| + |rest|, known);
    }
  }

  // ----- arguments without objects come back whole

  predicate NoObject(a: Arg) {
    match a
    case Object(_) => false
    case Objects(_) => false
    case Array(args) => forall x | x in args :: NoObject(x)
    case _ => true
  }

  lemma {:induction false} SeenWhole(a: Arg, known: set<OidMem>)
    requires NoObject(a)
    ensures Seen(a, known) == a
    decreases a, 0
  {
    if a.Array? { SeenAllWhole(a.args, known); }
  }

  lemma {:induction false} SeenAllWhole(args: seq<Arg>, known: set<OidMem>)
    requires forall x | x in args :: NoObject(x)
    ensures SeenAll(args, known) == args
    decreases args, 1
  {
    if args == [] {
    } else {
      SeenWhole(args[0], known);
      SeenAllWhole(args[1..], known);
    }
  }

  /** Reading an argument that holds no object gives exactly that argument back. */
  lemma RoundTripWhole(b: seq<Byte>, p: nat, a: Arg, known: set<OidMem>)
    requires ArgOk(a) && NoObject(a) && At(b, p, Enc(a))
    ensures Dec(b, p, known) == Got(a, p + |Enc(a)|)
  {
    RoundTrip(b, p, a, known);
    SeenWhole(a, known);
  }

  /** No encoding is a prefix of another's: two arguments that can both be said to start at one
      place of a buffer are the same. */
  lemma Unambiguous(b: seq<Byte>, p: nat, a: Arg, a': Arg)
    requires ArgOk(a) && NoObject(a) && At(b, p, Enc(a))
    requires ArgOk(a') && NoObject(a') && At(b, p, Enc(a'))
    ensures a == a'
  {
    RoundTripWhole(b, p, a, {});
    RoundTripWhole(b, p, a', {});
  }
}
