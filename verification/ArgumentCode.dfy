/** Sizing, writing and reading arguments in one byte buffer. */
module ArgumentCode {
  import opened Outcomes
  import opened ArgumentFormat
  import opened ArgumentLaws

  // ----- the size pre-pass

  lemma OneMore(w: nat, n: nat)
    ensures w * (n + 1) == w * n + w
  {
  }

  lemma {:induction false} ScalarsSize(ms: seq<seq<Byte>>, w: nat, n: nat)
    requires |ms| == n && forall m | m in ms :: |m| == w
    ensures |EncList(ms, Memory)| == w * n
  {
    if ms == [] {
    } else {
      Cons(ms);
      ScalarsSize(ms[1..], w, n - 1);
      OneMore(w, n - 1);
      assert EncList(ms, Memory) == ms[0] + EncList(ms[1..], Memory);
    }
  }

  lemma ListFrom<T>(xs: seq<T>, enc: T -> seq<Byte>, i: nat)
    requires i < |xs|
    ensures EncList(xs[i..], enc) == enc(xs[i]) + EncList(xs[i + 1..], enc)
  {
  }

  lemma ListDone<T>(xs: seq<T>, enc: T -> seq<Byte>, done: seq<Byte>)
    ensures xs[0..] == xs && done + EncList(xs[|xs|..], enc) == done
  {
  }

  lemma ArgsDone(args: seq<Arg>, done: seq<Byte>)
    ensures args[0..] == args && done + EncArgs(args[|args|..]) == done
  {
  }

  lemma ArgsFrom(args: seq<Arg>, i: nat)
    requires i < |args|
    ensures EncArgs(args[i..]) == Enc(args[i]) + EncArgs(args[i + 1..])
  {
  }

  method GetStrsSize(ss: seq<seq<Byte>>) returns (size: nat)
    ensures size == |EncList(ss, EncStr)|
  {
    size := 0;
    var i := 0;
    while i < |ss|
      invariant 0 <= i <= |ss| && size + |EncList(ss[i..], EncStr)| == |EncList(ss, EncStr)|
    {
      ListFrom(ss, EncStr, i);
      size := size + INT_SIZE + |ss[i]| + 1;
      i := i + 1;
    }
  }

  method GetObjsSize(os: seq<Option<Obj>>) returns (size: nat)
    ensures size == |EncList(os, EncObj)|
  {
    size := 0;
    var i := 0;
    while i < |os|
      invariant 0 <= i <= |os| && size + |EncList(os[i..], EncObj)| == |EncList(os, EncObj)|
    {
      ListFrom(os, EncObj, i);
      size := size + INT_SIZE + if os[i].Some? then 2 * OID_SIZE + |os[i].value.idr| else 0;
      i := i + 1;
    }
  }

  /** The size pre-pass gives the number of bytes the writer emits. */
  method GetSize(a: Arg) returns (size: nat)
    requires ArgOk(a)
    ensures size == |Enc(a)|
    decreases a, 0
  {
    BodySize(a);
    size := INT_SIZE;
    var more := 0;
    match a {
      case Void =>
      case Scalar(k, _) => more := k.Width();
      case Str(s) => more := INT_SIZE + |s| + 1;
      case Raw(d) => more := INT_SIZE + |d|;
      case Object(o) => more := INT_SIZE + if o.Some? then 2 * OID_SIZE + |o.value.idr| else 0;
      case Scalars(k, ms) => more := INT_SIZE + k.Width() * |ms|;
      case Strs(ss) =>
        more := GetStrsSize(ss);
        more := INT_SIZE + more;
      case Objects(os) =>
        more := GetObjsSize(os);
        more := INT_SIZE + more;
      case Array(args) => more := GetArgsSize(args);
    }
    size := size + more;
  }

  /** How many bytes each kind of argument takes after its type code. */
  lemma BodySize(a: Arg)
    requires ArgOk(a)
    ensures |Enc(a)| == INT_SIZE + |EncBody(a)|
    ensures match a
      case Void => |EncBody(a)| == 0
      case Scalar(k, _) => |EncBody(a)| == k.Width()
      case Str(s) => |EncBody(a)| == INT_SIZE + |s| + 1
      case Raw(d) => |EncBody(a)| == INT_SIZE + |d|
      case Object(o) => |EncBody(a)| == INT_SIZE + if o.Some? then 2 * OID_SIZE + |o.value.idr| else 0
      case Scalars(k, ms) => |EncBody(a)| == INT_SIZE + k.Width() * |ms|
      case Strs(ss) => |EncBody(a)| == INT_SIZE + |EncList(ss, EncStr)|
      case Objects(os) => |EncBody(a)| == INT_SIZE + |EncList(os, EncObj)|
      case Array(args) => |EncBody(a)| == INT_SIZE + |EncArgs(args)|
  {
    if a.Scalars? { ScalarsSize(a.mems, a.kind.Width(), |a.mems|); }
  }

  /** A count and the arguments. */
  method GetArgsSize(args: seq<Arg>) returns (size: nat)
    requires forall x | x in args :: ArgOk(x)
    ensures size == INT_SIZE + |EncArgs(args)|
    decreases args, 1
  {
    size := INT_SIZE;
    var i := 0;
    while i < |args|
      invariant 0 <= i <= |args| && size + |EncArgs(args[i..])| == INT_SIZE + |EncArgs(args)|
    {
      ArgsFrom(args, i);
      var more := GetSize(args[i]);
      size := size + more;
      i := i + 1;
    }
  }

  // ----- the writer

  /** The buffer `b` with `s` written at `p`. */
  function Put(b: seq<Byte>, p: nat, s: seq<Byte>): (r: seq<Byte>)
    requires p + |s| <= |b|
    ensures |r| == |b|
  {
    b[..p] + s + b[p + |s|..]
  }

  lemma PutPut(b: seq<Byte>, p: nat, s: seq<Byte>, t: seq<Byte>)
    requires p + |s| + |t| <= |b|
    ensures Put(Put(b, p, s), p + |s|, t) == Put(b, p, s + t)
  {
  }

  /** After `done` of a longer stretch, its next piece. */
  lemma PutNext(b: seq<Byte>, p: nat, done: seq<Byte>, e: seq<Byte>, rest: seq<Byte>)
    requires p + |done| + |e| <= |b|
    ensures Put(Put(b, p, done), p + |done|, e) == Put(b, p, done + e)
    ensures (done + e) + rest == done + (e + rest)
  {
  }

  lemma PutNone(b: seq<Byte>, p: nat)
    requires p <= |b|
    ensures Put(b, p, []) == b
  {
  }

  /** What is written up to the end of the buffer. */
  lemma PutLast(b: seq<Byte>, p: nat, s: seq<Byte>)
    requires p + |s| == |b|
    ensures Put(b, p, s) == b[..p] + s
  {
  }

  /** memcpy into the buffer; gives the advanced cursor. */
  method Mcp(buf: array<Byte>, p: nat, s: seq<Byte>) returns (q: nat)
    requires p + |s| <= buf.Length
    modifies buf
    ensures buf[..] == Put(old(buf[..]), p, s) && q == p + |s|
  {
    var i := 0;
    while i < |s|
      invariant 0 <= i <= |s|
      invariant forall k | 0 <= k < buf.Length ::
                  buf[k] == if p <= k < p + i then s[k - p] else old(buf[k])
    {
      buf[p + i] := s[i];
      i := i + 1;
    }
    q := p + |s|;
  }

  method CodeStr(s: seq<Byte>, buf: array<Byte>, p: nat) returns (q: nat)
    requires p + |EncStr(s)| <= buf.Length
    modifies buf
    ensures buf[..] == Put(old(buf[..]), p, EncStr(s)) && q == p + |EncStr(s)|
  {
    ghost var b := buf[..];
    q := Mcp(buf, p, Int(|s| + 1));
    q := Mcp(buf, q, s + [0]);
    PutPut(b, p, Int(|s| + 1), s + [0]);
    assert EncStr(s) == Int(|s| + 1) + (s + [0]);
  }

  method CodeObj(o: Option<Obj>, buf: array<Byte>, p: nat) returns (q: nat)
    requires p + |EncObj(o)| <= buf.Length
    modifies buf
    ensures buf[..] == Put(old(buf[..]), p, EncObj(o)) && q == p + |EncObj(o)|
  {
    ghost var b := buf[..];
    q := Mcp(buf, p, Int(if o.Some? then |o.value.idr| else 0));
    if o.Some? {
      ghost var n, x := Int(|o.value.idr|), o.value;
      q := Mcp(buf, q, o.value.oid);
      PutPut(b, p, n, x.oid);
      q := Mcp(buf, q, o.value.cls);
      PutPut(b, p, n + x.oid, x.cls);
      q := Mcp(buf, q, o.value.idr);
      PutPut(b, p, n + x.oid + x.cls, x.idr);
    }
  }

  method CodeStrs(ss: seq<seq<Byte>>, buf: array<Byte>, p: nat) returns (q: nat)
    requires p + INT_SIZE + |EncList(ss, EncStr)| <= buf.Length
    modifies buf
    ensures buf[..] == Put(old(buf[..]), p, Int(|ss|) + EncList(ss, EncStr))
    ensures q == p + INT_SIZE + |EncList(ss, EncStr)|
  {
    hide EncList, EncStr, Put, Int;
    ghost var b, done := buf[..], Int(|ss|);
    ListDone(ss, EncStr, done);
    q := Mcp(buf, p, Int(|ss|));
    var i := 0;
    while i < |ss|
      invariant 0 <= i <= |ss| && done + EncList(ss[i..], EncStr) == Int(|ss|) + EncList(ss, EncStr)
      invariant q == p + |done| && buf[..] == Put(b, p, done)
    {
      ListFrom(ss, EncStr, i);
      ghost var e, rest := EncStr(ss[i]), EncList(ss[i + 1..], EncStr);
      PutNext(b, p, done, e, rest);
      q := CodeStr(ss[i], buf, q);
      done := done + e;
      i := i + 1;
    }
    ListDone(ss, EncStr, done);
  }

  method CodeObjs(os: seq<Option<Obj>>, buf: array<Byte>, p: nat) returns (q: nat)
    requires p + INT_SIZE + |EncList(os, EncObj)| <= buf.Length
    modifies buf
    ensures buf[..] == Put(old(buf[..]), p, Int(|os|) + EncList(os, EncObj))
    ensures q == p + INT_SIZE + |EncList(os, EncObj)|
  {
    hide EncList, EncObj, Put, Int;
    ghost var b, done := buf[..], Int(|os|);
    ListDone(os, EncObj, done);
    q := Mcp(buf, p, Int(|os|));
    var i := 0;
    while i < |os|
      invariant 0 <= i <= |os| && done + EncList(os[i..], EncObj) == Int(|os|) + EncList(os, EncObj)
      invariant q == p + |done| && buf[..] == Put(b, p, done)
    {
      ListFrom(os, EncObj, i);
      ghost var e, rest := EncObj(os[i]), EncList(os[i + 1..], EncObj);
      PutNext(b, p, done, e, rest);
      q := CodeObj(os[i], buf, q);
      done := done + e;
      i := i + 1;
    }
    ListDone(os, EncObj, done);
  }

  /** Writes an argument at `p` and nothing else, and leaves the cursor just past it. */
  method CodeArg(a: Arg, buf: array<Byte>, p: nat) returns (q: nat)
    requires p + |Enc(a)| <= buf.Length
    modifies buf
    ensures buf[..] == Put(old(buf[..]), p, Enc(a)) && q == p + |Enc(a)|
    decreases a, 0
  {
    hide Put, EncList, EncArgs, EncStr, EncObj;
    ghost var b := buf[..];
    q := Mcp(buf, p, Int(TypeCode(a)));
    match a {
      case Void => PutNone(Put(b, p, Int(TypeCode(a))), q);
      case Scalar(_, m) => q := Mcp(buf, q, m);
      case Str(s) => q := CodeStr(s, buf, q);
      case Raw(d) => q := CodeCount(|d|, d, buf, q);
      case Object(o) => q := CodeObj(o, buf, q);
      case Scalars(_, ms) => q := CodeCount(|ms|, EncList(ms, Memory), buf, q);
      case Strs(ss) => q := CodeStrs(ss, buf, q);
      case Objects(os) => q := CodeObjs(os, buf, q);
      case Array(args) => q := CodeArgs(args, buf, q);
    }
    PutPut(b, p, Int(TypeCode(a)), EncBody(a));
  }

  /** A count and a block of memory. */
  method CodeCount(n: nat, mem: seq<Byte>, buf: array<Byte>, p: nat) returns (q: nat)
    requires p + INT_SIZE + |mem| <= buf.Length
    modifies buf
    ensures buf[..] == Put(old(buf[..]), p, Int(n) + mem) && q == p + INT_SIZE + |mem|
  {
    ghost var b := buf[..];
    q := Mcp(buf, p, Int(n));
    q := Mcp(buf, q, mem);
    PutPut(b, p, Int(n), mem);
  }

  method CodeArgs(args: seq<Arg>, buf: array<Byte>, p: nat) returns (q: nat)
    requires p + INT_SIZE + |EncArgs(args)| <= buf.Length
    modifies buf
    ensures buf[..] == Put(old(buf[..]), p, Int(|args|) + EncArgs(args)) && q == p + INT_SIZE + |EncArgs(args)|
    decreases args, 1
  {
    hide EncArgs, Enc, Put, Int;
    ghost var b, done := buf[..], Int(|args|);
    ArgsDone(args, done);
    q := Mcp(buf, p, Int(|args|));
    var i := 0;
    while i < |args|
      invariant 0 <= i <= |args| && done + EncArgs(args[i..]) == Int(|args|) + EncArgs(args)
      invariant q == p + |done| && buf[..] == Put(b, p, done)
    {
      ArgsFrom(args, i);
      ghost var e, rest := Enc(args[i]), EncArgs(args[i + 1..]);
      PutNext(b, p, done, e, rest);
      q := CodeArg(args[i], buf, q);
      done := done + e;
      i := i + 1;
    }
    ArgsDone(args, done);
  }
}
