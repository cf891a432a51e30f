/** The buffer that carries a call's arguments, and the codes of a method's signature. */
module ArgumentData {
  import opened Outcomes
  import opened ArgumentFormat
  import opened ArgumentLaws
  import ArgumentCode
  import ArgumentReader

  /** A counted array of arguments at the start of a buffer. */
  function DecArray(b: seq<Byte>, known: set<OidMem>): Read<seq<Arg>> {
    match IntAt(b, 0)
    case Bad => Bad
    case Got(n, q) => DecArgs(b, q, n, known)
  }

  class RpcData {
    var data: array<Byte>
    var size: nat

    ghost predicate Valid()
      reads this
    {
      size == data.Length
    }

    constructor ()
      ensures Valid() && fresh(data) && data[..] == []
    {
      data := new Byte[0];
      size := 0;
    }

    /** The buffer is exactly as long as the arguments are on the wire. */
    method CodeArgArray(args: seq<Arg>)
      requires |args| <= INT_MAX && forall x | x in args :: ArgOk(x)
      modifies this
      ensures Valid() && fresh(data)
      ensures data[..] == Int(|args|) + EncArgs(args)
    {
      hide Enc, EncArgs, ArgumentCode.Put, Int;
      var total := ArgumentCode.GetArgsSize(args);
      size := total;
      data := new Byte[total](_ => 0);
      ghost var b, done := data[..], Int(|args|);
      var p := ArgumentCode.Mcp(data, 0, Int(|args|));
      ArgumentCode.ArgsDone(args, done);
      var i := 0;
      while i < |args|
        invariant 0 <= i <= |args| && p == |done| && fresh(data) && data.Length == total
        invariant done + EncArgs(args[i..]) == Int(|args|) + EncArgs(args)
        invariant data[..] == ArgumentCode.Put(b, 0, done)
        modifies data
      {
        ArgumentCode.ArgsFrom(args, i);
        ghost var e, rest := Enc(args[i]), EncArgs(args[i + 1..]);
        ArgumentCode.PutNext(b, 0, done, e, rest);
        p := ArgumentCode.CodeArg(args[i], data, p);
        done := done + e;
        i := i + 1;
      }
      ArgumentCode.ArgsDone(args, done);
      ArgumentCode.PutLast(b, 0, done);
    }

    /** Appends an argument to what the buffer holds, which stays in place. */
    method CodeArgument(a: Arg)
      requires Valid() && ArgOk(a)
      modifies this
      ensures Valid() && fresh(data)
      ensures data[..] == old(data[..]) + Enc(a)
    {
      hide Enc, ArgumentCode.Put;
      var osize := size;
      var more := ArgumentCode.GetSize(a);
      var grown := new Byte[osize + more](_ => 0);
      var i := 0;
      while i < osize
        invariant 0 <= i <= osize && data == old(data) && data[..] == old(data[..])
        invariant grown[..i] == old(data[..i])
        modifies grown
      {
        grown[i] := data[i];
        i := i + 1;
      }
      ArgumentCode.PutLast(grown[..], osize, Enc(a));
      var p := ArgumentCode.CodeArg(a, grown, osize);
      data, size := grown, osize + more;
      assert p == size;
    }

    /** The arguments, and the offset of whatever was appended to them. */
    method DecodeArgArray(known: set<OidMem>) returns (args: seq<Arg>, offset: nat)
      requires Valid() && DecArray(data[..], known).Got?
      ensures DecArray(data[..], known) == Got(args, offset)
    {
      var n, q := ArgumentReader.TakeInt(data, 0);
      args, offset := ArgumentReader.DecodeArgs(data, q, n, known);
    }

    method DecodeArgument(offset: nat, known: set<OidMem>) returns (a: Arg)
      requires Valid() && Dec(data[..], offset, known).Got?
      ensures Dec(data[..], offset, known).value == a
    {
      var q;
      a, q := ArgumentReader.DecodeArg(data, offset, known);
    }
  }

  lemma AtSelf(b: seq<Byte>)
    ensures At(b, 0, b)
  {
  }

  /** After an array of arguments and one more argument, the offset the array's reader returns is
      where the other one lies, and the two fill the buffer. */
  lemma {:induction false} Chained(b: seq<Byte>, args: seq<Arg>, a: Arg, known: set<OidMem>)
    requires |args| <= INT_MAX && (forall x | x in args :: ArgOk(x)) && ArgOk(a)
    requires b == Int(|args|) + EncArgs(args) + Enc(a)
    ensures DecArray(b, known).Got? && DecArray(b, known).value == SeenAll(args, known)
    ensures Dec(b, DecArray(b, known).next, known) == Got(Seen(a, known), |b|)
  {
    hide At, DecArgs, Dec, Enc, EncArgs, IntAt, Seen, SeenAll;
    var n, e := Int(|args|), EncArgs(args);
    AtSelf(b);
    AtSplit(b, 0, n + e, Enc(a));
    AtSplit(b, 0, n, e);
    IntTrip(b, 0, |args|);
    ArgsTrip(b, INT_SIZE, args, known);
    RoundTrip(b, INT_SIZE + |e|, a, known);
  }

  /** A call and its reply through one buffer: what was coded is what is decoded. */
  method SendAndReceive(args: seq<Arg>, ret: Arg, known: set<OidMem>) returns (args': seq<Arg>, ret': Arg)
    requires |args| <= INT_MAX && (forall x | x in args :: ArgOk(x)) && ArgOk(ret)
    ensures args' == SeenAll(args, known) && ret' == Seen(ret, known)
  {
    var reply := new RpcData();
    reply.CodeArgArray(args);
    reply.CodeArgument(ret);
    Chained(reply.data[..], args, ret, known);
    var offset;
    args', offset := reply.DecodeArgArray(known);
    ret' := reply.DecodeArgument(offset, known);
  }
}
