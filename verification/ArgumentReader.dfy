/** The reader of arguments: it fills fresh arguments from a buffer it does not change. */
module ArgumentReader {
  import opened Outcomes
  import opened ArgumentFormat

  lemma PrependTwice<T>(xs: seq<T>, ys: seq<T>, r: Read<seq<T>>)
    ensures Prepend(xs, Prepend(ys, r)) == Prepend(xs + ys, r)
  {
    if r.Got? { assert xs + (ys + r.value) == (xs + ys) + r.value; }
  }

  lemma PrependAll<T>(xs: seq<T>, p: nat)
    ensures Prepend(xs, Got([], p)) == Got(xs, p) && Prepend([], Got(xs, p)) == Got(xs, p)
  {
    assert xs + [] == xs && [] + xs == xs;
  }

  lemma PrependNone<T>(r: Read<seq<T>>)
    ensures Prepend([], r) == r
  {
    if r.Got? { assert [] + r.value == r.value; }
  }

  /** One more of `n` elements: the reader reads it, and goes on behind it. */
  lemma ListStep<T>(xs: seq<T>, p: nat, n: nat, read: nat -> Read<T>, limit: nat,
                    whole: Read<seq<T>>)
    requires Advances(read, limit) && n > 0 && whole.Got? && Prepend(xs, DecList(p, n, read, limit)) == whole
    ensures read(p).Got? && Prepend(xs + [read(p).value], DecList(read(p).next, n - 1, read, limit)) == whole
  {
    PrependTwice(xs, [read(p).value], DecList(read(p).next, n - 1, read, limit));
  }

  /** No more elements. */
  lemma ListEnd<T>(xs: seq<T>, p: nat, read: nat -> Read<T>, limit: nat)
    requires Advances(read, limit)
    ensures Prepend(xs, DecList(p, 0, read, limit)) == Got(xs, p)
  {
    PrependAll(xs, p);
  }

  method TakeInt(buf: array<Byte>, p: nat) returns (n: nat, q: nat)
    requires IntAt(buf[..], p).Got?
    ensures IntAt(buf[..], p) == Got(n, q)
  {
    n := (buf[p] as int) + 256 * (buf[p + 1] as int) + 65536 * (buf[p + 2] as int) + 16777216 * (buf[p + 3] as int);
    q := p + INT_SIZE;
  }

  /** strdup */
  method Strdup(buf: array<Byte>, p: nat) returns (s: seq<Byte>)
    requires CStringAt(buf[..], p).Got?
    ensures CStringAt(buf[..], p).value == s
  {
    ghost var b := buf[..];
    s := [];
    var i := p;
    PrependNone(CStringAt(b, p));
    while buf[i] != 0
      invariant p <= i < buf.Length
      invariant Prepend(s, CStringAt(b, i)) == CStringAt(b, p)
      decreases buf.Length - i
    {
      PrependTwice(s, [buf[i]], CStringAt(b, i + 1));
      s := s + [buf[i]];
      i := i + 1;
    }
  }

  method TakeStr(buf: array<Byte>, p: nat) returns (s: seq<Byte>, q: nat)
    requires DecStr(buf[..], p).Got?
    ensures DecStr(buf[..], p) == Got(s, q)
  {
    var len;
    len, q := TakeInt(buf, p);
    s := Strdup(buf, q);
    q := q + len;
  }

  method TakeObj(buf: array<Byte>, p: nat, known: set<OidMem>) returns (o: Option<Obj>, q: nat)
    requires DecObj(buf[..], p, known).Got?
    ensures DecObj(buf[..], p, known) == Got(o, q)
  {
    var len;
    len, q := TakeInt(buf, p);
    if len == 0 {
      return None, q;
    }
    var oid := buf[q..q + OID_SIZE];
    q := q + OID_SIZE;
    var cls := buf[q..q + OID_SIZE];
    q := q + OID_SIZE;
    q := q + len;
    o := if cls in known then Some(Obj(oid, cls, [])) else None;
  }

  method TakeScalars(buf: array<Byte>, p: nat, w: nat, n: nat) returns (ms: seq<seq<Byte>>, q: nat)
    requires DecList(p, n, MemReader(buf[..], w), buf.Length).Got?
    ensures DecList(p, n, MemReader(buf[..], w), buf.Length) == Got(ms, q)
  {
    hide DecList, Prepend;
    ghost var read, whole := MemReader(buf[..], w), DecList(p, n, MemReader(buf[..], w), buf.Length);
    ms, q := [], p;
    PrependNone(whole);
    for i := 0 to n
      invariant Prepend(ms, DecList(q, n - i, read, buf.Length)) == whole
    {
      ListStep(ms, q, n - i, read, buf.Length, whole);
      ms := ms + [buf[q..q + w]];
      q := q + w;
    }
    ListEnd(ms, q, read, buf.Length);
  }

  method TakeStrs(buf: array<Byte>, p: nat, n: nat) returns (ss: seq<seq<Byte>>, q: nat)
    requires DecList(p, n, StrReader(buf[..]), buf.Length).Got?
    ensures DecList(p, n, StrReader(buf[..]), buf.Length) == Got(ss, q)
  {
    hide DecList, DecStr, Prepend;
    ghost var read, whole := StrReader(buf[..]), DecList(p, n, StrReader(buf[..]), buf.Length);
    ss, q := [], p;
    PrependNone(whole);
    for i := 0 to n
      invariant Prepend(ss, DecList(q, n - i, read, buf.Length)) == whole
    {
      ListStep(ss, q, n - i, read, buf.Length, whole);
      var s;
      s, q := TakeStr(buf, q);
      ss := ss + [s];
    }
    ListEnd(ss, q, read, buf.Length);
  }

  method TakeObjs(buf: array<Byte>, p: nat, n: nat, known: set<OidMem>) returns (os: seq<Option<Obj>>, q: nat)
    requires DecList(p, n, ObjReader(buf[..], known), buf.Length).Got?
    ensures DecList(p, n, ObjReader(buf[..], known), buf.Length) == Got(os, q)
  {
    hide DecList, DecObj, Prepend;
    ghost var read, whole := ObjReader(buf[..], known), DecList(p, n, ObjReader(buf[..], known), buf.Length);
    os, q := [], p;
    PrependNone(whole);
    for i := 0 to n
      invariant Prepend(os, DecList(q, n - i, read, buf.Length)) == whole
    {
      ListStep(os, q, n - i, read, buf.Length, whole);
      var o;
      o, q := TakeObj(buf, q, known);
      os := os + [o];
    }
    ListEnd(os, q, read, buf.Length);
  }

  method DecodeBody(buf: array<Byte>, p: nat, t: nat, known: set<OidMem>) returns (a: Arg, q: nat)
    requires t != ARRAY_TYPE && p <= buf.Length && DecBody(buf[..], p, t, known).Got?
    ensures DecBody(buf[..], p, t, known) == Got(a, q)
  {
    q := p;
    if t == VOID_TYPE {
      a := Void;
    } else if t == STRING_TYPE {
      var s;
      s, q := TakeStr(buf, q);
      a := Str(s);
    } else if t == OBJ_TYPE {
      var o;
      o, q := TakeObj(buf, q, known);
      a := Object(o);
    } else if KindOf(t).Some? {
      var k := KindOf(t).value;
      a, q := Scalar(k, buf[q..q + k.Width()]), q + k.Width();
    } else {
      var n;
      n, q := TakeInt(buf, q);
      if t == RAW_TYPE {
        a, q := Raw(buf[q..q + n]), q + n;
      } else if t == ARRAY_TYPE + STRING_TYPE {
        var ss;
        ss, q := TakeStrs(buf, q, n);
        a := Strs(ss);
      } else if t == ARRAY_TYPE + OBJ_TYPE {
        var os;
        os, q := TakeObjs(buf, q, n, known);
        a := Objects(os);
      } else {
        var k := KindOf(t - ARRAY_TYPE).value;
        var ms;
        ms, q := TakeScalars(buf, q, k.Width(), n);
        a := Scalars(k, ms);
      }
    }
  }

  /** Reads the argument at `p`, in a buffer that holds one there; the buffer is not bounds-checked,
      so holding one is the caller's duty. */
  method DecodeArg(buf: array<Byte>, p: nat, known: set<OidMem>) returns (a: Arg, q: nat)
    requires Dec(buf[..], p, known).Got?
    ensures Dec(buf[..], p, known) == Got(a, q)
    decreases buf.Length - p, 0, 0
  {
    var t, n;
    t, q := TakeInt(buf, p);
    if t == ARRAY_TYPE {
      n, q := TakeInt(buf, q);
      var args;
      args, q := DecodeArgs(buf, q, n, known);
      a := Array(args);
    } else {
      a, q := DecodeBody(buf, q, t, known);
    }
  }

  lemma TakeOne(b: seq<Byte>, q: nat, k: nat, a: Arg, r: nat, known: set<OidMem>)
    requires q <= |b| && k > 0 && Dec(b, q, known) == Got(a, r)
    ensures DecArgs(b, q, k, known) == Prepend([a], DecArgs(b, r, k - 1, known))
  {
  }

  /** One more of a row of arguments, of which `args` have been read. */
  method DecodeNext(buf: array<Byte>, q: nat, left: nat, known: set<OidMem>, ghost args: seq<Arg>,
                    ghost whole: Read<seq<Arg>>) returns (a: Arg, r: nat)
    requires q <= buf.Length && left > 0 && whole.Got?
    requires Prepend(args, DecArgs(buf[..], q, left, known)) == whole
    ensures q <= r <= buf.Length
    ensures Prepend(args + [a], DecArgs(buf[..], r, left - 1, known)) == whole
    decreases buf.Length - q, 0, 1
  {
    ghost var b := buf[..];
    assert Dec(b, q, known).Got?;
    a, r := DecodeArg(buf, q, known);
    TakeOne(b, q, left, a, r, known);
    PrependTwice(args, [a], DecArgs(b, r, left - 1, known));
  }

  method DecodeArgs(buf: array<Byte>, p: nat, n: nat, known: set<OidMem>) returns (args: seq<Arg>, q: nat)
    requires p <= buf.Length && DecArgs(buf[..], p, n, known).Got?
    ensures DecArgs(buf[..], p, n, known) == Got(args, q)
    decreases buf.Length - p, 1, n
  {
    ghost var whole := DecArgs(buf[..], p, n, known);
    args, q := [], p;
    PrependNone(whole);
    for i := 0 to n
      invariant p <= q <= buf.Length
      invariant Prepend(args, DecArgs(buf[..], q, n - i, known)) == whole
    {
      var a, r := DecodeNext(buf, q, n - i, known, args, whole);
      args, q := args + [a], r;
    }
    PrependAll(args, q);
  }
}
