/** A map file as a stream of scalars with byte sizes, so that offsets in bytes mean something. */
module MapStream {

  datatype Scalar = U8(v: nat) | U16(v: nat) | U32(v: nat) | F32(r: real)
  {
    function Size(): nat {
      match this case U8(_) => 1 case U16(_) => 2 case U32(_) => 4 case F32(_) => 4
    }
  }

  function Bytes(s: seq<Scalar>): nat {
    if s == [] then 0 else s[0].Size() + Bytes(s[1..])
  }

  lemma {:induction false} BytesConcat(a: seq<Scalar>, b: seq<Scalar>)
    ensures Bytes(a + b) == Bytes(a) + Bytes(b)
  {
    if a == [] {
      assert a + b == b;
    } else {
      assert (a + b)[1..] == a[1..] + b;
      BytesConcat(a[1..], b);
    }
  }

  /** fseek: the scalars from a byte offset on, nothing if it is inside a scalar. */
  function Seek(s: seq<Scalar>, offset: nat): seq<Scalar> {
    if offset == 0 then s
    else if s == [] || s[0].Size() > offset then []
    else Seek(s[1..], offset - s[0].Size())
  }

  lemma {:induction false} SeekAfter(a: seq<Scalar>, b: seq<Scalar>)
    ensures Seek(a + b, Bytes(a)) == b
  {
    if a == [] {
      assert a + b == b;
    } else {
      assert (a + b)[0] == a[0] && (a + b)[1..] == a[1..] + b;
      SeekAfter(a[1..], b);
    }
  }

  // ----- arrays of scalars -----

  function U8s(vs: seq<nat>): seq<Scalar> { seq(|vs|, i requires 0 <= i < |vs| => U8(vs[i])) }
  function U16s(vs: seq<nat>): seq<Scalar> { seq(|vs|, i requires 0 <= i < |vs| => U16(vs[i])) }
  function F32s(vs: seq<real>): seq<Scalar> { seq(|vs|, i requires 0 <= i < |vs| => F32(vs[i])) }

  lemma {:induction false} UniformBytes(s: seq<Scalar>, size: nat)
    requires forall i :: 0 <= i < |s| ==> s[i].Size() == size
    ensures Bytes(s) == size * |s|
  {
    if s != [] {
      UniformBytes(s[1..], size);
      assert size * |s| == size + size * (|s| - 1);
    }
  }

  lemma ArrayBytes(ns: seq<nat>, rs: seq<real>)
    ensures Bytes(U8s(ns)) == |ns| && Bytes(U16s(ns)) == 2 * |ns| && Bytes(F32s(rs)) == 4 * |rs|
  {
    UniformBytes(U8s(ns), 1);
    UniformBytes(U16s(ns), 2);
    UniformBytes(F32s(rs), 4);
  }

  // ----- fread of arrays -----

  datatype Read<T> = Failed | Got(value: T, rest: seq<Scalar>)

  function ReadU8s(s: seq<Scalar>, n: nat): Read<seq<nat>> {
    if n <= |s| && forall i :: 0 <= i < n ==> s[i].U8?
    then Got(seq(n, i requires 0 <= i < n => s[i].v), s[n..]) else Failed
  }

  function ReadU16s(s: seq<Scalar>, n: nat): Read<seq<nat>> {
    if n <= |s| && forall i :: 0 <= i < n ==> s[i].U16?
    then Got(seq(n, i requires 0 <= i < n => s[i].v), s[n..]) else Failed
  }

  function ReadF32s(s: seq<Scalar>, n: nat): Read<seq<real>> {
    if n <= |s| && forall i :: 0 <= i < n ==> s[i].F32?
    then Got(seq(n, i requires 0 <= i < n => s[i].r), s[n..]) else Failed
  }

  lemma ReadsU8(ns: seq<nat>, rest: seq<Scalar>)
    ensures ReadU8s(U8s(ns) + rest, |ns|) == Got(ns, rest)
  {
    var s := U8s(ns) + rest;
    assert s[|ns|..] == rest;
    assert forall i :: 0 <= i < |ns| ==> s[i] == U8(ns[i]);
    assert ReadU8s(s, |ns|).value == ns;
  }

  lemma ReadsU16(ns: seq<nat>, rest: seq<Scalar>)
    ensures ReadU16s(U16s(ns) + rest, |ns|) == Got(ns, rest)
  {
    var s := U16s(ns) + rest;
    assert s[|ns|..] == rest;
    assert forall i :: 0 <= i < |ns| ==> s[i] == U16(ns[i]);
    assert ReadU16s(s, |ns|).value == ns;
  }

  lemma ReadsF32(rs: seq<real>, rest: seq<Scalar>)
    ensures ReadF32s(F32s(rs) + rest, |rs|) == Got(rs, rest)
  {
    var s := F32s(rs) + rest;
    assert s[|rs|..] == rest;
    assert forall i :: 0 <= i < |rs| ==> s[i] == F32(rs[i]);
    assert ReadF32s(s, |rs|).value == rs;
  }
}
