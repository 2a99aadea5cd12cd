/** The growable byte queue of buffer.h, refining a plain sequence of bytes. */
module Buffers {
  import opened BufferCost

  newtype Byte = x: int | 0 <= x < 256

  class Buffer {
    var buf: array?<Byte>
    var b: nat
    var e: nat
    var cap: nat
    var exp: nat
    ghost var stored: nat
    ghost var consumed: nat
    ghost var expandCopied: nat
    ghost var headCopied: nat

    ghost function Repr(): set<object>
      reads this
    {
      if buf == null then {this} else {this, buf}
    }

    ghost function Offsets(): Shape
      reads this
    {
      Shape(b, e, cap, exp)
    }

    /** The offsets with the copying done so far. */
    ghost function Metered(): Meter
      reads this
    {
      Meter(Offsets(), stored, consumed, expandCopied, headCopied)
    }

    ghost predicate Valid()
      reads this
    {
      && b <= e <= cap
      && cap == (if buf == null then 0 else buf.Length)
    }

    /** The bytes between the two offsets. */
    ghost function Contents(): (s: seq<Byte>)
      requires Valid()
      reads this, Repr()
      ensures |s| == e - b
    {
      if buf == null then [] else buf[b..e]
    }

    constructor ()
      ensures Valid() && fresh(Repr()) && Contents() == [] && Metered() == New(512)
    {
      buf, b, e, cap, exp := null, 0, 0, 0, 512;
      stored, consumed, expandCopied, headCopied := 0, 0, 0, 0;
    }

    constructor Copy(other: Buffer)
      requires other.Valid()
      ensures Valid() && fresh(Repr())
      ensures Contents() == other.Contents() && Metered() == Idle(other.Offsets())
    {
      b, e, cap, exp := other.b, other.e, other.cap, other.exp;
      stored, consumed, expandCopied, headCopied := 0, 0, 0, 0;
      buf := null;
      new;
      CopyFrom(other);
    }

    /** The loop inside memcpy and std::copy: n bytes of src at from go to dst at to. */
    static method CopyBytes(src: array<Byte>, from: nat, n: nat, dst: array<Byte>, to: nat)
      requires from + n <= src.Length && to + n <= dst.Length
      requires src == dst ==> to <= from
      modifies dst
      ensures dst[to..to + n] == old(src[from..from + n])
      ensures forall i :: 0 <= i < dst.Length && !(to <= i < to + n) ==> dst[i] == old(dst[i])
    {
      var i := 0;
      while i < n
        invariant 0 <= i <= n
        invariant dst[to..to + i] == old(src[from..from + i])
        invariant src[from + i..from + n] == old(src[from + i..from + n])
        invariant forall j :: 0 <= j < dst.Length && !(to <= j < to + n) ==> dst[j] == old(dst[j])
      {
        assert src[from + i..from + n][0] == src[from + i];
        dst[to + i] := src[from + i];
        i := i + 1;
      }
    }

    method CopyFrom(other: Buffer)
      requires other.Valid() && other != this
      modifies this
      ensures Valid() && fresh(Repr() - {this})
      ensures Contents() == other.Contents() && Metered() == Idle(other.Offsets())
    {
      b, e, cap, exp := other.b, other.e, other.cap, other.exp;
      stored, consumed, expandCopied, headCopied := 0, 0, 0, 0;
      buf := null;
      if other.buf != null {
        buf := new Byte[cap];
        CopyBytes(other.buf, other.b, other.e - other.b, buf, b);
      }
    }

    /** operator=, for two different buffers. */
    method Assign(other: Buffer)
      requires Valid() && other.Valid() && other != this
      modifies this
      ensures Valid() && fresh(Repr() - {this})
      ensures Contents() == other.Contents() && Metered() == Idle(other.Offsets())
    {
      CopyFrom(other);
    }

    method SetSuggestSize(size: nat)
      requires Valid()
      modifies this`exp
      ensures Valid() && exp == size
    {
      exp := size;
    }

    method Clear()
      requires Valid()
      modifies this
      ensures Valid() && Repr() == {this} && Contents() == []
      ensures Metered() == old(Metered()).(shape := Emptied(old(Offsets())))
    {
      buf, cap, b, e := null, 0, 0, 0;
    }

    method MoveHeadDown()
      requires Valid()
      modifies this, if buf == null then {} else {buf}
      ensures Valid() && Repr() == old(Repr())
      ensures Contents() == old(Contents()) && Metered() == CountHead(old(Metered()))
    {
      if buf != null {
        CopyBytes(buf, b, e - b, buf, 0);
      }
      headCopied := headCopied + (e - b);
      e := e - b;
      b := 0;
    }

    method Grow(len: nat)
      requires Valid()
      modifies this
      ensures Valid() && fresh(Repr() - {this})
      ensures Contents() == old(Contents()) && Metered() == CountExpand(old(Metered()), len)
    {
      var ncap := Max(exp, Max(2 * cap, e - b + len));
      var p := new Byte[ncap];
      if buf != null {
        CopyBytes(buf, b, e - b, p, 0);
      }
      expandCopied := expandCopied + (e - b);
      e := e - b;
      b := 0;
      buf := p;
      cap := ncap;
    }

    method MakeRoom(len: nat)
      requires Valid()
      modifies Repr()
      ensures Valid() && fresh(Repr() - old(Repr()))
      ensures Contents() == old(Contents()) && Metered() == RoomedMeter(old(Metered()), len)
    {
      if e + len <= cap {
      } else if e - b + len < cap / 2 {
        MoveHeadDown();
      } else {
        Grow(len);
      }
    }

    /** makeRoom without an argument: asks for a suggested size of room. */
    method Prepare()
      requires Valid()
      modifies this
      ensures Valid() && fresh(Repr() - old(Repr()))
      ensures Contents() == old(Contents()) && Metered() == PreparedMeter(old(Metered()))
    {
      if cap - e < exp {
        Grow(0);
      }
    }

    /** The bytes of p arrive behind end(), by memcpy or by read, and addSize takes them in. */
    method Store(p: seq<Byte>)
      requires Valid() && e + |p| <= cap
      modifies Repr()
      ensures Valid() && Repr() == old(Repr()) && exp == old(exp)
      ensures Contents() == old(Contents()) + p
      ensures Metered() == CountStored(old(Metered()), |p|)
    {
      if buf != null {
        var i := 0;
        while i < |p|
          invariant 0 <= i <= |p|
          invariant buf[b..e] == old(buf[b..e]) && buf[e..e + i] == p[..i]
          modifies buf
        {
          buf[e + i] := p[i];
          i := i + 1;
        }
        assert buf[b..e + i] == buf[b..e] + buf[e..e + i] && p[..i] == p;
      }
      AddSize(|p|);
      stored := stored + |p|;
    }

    method AddSize(len: nat)
      requires Valid() && e + len <= cap
      modifies this`e
      ensures Valid() && e == old(e) + len
    {
      e := e + len;
    }

    method Append(p: seq<Byte>)
      requires Valid()
      modifies Repr()
      ensures Valid() && fresh(Repr() - old(Repr()))
      ensures Contents() == old(Contents()) + p
      ensures Metered() == Apply(old(Metered()), Op.Append(|p|))
    {
      MakeRoom(|p|);
      Store(p);
    }

    method Consume(len: nat)
      requires Valid() && len <= e - b
      modifies this
      ensures Valid() && Repr() <= old(Repr())
      ensures Contents() == old(Contents())[len..]
      ensures Metered() == Apply(old(Metered()), Op.Consume(len))
    {
      hide RoomedMeter, PreparedMeter, Prepared;
      b := b + len;
      consumed := consumed + len;
      if e - b == 0 {
        Clear();
      }
    }

    /** std::swap of every field, and exp_ back. */
    method SwapStorage(other: Buffer)
      requires Valid() && other.Valid() && other != this
      modifies this, other
      ensures Valid() && other.Valid() && exp == old(exp) && other.exp == old(other.exp)
      ensures buf == old(other.buf) && other.buf == old(buf)
      ensures b == old(other.b) && e == old(other.e) && other.b == old(b) && other.e == old(e)
    {
      buf, other.buf := other.buf, buf;
      b, other.b := other.b, b;
      e, other.e := other.e, e;
      cap, other.cap := other.cap, cap;
      exp, other.exp := other.exp, exp;
      exp, other.exp := other.exp, exp;
    }

    /** Takes the bytes of other behind its own: by swapping storage when empty. */
    method Absorb(other: Buffer)
      requires Valid() && other.Valid()
      requires other != this ==> Repr() !! other.Repr()
      modifies Repr(), other.Repr()
      ensures Valid() && other.Valid()
      ensures fresh(Repr() + other.Repr() - old(Repr() + other.Repr()))
      ensures exp == old(exp) && other.exp == old(other.exp)
      ensures if other == this then Contents() == old(Contents())
              else && Contents() == old(Contents()) + old(other.Contents())
                   && other.Contents() == []
                   && Repr() !! other.Repr()
    {
      if other != this {
        if e - b == 0 {
          SwapStorage(other);
        } else {
          TakeBytes(other);
        }
      }
    }

    /** Copies the bytes of other behind its own and empties other. */
    method TakeBytes(other: Buffer)
      requires Valid() && other.Valid() && other != this && Repr() !! other.Repr()
      modifies Repr(), other
      ensures Valid() && other.Valid() && Repr() !! other.Repr() && other.Repr() == {other}
      ensures fresh(Repr() - old(Repr()))
      ensures exp == old(exp) && other.exp == old(other.exp)
      ensures Contents() == old(Contents()) + old(other.Contents()) && other.Contents() == []
    {
      hide Apply, Allowed;
      var bytes := if other.buf == null then [] else other.buf[other.b..other.e];
      Append(bytes);
      other.Clear();
    }
  }
}
