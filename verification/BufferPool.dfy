/** Several buffers used together: every interleaving of their operations behaves like the
    same operations on independent byte sequences, and no storage is ever shared. */
module BufferPool {
  import opened Buffers

  /** What a buffer stands for: its bytes and its exp_. */
  datatype Queue = Queue(bytes: seq<Byte>, exp: nat)

  datatype PoolOp =
    | Append(i: nat, p: seq<Byte>)
    | Consume(i: nat, n: nat)
    | Clear(i: nat)
    | Reserve(i: nat, n: nat)
    | Prepare(i: nat)
    | Suggest(i: nat, exp: nat)
    | Assign(i: nat, j: nat)
    | Absorb(i: nat, j: nat)

  /** The calls the class is meant for: existing buffers, no more consumed than there is, and
      no self-assignment. */
  predicate Meant(qs: seq<Queue>, op: PoolOp) {
    && op.i < |qs|
    && (op.Consume? ==> op.n <= |qs[op.i].bytes|)
    && (op.Assign? ==> op.j < |qs| && op.i != op.j)
    && (op.Absorb? ==> op.j < |qs|)
  }

  function Effect(qs: seq<Queue>, op: PoolOp): (r: seq<Queue>)
    requires Meant(qs, op)
    ensures |r| == |qs|
  {
    var q := qs[op.i];
    match op
    case Append(i, p) => qs[i := q.(bytes := q.bytes + p)]
    case Consume(i, n) => qs[i := q.(bytes := q.bytes[n..])]
    case Clear(i) => qs[i := q.(bytes := [])]
    case Reserve(_, _) => qs
    case Prepare(_) => qs
    case Suggest(i, exp) => qs[i := q.(exp := exp)]
    case Assign(i, j) => qs[i := qs[j]]
    case Absorb(i, j) =>
      if i == j then qs
      else qs[i := q.(bytes := q.bytes + qs[j].bytes)][j := qs[j].(bytes := [])]
  }

  /** Operations outside Meant do not occur. */
  function Effects(qs: seq<Queue>, ops: seq<PoolOp>): (r: seq<Queue>)
    ensures |r| == |qs|
    decreases |ops|
  {
    if ops == [] then qs
    else Effects(if Meant(qs, ops[0]) then Effect(qs, ops[0]) else qs, ops[1..])
  }

  function Total(qs: seq<Queue>): nat {
    if qs == [] then 0 else |qs[0].bytes| + Total(qs[1..])
  }

  lemma {:induction false} TotalAt(qs: seq<Queue>, i: nat, q: Queue)
    requires i < |qs|
    ensures Total(qs[i := q]) == Total(qs) - |qs[i].bytes| + |q.bytes|
  {
    if i == 0 {
      assert qs[0 := q][1..] == qs[1..];
    } else {
      assert qs[i := q][1..] == qs[1..][i - 1 := q];
      TotalAt(qs[1..], i - 1, q);
    }
  }

  /** absorb neither loses nor duplicates a byte, and each side keeps its own exp_. */
  lemma AbsorbConserves(qs: seq<Queue>, i: nat, j: nat)
    requires i < |qs| && j < |qs|
    ensures var r := Effect(qs, Absorb(i, j));
            && Total(r) == Total(qs)
            && r[i].exp == qs[i].exp && r[j].exp == qs[j].exp
            && (i != j ==> r[i].bytes == qs[i].bytes + qs[j].bytes && r[j].bytes == [])
  {
    if i != j {
      var q := qs[i].(bytes := qs[i].bytes + qs[j].bytes);
      TotalAt(qs, i, q);
      TotalAt(qs[i := q], j, qs[j].(bytes := []));
    }
  }

  ghost predicate Separate(bufs: seq<Buffer>)
    reads bufs
  {
    && (forall i :: 0 <= i < |bufs| ==> bufs[i].Valid())
    && (forall i, j :: 0 <= i < j < |bufs| ==> bufs[i].Repr() !! bufs[j].Repr())
  }

  ghost function PoolRepr(bufs: seq<Buffer>): set<object>
    reads bufs
  {
    set i, o | 0 <= i < |bufs| && o in bufs[i].Repr() :: o
  }

  ghost predicate Stand(bufs: seq<Buffer>, qs: seq<Queue>)
    requires Separate(bufs)
    reads PoolRepr(bufs), bufs
  {
    && |bufs| == |qs|
    && forall i :: 0 <= i < |bufs| ==> bufs[i].Contents() == qs[i].bytes && bufs[i].exp == qs[i].exp
  }

  lemma ReprInPool(bufs: seq<Buffer>, i: nat)
    requires i < |bufs|
    ensures bufs[i].Repr() <= PoolRepr(bufs)
  {
  }

  /** What an operation on the buffers at i and j leaves alone. */
  twostate predicate OthersUntouched(bufs: seq<Buffer>, i: nat, j: nat)
    reads *
  {
    forall k :: 0 <= k < |bufs| && k != i && k != j ==>
      unchanged(bufs[k]) && (bufs[k].buf != null ==> unchanged(bufs[k].buf))
  }

  /** The touched buffers are valid, apart from each other and grew only into new storage. */
  twostate predicate WellTouched(bufs: seq<Buffer>, i: nat, j: nat)
    requires i < |bufs| && j < |bufs|
    reads bufs
  {
    && bufs[i].Valid() && bufs[j].Valid()
    && (i != j ==> bufs[i].Repr() !! bufs[j].Repr())
    && fresh(bufs[i].Repr() + bufs[j].Repr() - old(bufs[i].Repr() + bufs[j].Repr()))
  }

  /** The other buffer an operation names, if any. */
  function Other(op: PoolOp): nat {
    if op.Absorb? || op.Assign? then op.j else op.i
  }

  method Perform(bufs: seq<Buffer>, op: PoolOp, ghost qs: seq<Queue>)
    requires Separate(bufs) && |bufs| == |qs| && Stand(bufs, qs) && Meant(qs, op)
    modifies PoolRepr(bufs)
    ensures Separate(bufs) && fresh(PoolRepr(bufs) - old(PoolRepr(bufs)))
    ensures Stand(bufs, Effect(qs, op))
  {
    hide Effect, PoolRepr;
    PerformApart(bufs, op, qs);
    EffectElsewhere(qs, op);
    forall k | 0 <= k < |bufs| && k != op.i && k != Other(op)
      ensures bufs[k].Contents() == qs[k].bytes && bufs[k].exp == qs[k].exp
    {
      assert old(bufs[k].Contents()) == qs[k].bytes && old(bufs[k].exp) == qs[k].exp;
    }
  }

  /** Perform, with only the touched buffers described. */
  method PerformApart(bufs: seq<Buffer>, op: PoolOp, ghost qs: seq<Queue>)
    requires Separate(bufs) && |bufs| == |qs| && Stand(bufs, qs) && Meant(qs, op)
    modifies PoolRepr(bufs)
    ensures Separate(bufs) && fresh(PoolRepr(bufs) - old(PoolRepr(bufs)))
    ensures OthersUntouched(bufs, op.i, Other(op)) && Reached(bufs, op, qs)
  {
    hide Stand, Reached;
    ghost var i, j := op.i, Other(op);
    ReprInPool(bufs, i);
    ReprInPool(bufs, j);
    PerformTouched(bufs, op, qs);
    forall o | o in PoolRepr(bufs) && o !in old(PoolRepr(bufs)) ensures fresh(o) {
      var k :| 0 <= k < |bufs| && o in bufs[k].Repr();
      assert o !in old(bufs[k].Repr()) && o !in old(bufs[i].Repr()) && o !in old(bufs[j].Repr());
    }
  }

  /** The buffers that op names hold what it says. */
  ghost predicate Reached(bufs: seq<Buffer>, op: PoolOp, qs: seq<Queue>)
    requires Separate(bufs) && Meant(qs, op) && |bufs| == |qs|
    reads PoolRepr(bufs), bufs
  {
    var i, j := op.i, Other(op);
    && Queue(bufs[i].Contents(), bufs[i].exp) == Effect(qs, op)[i]
    && Queue(bufs[j].Contents(), bufs[j].exp) == Effect(qs, op)[j]
  }

  method PerformTouched(bufs: seq<Buffer>, op: PoolOp, ghost qs: seq<Queue>)
    requires Separate(bufs) && |bufs| == |qs| && Stand(bufs, qs) && Meant(qs, op)
    modifies bufs[op.i].Repr(), bufs[Other(op)].Repr()
    ensures WellTouched(bufs, op.i, Other(op)) && OthersUntouched(bufs, op.i, Other(op))
    ensures Separate(bufs) && Reached(bufs, op, qs)
  {
    hide Stand, Effect;
    if op.Absorb? || op.Assign? {
      PerformPair(bufs, op, qs);
    } else {
      PerformOne(bufs, op, qs);
    }
    forall k, l | 0 <= k < l < |bufs| ensures bufs[k].Repr() !! bufs[l].Repr() {
      assert old(bufs[k].Repr() !! bufs[l].Repr());
    }
  }

  lemma EffectElsewhere(qs: seq<Queue>, op: PoolOp)
    requires Meant(qs, op)
    ensures forall k :: 0 <= k < |qs| && k != op.i && k != Other(op) ==>
              Effect(qs, op)[k] == qs[k]
  {
  }

  method PerformPair(bufs: seq<Buffer>, op: PoolOp, ghost qs: seq<Queue>)
    requires Separate(bufs) && Stand(bufs, qs) && Meant(qs, op) && (op.Absorb? || op.Assign?)
    modifies bufs[op.i].Repr(), bufs[op.j].Repr()
    ensures WellTouched(bufs, op.i, op.j) && OthersUntouched(bufs, op.i, op.j)
    ensures Queue(bufs[op.i].Contents(), bufs[op.i].exp) == Effect(qs, op)[op.i]
    ensures Queue(bufs[op.j].Contents(), bufs[op.j].exp) == Effect(qs, op)[op.j]
  {
    hide Effect;
    PerformBoth(bufs[op.i], bufs[op.j], op, qs);
  }

  /** absorb or operator=, on the two buffers alone. */
  method PerformBoth(x: Buffer, y: Buffer, op: PoolOp, ghost qs: seq<Queue>)
    requires x.Valid() && y.Valid() && Meant(qs, op) && (op.Absorb? || op.Assign?)
    requires if op.i == op.j then x == y else x.Repr() !! y.Repr()
    requires Queue(x.Contents(), x.exp) == qs[op.i] && Queue(y.Contents(), y.exp) == qs[op.j]
    modifies x.Repr(), y.Repr()
    ensures x.Valid() && y.Valid() && (op.i != op.j ==> x.Repr() !! y.Repr())
    ensures fresh(x.Repr() + y.Repr() - old(x.Repr() + y.Repr()))
    ensures Queue(x.Contents(), x.exp) == Effect(qs, op)[op.i]
    ensures Queue(y.Contents(), y.exp) == Effect(qs, op)[op.j]
  {
    if op.Absorb? {
      x.Absorb(y);
    } else {
      x.Assign(y);
    }
  }

  method PerformOne(bufs: seq<Buffer>, op: PoolOp, ghost qs: seq<Queue>)
    requires Separate(bufs) && Stand(bufs, qs) && Meant(qs, op) && !op.Absorb? && !op.Assign?
    modifies bufs[op.i].Repr()
    ensures WellTouched(bufs, op.i, op.i) && OthersUntouched(bufs, op.i, op.i)
    ensures Queue(bufs[op.i].Contents(), bufs[op.i].exp) == Effect(qs, op)[op.i]
  {
    hide Effect;
    PerformOn(bufs[op.i], op, qs);
  }

  method PerformOn(buf: Buffer, op: PoolOp, ghost qs: seq<Queue>)
    requires buf.Valid() && Meant(qs, op) && !op.Absorb? && !op.Assign?
    requires Queue(buf.Contents(), buf.exp) == qs[op.i]
    modifies buf.Repr()
    ensures buf.Valid() && fresh(buf.Repr() - old(buf.Repr()))
    ensures Queue(buf.Contents(), buf.exp) == Effect(qs, op)[op.i]
  {
    match op {
      case Append(_, p) => buf.Append(p);
      case Consume(_, n) => buf.Consume(n);
      case Clear(_) => buf.Clear();
      case Reserve(_, n) => buf.MakeRoom(n);
      case Prepare(_) => buf.Prepare();
      case Suggest(_, exp) => buf.SetSuggestSize(exp);
    }
  }

  method PerformIfMeant(bufs: seq<Buffer>, op: PoolOp, ghost qs: seq<Queue>)
    requires Separate(bufs) && Stand(bufs, qs)
    modifies PoolRepr(bufs)
    ensures Separate(bufs) && fresh(PoolRepr(bufs) - old(PoolRepr(bufs)))
    ensures Stand(bufs, if Meant(qs, op) then Effect(qs, op) else qs)
  {
    hide PoolRepr, Meant, Effect;
    MeantExactly(bufs, op, qs);
    if && op.i < |bufs|
       && (op.Consume? ==> op.n <= bufs[op.i].e - bufs[op.i].b)
       && (op.Assign? ==> op.j < |bufs| && op.i != op.j)
       && (op.Absorb? ==> op.j < |bufs|)
    {
      Perform(bufs, op, qs);
    }
  }

  /** The refinement over every interleaving of operations on any number of buffers. */
  method PerformAll(bufs: seq<Buffer>, ops: seq<PoolOp>, ghost qs: seq<Queue>)
    requires Separate(bufs) && Stand(bufs, qs)
    modifies PoolRepr(bufs)
    ensures Separate(bufs) && fresh(PoolRepr(bufs) - old(PoolRepr(bufs)))
    ensures Stand(bufs, Effects(qs, ops))
  {
    hide PoolRepr, Meant, Effect, Stand, Separate;
    var k := 0;
    ghost var now := qs;
    while k < |ops|
      invariant 0 <= k <= |ops| && Separate(bufs) && Stand(bufs, now)
      invariant forall o :: o in PoolRepr(bufs) && o !in old(PoolRepr(bufs)) ==> fresh(o)
      invariant Effects(now, ops[k..]) == Effects(qs, ops)
    {
      assert ops[k..][0] == ops[k] && ops[k..][1..] == ops[k + 1..];
      ghost var repr := PoolRepr(bufs);
      label before:
      PerformIfMeant(bufs, ops[k], now);
      forall o | o in PoolRepr(bufs) && o !in old(PoolRepr(bufs)) ensures fresh(o) {
        assert o !in repr ==> o in PoolRepr(bufs) - repr && fresh@before(o);
      }
      now := if Meant(now, ops[k]) then Effect(now, ops[k]) else now;
      k := k + 1;
    }
  }

  lemma MeantExactly(bufs: seq<Buffer>, op: PoolOp, qs: seq<Queue>)
    requires Separate(bufs) && Stand(bufs, qs)
    ensures Meant(qs, op) <==>
            && op.i < |bufs|
            && (op.Consume? ==> op.n <= bufs[op.i].e - bufs[op.i].b)
            && (op.Assign? ==> op.j < |bufs| && op.i != op.j)
            && (op.Absorb? ==> op.j < |bufs|)
  {
  }
}
