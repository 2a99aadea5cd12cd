/** The offsets of a Buffer and what its operations copy. */
module BufferCost {

  /** b_, e_, cap_ and exp_ of buffer.h. */
  datatype Shape = Shape(b: nat, e: nat, cap: nat, exp: nat) {
    predicate Ordered() { b <= e <= cap }
    function Size(): nat requires Ordered() { e - b }
    function Space(): nat requires Ordered() { cap - e }
  }

  function Max(x: nat, y: nat): nat { if x < y then y else x }

  function Expanded(s: Shape, len: nat): (r: Shape)
    requires s.Ordered()
    ensures r.Ordered() && r.Size() == s.Size() && r.Space() >= len
  {
    Shape(0, s.Size(), Max(s.exp, Max(2 * s.cap, s.Size() + len)), s.exp)
  }

  function HeadMoved(s: Shape): Shape
    requires s.Ordered()
  {
    Shape(0, s.Size(), s.cap, s.exp)
  }

  datatype Room = Fits | MoveHead | Expand

  /** Which branch makeRoom(len) takes. */
  function Choice(s: Shape, len: nat): Room
    requires s.Ordered()
  {
    if s.e + len <= s.cap then Fits
    else if s.Size() + len < s.cap / 2 then MoveHead
    else Expand
  }

  function Roomed(s: Shape, len: nat): (r: Shape)
    requires s.Ordered()
    ensures r.Ordered() && r.Size() == s.Size() && r.Space() >= len && r.exp == s.exp
  {
    match Choice(s, len)
    case Fits => s
    case MoveHead => HeadMoved(s)
    case Expand => Expanded(s, len)
  }

  /** makeRoom() without an argument. */
  function Prepared(s: Shape): (r: Shape)
    requires s.Ordered()
    ensures r.Ordered() && r.Size() == s.Size() && r.exp == s.exp
  {
    if s.Space() < s.exp then Expanded(s, 0) else s
  }

  function Emptied(s: Shape): Shape { Shape(0, 0, 0, s.exp) }

  function Consumed(s: Shape, n: nat): Shape
    requires s.Ordered() && n <= s.Size()
  {
    if n == s.Size() then Emptied(s) else s.(b := s.b + n)
  }

  /** The source and the destination of moveHead do not overlap when makeRoom calls it. */
  lemma MoveHeadDisjoint(s: Shape, len: nat)
    requires s.Ordered() && Choice(s, len) == MoveHead
    ensures s.Size() < s.b && s.Size() + len <= s.cap
  {
  }

  /** makeRoom(len) keeps the storage if and only if the bytes fit behind end() or would fill less
      than half of it; and it never gives storage up. */
  lemma KeepsCapacity(s: Shape, len: nat)
    requires s.Ordered()
    ensures Roomed(s, len).cap == s.cap <==> s.e + len <= s.cap || s.Size() + len < s.cap / 2
    ensures Roomed(s, len).cap >= s.cap
    ensures s.e + len > s.cap ==> Roomed(s, len).b == 0
  {
  }

  /** expand allocates no more than it has to: a suggested size, twice the capacity and the bytes. */
  lemma ExpandsToLeast(s: Shape, len: nat, cap: nat)
    requires s.Ordered()
    ensures cap >= Expanded(s, len).cap <==> cap >= s.exp && cap >= 2 * s.cap && cap >= s.Size() + len
  {
  }

  /** The room the read loop asks for: never none, and a whole exp_ exactly when a capacity
      below exp_ does not get in the way. */
  lemma PreparedHasRoom(s: Shape)
    requires s.Ordered() && s.exp > 0
    ensures Prepared(s).Space() > 0
    ensures Prepared(s).Space() >= s.exp <==>
            s.cap == 0 || s.cap >= s.exp || s.Size() == 0 || 2 * s.cap >= s.Size() + s.exp
  {
  }

  // ----- amortised copying -----

  /** ReadInto is makeRoom without an argument, then n bytes stored by read and taken in. */
  datatype Op = Append(len: nat) | Consume(len: nat) | Clear | ReadInto(len: nat)

  /** A shape with what has happened to it so far. */
  datatype Meter = Meter(shape: Shape, stored: nat, consumed: nat, expandCopied: nat, headCopied: nat)

  predicate Allowed(s: Shape, op: Op) {
    && s.Ordered()
    && match op
       case Append(_) => true
       case Consume(n) => n <= s.Size()
       case Clear => true
       case ReadInto(n) => n <= Prepared(s).Space()
  }

  function CountExpand(m: Meter, len: nat): Meter
    requires m.shape.Ordered()
  {
    m.(expandCopied := m.expandCopied + m.shape.Size(), shape := Expanded(m.shape, len))
  }

  function CountHead(m: Meter): Meter
    requires m.shape.Ordered()
  {
    m.(headCopied := m.headCopied + m.shape.Size(), shape := HeadMoved(m.shape))
  }

  function CountStored(m: Meter, n: nat): Meter {
    m.(shape := m.shape.(e := m.shape.e + n), stored := m.stored + n)
  }

  /** makeRoom(len) with its copying. */
  function RoomedMeter(m: Meter, len: nat): (r: Meter)
    requires m.shape.Ordered()
    ensures r.shape == Roomed(m.shape, len)
  {
    match Choice(m.shape, len)
    case Fits => m
    case MoveHead => CountHead(m)
    case Expand => CountExpand(m, len)
  }

  /** makeRoom() with its copying. */
  function PreparedMeter(m: Meter): (r: Meter)
    requires m.shape.Ordered()
    ensures r.shape == Prepared(m.shape)
  {
    if m.shape.Space() < m.shape.exp then CountExpand(m, 0) else m
  }

  function Apply(m: Meter, op: Op): (r: Meter)
    requires Allowed(m.shape, op)
    ensures r.shape.Ordered() && r.shape.exp == m.shape.exp
  {
    match op
    case Append(n) => CountStored(RoomedMeter(m, n), n)
    case Consume(n) => m.(shape := Consumed(m.shape, n), consumed := m.consumed + n)
    case Clear => m.(shape := Emptied(m.shape))
    case ReadInto(n) => CountStored(PreparedMeter(m), n)
  }

  /** Operations outside Allowed do not occur. */
  function Run(m: Meter, ops: seq<Op>): (r: Meter)
    requires m.shape.Ordered()
    ensures r.shape.Ordered()
    decreases |ops|
  {
    if ops == [] then m
    else Run(if Allowed(m.shape, ops[0]) then Apply(m, ops[0]) else m, ops[1..])
  }

  /** A shape with nothing recorded yet. */
  function Idle(s: Shape): Meter { Meter(s, 0, 0, 0, 0) }

  function New(exp: nat): Meter { Idle(Shape(0, 0, 0, exp)) }

  /** Each byte stored pays for two copies: what has been spent is covered by the bytes no
      longer behind end(), and what they leave over by the capacity gained beyond exp_. */
  ghost predicate ExpandPaid(m: Meter) {
    var s := m.shape;
    && s.e <= m.stored && m.expandCopied <= 2 * m.stored
    && (s.cap > 0 ==> s.exp <= s.cap && m.expandCopied <= 2 * (m.stored - s.e) + s.cap - s.exp)
  }

  /** Bytes dropped at the front pay for the compaction that closes the gap. */
  ghost predicate HeadPaid(m: Meter) {
    m.headCopied + m.shape.b <= m.consumed
  }

  lemma ExpandedCap(s: Shape, len: nat)
    requires s.Ordered()
    ensures var r := Expanded(s, len);
            r.e == s.Size() && r.exp == s.exp && r.cap >= s.exp && r.cap >= 2 * s.cap
  {
  }

  /** expand, made for want of room, and the n bytes stored after it. */
  lemma GrowPays(m: Meter, len: nat, n: nat)
    requires m.shape.Ordered() && ExpandPaid(m)
    requires m.shape.cap < m.shape.e + n || m.shape.cap < m.shape.e + m.shape.exp
    ensures ExpandPaid(CountStored(CountExpand(m, len), n))
  {
    ExpandedCap(m.shape, len);
    hide Expanded;
  }

  lemma ExpandPays(m: Meter, op: Op)
    requires Allowed(m.shape, op) && ExpandPaid(m)
    ensures ExpandPaid(Apply(m, op))
  {
    hide Expanded;
    if op.Append? && Choice(m.shape, op.len) == Expand {
      GrowPays(m, op.len, op.len);
      hide ExpandPaid;
    } else if op.ReadInto? && m.shape.Space() < m.shape.exp {
      GrowPays(m, 0, op.len);
      hide ExpandPaid;
    }
  }

  lemma HeadPays(m: Meter, op: Op)
    requires Allowed(m.shape, op) && HeadPaid(m)
    ensures HeadPaid(Apply(m, op))
  {
  }

  /** The capacity is at most twice the sum of the bytes ever stored and exp_. */
  ghost predicate Lean(m: Meter) {
    m.shape.e <= m.stored && m.shape.cap <= 2 * (m.stored + m.shape.exp)
  }

  lemma GrowsLean(m: Meter, len: nat, n: nat)
    requires m.shape.Ordered() && Lean(m) && len <= n
    requires m.shape.cap < m.shape.e + n || m.shape.cap < m.shape.e + m.shape.exp
    ensures Lean(CountStored(CountExpand(m, len), n))
  {
    ExpandsToLeast(m.shape, len, 2 * (m.stored + n + m.shape.exp));
    ExpandedCap(m.shape, len);
    hide Expanded;
  }

  lemma StaysLean(m: Meter, op: Op)
    requires Allowed(m.shape, op) && Lean(m)
    ensures Lean(Apply(m, op))
  {
    hide Expanded;
    if op.Append? && Choice(m.shape, op.len) == Expand {
      GrowsLean(m, op.len, op.len);
      hide Lean;
    } else if op.ReadInto? && m.shape.Space() < m.shape.exp {
      GrowsLean(m, 0, op.len);
      hide Lean;
    }
  }

  /** Over any run with a fixed exp_, the storage stays within that bound. */
  lemma {:induction false} CapacityBound(m: Meter, ops: seq<Op>)
    requires m.shape.Ordered() && Lean(m)
    ensures Lean(Run(m, ops))
    decreases |ops|
  {
    hide Apply, Lean;
    if ops != [] {
      if Allowed(m.shape, ops[0]) {
        StaysLean(m, ops[0]);
        CapacityBound(Apply(m, ops[0]), ops[1..]);
      } else {
        CapacityBound(m, ops[1..]);
      }
    }
  }

  lemma {:induction false} RunPays(m: Meter, ops: seq<Op>)
    requires m.shape.Ordered() && ExpandPaid(m) && HeadPaid(m)
    ensures ExpandPaid(Run(m, ops)) && HeadPaid(Run(m, ops))
    ensures Run(m, ops).shape.exp == m.shape.exp
    decreases |ops|
  {
    hide Apply, ExpandPaid, HeadPaid;
    if ops != [] {
      if Allowed(m.shape, ops[0]) {
        ExpandPays(m, ops[0]);
        HeadPays(m, ops[0]);
        RunPays(Apply(m, ops[0]), ops[1..]);
      } else {
        RunPays(m, ops[1..]);
      }
    }
  }

  /** Over any run of append, consume, clear and reads into the buffer, expand copies at most two
      bytes per byte stored and moveHead at most one per byte consumed. */
  lemma CopyBound(exp: nat, ops: seq<Op>)
    ensures var m := Run(New(exp), ops);
            m.expandCopied <= 2 * m.stored && m.headCopied <= m.consumed
  {
    RunPays(New(exp), ops);
  }

  /** As long as exp_ is left alone, the read loop always gets a whole exp_ of room. */
  lemma RoomAsSuggested(exp: nat, ops: seq<Op>)
    ensures Prepared(Run(New(exp), ops).shape).Space() >= exp
  {
    RunPays(New(exp), ops);
    hide Run;
  }

  /** setSuggestSize spoils that: with n bytes stored in a fresh buffer that has no more room
      than they need, a later suggestion is met if and only if it is at most n. */
  lemma RoomShort(exp: nat, n: nat, later: nat)
    requires n > 0 && n >= exp
    ensures var s := Apply(New(exp), Append(n)).shape.(exp := later);
            s.Ordered() && (Prepared(s).Space() < s.exp <==> later > n)
  {
    assert Expanded(New(exp).shape, n) == Shape(0, 0, n, exp);
  }
}
