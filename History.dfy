/**
 What a database holds after any sequence of calls. The locations are the
 registered ones in call order, repeats included; each guard maps to the
 vector of the FIRST addTransition call that named it, and later calls
 with that guard are dropped.
 */
module History {
  import opened TransitionMap
  import opened TransRelation

  datatype Option<T> = None | Some(value: T)

  /** The content after the calls `ops`, made in order, starting from `s`. */
  function Replay<Expr>(s: DbState<Expr>, ops: seq<Op<Expr>>): DbState<Expr>
    decreases |ops|
  {
    if ops == [] then s else Replay(Apply(s, ops[0]), ops[1..])
  }

  /** The arguments of the registerLocation calls in `ops`, in order. */
  function Registered<Expr>(ops: seq<Op<Expr>>): seq<Expr>
  {
    if ops == [] then []
    else (if ops[0].RegisterLocation? then [ops[0].loc] else []) + Registered(ops[1..])
  }

  /** The vector passed by the first addTransition call in `ops` whose guard is `guard`, if any. */
  ghost function FirstValues<Expr>(ops: seq<Op<Expr>>, guard: Expr): Option<seq<Expr>>
  {
    if ops == [] then None
    else if ops[0].AddTransition? && ops[0].condition == guard then Some(ops[0].vals)
    else FirstValues(ops[1..], guard)
  }

  /** The replayed locations are the old ones followed by every registered location, repeats kept. */
  lemma {:induction false} ReplayLocations<Expr>(s: DbState<Expr>, ops: seq<Op<Expr>>)
    ensures Replay(s, ops).locations == s.locations + Registered(ops)
    decreases |ops|
  {
    if ops != [] {
      ReplayLocations(Apply(s, ops[0]), ops[1..]);
      match ops[0]
      case RegisterLocation(loc) =>
        assert (s.locations + [loc]) + Registered(ops[1..]) == s.locations + ([loc] + Registered(ops[1..]));
      case AddTransition(_, _) =>
        assert [] + Registered(ops[1..]) == Registered(ops[1..]);
    }
  }

  /**
   After the calls `ops`, `guard` is a key exactly when it was one before or
   some call added it; an old entry keeps its vector, and a new one holds
   the vector of the first call that named it.
   */
  lemma {:induction false} ReplayTransitions<Expr>(s: DbState<Expr>, ops: seq<Op<Expr>>, guard: Expr)
    ensures guard in Replay(s, ops).transitions <==> guard in s.transitions || FirstValues(ops, guard).Some?
    ensures guard in s.transitions ==> Replay(s, ops).transitions[guard] == s.transitions[guard]
    ensures guard !in s.transitions && FirstValues(ops, guard).Some? ==>
      Replay(s, ops).transitions[guard] == FirstValues(ops, guard).value
    decreases |ops|
  {
    if ops != [] {
      ReplayTransitions(Apply(s, ops[0]), ops[1..], guard);
    }
  }

  /**
   From a freshly constructed database, the table maps exactly the guards
   some call named, each to the vector of its first call, and the locations
   are the registered ones in call order.
   */
  lemma ReplayFromEmpty<Expr>(ops: seq<Op<Expr>>, guard: Expr)
    ensures Replay(Empty(), ops).locations == Registered(ops)
    ensures guard in Replay(Empty(), ops).transitions <==> FirstValues(ops, guard).Some?
    ensures FirstValues(ops, guard).Some? ==>
      Replay(Empty(), ops).transitions[guard] == FirstValues(ops, guard).value
  {
    ReplayLocations(Empty(), ops);
    ReplayTransitions(Empty(), ops, guard);
  }

  /**
   An addTransition call whose guard is already a key, or was named by an
   earlier call, has no effect: the call sequence without it leaves the same
   database.
   */
  lemma {:induction false} LaterDuplicateIsDropped<Expr>(s: DbState<Expr>, pre: seq<Op<Expr>>, c: Expr, vals: seq<Expr>, post: seq<Op<Expr>>)
    requires c in s.transitions || FirstValues(pre, c).Some?
    ensures Replay(s, pre + [AddTransition(c, vals)] + post) == Replay(s, pre + post)
    decreases |pre|
  {
    if pre == [] {
      var ops := pre + [AddTransition(c, vals)] + post;
      assert ops[0] == AddTransition(c, vals) && ops[1..] == post;
      InsertPresentKeepsMap(s.transitions, c, vals);
      assert Apply(s, ops[0]) == s;
      assert pre + post == post;
    } else {
      var s1 := Apply(s, pre[0]);
      assert c in s1.transitions || FirstValues(pre[1..], c).Some?;
      LaterDuplicateIsDropped(s1, pre[1..], c, vals, post);
      assert (pre + [AddTransition(c, vals)] + post)[1..] == pre[1..] + [AddTransition(c, vals)] + post;
      assert (pre + post)[1..] == pre[1..] + post;
    }
  }

  /** Replaying one more call applies it to the state the earlier calls left. */
  lemma {:induction false} ReplaySnoc<Expr>(s: DbState<Expr>, ops: seq<Op<Expr>>, op: Op<Expr>)
    ensures Replay(s, ops + [op]) == Apply(Replay(s, ops), op)
    decreases |ops|
  {
    if ops != [] {
      assert (ops + [op])[1..] == ops[1..] + [op];
      ReplaySnoc(Apply(s, ops[0]), ops[1..], op);
    }
  }

  /**
   Makes the calls `ops` on `db`, in order, as the flattening passes do while
   they encode a procedure; the database ends as `Replay` says.
   */
  method PerformCalls<Expr(==)>(db: TransRelationDB<Expr>, ops: seq<Op<Expr>>)
    modifies db
    ensures db.Contents() == Replay(old(db.Contents()), ops)
  {
    var i := 0;
    while i < |ops|
      invariant 0 <= i <= |ops|
      invariant db.Contents() == Replay(old(db.Contents()), ops[..i])
    {
      ReplaySnoc(old(db.Contents()), ops[..i], ops[i]);
      assert ops[..i + 1] == ops[..i] + [ops[i]];
      match ops[i] {
        case RegisterLocation(loc) => db.RegisterLocation(loc);
        case AddTransition(c, vals) => db.AddTransition(c, vals);
      }
      i := i + 1;
    }
    assert ops[..|ops|] == ops;
  }
}
