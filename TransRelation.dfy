/**
 The transition relation database of one procedure encoding: the ordered
 list of registered locations and the table that maps each guard to the
 vector of value terms it enables. Terms (`Expr` in the system) are an
 opaque type with equality; the expression factory the database keeps a
 reference to is never used by these operations and is not modelled.
 */
module TransRelation {
  import opened TransitionMap

  /** The whole content of a database, as a value. */
  datatype DbState<Expr> = DbState(locations: seq<Expr>, transitions: map<Expr, seq<Expr>>)

  /** The content of a freshly constructed database. */
  function Empty<Expr>(): DbState<Expr>
  {
    DbState([], map[])
  }

  /** One call on the database that changes its content. */
  datatype Op<Expr> =
    | RegisterLocation(loc: Expr)
    | AddTransition(condition: Expr, vals: seq<Expr>)

  /** The content after one call. */
  function Apply<Expr>(s: DbState<Expr>, op: Op<Expr>): DbState<Expr>
  {
    match op
    case RegisterLocation(loc) => DbState(s.locations + [loc], s.transitions)
    case AddTransition(c, vals) => DbState(s.locations, InsertIfAbsent(s.transitions, c, vals))
  }

  /** The locations, deduplicated: how consumers are to read the location list. */
  function LocationSet<Expr>(s: DbState<Expr>): set<Expr>
  {
    set l | l in s.locations
  }

  /**
   Registering a location always adds one entry at the end, even when the
   location is already there; the deduplicated set only gains `loc`, so a
   repeated registration leaves it unchanged.
   */
  lemma RegisterLocationGrowsByOne<Expr>(s: DbState<Expr>, loc: Expr)
    ensures |Apply(s, RegisterLocation(loc)).locations| == |s.locations| + 1
    ensures Apply(s, RegisterLocation(loc)).locations[|s.locations|] == loc
    ensures Apply(s, RegisterLocation(loc)).locations[..|s.locations|] == s.locations
    ensures LocationSet(Apply(s, RegisterLocation(loc))) == LocationSet(s) + {loc}
    ensures loc in s.locations ==> LocationSet(Apply(s, RegisterLocation(loc))) == LocationSet(s)
  {
  }

  /** Adding a transition never touches the locations, and registering a location never touches the table. */
  lemma OperationsTouchOneField<Expr>(s: DbState<Expr>, op: Op<Expr>)
    ensures op.RegisterLocation? ==> Apply(s, op).transitions == s.transitions
    ensures op.AddTransition? ==> Apply(s, op).locations == s.locations
  {
  }

  /** Repeating an addTransition call leaves the database as the first call left it. */
  lemma AddTransitionIdempotent<Expr>(s: DbState<Expr>, c: Expr, vals: seq<Expr>)
    ensures Apply(Apply(s, AddTransition(c, vals)), AddTransition(c, vals)) == Apply(s, AddTransition(c, vals))
  {
    InsertIdempotent(s.transitions, c, vals);
  }

  /**
   Two addTransition calls give the same database in either order exactly
   when their guards differ, the guard is already a key, or the vectors are
   equal. When a fresh guard is named twice, the earlier call's vector is kept.
   */
  lemma AddTransitionOrder<Expr>(s: DbState<Expr>, c1: Expr, v1: seq<Expr>, c2: Expr, v2: seq<Expr>)
    ensures Apply(Apply(s, AddTransition(c1, v1)), AddTransition(c2, v2))
         == Apply(Apply(s, AddTransition(c2, v2)), AddTransition(c1, v1))
        <==> c1 != c2 || c1 in s.transitions || v1 == v2
    ensures c1 == c2 && c1 !in s.transitions ==>
      Apply(Apply(s, AddTransition(c1, v1)), AddTransition(c2, v2)).transitions[c1] == v1
  {
    if c1 != c2 {
      InsertCommutesOnDistinctKeys(s.transitions, c1, v1, c2, v2);
    } else if c1 in s.transitions {
      InsertPresentKeepsMap(s.transitions, c1, v1);
      InsertPresentKeepsMap(s.transitions, c2, v2);
    } else if v1 != v2 {
      InsertOrderMattersOnSameKey(s.transitions, c1, v1, v2);
    } else {
      FirstInsertWins(s.transitions, c1, v1, v2);
    }
  }

  /**
   `seahorn::TransRelationDB`. The fields are the location vector and the
   guard-to-values map; every method says exactly what each field holds
   afterwards and `Contents` ties that to `Apply`.
   */
  class TransRelationDB<Expr(==)> {
    var locations: seq<Expr>
    var transitions: map<Expr, seq<Expr>>

    /** The database's content as a value. */
    function Contents(): DbState<Expr>
      reads this
    {
      DbState(locations, transitions)
    }

    /** A new database holds no location and no transition. */
    constructor ()
      ensures locations == [] && transitions == map[]
      ensures Contents() == Empty()
    {
      locations := [];
      transitions := map[];
    }

    /** Appends `loc`, with no check for a location already registered. */
    method RegisterLocation(loc: Expr)
      modifies this
      ensures locations == old(locations) + [loc]
      ensures |locations| == |old(locations)| + 1
      ensures transitions == old(transitions)
      ensures Contents() == Apply(old(Contents()), Op.RegisterLocation(loc))
    {
      locations := locations + [loc];
    }

    /**
     Records `condition ↦ vals` unless `condition` is already a key, in which
     case the table is left exactly as it was.
     */
    method AddTransition(condition: Expr, vals: seq<Expr>)
      modifies this
      ensures condition !in old(transitions) ==> transitions == old(transitions)[condition := vals]
      ensures condition in old(transitions) ==> transitions == old(transitions)
      ensures transitions.Keys == old(transitions).Keys + {condition}
      ensures forall g :: g in old(transitions) ==> transitions[g] == old(transitions)[g]
      ensures locations == old(locations)
      ensures Contents() == Apply(old(Contents()), Op.AddTransition(condition, vals))
    {
      transitions := InsertIfAbsent(transitions, condition, vals);
    }

    /** A copy of the table; the database is not changed. */
    method GetTransitions() returns (snapshot: map<Expr, seq<Expr>>)
      ensures snapshot == transitions
    {
      snapshot := transitions;
    }
  }

  /**
   A snapshot taken before an addTransition call is not affected by it: it
   still equals the table as it was, while the database moves on.
   */
  method SnapshotIsACopy<Expr(==)>(db: TransRelationDB<Expr>, condition: Expr, vals: seq<Expr>)
      returns (before: map<Expr, seq<Expr>>, after: map<Expr, seq<Expr>>)
    modifies db
    ensures before == old(db.transitions)
    ensures after == db.transitions == InsertIfAbsent(before, condition, vals)
    ensures db.locations == old(db.locations)
  {
    before := db.GetTransitions();
    db.AddTransition(condition, vals);
    after := db.GetTransitions();
  }

  /**
   On a fresh database, two addTransition calls with the same guard leave
   only the first vector, and two registrations of one location leave it
   listed twice.
   */
  method DuplicateCalls<Expr(==)>(loc: Expr, condition: Expr, first: seq<Expr>, second: seq<Expr>)
      returns (locations: seq<Expr>, transitions: map<Expr, seq<Expr>>)
    ensures locations == [loc, loc]
    ensures transitions == map[condition := first]
  {
    var db := new TransRelationDB<Expr>();
    db.RegisterLocation(loc);
    db.RegisterLocation(loc);
    db.AddTransition(condition, first);
    db.AddTransition(condition, second);
    locations := db.locations;
    transitions := db.GetTransitions();
  }
}
