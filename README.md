# SeaHorn transition relation database, modelled in Dafny

SeaHorn flattens a procedure's control-flow graph into a transition system over
cutpoints. It records the result in `seahorn::TransRelationDB`. The database holds two things:

- `m_locations`: an ordered vector of location terms. `registerLocation` appends to it.
- `m_transitions`: a `std::map` from a guard term to a vector of value terms. `addTransition` fills it.
  `getTransitions` returns a copy of it.

The model has three modules:

- `TransitionMap` (`TransitionMap.dfy`) defines `std::map::insert` on a Dafny `map`.
  The call adds a key only when it is absent. A key already present keeps its first vector.
  The module also proves the consequences: idempotence, commutation on distinct keys, and order
  dependence on the same key.
- `TransRelation` (`TransRelation.dfy`) holds the class `TransRelationDB`. Its fields are a
  `seq<Expr>` and a `map<Expr, seq<Expr>>`, and its methods say exactly what each field holds
  afterwards. The module also has the database content as a value (`DbState`), the effect of
  one call (`Apply`), and lemmas about single calls.
  Each method's `Contents() == Apply(old(Contents()), …)` ties the class to `Apply`.
- `History` (`History.dfy`) replays any sequence of calls. It proves what the database holds
  afterwards:
  - the registered locations, in call order, with repeats kept;
  - for each guard, the vector of the first `addTransition` call that named it.

`Expr`, the system's hash-consed term type, is a type parameter with equality.

A guard that is already present does not get a second vector: there is no
multimap behaviour. `std::map::insert` keeps the first vector and silently drops
the new one. So two `addTransition` calls give different databases depending on
their order exactly when they name the same fresh guard with different vectors.
`TransRelation.AddTransitionOrder` states this as an if-and-only-if, and
`TransitionMap.InsertOrderMattersOnSameKey` proves the map-level half.

## Model

| member | source | states |
|---|---|---|
| TransitionMap.InsertIfAbsent | lib/seahorn/TransRelationDB.cc:15-17 | `std::map::insert`: the key set gains exactly the new key. Every existing key keeps its vector. An absent key gets the inserted vector. |
| TransitionMap.InsertPresentKeepsMap | lib/seahorn/TransRelationDB.cc:15-17 | Inserting a guard that is already a key leaves the whole map unchanged. |
| TransitionMap.InsertAbsentAddsEntry | lib/seahorn/TransRelationDB.cc:15-17 | Inserting an absent guard adds exactly that entry, and the map grows by one. |
| TransitionMap.InsertIdempotent | lib/seahorn/TransRelationDB.cc:15-17 | Two identical inserts leave the same map as one. |
| TransitionMap.FirstInsertWins | lib/seahorn/TransRelationDB.cc:15-17 | After two inserts of one guard, the map holds the first vector, whatever the second was. |
| TransitionMap.InsertCommutesOnDistinctKeys | lib/seahorn/TransRelationDB.cc:15-17 | Inserts of two distinct guards commute. |
| TransitionMap.InsertOrderMattersOnSameKey | lib/seahorn/TransRelationDB.cc:15-17 | Inserts of one guard with two different vectors do not commute, and the earlier one is kept. |
| TransRelation.RegisterLocationGrowsByOne | lib/seahorn/TransRelationDB.cc:11-13 | registerLocation adds exactly one location, at the end, and keeps the prefix. The deduplicated location set only gains `loc`. The set is unchanged when `loc` was already registered, while the list still grows. |
| TransRelation.OperationsTouchOneField | lib/seahorn/TransRelationDB.cc:11-17 | registerLocation leaves the transition map unchanged. addTransition leaves the location list unchanged. |
| TransRelation.AddTransitionIdempotent | lib/seahorn/TransRelationDB.cc:15-17 | Calling addTransition twice with the same arguments gives the same database as calling it once. |
| TransRelation.AddTransitionOrder | lib/seahorn/TransRelationDB.cc:15-17 | Two addTransition calls give the same database in either order if and only if their guards differ, the guard is already a key, or the vectors are equal. When a fresh guard is named twice, the first vector is kept. |
| TransRelation.Apply | lib/seahorn/TransRelationDB.cc:11-17 | The effect of one registerLocation or addTransition call on the database content. The class methods' `Contents() == Apply(old(Contents()), …)` ensures tie it to them. |
| TransRelation.Empty | include/seahorn/TransRelationDB.hh:26 | The content of a freshly constructed database. The constructor's `Contents() == Empty()` ensures ties it to the class. |
| TransRelation.TransRelationDB.constructor | include/seahorn/TransRelationDB.hh:26 | A new database has no locations and no transitions. |
| TransRelation.TransRelationDB.RegisterLocation | lib/seahorn/TransRelationDB.cc:11-13 | The locations become the old list plus `loc`, with no duplicate check. The list grows by exactly one, and the transitions are unchanged. |
| TransRelation.TransRelationDB.AddTransition | lib/seahorn/TransRelationDB.cc:15-17 | A new guard makes the map the old map plus `condition ↦ vals`. A guard already present leaves the map unchanged. Either way the key set gains `condition`, every other key keeps its vector, and the locations are unchanged. |
| TransRelation.TransRelationDB.GetTransitions | include/seahorn/TransRelationDB.hh:32-34 | Returns a map equal to the current table. The method has no `modifies` clause, so it changes neither field. |
| TransRelation.SnapshotIsACopy | include/seahorn/TransRelationDB.hh:32-34 | A snapshot taken before an addTransition call still equals the old table afterwards. The database moves on to the insert of the new entry. |
| TransRelation.DuplicateCalls | lib/seahorn/TransRelationDB.cc:11-17 | On a fresh database, registering one location twice lists it twice. Adding one guard twice keeps only the first vector. |
| History.ReplayLocations | lib/seahorn/TransRelationDB.cc:11-13 | After any call sequence, the locations are the old ones followed by every registered location, in call order. |
| History.ReplayTransitions | lib/seahorn/TransRelationDB.cc:15-17 | After any call sequence, a guard is a key exactly when it was one before or some call named it. An old entry keeps its vector. A new entry holds the vector of the first call that named the guard. |
| History.ReplayFromEmpty | include/seahorn/TransRelationDB.hh:62-64 | From a fresh database, the table maps exactly the guards some call named, each to its first call's vector. The locations are the registered ones in order, so each guard has one vector. |
| History.ReplaySnoc | lib/seahorn/TransRelationDB.cc:11-17 | Replaying one more call applies that call to the state the earlier calls left. |
| History.PerformCalls | lib/seahorn/TransRelationDB.cc:11-17 | Making a sequence of registerLocation/addTransition calls on a database object leaves it as `Replay` of those calls on its old content. So the replay lemmas describe real sequences of calls on the object. |
| History.LaterDuplicateIsDropped | lib/seahorn/TransRelationDB.cc:15-17 | An addTransition call whose guard is already present, or was named earlier, has no effect on the final database. |

A guard has at most one value vector at any time (include/seahorn/TransRelationDB.hh:64). This
follows from the type: the field is a Dafny `map`, not a multimap.

## Left out

- `m_efac`: the constructor stores the expression factory reference, but no modelled operation uses it. The constructor therefore takes no argument.
- `loadZSolver`: it only prints the transitions and locations to standard output. Its solver call is commented out, so it is I/O only.
- `operator<<`: its body is commented out. It is declared to return `llvm::raw_fd_ostream&` but has no `return` statement (lib/seahorn/TransRelationDB.cc:19-30), so calling it is undefined behaviour. There is nothing defined to model.
- Key order: `std::map` iterates its keys in `Expr` pointer order. Only iteration order depends on this, so the model uses an unordered `map`.
- `VmtWrite`, `VCGen`, `BvFlatLargeHornifyFunction`, `BvFlatSmallHornifyFunction`, `marshal_yices`: these are pass registration, SMT-LIB output, a foreign solver binding, or declarations without visible bodies. None is part of this model.
