/** Lists of statements against named tables. A statement names one table and changes only that
    one, so a program can be read table by table. */
module Programs {

  function TableIn<T>(db: map<string, T>, empty: T, name: string): T {
    if name in db then db[name] else empty
  }

  function RunTable<T, S>(exec: (T, S) -> T, t: T, stmts: seq<S>): T {
    if stmts == [] then t else exec(RunTable(exec, t, stmts[..|stmts| - 1]), stmts[|stmts| - 1])
  }

  function Run<T, S>(exec: (T, S) -> T, target: S -> string, empty: T, db: map<string, T>, stmts: seq<S>): map<string,
                     T> {
    if stmts == [] then db
    else
      var before := Run(exec, target, empty, db, stmts[..|stmts| - 1]);
      var s := stmts[|stmts| - 1];
      before[target(s) := exec(TableIn(before, empty, target(s)), s)]
  }

  /** The statements about one table, in order. */
  function On<S>(target: S -> string, stmts: seq<S>, name: string): seq<S> {
    if stmts == [] then []
    else
      var front := On(target, stmts[..|stmts| - 1], name);
      if target(stmts[|stmts| - 1]) == name then front + [stmts[|stmts| - 1]] else front
  }

  lemma {:induction false} RunTableConcat<T, S>(exec: (T, S) -> T, t: T, a: seq<S>, b: seq<S>)
    ensures RunTable(exec, t, a + b) == RunTable(exec, RunTable(exec, t, a), b)
    decreases |b|
  {
    if b == [] {
      assert a + b == a;
    } else {
      assert (a + b)[..|a + b| - 1] == a + b[..|b| - 1];
      RunTableConcat(exec, t, a, b[..|b| - 1]);
    }
  }

  lemma {:induction false} OnConcat<S>(target: S -> string, a: seq<S>, b: seq<S>, name: string)
    ensures On(target, a + b, name) == On(target, a, name) + On(target, b, name)
    decreases |b|
  {
    if b == [] {
      assert a + b == a;
    } else {
      assert (a + b)[..|a + b| - 1] == a + b[..|b| - 1];
      OnConcat(target, a, b[..|b| - 1], name);
    }
  }

  lemma {:induction false} OnAll<S>(target: S -> string, stmts: seq<S>, name: string)
    requires forall s :: s in stmts ==> target(s) == name
    ensures On(target, stmts, name) == stmts
    decreases |stmts|
  {
    if stmts != [] {
      OnAll(target, stmts[..|stmts| - 1], name);
    }
  }

  lemma {:induction false} OnNone<S>(target: S -> string, stmts: seq<S>, name: string)
    requires forall s :: s in stmts ==> target(s) != name
    ensures On(target, stmts, name) == []
    decreases |stmts|
  {
    if stmts != [] {
      OnNone(target, stmts[..|stmts| - 1], name);
    }
  }

  function Targets<S>(target: S -> string, stmts: seq<S>): set<string> {
    set i | 0 <= i < |stmts| :: target(stmts[i])
  }

  /** Each table sees exactly its own statements. */
  lemma {:induction false} Locality<T, S>(exec: (T, S) -> T, target: S -> string, empty: T, db: map<string, T>,
                                          stmts: seq<S>, name: string)
    ensures Run(exec, target, empty, db, stmts).Keys == db.Keys + Targets(target, stmts)
    ensures TableIn(Run(exec, target, empty, db, stmts), empty, name)
         == RunTable(exec, TableIn(db, empty, name), On(target, stmts, name))
    decreases |stmts|
  {
    if stmts != [] {
      var front, s := stmts[..|stmts| - 1], stmts[|stmts| - 1];
      Locality(exec, target, empty, db, front, name);
      assert Targets(target, stmts) == Targets(target, front) + {target(s)};
      var own := On(target, front, name);
      assert (own + [s])[..|own|] == own;
    }
  }

  lemma {:induction false} OnOutside<S>(target: S -> string, stmts: seq<S>, name: string)
    requires name !in Targets(target, stmts)
    ensures On(target, stmts, name) == []
  {
    forall s | s in stmts ensures target(s) != name {
      var i :| 0 <= i < |stmts| && stmts[i] == s;
    }
    OnNone(target, stmts, name);
  }

  /** The concatenation of one piece of program per part. */
  function Flat<A, S>(parts: seq<A>, piece: A -> seq<S>): seq<S> {
    if parts == [] then [] else Flat(parts[..|parts| - 1], piece) + piece(parts[|parts| - 1])
  }

  function Reversed<A>(s: seq<A>): seq<A> {
    seq(|s|, i requires 0 <= i < |s| => s[|s| - 1 - i])
  }

  lemma {:induction false} OnFlat<A, S>(target: S -> string, parts: seq<A>, piece: A -> seq<S>, nameOf: A -> string,
                                        name: string)
    requires forall i, j :: 0 <= i < j < |parts| ==> nameOf(parts[i]) != nameOf(parts[j])
    requires forall p, s :: p in parts && s in piece(p) ==> target(s) == nameOf(p)
    ensures forall i ::
              0 <= i < |parts| && nameOf(parts[i]) == name ==> On(target, Flat(parts, piece), name) == piece(parts[i])
    ensures (forall i :: 0 <= i < |parts| ==> nameOf(parts[i]) != name) ==> On(target, Flat(parts, piece), name) == []
    decreases |parts|
  {
    if parts != [] {
      var front, last := parts[..|parts| - 1], parts[|parts| - 1];
      OnFlat(target, front, piece, nameOf, name);
      OnConcat(target, Flat(front, piece), piece(last), name);
      if nameOf(last) == name {
        OnAll(target, piece(last), name);
      } else {
        OnNone(target, piece(last), name);
      }
    }
  }

  lemma {:induction false} FlatMembers<A, S>(parts: seq<A>, piece: A -> seq<S>, s: S)
    requires s in Flat(parts, piece)
    ensures exists p :: p in parts && s in piece(p)
    decreases |parts|
  {
    if s in piece(parts[|parts| - 1]) {
    } else {
      FlatMembers(parts[..|parts| - 1], piece, s);
    }
  }

  /** One statement per part. */
  lemma {:induction false} FlatSingles<A, S>(parts: seq<A>, piece: A -> seq<S>)
    requires forall p :: p in parts ==> |piece(p)| == 1
    ensures |Flat(parts, piece)| == |parts|
    ensures forall i :: 0 <= i < |parts| ==> [Flat(parts, piece)[i]] == piece(parts[i])
    decreases |parts|
  {
    if parts != [] {
      FlatSingles(parts[..|parts| - 1], piece);
    }
  }

  lemma {:induction false} FlatIsEmpty<A, S>(parts: seq<A>, piece: A -> seq<S>)
    ensures Flat(parts, piece) == [] <==> forall p :: p in parts ==> piece(p) == []
    decreases |parts|
  {
    if parts != [] {
      assert parts == parts[..|parts| - 1] + [parts[|parts| - 1]];
      FlatIsEmpty(parts[..|parts| - 1], piece);
    }
  }

  /** Programs over disjoint tables commute. */
  lemma DisjointProgramsCommute<T, S>(exec: (T, S) -> T, target: S -> string, empty: T, db: map<string, T>, a: seq<S>,
                                      b: seq<S>)
    requires Targets(target, a) !! Targets(target, b)
    ensures Run(exec, target, empty, Run(exec, target, empty, db, a), b)
         == Run(exec, target, empty, Run(exec, target, empty, db, b), a)
  {
    var ab := Run(exec, target, empty, Run(exec, target, empty, db, a), b);
    var ba := Run(exec, target, empty, Run(exec, target, empty, db, b), a);
    forall name ensures name in ab <==> name in ba ensures TableIn(ab, empty, name) == TableIn(ba, empty, name) {
      Locality(exec, target, empty, db, a, name);
      Locality(exec, target, empty, db, b, name);
      Locality(exec, target, empty, Run(exec, target, empty, db, a), b, name);
      Locality(exec, target, empty, Run(exec, target, empty, db, b), a, name);
      if name !in Targets(target, a) { OnOutside(target, a, name); }
      if name !in Targets(target, b) { OnOutside(target, b, name); }
    }
    assert forall name :: name in ab ==> ab[name] == TableIn(ab, empty, name) && ba[name] == TableIn(ba, empty, name);
  }

  lemma SameDatabase<T>(empty: T, a: map<string, T>, b: map<string, T>)
    requires a.Keys == b.Keys && forall table :: TableIn(a, empty, table) == TableIn(b, empty, table)
    ensures a == b
  {
    forall table | table in a ensures a[table] == b[table] {
      assert TableIn(a, empty, table) == TableIn(b, empty, table);
    }
  }

  /** The lists that result from running prefixes of a program, one after another. */
  function Replays<S>(stmts: seq<S>, cuts: seq<nat>): seq<S> {
    if cuts == [] then []
    else Replays(stmts, cuts[..|cuts| - 1]) + stmts[..if cuts[|cuts| - 1] < |stmts| then cuts[|cuts| - 1] else |stmts|]
  }

  lemma {:induction false} ReplaysDrawFrom<S>(stmts: seq<S>, cuts: seq<nat>)
    ensures forall s :: s in Replays(stmts, cuts) ==> s in stmts
    decreases |cuts|
  {
    if cuts != [] {
      ReplaysDrawFrom(stmts, cuts[..|cuts| - 1]);
    }
  }

  lemma {:induction false} OnMembers<S>(target: S -> string, stmts: seq<S>, name: string)
    ensures forall s :: s in On(target, stmts, name) <==> s in stmts && target(s) == name
    decreases |stmts|
  {
    if stmts != [] {
      assert stmts == stmts[..|stmts| - 1] + [stmts[|stmts| - 1]];
      OnMembers(target, stmts[..|stmts| - 1], name);
    }
  }

  lemma TargetsWithin<S>(target: S -> string, attempts: seq<S>, stmts: seq<S>)
    requires forall s :: s in attempts ==> s in stmts
    ensures Targets(target, attempts) <= Targets(target, stmts)
  {
    forall name | name in Targets(target, attempts) ensures name in Targets(target, stmts) {
      var i :| 0 <= i < |attempts| && target(attempts[i]) == name;
      assert attempts[i] in stmts;
      var j :| 0 <= j < |stmts| && stmts[j] == attempts[i];
    }
  }
}
