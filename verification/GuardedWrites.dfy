/** Folding writes that a revision guards: the newest one decides. */
module GuardedWrites {

  function Fold<S, N>(s: S, writes: seq<N>, write: (S, N) -> S): S {
    if writes == [] then s
    else write(Fold(s, writes[..|writes| - 1], write), writes[|writes| - 1])
  }

  ghost predicate Newest<N>(writes: seq<N>, revision: N -> int, w: N) {
    w in writes && forall x :: x in writes ==> revision(x) <= revision(w)
  }

  lemma {:induction false} NewestExists<N(!new)>(writes: seq<N>, revision: N -> int) returns (w: N)
    requires writes != []
    ensures Newest(writes, revision, w)
  {
    w := writes[0];
    if |writes| > 1 {
      var v := NewestExists(writes[1..], revision);
      if revision(v) > revision(w) {
        w := v;
      }
      assert forall x :: x in writes ==> x == writes[0] || x in writes[1..];
    }
  }

  /** Of two writes the newer one stands, whatever their order; equally new ones agree. */
  ghost predicate NewerStands<S, N>(s: S, write: (S, N) -> S, revision: N -> int, n: N, m: N) {
    && write(write(s, n), m) == (if revision(m) >= revision(n) then write(s, m) else write(s, n))
    && (revision(n) == revision(m) ==> write(s, n) == write(s, m))
  }

  lemma {:induction false} FoldKeepsNewest<S(!new), N(!new)>(s: S, writes: seq<N>, write: (S, N) -> S, revision: N -> int, w: N)
    requires Newest(writes, revision, w)
    requires forall n, m :: n in writes && m in writes ==> NewerStands(s, write, revision, n, m)
    ensures Fold(s, writes, write) == write(s, w)
  {
    var init, last := writes[..|writes| - 1], writes[|writes| - 1];
    if init == [] {
      assert Fold(s, init, write) == s;
      assert w == last;
    } else {
      var v := NewestExists(init, revision);
      FoldKeepsNewest(s, init, write, revision, v);
      assert v in writes && last in writes;
      assert NewerStands(s, write, revision, v, last);
      assert w in init || w == last;
      assert NewerStands(s, write, revision, v, w) && NewerStands(s, write, revision, last, w);
    }
  }

  // --- The same write to several rows of a table ---

  function WriteMany<K, S>(rows: map<K, S>, ids: set<K>, write: S -> S): map<K, S> {
    map k | k in rows :: if k in ids then write(rows[k]) else rows[k]
  }

  function Accepting<K, S>(rows: map<K, S>, ids: set<K>, accepts: S -> bool): set<K> {
    set k | k in ids && k in rows && accepts(rows[k])
  }

  /** One more row: nothing to do when it accepted the write already, else one write. */
  lemma WriteManyStep<K, S(!new)>(rows: map<K, S>, ids: set<K>, id: K, write: S -> S, accepts: S -> bool)
    requires forall s :: !accepts(s) ==> write(s) == s
    ensures var after, accepted := WriteMany(rows, ids, write), Accepting(rows, ids, accepts);
      if id in accepted then
        WriteMany(rows, ids + {id}, write) == after && Accepting(rows, ids + {id}, accepts) == accepted
      else
        && WriteMany(rows, ids + {id}, write) == WriteMany(after, {id}, write)
        && Accepting(rows, ids + {id}, accepts) == accepted + Accepting(after, {id}, accepts)
  {
    var after, accepted := WriteMany(rows, ids, write), Accepting(rows, ids, accepts);
    if id in accepted {
      assert ids + {id} == ids;
    } else if id in rows && id in ids {
      assert after[id] == rows[id];
    }
  }
}
