/**
 * The engine's result map (`taskResultsRef` in hooks/useExecutionEngine.ts):
 * a JavaScript `Map` from task id to TaskResult, which remembers the order
 * in which keys were first set.
 */
module ResultStore {
  import opened Wrappers
  import opened Types

  datatype ResultMap = ResultMap(entries: map<string, TaskResult>, order: seq<string>)

  /** Every key appears in the order exactly once. */
  ghost predicate Valid(m: ResultMap) {
    && (forall i, j :: 0 <= i < j < |m.order| ==> m.order[i] != m.order[j])
    && (forall k :: k in m.entries <==> k in m.order)
  }

  /** The map after `clear()`. */
  const Empty: ResultMap := ResultMap(map[], [])

  lemma EmptyIsValid()
    ensures Valid(Empty)
  {
  }

  /** `has(id)` and `get(id)` together: the result stored under the key, if any. */
  function Get(m: ResultMap, id: string): (r: Option<TaskResult>)
    ensures r.Some? <==> id in m.entries
    ensures r.Some? ==> r.value == m.entries[id]
  {
    if id in m.entries then Some(m.entries[id]) else None
  }

  /**
   * `set(id, r)`: the key now maps to `r`, a new key joins the end of the
   * order, an existing key keeps its place, and nothing else changes.
   */
  function Set(m: ResultMap, id: string, r: TaskResult): (m': ResultMap)
    ensures Valid(m) ==> Valid(m')
    ensures id in m'.entries && m'.entries[id] == r
    ensures forall k :: k != id ==> (k in m'.entries <==> k in m.entries)
    ensures forall k :: k != id && k in m.entries ==> m'.entries[k] == m.entries[k]
    ensures id in m.entries ==> m'.order == m.order
    ensures id !in m.entries ==> m'.order == m.order + [id]
  {
    ResultMap(m.entries[id := r], if id in m.entries then m.order else m.order + [id])
  }

  /** Reading after `set`: the key gives back what was set, and every other key what it gave before. */
  lemma GetSet(m: ResultMap, id: string, r: TaskResult, k: string)
    ensures Get(Set(m, id, r), k) == if k == id then Some(r) else Get(m, k)
  {
  }

  /** `Array.from(m.values())`: the values in key order. */
  function Values(m: ResultMap): (vs: seq<TaskResult>)
    requires Valid(m)
    ensures |vs| == |m.order|
    ensures forall i :: 0 <= i < |vs| ==> vs[i] == m.entries[m.order[i]]
  {
    seq(|m.order|, i requires 0 <= i < |m.order| => m.entries[m.order[i]])
  }

  /** When each entry carries its own key as id, the values list carries exactly the keys. */
  lemma ValuesIds(m: ResultMap)
    requires Valid(m)
    requires forall k :: k in m.entries ==> m.entries[k].id == k
    ensures ResultIds(Values(m)) == m.entries.Keys
  {
    var vs := Values(m);
    forall k | k in m.entries ensures k in ResultIds(vs) {
      var i :| 0 <= i < |m.order| && m.order[i] == k;
      assert vs[i].id == k;
    }
  }

  /** `m2` keeps every entry of `m1`, and its insertion order begins with that of `m1`. */
  ghost predicate Extends(m1: ResultMap, m2: ResultMap) {
    && (forall k :: k in m1.entries ==> k in m2.entries && m2.entries[k] == m1.entries[k])
    && m1.order <= m2.order
  }

  lemma ExtendsTrans(m1: ResultMap, m2: ResultMap, m3: ResultMap)
    requires Extends(m1, m2) && Extends(m2, m3)
    ensures Extends(m1, m3)
  {
    assert m3.order[..|m2.order|][..|m1.order|] == m3.order[..|m1.order|];
  }

  /** Both keys are set, and some prefix of the insertion order holds `a` but not `b`: `a` was set first. */
  ghost predicate SetBefore(m: ResultMap, a: string, b: string) {
    && a in m.entries && b in m.entries
    && exists n :: 0 <= n <= |m.order| && a in m.order[..n] && b !in m.order[..n]
  }

  /** A key set before another stays so when the map is only extended. */
  lemma SetBeforePersists(m1: ResultMap, m2: ResultMap, a: string, b: string)
    requires Extends(m1, m2) && SetBefore(m1, a, b)
    ensures SetBefore(m2, a, b)
  {
    var n :| 0 <= n <= |m1.order| && a in m1.order[..n] && b !in m1.order[..n];
    assert m2.order[..n] == m1.order[..n];
  }

  /** Setting before is transitive. */
  lemma SetBeforeTrans(m: ResultMap, a: string, b: string, c: string)
    requires SetBefore(m, a, b) && SetBefore(m, b, c)
    ensures SetBefore(m, a, c)
  {
    var n1 :| 0 <= n1 <= |m.order| && a in m.order[..n1] && b !in m.order[..n1];
    var n2 :| 0 <= n2 <= |m.order| && b in m.order[..n2] && c !in m.order[..n2];
    if n2 <= n1 {
      assert false;
    }
    assert m.order[..n1] == m.order[..n2][..n1];
  }

  /** No key is set before itself. */
  lemma SetBeforeIrreflexive(m: ResultMap, a: string)
    ensures !SetBefore(m, a, a)
  {
  }

  /** A key already present is set before one that only an extension adds. */
  lemma OldKeySetBefore(m1: ResultMap, m2: ResultMap, a: string, b: string)
    requires Valid(m1) && Extends(m1, m2)
    requires a in m1.entries && b !in m1.entries && b in m2.entries
    ensures SetBefore(m2, a, b)
  {
    var n := |m1.order|;
    assert m2.order[..n] == m1.order;
  }

  /** The ids a list of results carries. */
  function ResultIds(rs: seq<TaskResult>): set<string> {
    set i | 0 <= i < |rs| :: rs[i].id
  }

  /** Sets each result in turn, in list order. */
  function Record(m: ResultMap, rs: seq<TaskResult>): (m': ResultMap)
    ensures Valid(m) ==> Valid(m')
    ensures m'.entries.Keys == m.entries.Keys + ResultIds(rs)
    ensures m.order <= m'.order
    decreases |rs|
  {
    if rs == [] then m
    else
      var m1 := Set(m, rs[0].id, rs[0]);
      assert Record(m1, rs[1..]).order[..|m1.order|][..|m.order|] == Record(m1, rs[1..]).order[..|m.order|];
      assert ResultIds(rs) == {rs[0].id} + ResultIds(rs[1..]) by {
        forall k | k in ResultIds(rs) ensures k in {rs[0].id} + ResultIds(rs[1..]) {
          var i :| 0 <= i < |rs| && rs[i].id == k;
          if i > 0 { assert rs[1..][i - 1].id == k; }
        }
      }
      Record(m1, rs[1..])
  }

  /**
   * Recording results with distinct ids new to the map keeps every old
   * entry and stores each result under its own id.
   */
  lemma {:induction false} RecordFresh(m: ResultMap, rs: seq<TaskResult>)
    requires forall i, j :: 0 <= i < j < |rs| ==> rs[i].id != rs[j].id
    requires forall i :: 0 <= i < |rs| ==> rs[i].id !in m.entries
    ensures Extends(m, Record(m, rs))
    ensures forall i :: 0 <= i < |rs| ==> Record(m, rs).entries[rs[i].id] == rs[i]
    decreases |rs|
  {
    if rs != [] {
      var m1 := Set(m, rs[0].id, rs[0]);
      RecordFresh(m1, rs[1..]);
      forall i | 0 <= i < |rs| ensures Record(m, rs).entries[rs[i].id] == rs[i] {
        if i > 0 {
          assert rs[1..][i - 1] == rs[i];
        }
      }
    }
  }
}
