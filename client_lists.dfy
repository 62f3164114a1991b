/**
 * The list updaters the client hooks share: append unless an entry with the same
 * id is already there, and remove every entry with an id. Each hook applies them
 * to its own message type, passing how an entry's id is read.
 */
module ClientLists {
  import opened Seqs

  /** `prev.some(x => x.id === m.id) ? prev : [...prev, m]`. */
  function AppendNew<M(==,!new)>(ms: seq<M>, m: M, key: M -> string): (r: seq<M>)
    ensures (exists x :: x in ms && key(x) == key(m)) ==> r == ms
    ensures (forall x :: x in ms ==> key(x) != key(m)) ==> r == ms + [m]
  {
    if exists x :: x in ms && key(x) == key(m) then ms else ms + [m]
  }

  /** No two entries share an id. */
  ghost predicate UniqueKeys<M(!new)>(ms: seq<M>, key: M -> string) {
    forall i, j :: 0 <= i < j < |ms| ==> key(ms[i]) != key(ms[j])
  }

  /** The filter `x => x.id !== k`. */
  function KeyIsNot<M(!new)>(k: string, key: M -> string): M -> bool {
    (x: M) => key(x) != k
  }

  /** `prev.filter(x => x.id !== k)`: every entry with that id goes, the others stay in order. */
  function RemoveKey<M(!new)>(ms: seq<M>, k: string, key: M -> string): (r: seq<M>)
    ensures forall x :: x in r <==> x in ms && key(x) != k
    ensures |r| <= |ms|
  {
    Filter(ms, KeyIsNot(k, key))
  }

  /**
   * Appending keeps ids unique, and afterwards exactly one entry carries the new
   * entry's id; the earlier entries keep their positions.
   */
  lemma AppendKeepsKeysUnique<M(!new)>(ms: seq<M>, m: M, key: M -> string)
    requires UniqueKeys(ms, key)
    ensures var r := AppendNew(ms, m, key);
      && UniqueKeys(r, key)
      && ms <= r && |r| <= |ms| + 1
      && (exists i :: 0 <= i < |r| && key(r[i]) == key(m))
      && (forall i, j :: 0 <= i < |r| && 0 <= j < |r| && key(r[i]) == key(m) && key(r[j]) == key(m) ==> i == j)
  {
    var r := AppendNew(ms, m, key);
    if exists x :: x in ms && key(x) == key(m) {
      var x :| x in ms && key(x) == key(m);
      var i :| 0 <= i < |ms| && ms[i] == x;
      assert key(r[i]) == key(m);
    } else {
      assert key(r[|ms|]) == key(m);
      forall i, j | 0 <= i < j < |r| ensures key(r[i]) != key(r[j]) {
        if j == |ms| {
          assert r[i] in ms;
        }
      }
    }
  }

  /**
   * Removing keeps the order: it distributes over concatenation, and a single entry is
   * kept exactly when its id differs. The two facts together determine the result.
   */
  lemma RemoveKeyKeepsOrder<M(!new)>(a: seq<M>, b: seq<M>, k: string, key: M -> string)
    ensures RemoveKey(a + b, k, key) == RemoveKey(a, k, key) + RemoveKey(b, k, key)
    ensures forall x :: RemoveKey([x], k, key) == if key(x) != k then [x] else []
  {
    FilterConcat(a, b, KeyIsNot(k, key));
    forall x ensures RemoveKey([x], k, key) == if key(x) != k then [x] else [] {
      assert [x][1..] == [];
    }
  }

  /** With unique ids, removing the id of the entry at `i` cuts out that one entry and keeps the rest in order. */
  lemma RemoveUnique<M(!new)>(ms: seq<M>, i: nat, key: M -> string)
    requires UniqueKeys(ms, key) && i < |ms|
    ensures RemoveKey(ms, key(ms[i]), key) == ms[..i] + ms[i + 1..]
  {
    var k := key(ms[i]);
    var a, b := ms[..i], ms[i + 1..];
    forall x | x in a ensures key(x) != k {
      var j :| 0 <= j < |a| && a[j] == x;
      assert ms[j] == x;
    }
    forall x | x in b ensures key(x) != k {
      var j :| 0 <= j < |b| && b[j] == x;
      assert ms[i + 1 + j] == x;
    }
    assert ms == a + [ms[i]] + b;
    CutOut(a, ms[i], b, k, key);
  }

  /** Removing the id of the one entry that carries it. */
  lemma CutOut<M(!new)>(a: seq<M>, x: M, b: seq<M>, k: string, key: M -> string)
    requires key(x) == k
    requires forall y :: y in a ==> key(y) != k
    requires forall y :: y in b ==> key(y) != k
    ensures RemoveKey(a + [x] + b, k, key) == a + b
  {
    assert RemoveKey(a + [x], k, key) == a by {
      RemoveAbsent(a, k, key);
      RemoveKeyKeepsOrder(a, [x], k, key);
      assert [x][1..] == [];
      assert a + [] == a;
    }
    assert RemoveKey(b, k, key) == b by {
      RemoveAbsent(b, k, key);
    }
    FilterConcat(a + [x], b, KeyIsNot(k, key));
  }

  /** Removing an id no entry carries changes nothing. */
  lemma RemoveAbsent<M(!new)>(ms: seq<M>, k: string, key: M -> string)
    requires forall x :: x in ms ==> key(x) != k
    ensures RemoveKey(ms, k, key) == ms
  {
    FilterAll(ms, KeyIsNot(k, key));
  }

  /** Removing is idempotent and leaves no entry with that id. */
  lemma RemoveKeyIdempotent<M(!new)>(ms: seq<M>, k: string, key: M -> string)
    ensures RemoveKey(RemoveKey(ms, k, key), k, key) == RemoveKey(ms, k, key)
    ensures forall i :: 0 <= i < |RemoveKey(ms, k, key)| ==> key(RemoveKey(ms, k, key)[i]) != k
  {
    FilterAll(RemoveKey(ms, k, key), KeyIsNot(k, key));
  }
}
