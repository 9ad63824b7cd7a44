/** The client's map of scooters: the last writer by `updated_at` wins
    (frontend/src/realtime/scooterStore.ts). Rows carry microseconds, `Date.parse` keeps whole
    milliseconds of them. */
module ScooterStore {

  const MICROS_PER_MILLI := 1000

  /** What a merge looks at, its time in microseconds, and the rest of the row. */
  datatype Update = Update(code: string, updatedAt: int, state: int)

  type Store = map<string, Update>

  function Millis(u: Update): int { u.updatedAt / MICROS_PER_MILLI }

  predicate IsStale(store: Store, incoming: Update) {
    incoming.code in store && Millis(store[incoming.code]) > Millis(incoming)
  }

  function ApplyScooter(store: Store, incoming: Update): Store {
    if IsStale(store, incoming) then store else store[incoming.code := incoming]
  }

  /** `scooters.reduce(applyScooter, store)`. */
  function ApplyScooters(store: Store, updates: seq<Update>): Store {
    if updates == [] then store
    else ApplyScooter(ApplyScooters(store, updates[..|updates| - 1]), updates[|updates| - 1])
  }

  /** Rows are kept under their own code. */
  ghost predicate WellKeyed(store: Store) { forall c :: c in store ==> store[c].code == c }

  /** An update known for a code: stored before, or among those applied. */
  predicate Known(store: Store, updates: seq<Update>, u: Update) {
    (u.code in store && store[u.code] == u) || u in updates
  }

  /** No known row of its code is a millisecond or more ahead. */
  ghost predicate Newest(store: Store, updates: seq<Update>, u: Update) {
    forall v :: Known(store, updates, v) && v.code == u.code ==> Millis(v) <= Millis(u)
  }

  // ----- what a fold keeps

  /** The row stored before stays where it is ahead of every update by milliseconds; elsewhere one
      of the updates stays that no known row is ahead of by milliseconds. */
  ghost predicate KeepsNewest(result: Store, store: Store, updates: seq<Update>) {
    && (forall u :: Known(store, updates, u) ==> u.code in result)
    && (forall c :: c in result ==> KeptAt(result, store, updates, c))
  }

  ghost predicate KeptAt(result: Store, store: Store, updates: seq<Update>, c: string)
    requires c in result
  {
    && result[c].code == c && Known(store, updates, result[c]) && Newest(store, updates, result[c])
    && (result[c] in updates || forall u :: u in updates && u.code == c ==> Millis(u) < Millis(result[c]))
  }

  lemma {:induction false} FoldKeepsNewest(store: Store, updates: seq<Update>)
    requires WellKeyed(store)
    ensures KeepsNewest(ApplyScooters(store, updates), store, updates)
  {
    if updates == [] {
      assert forall u :: Known(store, [], u) <==> u.code in store && store[u.code] == u;
    } else {
      var init, last := updates[..|updates| - 1], updates[|updates| - 1];
      FoldKeepsNewest(store, init);
      assert updates == init + [last];
      OneMoreKept(ApplyScooters(store, init), store, init, last);
    }
  }

  lemma OneMoreKept(before: Store, store: Store, init: seq<Update>, last: Update)
    requires KeepsNewest(before, store, init)
    ensures KeepsNewest(ApplyScooter(before, last), store, init + [last])
  {
    var updates, after := init + [last], ApplyScooter(before, last);
    assert forall u :: u in updates <==> u in init || u == last;
    assert forall u :: Known(store, updates, u) <==> Known(store, init, u) || u == last;
    forall c | c in after ensures KeptAt(after, store, updates, c) {
      assert c in before ==> KeptAt(before, store, init, c) && Newest(store, init, before[c]);
    }
  }

  // ----- lists of the same rows

  ghost predicate SameRows(these: seq<Update>, those: seq<Update>) { forall u :: u in these <==> u in those }

  /** A newest update applied once more stays. */
  lemma LastNewestStays(store: Store, updates: seq<Update>, u: Update)
    requires WellKeyed(store) && u in updates && Newest(store, updates, u)
    ensures SameRows(updates + [u], updates)
    ensures u.code in ApplyScooters(store, updates + [u]) && ApplyScooters(store, updates + [u])[u.code] == u
  {
    FoldKeepsNewest(store, updates);
    assert (updates + [u])[..|updates|] == updates;
    assert Known(store, updates, ApplyScooters(store, updates)[u.code]);
  }

  lemma SameKnown(result: Store, store: Store, these: seq<Update>, those: seq<Update>)
    requires KeepsNewest(result, store, those) && SameRows(these, those)
    ensures KeepsNewest(result, store, these)
  {
    assert forall u :: Known(store, these, u) <==> Known(store, those, u);
    forall c | c in result ensures Newest(store, these, result[c]) {
      assert Newest(store, those, result[c]);
    }
  }

  lemma FoldOfSameRows(store: Store, updates: seq<Update>, list: seq<Update>)
    requires WellKeyed(store) && SameRows(list, updates)
    ensures KeepsNewest(ApplyScooters(store, list), store, updates)
  {
    FoldKeepsNewest(store, list);
    SameKnown(ApplyScooters(store, list), store, updates, list);
  }

  /** Per code, no known row is later than the one that stayed: to the microsecond. */
  ghost predicate KeepsLatest(result: Store, store: Store, updates: seq<Update>) {
    forall u :: Known(store, updates, u) ==> u.code in result && u.updatedAt <= result[u.code].updatedAt
  }

  /** The update is behind no known row of its code: to the microsecond. */
  ghost predicate Latest(store: Store, updates: seq<Update>, u: Update) {
    forall v :: Known(store, updates, v) && v.code == u.code ==> v.updatedAt <= u.updatedAt
  }

  /** Whatever the order of the rows and however often they are repeated, the latest row of each
      code stays: exactly when every update newest by milliseconds is also latest by microseconds. */
  lemma LatestStaysExactly(store: Store, updates: seq<Update>)
    requires WellKeyed(store)
    ensures (forall list :: SameRows(list, updates) ==> KeepsLatest(ApplyScooters(store, list), store, updates))
      <==> (forall u :: u in updates && Newest(store, updates, u) ==> Latest(store, updates, u))
  {
    if forall u :: u in updates && Newest(store, updates, u) ==> Latest(store, updates, u) {
      forall list | SameRows(list, updates)
        ensures KeepsLatest(ApplyScooters(store, list), store, updates)
      {
        FoldOfSameRows(store, updates, list);
        KeptIsLatest(ApplyScooters(store, list), store, updates);
      }
    } else {
      var u :| u in updates && Newest(store, updates, u) && !Latest(store, updates, u);
      LastNewestStays(store, updates, u);
      assert !KeepsLatest(ApplyScooters(store, updates + [u]), store, updates);
    }
  }

  lemma KeptIsLatest(result: Store, store: Store, updates: seq<Update>)
    requires KeepsNewest(result, store, updates)
    requires forall u :: u in updates && Newest(store, updates, u) ==> Latest(store, updates, u)
    ensures KeepsLatest(result, store, updates)
  {
    forall u | Known(store, updates, u) ensures u.code in result && u.updatedAt <= result[u.code].updatedAt {
      var kept := result[u.code];
      if kept in updates {
        assert Latest(store, updates, kept);
      } else {
        assert u in updates ==> Millis(u) < Millis(kept);
      }
    }
  }

  /** No two different updates share the newest millisecond of a code. */
  ghost predicate NoNewestTie(store: Store, updates: seq<Update>) {
    forall u, v | u in updates && v in updates && u.code == v.code ::
      Newest(store, updates, u) && Newest(store, updates, v) ==> u == v
  }

  /** All orders and repetitions of the rows give one store: exactly when there is no such tie. Ties
      among superseded updates, or with the row stored before, do no harm. */
  lemma OneStoreExactly(store: Store, updates: seq<Update>)
    requires WellKeyed(store)
    ensures (forall list :: SameRows(list, updates) ==> ApplyScooters(store, list) == ApplyScooters(store, updates))
      <==> NoNewestTie(store, updates)
  {
    if NoNewestTie(store, updates) {
      forall list | SameRows(list, updates)
        ensures ApplyScooters(store, list) == ApplyScooters(store, updates)
      {
        FoldOfSameRows(store, updates, list);
        FoldKeepsNewest(store, updates);
        KeptIsUnique(ApplyScooters(store, list), ApplyScooters(store, updates), store, updates);
      }
    } else {
      TieTells(store, updates);
    }
  }

  lemma TieTells(store: Store, updates: seq<Update>)
    requires WellKeyed(store) && !NoNewestTie(store, updates)
    ensures exists list :: SameRows(list, updates) && ApplyScooters(store, list) != ApplyScooters(store, updates)
  {
    var u, v :| u in updates && v in updates && u.code == v.code && u != v
      && Newest(store, updates, u) && Newest(store, updates, v);
    LastNewestStays(store, updates, u);
    LastNewestStays(store, updates, v);
    assert ApplyScooters(store, updates + [u])[u.code] != ApplyScooters(store, updates + [v])[u.code];
  }

  lemma KeptIsUnique(a: Store, b: Store, store: Store, updates: seq<Update>)
    requires KeepsNewest(a, store, updates) && KeepsNewest(b, store, updates) && NoNewestTie(store, updates)
    ensures a == b
  {
    forall c | c in a || c in b ensures c in a && c in b && a[c] == b[c] {
      if c in a {
        assert Known(store, updates, a[c]);
      }
      if c in b {
        assert Known(store, updates, b[c]);
      }
      assert Newest(store, updates, a[c]) && Newest(store, updates, b[c]);
    }
  }

  /** Two rows of one code within a millisecond: applied newer first, the older one stays; the
      other order leaves the newer. */
  lemma OlderRowCanStay(code: string)
    ensures var older, newer := Update(code, 900, 0), Update(code, 999, 1);
      && ApplyScooters(map[], [newer, older]) == map[code := older]
      && ApplyScooters(map[], [older, newer]) == map[code := newer]
  {
    var older, newer := Update(code, 900, 0), Update(code, 999, 1);
    ApplyTwo(map[], newer, older);
    ApplyTwo(map[], older, newer);
  }

  /** Applying one update after another. */
  lemma ApplyTwo(store: Store, u: Update, v: Update)
    ensures ApplyScooters(store, [u, v]) == ApplyScooter(ApplyScooter(store, u), v)
  {
    assert [u, v][..1] == [u];
    ApplyOne(store, u);
  }

  lemma ApplyOne(store: Store, u: Update)
    ensures ApplyScooters(store, [u]) == ApplyScooter(store, u)
  {
    assert [u][..0] == [];
    assert ApplyScooters(store, []) == store;
  }
}
