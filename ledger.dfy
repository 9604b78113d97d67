/** The promise of the restricted lots across a whole session: a person wins
    a given restricted lot at most once. The lot of a record is identified by
    `lotKey` (the raw or the normalised lot name), the person of a ticket by
    `person`, and `excluded` is the session's map from a restricted lot to
    the people who have won it. */
module Ledger {
  import opened Records
  import opened Pool

  /** `excluded.get(lotKey, set())`: the people barred from a lot. */
  function Barred<K>(excluded: map<string, set<K>>, lotKey: string): (b: set<K>)
    ensures lotKey !in excluded ==> b == {}
  {
    if lotKey in excluded then excluded[lotKey] else {}
  }

  /** Giving a lot its entry, when it has none, bars nobody. */
  lemma BarredNewEntry<K>(excluded: map<string, set<K>>, lotKey: string)
    ensures var e := excluded[lotKey := Barred(excluded, lotKey)];
      lotKey in e && Barred(e, lotKey) == Barred(excluded, lotKey)
  {
  }

  /** Every record of a restricted lot has its person barred from that lot,
      and no two records of the same restricted lot went to the same
      person. */
  ghost predicate OncePerPerson<K>(ledger: seq<Winner>, excluded: map<string, set<K>>,
                                   restricted: set<string>, lotKey: Winner -> string, person: Ticket -> K)
  {
    && (forall i :: 0 <= i < |ledger| && lotKey(ledger[i]) in restricted ==>
          person(ledger[i].ticket) in Barred(excluded, lotKey(ledger[i])))
    && (forall i, j :: 0 <= i < j < |ledger| && lotKey(ledger[i]) in restricted && lotKey(ledger[i]) == lotKey(ledger[j]) ==>
          person(ledger[i].ticket) != person(ledger[j].ticket))
  }

  /** A restricted draw of the tickets `drawn` took the map from `before` to
      `after`: only the lot's entry changed, the winners are distinct people
      none of whom was barred from the lot, and its set grew by exactly
      them. */
  ghost predicate BarredGrowth<K>(before: map<string, set<K>>, after: map<string, set<K>>, lotKey: string,
                                  drawn: seq<Ticket>, person: Ticket -> K)
  {
    && lotKey in after && after == before[lotKey := after[lotKey]]
    && DistinctBy(drawn, person)
    && (forall t :: t in drawn ==> person(t) !in Barred(before, lotKey))
    && after[lotKey] == Barred(before, lotKey) + set t | t in drawn :: person(t)
  }

  /** Giving the lot its entry and drawing nobody grows no set. */
  lemma NoDrawGrowsNothing<K>(before: map<string, set<K>>, lotKey: string, person: Ticket -> K)
    ensures BarredGrowth(before, before[lotKey := Barred(before, lotKey)], lotKey, [], person)
  {
    assert (set t | t in [] :: person(t)) == {};
  }

  /** A draw that follows the exclusion rule from the lot's barred set, and
      whose final set is stored under the lot, grows the map that way. */
  lemma ExcludesGrowBarred<K>(before: map<string, set<K>>, lotKey: string, person: Ticket -> K,
                              stages: seq<Stage<set<K>>>, ks: seq<nat>)
    requires Excludes(stages, ks, person) && stages[0].barred == Barred(before, lotKey)
    ensures BarredGrowth(before, before[lotKey := Last(stages).barred], lotKey, Drawn(stages, ks), person)
  {
    ExcludesNoRepeat(stages, ks, person);
  }

  /** A draw that follows the exclusion rule from the lot's barred set keeps
      the promise: its winners are new to the lot and pairwise distinct, and
      the lot's set becomes what the draw left. */
  lemma OncePerPersonRestrictedBatch<K>(ledger: seq<Winner>, excluded: map<string, set<K>>,
                                        restricted: set<string>, lotKey: Winner -> string, person: Ticket -> K,
                                        key: string, batch: seq<Winner>,
                                        stages: seq<Stage<set<K>>>, ks: seq<nat>)
    requires OncePerPerson(ledger, excluded, restricted, lotKey, person)
    requires Excludes(stages, ks, person) && stages[0].barred == Barred(excluded, key)
    requires forall i :: 0 <= i < |batch| ==> lotKey(batch[i]) == key
    requires TicketsOf(batch) == Drawn(stages, ks)
    ensures OncePerPerson(ledger + batch, excluded[key := Last(stages).barred], restricted, lotKey, person)
  {
    ExcludesNoRepeat(stages, ks, person);
    var d := Drawn(stages, ks);
    var e := excluded[key := Last(stages).barred];
    var l := ledger + batch;
    assert forall m :: 0 <= m < |batch| ==> batch[m].ticket == d[m];
    forall i | 0 <= i < |l| && lotKey(l[i]) in restricted
      ensures person(l[i].ticket) in Barred(e, lotKey(l[i]))
    {
      if i < |ledger| {
        assert l[i] == ledger[i];
      } else {
        assert l[i] == batch[i - |ledger|] && d[i - |ledger|] in d;
      }
    }
    forall i, j | 0 <= i < j < |l| && lotKey(l[i]) in restricted && lotKey(l[i]) == lotKey(l[j])
      ensures person(l[i].ticket) != person(l[j].ticket)
    {
      if j < |ledger| {
        assert l[i] == ledger[i] && l[j] == ledger[j];
      } else if i < |ledger| {
        assert l[i] == ledger[i] && l[j] == batch[j - |ledger|] && d[j - |ledger|] in d;
      } else {
        assert l[i] == batch[i - |ledger|] && l[j] == batch[j - |ledger|];
      }
    }
  }

  /** Records of lots that are not restricted leave the promise as it was. */
  lemma OncePerPersonOtherBatch<K>(ledger: seq<Winner>, excluded: map<string, set<K>>,
                                   restricted: set<string>, lotKey: Winner -> string, person: Ticket -> K,
                                   batch: seq<Winner>)
    requires OncePerPerson(ledger, excluded, restricted, lotKey, person)
    requires forall i :: 0 <= i < |batch| ==> lotKey(batch[i]) !in restricted
    ensures OncePerPerson(ledger + batch, excluded, restricted, lotKey, person)
  {
    var l := ledger + batch;
    assert forall m :: |ledger| <= m < |l| ==> l[m] == batch[m - |ledger|];
  }

  /** Creating an empty entry for a lot changes nobody's barred set. */
  lemma OncePerPersonNewEntry<K>(ledger: seq<Winner>, excluded: map<string, set<K>>,
                                 restricted: set<string>, lotKey: Winner -> string, person: Ticket -> K, key: string)
    requires OncePerPerson(ledger, excluded, restricted, lotKey, person)
    ensures OncePerPerson(ledger, excluded[key := Barred(excluded, key)], restricted, lotKey, person)
  {
    var e := excluded[key := Barred(excluded, key)];
    assert forall k :: Barred(e, k) == Barred(excluded, k);
  }
}
