/** The ticket pool: removing drawn rows, sampling without replacement, the
    uniqueness of ticket ids, and the trace of a sequential draw (the pool and
    the lot's exclusion set before each winner, and the row drawn). */
module Pool {
  import opened Records

  /** `df.drop(label)` for the row at position `k`. */
  function Remove<T>(s: seq<T>, k: nat): (r: seq<T>)
    requires k < |s|
    ensures |r| == |s| - 1
    ensures multiset(r) + multiset{s[k]} == multiset(s)
    ensures forall x :: x in s && x != s[k] ==> x in r
  {
    assert s == s[..k] + [s[k]] + s[k + 1..];
    s[..k] + s[k + 1..]
  }

  /** No two elements of `s` share a key. */
  predicate DistinctBy<T, K(==)>(s: seq<T>, key: T -> K) {
    forall i, j :: 0 <= i < j < |s| ==> key(s[i]) != key(s[j])
  }

  function IdOf(t: Ticket): string { t.id }

  /** No two tickets share a "Numéro du billet original". */
  predicate UniqueIds(s: seq<Ticket>) {
    DistinctBy(s, IdOf)
  }

  lemma TwoOccurrences<T>(s: seq<T>, x: T)
    requires multiset(s)[x] >= 2
    ensures exists i, j :: 0 <= i < j < |s| && s[i] == x && s[j] == x
  {
    var i :| 0 <= i < |s| && s[i] == x;
    var r := Remove(s, i);
    assert x in r;
    var j :| 0 <= j < |r| && r[j] == x;
    if j < i {
      assert s[j] == x;
    } else {
      assert s[j + 1] == x;
    }
  }

  /** Keys that are distinct in a sequence stay distinct in any permutation
      of it. */
  lemma DistinctByPermutation<T, K>(a: seq<T>, b: seq<T>, key: T -> K)
    requires DistinctBy(a, key) && multiset(a) == multiset(b)
    ensures DistinctBy(b, key)
  {
    forall i, j | 0 <= i < j < |b| ensures key(b[i]) != key(b[j]) {
      if key(b[i]) == key(b[j]) {
        assert b[i] in multiset(a) && b[j] in multiset(a);
        var p :| 0 <= p < |a| && a[p] == b[i];
        var q :| 0 <= q < |a| && a[q] == b[j];
        if b[i] == b[j] {
          assert b == b[..j] + [b[j]] + b[j + 1..];
          assert b[i] in b[..j];
          assert multiset(b)[b[i]] >= 2;
          TwoOccurrences(a, b[i]);
          assert false;
        } else {
          assert false;
        }
      }
    }
  }

  /** No ticket can be drawn twice: when the drawn tickets and the remaining
      pool together are the original pool, and its ids were unique, then the
      ids of the drawn tickets and of the remaining pool are unique as well,
      and no drawn id is still in the pool. */
  lemma NoTicketDrawnTwice(pool: seq<Ticket>, drawn: seq<Ticket>, rest: seq<Ticket>)
    requires UniqueIds(pool) && multiset(drawn) + multiset(rest) == multiset(pool)
    ensures UniqueIds(drawn + rest)
    ensures forall i, t :: 0 <= i < |drawn| && t in rest ==> drawn[i].id != t.id
  {
    DistinctByPermutation(pool, drawn + rest, IdOf);
    var c := drawn + rest;
    forall i, t | 0 <= i < |drawn| && t in rest ensures drawn[i].id != t.id {
      var j :| 0 <= j < |rest| && rest[j] == t;
      assert c[i] == drawn[i] && c[|drawn| + j] == t;
    }
  }

  /** A session's ledger records the tickets it has drawn; when those
      tickets and the remaining pool are the loaded tickets and the loaded
      ids are unique, no id appears twice in the ledger and no ledger id is
      still in the pool. */
  lemma LedgerIdsDistinct(loaded: seq<Ticket>, pool: seq<Ticket>, ledger: seq<Winner>)
    requires UniqueIds(loaded) && multiset(TicketsOf(ledger)) + multiset(pool) == multiset(loaded)
    ensures forall i, j :: 0 <= i < j < |ledger| ==> ledger[i].ticket.id != ledger[j].ticket.id
    ensures forall i, t :: 0 <= i < |ledger| && t in pool ==> ledger[i].ticket.id != t.id
  {
    var won := TicketsOf(ledger);
    NoTicketDrawnTwice(loaded, won, pool);
    var c := won + pool;
    forall i, j | 0 <= i < j < |ledger| ensures ledger[i].ticket.id != ledger[j].ticket.id {
      assert c[i] == won[i] && c[j] == won[j];
    }
    forall i, t | 0 <= i < |ledger| && t in pool ensures ledger[i].ticket.id != t.id {
      assert won[i] == ledger[i].ticket;
    }
  }

  /** Moving the tickets a draw took from the pool to the drawn list keeps
      the two together equal to the loaded tickets. */
  lemma MoveDrawn(won: seq<Ticket>, pool: seq<Ticket>, loaded: seq<Ticket>, drawn: seq<Ticket>, rest: seq<Ticket>)
    requires multiset(won) + multiset(pool) == multiset(loaded)
    requires multiset(drawn) + multiset(rest) == multiset(pool)
    ensures multiset(won + drawn) + multiset(rest) == multiset(loaded)
  {
  }

  /** `df.sample(n)` followed by `df.drop(winners.index)`, as n picks without
      replacement; which rows are picked is left open. */
  method Sample(pool: seq<Ticket>, n: nat) returns (picked: seq<Ticket>, rest: seq<Ticket>)
    requires n <= |pool|
    ensures |picked| == n && |rest| == |pool| - n
    ensures multiset(picked) + multiset(rest) == multiset(pool)
  {
    picked, rest := [], pool;
    while |picked| < n
      invariant |picked| <= n && |picked| + |rest| == |pool|
      invariant multiset(picked) + multiset(rest) == multiset(pool)
    {
      var k :| 0 <= k < |rest|;
      picked := picked + [rest[k]];
      rest := Remove(rest, k);
    }
  }

  // ---------------------------------------------------------------------
  // Traces of sequential draws

  /** The pool and the lot's exclusion memory before one draw. */
  datatype Stage<B> = Stage(pool: seq<Ticket>, barred: B)

  /** `stages[i+1].pool` is `stages[i].pool` without its row `ks[i]`. */
  ghost predicate Removes<B>(stages: seq<Stage<B>>, ks: seq<nat>) {
    && |stages| == |ks| + 1
    && forall i :: 0 <= i < |ks| ==>
         ks[i] < |stages[i].pool| && stages[i + 1].pool == Remove(stages[i].pool, ks[i])
  }

  /** The ticket drawn at each step of a trace. */
  ghost function Drawn<B>(stages: seq<Stage<B>>, ks: seq<nat>): (d: seq<Ticket>)
    requires Removes(stages, ks)
    ensures |d| == |ks|
  {
    seq(|ks|, i requires 0 <= i < |ks| => stages[i].pool[ks[i]])
  }

  ghost function Last<B>(stages: seq<Stage<B>>): Stage<B>
    requires |stages| > 0
  {
    stages[|stages| - 1]
  }

  /** A trace only moves tickets from the pool to the drawn list. */
  lemma {:induction false} RemovesConserve<B>(stages: seq<Stage<B>>, ks: seq<nat>)
    requires Removes(stages, ks)
    ensures multiset(Drawn(stages, ks)) + multiset(Last(stages).pool) == multiset(stages[0].pool)
    ensures |Drawn(stages, ks)| + |Last(stages).pool| == |stages[0].pool|
  {
    var n := |ks|;
    if n > 0 {
      var st, ps := stages[..n], ks[..n - 1];
      assert Removes(st, ps);
      RemovesConserve(st, ps);
      assert Drawn(stages, ks) == Drawn(st, ps) + [stages[n - 1].pool[ks[n - 1]]];
    }
  }

  /** Drawing the ticket at `k` and recording `entry` as one more step. */
  lemma RemovesExtend<B>(stages: seq<Stage<B>>, ks: seq<nat>, k: nat, after: B)
    requires Removes(stages, ks) && k < |Last(stages).pool|
    ensures Removes(stages + [Stage(Remove(Last(stages).pool, k), after)], ks + [k])
    ensures Drawn(stages + [Stage(Remove(Last(stages).pool, k), after)], ks + [k])
         == Drawn(stages, ks) + [Last(stages).pool[k]]
  {
  }

  /** Every step draws a ticket whose key is not yet excluded, and then
      excludes it. */
  ghost predicate Excludes<K>(stages: seq<Stage<set<K>>>, ks: seq<nat>, key: Ticket -> K) {
    && Removes(stages, ks)
    && forall i :: 0 <= i < |ks| ==>
         && key(stages[i].pool[ks[i]]) !in stages[i].barred
         && stages[i + 1].barred == stages[i].barred + {key(stages[i].pool[ks[i]])}
  }

  /** The keys of a sequence that grew by one element. */
  lemma KeysAppend<K>(d: seq<Ticket>, w: Ticket, key: Ticket -> K)
    ensures (set x | x in d + [w] :: key(x)) == (set x | x in d :: key(x)) + {key(w)}
  {
    assert forall x :: x in d + [w] <==> x in d || x == w;
  }

  /** Appending an element whose key is new keeps the keys distinct. */
  lemma DistinctByAppend<K>(d: seq<Ticket>, w: Ticket, key: Ticket -> K)
    requires DistinctBy(d, key) && forall x :: x in d ==> key(x) != key(w)
    ensures DistinctBy(d + [w], key)
  {
    var e := d + [w];
    forall i, j | 0 <= i < j < |e| ensures key(e[i]) != key(e[j]) {
      if j < |d| {
        assert e[i] == d[i] && e[j] == d[j];
      } else {
        assert e[i] in d;
      }
    }
  }

  /** Drawing a ticket whose key is not barred, and barring it, is one more
      step of the exclusion rule. */
  lemma ExcludesExtend<K>(stages: seq<Stage<set<K>>>, ks: seq<nat>, key: Ticket -> K, k: nat)
    requires Excludes(stages, ks, key) && k < |Last(stages).pool|
    requires key(Last(stages).pool[k]) !in Last(stages).barred
    ensures var s := Last(stages);
      && Excludes(stages + [Stage(Remove(s.pool, k), s.barred + {key(s.pool[k])})], ks + [k], key)
      && Drawn(stages + [Stage(Remove(s.pool, k), s.barred + {key(s.pool[k])})], ks + [k])
         == Drawn(stages, ks) + [s.pool[k]]
  {
    var s := Last(stages);
    var after := Stage(Remove(s.pool, k), s.barred + {key(s.pool[k])});
    RemovesExtend(stages, ks, k, after.barred);
    var st, ps := stages + [after], ks + [k];
    forall i | 0 <= i < |ps|
      ensures key(st[i].pool[ps[i]]) !in st[i].barred
      ensures st[i + 1].barred == st[i].barred + {key(st[i].pool[ps[i]])}
    {
      if i < |ks| {
        assert st[i] == stages[i] && st[i + 1] == stages[i + 1] && ps[i] == ks[i];
      } else {
        assert st[i] == s && st[i + 1] == after && ps[i] == k;
      }
    }
  }

  /** Under the exclusion rule nobody wins twice: the keys of the drawn
      tickets are pairwise distinct, none was excluded before the draw, and
      the exclusion set ends as the old one plus exactly those keys. */
  lemma {:induction false} ExcludesNoRepeat<K>(stages: seq<Stage<set<K>>>, ks: seq<nat>, key: Ticket -> K)
    requires Excludes(stages, ks, key)
    ensures DistinctBy(Drawn(stages, ks), key)
    ensures forall d :: d in Drawn(stages, ks) ==> key(d) !in stages[0].barred
    ensures Last(stages).barred == stages[0].barred + set d | d in Drawn(stages, ks) :: key(d)
  {
    var n := |ks|;
    if n > 0 {
      var st, ps := stages[..n], ks[..n - 1];
      assert Excludes(st, ps, key);
      ExcludesNoRepeat(st, ps, key);
      var d, d' := Drawn(stages, ks), Drawn(st, ps);
      var w := stages[n - 1].pool[ks[n - 1]];
      assert d == d' + [w];
      assert Last(st) == stages[n - 1];
      KeysAppend(d', w, key);
      DistinctByAppend(d', w, key);
    }
  }

  /** Some ticket of the pool belongs to a person (by `key`) who is not
      barred: the eligible tickets are not empty. */
  predicate HasEligible<K>(pool: seq<Ticket>, barred: set<K>, key: Ticket -> K) {
    exists j :: 0 <= j < |pool| && key(pool[j]) !in barred
  }

  /** The distinct keys among the pool's tickets. */
  function People<K>(pool: seq<Ticket>, key: Ticket -> K): set<K> {
    set t | t in pool :: key(t)
  }

  /** Drawing a ticket of a person who was not excluded, and then excluding
      that person, makes exactly one fewer eligible person. */
  lemma EligiblePeopleShrink<K>(pool: seq<Ticket>, barred: set<K>, k: nat, key: Ticket -> K)
    requires k < |pool| && key(pool[k]) !in barred
    ensures People(Remove(pool, k), key) - (barred + {key(pool[k])})
         == (People(pool, key) - barred) - {key(pool[k])}
    ensures |People(Remove(pool, k), key) - (barred + {key(pool[k])})|
         == |People(pool, key) - barred| - 1
  {
    var p := key(pool[k]);
    var r := Remove(pool, k);
    forall q | q in (People(pool, key) - barred) - {p}
      ensures q in People(r, key) - (barred + {p})
    {
      var t :| t in pool && key(t) == q;
      assert t != pool[k];
    }
    assert p in People(pool, key) - barred;
  }

  /** There is an eligible ticket exactly when there is an eligible person. */
  lemma EligibleTicketIffPerson<K>(pool: seq<Ticket>, barred: set<K>, key: Ticket -> K)
    ensures HasEligible(pool, barred, key) <==> |People(pool, key) - barred| > 0
  {
    if HasEligible(pool, barred, key) {
      var j :| 0 <= j < |pool| && key(pool[j]) !in barred;
      assert key(pool[j]) in People(pool, key) - barred;
    }
    if |People(pool, key) - barred| > 0 {
      var p :| p in People(pool, key) - barred;
      var t :| t in pool && key(t) == p;
      var j :| 0 <= j < |pool| && pool[j] == t;
      assert key(pool[j]) !in barred;
    }
  }
}
