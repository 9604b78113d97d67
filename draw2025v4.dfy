/** The latest 2025 draw application. A person is identified by the name key
    (normalised first name and surname). On a restricted lot every copy is
    drawn per ticket among the tickets whose person has not won the lot in
    the current round; when nobody is left the round starts again. Each copy
    gets the lot number of its own lot row. */
module Tirage2025v4 {
  import opened Text
  import opened Records
  import opened Pool
  import opened LotGroups

  /** The result records of a group whose copies went to `drawn`, in order:
      copy `i` carries `numbers[i]`, the number of its own lot row, and the
      name and sponsor of the group's first row. */
  function GroupWinners(numbers: seq<LotNo>, lot: Lot, drawn: seq<Ticket>): (r: seq<Winner>)
    requires |drawn| <= |numbers|
    ensures |r| == |drawn|
  {
    seq(|drawn|, i requires 0 <= i < |drawn| => Winner(Some(numbers[i]), drawn[i], lot.name, lot.sponsor))
  }

  /** Copy `i` of a group of `n` goes to the `i`-th winning ticket and
      carries the lot number of lot row `at + i`, with the group's lot and
      sponsor; the records hold exactly the winning tickets. */
  lemma GroupWinnersCopies(lots: seq<Lot>, at: nat, n: nat, drawn: seq<Ticket>)
    requires at < |lots| && at + n <= |lots| && |drawn| <= n
    ensures TicketsOf(GroupWinners(CopyNumbers(lots, at, n), lots[at], drawn)) == drawn
    ensures forall i :: 0 <= i < |drawn| ==>
              GroupWinners(CopyNumbers(lots, at, n), lots[at], drawn)[i]
              == Winner(Some(GetLotNumber(lots[at + i], at + i)), drawn[i], lots[at].name, lots[at].sponsor)
  {
  }

  /** One pass of the restricted loop that draws the ticket at `k` of
      `s.pool`: when some ticket is eligible, the winner's person was not
      barred and is barred afterwards; otherwise the round starts again and
      the winner's person is the only one barred afterwards. */
  ghost predicate RoundStep(s: Stage<set<string>>, k: nat, s': Stage<set<string>>, key: Ticket -> string) {
    && k < |s.pool|
    && s'.pool == Remove(s.pool, k)
    && if HasEligible(s.pool, s.barred, key) then
         key(s.pool[k]) !in s.barred && s'.barred == s.barred + {key(s.pool[k])}
       else
         s'.barred == {key(s.pool[k])}
  }

  ghost predicate RoundTrace(stages: seq<Stage<set<string>>>, ks: seq<nat>, key: Ticket -> string) {
    && Removes(stages, ks)
    && forall i :: 0 <= i < |ks| ==> RoundStep(stages[i], ks[i], stages[i + 1], key)
  }

  lemma RoundTraceExtend(stages: seq<Stage<set<string>>>, ks: seq<nat>, key: Ticket -> string, k: nat, after: set<string>)
    requires RoundTrace(stages, ks, key) && k < |Last(stages).pool|
    requires RoundStep(Last(stages), k, Stage(Remove(Last(stages).pool, k), after), key)
    ensures RoundTrace(stages + [Stage(Remove(Last(stages).pool, k), after)], ks + [k], key)
    ensures Drawn(stages + [Stage(Remove(Last(stages).pool, k), after)], ks + [k])
         == Drawn(stages, ks) + [Last(stages).pool[k]]
  {
    RemovesExtend(stages, ks, k, after);
    var last := Stage(Remove(Last(stages).pool, k), after);
    var st, ps := stages + [last], ks + [k];
    forall i | 0 <= i < |ps| ensures RoundStep(st[i], ps[i], st[i + 1], key) {
      if i < |ks| {
        assert st[i] == stages[i] && st[i + 1] == stages[i + 1] && ps[i] == ks[i];
      } else {
        assert st[i] == Last(stages) && st[i + 1] == last && ps[i] == k;
      }
    }
  }

  /** A stretch of a round trace in which an eligible ticket was always
      left follows the plain exclusion rule, and draws the same tickets. */
  lemma RoundStretchExcludes(stages: seq<Stage<set<string>>>, ks: seq<nat>, key: Ticket -> string, a: nat, b: nat)
    requires RoundTrace(stages, ks, key) && a <= b <= |ks|
    requires forall i :: a <= i < b ==> HasEligible(stages[i].pool, stages[i].barred, key)
    ensures Excludes(stages[a..b + 1], ks[a..b], key)
    ensures Drawn(stages[a..b + 1], ks[a..b]) == Drawn(stages, ks)[a..b]
  {
    var st, ps := stages[a..b + 1], ks[a..b];
    forall i | 0 <= i < |ps|
      ensures ps[i] < |st[i].pool| && st[i + 1].pool == Remove(st[i].pool, ps[i])
      ensures key(st[i].pool[ps[i]]) !in st[i].barred
      ensures st[i + 1].barred == st[i].barred + {key(st[i].pool[ps[i]])}
    {
      assert st[i] == stages[a + i] && st[i + 1] == stages[a + i + 1] && ps[i] == ks[a + i];
      assert RoundStep(stages[a + i], ks[a + i], stages[a + i + 1], key);
    }
  }

  /** Between two round restarts nobody wins a restricted lot twice: over
      any stretch of draws in which an eligible ticket was always left, the
      winners' keys are pairwise distinct and none of them had won the lot
      in the round before the stretch. */
  lemma NoRepeatBetweenResets(stages: seq<Stage<set<string>>>, ks: seq<nat>, key: Ticket -> string, a: nat, b: nat)
    requires RoundTrace(stages, ks, key) && a <= b <= |ks|
    requires forall i :: a <= i < b ==> HasEligible(stages[i].pool, stages[i].barred, key)
    ensures forall i, j :: a <= i < j < b ==> key(Drawn(stages, ks)[i]) != key(Drawn(stages, ks)[j])
    ensures forall i :: a <= i < b ==> key(Drawn(stages, ks)[i]) !in stages[a].barred
  {
    var st, ps := stages[a..b + 1], ks[a..b];
    RoundStretchExcludes(stages, ks, key, a, b);
    ExcludesNoRepeat(st, ps, key);
    var d, e := Drawn(stages, ks), Drawn(st, ps);
    forall i, j | a <= i < j < b ensures key(d[i]) != key(d[j]) {
      assert d[i] == e[i - a] && d[j] == e[j - a];
    }
    forall i | a <= i < b ensures key(d[i]) !in stages[a].barred {
      assert d[i] == e[i - a] && e[i - a] in e;
    }
  }

  /** Whatever happened before, every restricted draw takes a ticket from
      the pool and leaves its winner's person barred for the rest of the
      round. */
  lemma WinnerBarredAfterDraw(stages: seq<Stage<set<string>>>, ks: seq<nat>, key: Ticket -> string, i: nat)
    requires RoundTrace(stages, ks, key) && i < |ks|
    ensures Drawn(stages, ks)[i] in stages[i].pool
    ensures key(Drawn(stages, ks)[i]) in stages[i + 1].barred
  {
    assert RoundStep(stages[i], ks[i], stages[i + 1], key);
  }

  /** The loop of `draw_lots_group` for a restricted lot: `n` copies, one
      ticket each, among the tickets whose person (the `_person_key` column,
      here `key`) is not in `barred0`, the lot's set; when no ticket is
      eligible the set is emptied, and the loop stops when the pool is.
      Returns the winning tickets in drawing order; copy `i`'s record depends
      only on `i` and its ticket, so the records are built from them by
      `GroupWinners`. */
  method RestrictedDraw(n: nat, tickets: seq<Ticket>, barred0: set<string>, key: Ticket -> string)
    returns (winners: seq<Ticket>, rest: seq<Ticket>, barred: set<string>,
             ghost stages: seq<Stage<set<string>>>, ghost ks: seq<nat>)
    ensures |winners| == (if |tickets| < n then |tickets| else n)
    ensures multiset(winners) + multiset(rest) == multiset(tickets)
    ensures RoundTrace(stages, ks, key) && Drawn(stages, ks) == winners
    ensures stages[0] == Stage(tickets, barred0) && Last(stages).pool == rest
    ensures barred == (if |winners| < n then {} else Last(stages).barred)
  {
    winners, rest, barred := [], tickets, barred0;
    stages, ks := [Stage(tickets, barred0)], [];
    while |winners| < n
      invariant |winners| <= n && |rest| + |winners| == |tickets|
      invariant RoundTrace(stages, ks, key) && Drawn(stages, ks) == winners
      invariant stages[0] == Stage(tickets, barred0) && Last(stages) == Stage(rest, barred)
    {
      if !HasEligible(rest, barred, key) {
        // everybody left has won in this round: start a new round
        barred := {};
        if |rest| == 0 {
          break;
        }
      }
      var k :| 0 <= k < |rest| && key(rest[k]) !in barred;
      var winner := rest[k];
      barred := barred + {key(winner)};
      RoundTraceExtend(stages, ks, key, k, barred);
      stages, ks := stages + [Stage(Remove(rest, k), barred)], ks + [k];
      winners := winners + [winner];
      rest := Remove(rest, k);
    }
    RemovesConserve(stages, ks);
  }

  /** The restricted branch of `draw_lots_group` for a group of `n` copies
      of the lot whose normalised name is `key`: the lot gets an empty set in
      the map if it has none, and the draw updates that set in place (it is
      the object the session map holds). */
  method RestrictedGroup(n: nat, tickets: seq<Ticket>, key: string, excluded: map<string, set<string>>)
    returns (winners: seq<Ticket>, rest: seq<Ticket>, excluded': map<string, set<string>>,
             ghost stages: seq<Stage<set<string>>>, ghost ks: seq<nat>)
    ensures |winners| == (if |tickets| < n then |tickets| else n)
    ensures multiset(winners) + multiset(rest) == multiset(tickets)
    ensures key in excluded' && excluded' == excluded[key := excluded'[key]]
    ensures RoundTrace(stages, ks, NameKey) && Drawn(stages, ks) == winners
    ensures stages[0] == Stage(tickets, if key in excluded then excluded[key] else {})
    ensures Last(stages).pool == rest
    ensures excluded'[key] == (if |winners| < n then {} else Last(stages).barred)
  {
    var barred0 := if key in excluded then excluded[key] else {};
    var barred;
    winners, rest, barred, stages, ks := RestrictedDraw(n, tickets, barred0, NameKey);
    excluded' := excluded[key := barred];
  }

  /** `draw_lots_group(tickets, lots, at)`, with the normalised names of the
      restricted lots `restricted` and the session's
      `restricted_winners_per_lot` map `excluded`; the map as the call leaves
      it is returned in `excluded'`. The restricted draw is described by the
      trace `stages`/`ks`: the pool and the lot's set of barred people before
      each winner, and the position drawn. */
  method DrawLotsGroup(lots: seq<Lot>, restricted: set<string>, excluded: map<string, set<string>>,
                       tickets: seq<Ticket>, at: nat)
    returns (results: Option<seq<Winner>>, rest: seq<Ticket>, next: nat, excluded': map<string, set<string>>,
             ghost drawn: seq<Ticket>, ghost stages: seq<Stage<set<string>>>, ghost ks: seq<nat>)
    ensures multiset(drawn) + multiset(rest) == multiset(tickets)
    ensures results.None? ==> drawn == [] && rest == tickets && next == at && excluded' == excluded
    ensures results.Some? ==> at < |lots| && 0 < |drawn| <= GroupCount(lots, at)
                              && results.value == GroupWinners(CopyNumbers(lots, at, GroupCount(lots, at)), lots[at], drawn)
                              && next == at + GroupCount(lots, at)
    // every lot drawn already, or no ticket left
    ensures at >= |lots| || |tickets| == 0 ==> results.None?
    // an unrestricted lot: all copies or nothing
    ensures at < |lots| && |tickets| > 0 && Norm(lots[at].name) !in restricted ==>
              && excluded' == excluded
              && (results.None? <==> |tickets| < GroupCount(lots, at))
              && (results.Some? ==> |drawn| == GroupCount(lots, at))
    // a restricted lot: one copy per ticket while tickets last
    ensures at < |lots| && |tickets| > 0 && Norm(lots[at].name) in restricted ==>
              var key, n := Norm(lots[at].name), GroupCount(lots, at);
              && results.Some?
              && |drawn| == (if |tickets| < n then |tickets| else n)
              && key in excluded' && excluded' == excluded[key := excluded'[key]]
              && RoundTrace(stages, ks, NameKey) && Drawn(stages, ks) == drawn
              && stages[0] == Stage(tickets, if key in excluded then excluded[key] else {})
              && Last(stages).pool == rest
              && excluded'[key] == (if |drawn| < n then {} else Last(stages).barred)
  {
    drawn, stages, ks, excluded' := [], [], [], excluded;
    if at >= |lots| {
      return None, tickets, at, excluded', drawn, stages, ks;
    }
    var lot0 := lots[at];
    var n := GroupSize(lots, at);
    if |tickets| < 1 {
      return None, tickets, at, excluded', drawn, stages, ks;
    }
    var lotKey := Norm(lot0.name);
    var numbers := CopyNumbers(lots, at, n);
    if lotKey in restricted {
      var winners;
      winners, rest, excluded', stages, ks := RestrictedGroup(n, tickets, lotKey, excluded);
      drawn := winners;
      return Some(GroupWinners(numbers, lot0, winners)), rest, at + n, excluded', drawn, stages, ks;
    }
    if |tickets| < n {
      return None, tickets, at, excluded', drawn, stages, ks;
    }
    var winners;
    winners, rest := Sample(tickets, n);
    drawn := winners;
    results, next := Some(GroupWinners(numbers, lot0, winners)), at + n;
  }

  /** The state of the application between two clicks. */
  class Session {
    /** The lot table, in drawing order. */
    const lots: seq<Lot>
    /** The ticket table as loaded; a reset restores it. */
    const loaded: seq<Ticket>
    /** `restricted_lots_norm`: the normalised names of the restricted lots. */
    const restricted: set<string>
    /** `tickets_df`: the tickets not drawn yet. */
    var pool: seq<Ticket>
    /** `current_lot_index`: the first lot row not drawn yet. */
    var cursor: nat
    /** `results`: every record drawn so far. */
    var ledger: seq<Winner>
    /** `restricted_winners_per_lot`: for a normalised restricted lot name,
        the name keys of the people who won it in the current round. */
    var excluded: map<string, set<string>>

    /** The cursor stays within the lot table, and the tickets behind the
        ledger together with the pool are exactly the loaded tickets. */
    ghost predicate Valid()
      reads this
    {
      && cursor <= |lots|
      && multiset(TicketsOf(ledger)) + multiset(pool) == multiset(loaded)
    }

    /** A fresh session over the loaded tables. */
    constructor(lots: seq<Lot>, loaded: seq<Ticket>)
      ensures this.lots == lots && this.loaded == loaded && restricted == NormSet(RestrictedLots2025)
      ensures pool == loaded && cursor == 0 && ledger == [] && excluded == map[]
      ensures Valid()
    {
      this.lots, this.loaded, restricted := lots, loaded, NormSet(RestrictedLots2025);
      pool, cursor, ledger, excluded := loaded, 0, [], map[];
    }

    /** The draw button: draw the group at the cursor; the pool always
        becomes what the draw left, while the ledger and the cursor move only
        when the draw produced records. */
    method DrawNext() returns (shown: seq<Winner>, ghost drawn: seq<Ticket>)
      requires Valid()
      modifies this
      ensures Valid()
      ensures ledger == old(ledger) + shown && TicketsOf(shown) == drawn
      ensures multiset(drawn) + multiset(pool) == multiset(old(pool))
      ensures shown == [] ==> cursor == old(cursor) && pool == old(pool)
      ensures shown != [] ==> old(cursor) < |lots| && cursor == old(cursor) + GroupCount(lots, old(cursor))
                              && |drawn| <= GroupCount(lots, old(cursor))
                              && shown == GroupWinners(CopyNumbers(lots, old(cursor), GroupCount(lots, old(cursor))),
                                                       lots[old(cursor)], drawn)
      ensures !(old(cursor) < |lots| && |old(pool)| > 0 && Norm(lots[old(cursor)].name) in restricted) ==>
                excluded == old(excluded)
      // an unrestricted group is drawn whole exactly when the pool covers it
      ensures old(cursor) < |lots| && |old(pool)| > 0 && Norm(lots[old(cursor)].name) !in restricted ==>
                (shown != [] <==> GroupCount(lots, old(cursor)) <= |old(pool)|)
                && (shown != [] ==> |shown| == GroupCount(lots, old(cursor)))
      // a restricted group gets one record per copy while tickets last, and
      // only the lot's own set in the map changes
      ensures old(cursor) < |lots| && |old(pool)| > 0 && Norm(lots[old(cursor)].name) in restricted ==>
                var key, n := Norm(lots[old(cursor)].name), GroupCount(lots, old(cursor));
                && |shown| == (if |old(pool)| < n then |old(pool)| else n)
                && key in excluded && excluded == old(excluded)[key := excluded[key]]
    {
      var results, rest, next, excluded', got, stages, ks := DrawLotsGroup(lots, restricted, excluded, pool, cursor);
      if results.Some? && results.value != [] {
        shown, drawn := results.value, got;
        GroupWinnersCopies(lots, cursor, GroupCount(lots, cursor), drawn);
        TicketsOfAppend(ledger, shown);
        MoveDrawn(TicketsOf(ledger), pool, loaded, drawn, rest);
        ledger, cursor := ledger + shown, next;
      } else {
        assert results.None?;
        shown, drawn := [], [];
      }
      pool, excluded := rest, excluded';
    }

    /** `reset_results` (its session part): back to the first lot, no
        records, the loaded tickets, and no restriction memory. */
    method Reset()
      modifies this
      ensures cursor == 0 && ledger == [] && pool == loaded && excluded == map[]
      ensures Valid()
    {
      cursor, ledger, pool, excluded := 0, [], loaded, map[];
    }
  }
}
