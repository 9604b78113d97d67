/** The earlier 2025 draw application. A person is identified by the
    normalised e-mail address, or by the name key when the ticket has no
    usable address. On a restricted lot a person wins at most one copy, for
    the whole session: each copy is drawn by choosing a person among those
    who have not won the lot, then one of that person's tickets. The copies
    of an unrestricted lot all carry the one number of the group's first
    row; the copies of a restricted lot carry none. */
module Tirage2025v2 {
  import opened Text
  import opened Records
  import opened Pool
  import opened LotGroups
  import opened Ledger

  /** The ticket's e-mail address, normalised, is neither empty nor "nan". */
  predicate HasEmail(t: Ticket) {
    var e := Norm(t.email);
    e != "" && e != "nan"
  }

  /** `person_id`: `"email:" + norm(email)` when the address is usable,
      otherwise the name key. */
  function PersonId(t: Ticket): (r: string)
    ensures |r| >= 6 && (HasEmail(t) <==> r[..6] == "email:")
  {
    if HasEmail(t) then "email:" + Norm(t.email)
    else
      var k := NameKey(t);
      assert k[..6][0] == k[..5][0] == 'n';
      k
  }

  /** Two tickets belong to the same person exactly when both have a usable
      address and the addresses agree once normalised, or neither has one
      and their normalised names agree (provided no normalised first name
      contains "|"). An address-based id never equals a name-based one. */
  lemma PersonIdSame(a: Ticket, b: Ticket)
    requires '|' !in Norm(a.firstName) && '|' !in Norm(b.firstName)
    ensures PersonId(a) == PersonId(b) <==>
              if HasEmail(a) then HasEmail(b) && Norm(a.email) == Norm(b.email)
              else !HasEmail(b) && Norm(a.firstName) == Norm(b.firstName) && Norm(a.lastName) == Norm(b.lastName)
  {
    var x, y := PersonId(a), PersonId(b);
    if HasEmail(a) && HasEmail(b) {
      if x == y {
        assert Norm(a.email) == x[6..] && Norm(b.email) == y[6..];
      }
    } else if HasEmail(a) || HasEmail(b) {
      assert x[0] != y[0];
    } else {
      NameKeyInjective(a, b);
    }
  }

  /** The lot key of a record: its normalised lot name. */
  function NormLotOf(w: Winner): string {
    Norm(w.lot)
  }

  /** The loop of `draw_lots_group` for a restricted lot with `m` copies to
      give and at least `m` eligible people: each pass chooses a person (by
      `key`) who is not in `barred`, then one of that person's tickets, bars
      the person and drops the ticket. The `eligible_tickets.empty` exit can
      never be taken: every pass leaves exactly one eligible person fewer. */
  method PersonFirstDraw<K>(m: nat, tickets: seq<Ticket>, barred0: set<K>, key: Ticket -> K)
    returns (winners: seq<Ticket>, rest: seq<Ticket>, barred: set<K>,
             ghost stages: seq<Stage<set<K>>>, ghost ks: seq<nat>)
    requires m <= |People(tickets, key) - barred0|
    ensures |winners| == m
    ensures multiset(winners) + multiset(rest) == multiset(tickets)
    ensures Excludes(stages, ks, key) && Drawn(stages, ks) == winners
    ensures stages[0] == Stage(tickets, barred0) && Last(stages) == Stage(rest, barred)
  {
    winners, rest, barred := [], tickets, barred0;
    stages, ks := [Stage(tickets, barred0)], [];
    while |winners| < m
      invariant |winners| <= m && |rest| + |winners| == |tickets|
      invariant Excludes(stages, ks, key) && Drawn(stages, ks) == winners
      invariant stages[0] == Stage(tickets, barred0) && Last(stages) == Stage(rest, barred)
      invariant |People(rest, key) - barred| == |People(tickets, key) - barred0| - |winners|
    {
      var p :| p in People(rest, key) - barred;
      var k :| 0 <= k < |rest| && key(rest[k]) == p;
      EligiblePeopleShrink(rest, barred, k, key);
      ExcludesExtend(stages, ks, key, k);
      stages, ks := stages + [Stage(Remove(rest, k), barred + {p})], ks + [k];
      winners, rest, barred := winners + [rest[k]], Remove(rest, k), barred + {p};
    }
    RemovesConserve(stages, ks);
  }

  /** The restricted branch of `draw_lots_group` for the group of `n` rows
      at `at`, whose lot has the normalised name `key`: the lot gets an entry
      in the map if it has none; with nobody eligible the group is passed
      over without a record; otherwise as many copies as there are eligible
      people, at most `n`, are drawn person first, without a lot number. */
  method RestrictedGroup(lot: Lot, key: string, n: nat, at: nat,
                         excluded: map<string, set<string>>, tickets: seq<Ticket>,
                         ghost restricted: set<string>, ghost ledger: seq<Winner>)
    returns (results: Option<seq<Winner>>, rest: seq<Ticket>, next: nat, excluded': map<string, set<string>>,
             ghost drawn: seq<Ticket>, ghost stages: seq<Stage<set<string>>>, ghost ks: seq<nat>)
    requires 0 < n && key == Norm(lot.name)
    requires OncePerPerson(ledger, excluded, restricted, NormLotOf, PersonId)
    ensures results.Some? ==> TicketsOf(results.value) == drawn
    ensures OncePerPerson(ledger + (if results.Some? then results.value else []), excluded', restricted, NormLotOf, PersonId)
    ensures multiset(drawn) + multiset(rest) == multiset(tickets)
    ensures BarredGrowth(excluded, excluded', key, drawn, PersonId)
    ensures var eligible := |People(tickets, PersonId) - Barred(excluded, key)|;
      && key in excluded'
      && (eligible == 0 ==>
            results.None? && drawn == [] && rest == tickets && next == at + n
            && excluded' == excluded[key := Barred(excluded, key)] && Barred(excluded', key) == Barred(excluded, key))
      && (eligible > 0 ==>
            && results.Some? && |drawn| == (if eligible < n then eligible else n) && next == at + |drawn|
            && results.value == BatchWinners(None, lot, drawn)
            && Excludes(stages, ks, PersonId) && Drawn(stages, ks) == drawn
            && stages[0] == Stage(tickets, Barred(excluded, key)) && Last(stages).pool == rest
            && excluded' == excluded[key := Last(stages).barred])
  {
    drawn, stages, ks := [], [], [];
    var barred0 := Barred(excluded, key);
    excluded' := excluded[key := barred0];
    var eligible := |People(tickets, PersonId) - barred0|;
    if eligible == 0 {
      OncePerPersonNewEntry(ledger, excluded, restricted, NormLotOf, PersonId, key);
      BarredNewEntry(excluded, key);
      assert ledger + [] == ledger;
      NoDrawGrowsNothing(excluded, key, PersonId);
      // the group is passed over, but the caller ignores the new index
      return None, tickets, at + n, excluded', drawn, stages, ks;
    }
    var m := if eligible < n then eligible else n;
    var winners, barred;
    winners, rest, barred, stages, ks := PersonFirstDraw(m, tickets, barred0, PersonId);
    excluded' := excluded[key := barred];
    drawn := winners;
    results, next := Some(BatchWinners(None, lot, winners)), at + m;
    BatchRecords(None, lot, drawn);
    OncePerPersonRestrictedBatch(ledger, excluded, restricted, NormLotOf, PersonId, key, results.value, stages, ks);
    ExcludesGrowBarred(excluded, key, PersonId, stages, ks);
  }

  /** `draw_lots_group(tickets, lots, at)`, with the normalised names of the
      restricted lots `restricted` and the session's
      `restricted_winners_per_lot` map `excluded`; the map as the call leaves
      it is returned in `excluded'`. A restricted draw is described by the
      trace `stages`/`ks`. */
  method DrawLotsGroup(lots: seq<Lot>, restricted: set<string>, excluded: map<string, set<string>>,
                       tickets: seq<Ticket>, at: nat, ghost ledger: seq<Winner>)
    returns (results: Option<seq<Winner>>, rest: seq<Ticket>, next: nat, excluded': map<string, set<string>>,
             ghost drawn: seq<Ticket>, ghost stages: seq<Stage<set<string>>>, ghost ks: seq<nat>)
    requires OncePerPerson(ledger, excluded, restricted, NormLotOf, PersonId)
    ensures multiset(drawn) + multiset(rest) == multiset(tickets)
    ensures results.Some? ==> TicketsOf(results.value) == drawn
    // the records of the draw keep the promise of the restricted lots
    ensures OncePerPerson(ledger + (if results.Some? then results.value else []), excluded', restricted, NormLotOf, PersonId)
    ensures results.None? ==> drawn == [] && rest == tickets
    ensures results.Some? ==> at < |lots| && 0 < |drawn| <= GroupCount(lots, at) && next == at + |drawn|
    // every lot drawn already, or no ticket left
    ensures at >= |lots| || |tickets| == 0 ==> results.None? && next == at && excluded' == excluded
    // an unrestricted lot: all copies or nothing, all with the group's number
    ensures at < |lots| && |tickets| > 0 && Norm(lots[at].name) !in restricted ==>
              && excluded' == excluded
              && (results.None? <==> |tickets| < GroupCount(lots, at))
              && (results.None? ==> next == at)
              && (results.Some? ==> |drawn| == GroupCount(lots, at)
                                    && results.value == BatchWinners(Some(GroupLotNumber(lots[at], at)), lots[at], drawn))
    // a restricted lot: one copy per eligible person, at most
    ensures at < |lots| && |tickets| > 0 && Norm(lots[at].name) in restricted ==>
              var key, n := Norm(lots[at].name), GroupCount(lots, at);
              var eligible := |People(tickets, PersonId) - Barred(excluded, key)|;
              && BarredGrowth(excluded, excluded', key, drawn, PersonId)
              && (eligible == 0 ==> results.None? && next == at + n && excluded' == excluded[key := Barred(excluded, key)]
                                    && Barred(excluded', key) == Barred(excluded, key))
              && (eligible > 0 ==>
                    && results.Some? && |drawn| == (if eligible < n then eligible else n)
                    && results.value == BatchWinners(None, lots[at], drawn)
                    && Excludes(stages, ks, PersonId) && Drawn(stages, ks) == drawn
                    && stages[0] == Stage(tickets, Barred(excluded, key)) && Last(stages).pool == rest
                    && excluded' == excluded[key := Last(stages).barred])
  {
    drawn, stages, ks, excluded' := [], [], [], excluded;
    if at >= |lots| {
      return None, tickets, at, excluded', drawn, stages, ks;
    }
    var lot := lots[at];
    var n := GroupSize(lots, at);
    if |tickets| < 1 {
      return None, tickets, at, excluded', drawn, stages, ks;
    }
    var lotKey := Norm(lot.name);
    if lotKey in restricted {
      results, rest, next, excluded', drawn, stages, ks := RestrictedGroup(lot, lotKey, n, at, excluded, tickets, restricted, ledger);
      return;
    }
    if |tickets| < n {
      return None, tickets, at, excluded', drawn, stages, ks;
    }
    var winners;
    winners, rest := Sample(tickets, n);
    drawn := winners;
    results, next := Some(BatchWinners(Some(GroupLotNumber(lot, at)), lot, winners)), at + n;
    BatchRecords(results.value[0].lotNo, lot, drawn);
    OncePerPersonOtherBatch(ledger, excluded, restricted, NormLotOf, PersonId, results.value);
  }

  /** The state of the application between two clicks. */
  class Session {
    /** The lot table, in drawing order. */
    const lots: seq<Lot>
    /** The ticket table as loaded; a reset restores it. */
    const loaded: seq<Ticket>
    /** `restricted_lots_norm`: the normalised names of the restricted lots. */
    const restricted: set<string>
    /** `tickets_df`: the tickets not drawn yet. */
    var pool: seq<Ticket>
    /** `current_lot_index`: the first lot row not drawn yet. */
    var cursor: nat
    /** `results`: every record drawn so far. */
    var ledger: seq<Winner>
    /** `restricted_winners_per_lot`: for a normalised restricted lot name,
        the ids of the people who have won it. */
    var excluded: map<string, set<string>>

    /** The cursor stays within the lot table; the tickets behind the ledger
        together with the pool are exactly the loaded tickets; and no person
        appears twice among the records of one restricted lot. */
    ghost predicate Valid()
      reads this
    {
      && cursor <= |lots|
      && multiset(TicketsOf(ledger)) + multiset(pool) == multiset(loaded)
      && OncePerPerson(ledger, excluded, restricted, NormLotOf, PersonId)
    }

    /** A fresh session over the loaded tables. */
    constructor(lots: seq<Lot>, loaded: seq<Ticket>)
      ensures this.lots == lots && this.loaded == loaded && restricted == NormSet(RestrictedLots2025)
      ensures pool == loaded && cursor == 0 && ledger == [] && excluded == map[]
      ensures Valid()
    {
      this.lots, this.loaded, restricted := lots, loaded, NormSet(RestrictedLots2025);
      pool, cursor, ledger, excluded := loaded, 0, [], map[];
    }

    /** The draw button: draw the group at the cursor; the pool and the map
        always become what the draw left, while the ledger and the cursor
        move only when the draw produced records. When the lot at the cursor
        is restricted and nobody is eligible, nothing moves, and the session
        stays in that situation. */
    method DrawNext() returns (shown: seq<Winner>, ghost drawn: seq<Ticket>)
      requires Valid()
      modifies this
      ensures Valid()
      ensures ledger == old(ledger) + shown && TicketsOf(shown) == drawn
      ensures multiset(drawn) + multiset(pool) == multiset(old(pool))
      ensures shown == [] ==> cursor == old(cursor) && pool == old(pool)
      ensures shown != [] ==> old(cursor) < |lots| && cursor == old(cursor) + |shown|
                              && |shown| <= GroupCount(lots, old(cursor))
      ensures !(old(cursor) < |lots| && |old(pool)| > 0 && Norm(lots[old(cursor)].name) in restricted) ==>
                excluded == old(excluded)
      ensures old(cursor) < |lots| && |old(pool)| > 0 && Norm(lots[old(cursor)].name) in restricted ==>
                var key := Norm(lots[old(cursor)].name);
                |People(old(pool), PersonId) - Barred(old(excluded), key)| == 0 ==>
                  shown == [] && Barred(excluded, key) == Barred(old(excluded), key)
      // an unrestricted group is drawn whole, with the group's number, exactly
      // when the pool covers it
      ensures old(cursor) < |lots| && |old(pool)| > 0 && Norm(lots[old(cursor)].name) !in restricted ==>
                (shown != [] <==> GroupCount(lots, old(cursor)) <= |old(pool)|)
                && (shown != [] ==> shown == BatchWinners(Some(GroupLotNumber(lots[old(cursor)], old(cursor))),
                                                          lots[old(cursor)], drawn)
                                    && |shown| == GroupCount(lots, old(cursor)))
      // a restricted group gets one record per eligible person, at most one
      // per copy, without a number; the winners are distinct people not
      // barred from the lot before, and only the lot's own set in the map
      // changes, growing by exactly them
      ensures old(cursor) < |lots| && |old(pool)| > 0 && Norm(lots[old(cursor)].name) in restricted ==>
                var key, n := Norm(lots[old(cursor)].name), GroupCount(lots, old(cursor));
                var eligible := |People(old(pool), PersonId) - Barred(old(excluded), key)|;
                && |shown| == (if eligible < n then eligible else n)
                && shown == BatchWinners(None, lots[old(cursor)], drawn)
                && BarredGrowth(old(excluded), excluded, key, drawn, PersonId)
    {
      var results, rest, next, excluded', got, stages, ks := DrawLotsGroup(lots, restricted, excluded, pool, cursor, ledger);
      if results.Some? && results.value != [] {
        shown, drawn := results.value, got;
        TicketsOfAppend(ledger, shown);
        MoveDrawn(TicketsOf(ledger), pool, loaded, drawn, rest);
        ledger, cursor := ledger + shown, next;
      } else {
        assert results.None?;
        shown, drawn := [], [];
        assert ledger + [] == ledger;
      }
      pool, excluded := rest, excluded';
    }

    /** `reset_results` (its session part): back to the first lot, no
        records, the loaded tickets, and no restriction memory. */
    method Reset()
      modifies this
      ensures cursor == 0 && ledger == [] && pool == loaded && excluded == map[]
      ensures Valid()
    {
      cursor, ledger, pool, excluded := 0, [], loaded, map[];
    }
  }
}
