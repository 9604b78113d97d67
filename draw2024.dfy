/** The 2024 draw application. A person is the pair (first name, last name)
    exactly as loaded. A restricted lot is one whose raw name is listed; on
    such a lot a person wins at most one copy, and the people who won it
    stay barred from it even across a reset. The copies are drawn ticket
    first, among the tickets of people who have not won the lot; the records
    carry no lot number. */
module Tirage2024 {
  import opened Records
  import opened Pool
  import opened LotGroups
  import opened Ledger

  /** `(row["Prénom"], row["Nom"])`: who holds a ticket. */
  function FullName(t: Ticket): (string, string) {
    (t.firstName, t.lastName)
  }

  /** The record's lot key: its raw lot name. */
  function LotOf(w: Winner): string {
    w.lot
  }

  /** `eligible_tickets`: the tickets, in order, whose holder is not barred. */
  function EligibleTickets(tickets: seq<Ticket>, barred: set<(string, string)>): (r: seq<Ticket>)
    ensures |r| <= |tickets|
  {
    if tickets == [] then []
    else (if FullName(tickets[0]) in barred then [] else [tickets[0]]) + EligibleTickets(tickets[1..], barred)
  }

  /** The source builds `eligible_tickets` through `eligible_people`, the
      holders of a ticket who are not barred; keeping the tickets whose
      holder is not barred selects the same tickets. */
  lemma {:induction false} EligibleTicketsByPeople(tickets: seq<Ticket>, barred: set<(string, string)>)
    ensures forall t :: t in EligibleTickets(tickets, barred) <==>
              t in tickets && FullName(t) in People(tickets, FullName) - barred
  {
    if tickets != [] {
      EligibleTicketsByPeople(tickets[1..], barred);
      assert tickets == [tickets[0]] + tickets[1..];
    }
  }

  /** The holders of a pool with their first ticket removed. */
  lemma PeopleCons(tickets: seq<Ticket>)
    requires tickets != []
    ensures People(tickets, FullName) == {FullName(tickets[0])} + People(tickets[1..], FullName)
  {
    assert tickets == [tickets[0]] + tickets[1..];
  }

  /** There are never more eligible people than eligible tickets: each
      eligible person holds an eligible ticket. */
  lemma {:induction false} EligiblePeopleAtMostTickets(tickets: seq<Ticket>, barred: set<(string, string)>)
    ensures |People(tickets, FullName) - barred| <= |EligibleTickets(tickets, barred)|
  {
    if tickets != [] {
      EligiblePeopleAtMostTickets(tickets[1..], barred);
      PeopleCons(tickets);
      var p := FullName(tickets[0]);
      var tail := People(tickets[1..], FullName) - barred;
      if p in barred {
        assert People(tickets, FullName) - barred == tail;
      } else {
        assert People(tickets, FullName) - barred == tail + {p};
      }
    }
  }

  /** Two tickets of one holder: two eligible tickets, one eligible person.
      A group of two copies then makes one record. */
  lemma OneHolderTwoTickets(t: Ticket, u: Ticket)
    requires FullName(t) == FullName(u)
    ensures |EligibleTickets([t, u], {})| == 2
    ensures |People([t, u], FullName) - {}| == 1
  {
    assert [t, u][1..] == [u];
    assert People([t, u], FullName) == {FullName(t)};
  }

  /** The loop of `draw_lots_group` for a restricted lot, `m` passes at
      most: each pass draws one of the tickets whose holder (by `key`) is
      not in `barred`, bars that holder and drops the ticket; the loop stops
      early when no eligible ticket is left. Every pass leaves one eligible
      person fewer, so the loop gives as many tickets as there are eligible
      people, at most `m`. */
  method TicketFirstDraw<K>(m: nat, tickets: seq<Ticket>, barred0: set<K>, key: Ticket -> K)
    returns (winners: seq<Ticket>, rest: seq<Ticket>, barred: set<K>,
             ghost stages: seq<Stage<set<K>>>, ghost ks: seq<nat>)
    ensures var p := |People(tickets, key) - barred0|; |winners| == (if p < m then p else m)
    ensures multiset(winners) + multiset(rest) == multiset(tickets)
    ensures Excludes(stages, ks, key) && Drawn(stages, ks) == winners
    ensures stages[0] == Stage(tickets, barred0) && Last(stages) == Stage(rest, barred)
    ensures winners == [] ==> rest == tickets
  {
    winners, rest, barred := [], tickets, barred0;
    stages, ks := [Stage(tickets, barred0)], [];
    ghost var p := |People(tickets, key) - barred0|;
    for i := 0 to m
      invariant |winners| == i && |rest| + i == |tickets| && (i == 0 ==> rest == tickets)
      invariant Excludes(stages, ks, key) && Drawn(stages, ks) == winners
      invariant stages[0] == Stage(tickets, barred0) && Last(stages) == Stage(rest, barred)
      invariant |People(rest, key) - barred| == p - i
    {
      if !HasEligible(rest, barred, key) {
        EligibleTicketIffPerson(rest, barred, key);
        break;
      }
      var k :| 0 <= k < |rest| && key(rest[k]) !in barred;
      var winner := rest[k];
      EligiblePeopleShrink(rest, barred, k, key);
      ExcludesExtend(stages, ks, key, k);
      stages, ks := stages + [Stage(Remove(rest, k), barred + {key(winner)})], ks + [k];
      winners, rest, barred := winners + [winner], Remove(rest, k), barred + {key(winner)};
    }
    RemovesConserve(stages, ks);
  }

  /** The restricted branch of `draw_lots_group` for the group of `n` rows
      at `at`: the lot gets an entry in the map if it has none; the number
      of copies is lowered to the number of eligible tickets, which is also
      how far the index moves; the loop then gives one record per eligible
      person, at most that many. */
  method RestrictedGroup(lot: Lot, n: nat, at: nat, excluded: map<string, set<(string, string)>>,
                         tickets: seq<Ticket>, ghost restricted: set<string>, ghost ledger: seq<Winner>)
    returns (results: seq<Winner>, rest: seq<Ticket>, next: nat, excluded': map<string, set<(string, string)>>,
             ghost drawn: seq<Ticket>, ghost stages: seq<Stage<set<(string, string)>>>, ghost ks: seq<nat>)
    requires OncePerPerson(ledger, excluded, restricted, LotOf, FullName)
    ensures multiset(drawn) + multiset(rest) == multiset(tickets)
    ensures results == BatchWinners(None, lot, drawn)
    ensures drawn == [] ==> rest == tickets
    ensures var barred0 := Barred(excluded, lot.name);
      var e, p := |EligibleTickets(tickets, barred0)|, |People(tickets, FullName) - barred0|;
      && next == at + (if e < n then e else n)
      && |drawn| == (if p < n then p else n) && p <= e
      && Excludes(stages, ks, FullName) && Drawn(stages, ks) == drawn
      && stages[0] == Stage(tickets, barred0) && Last(stages).pool == rest
      && excluded' == excluded[lot.name := Last(stages).barred]
    ensures OncePerPerson(ledger + results, excluded', restricted, LotOf, FullName)
  {
    var barred0 := Barred(excluded, lot.name);
    var eligible := |EligibleTickets(tickets, barred0)|;
    var m := if eligible < n then eligible else n;
    EligiblePeopleAtMostTickets(tickets, barred0);
    var winners, barred;
    winners, rest, barred, stages, ks := TicketFirstDraw(m, tickets, barred0, FullName);
    excluded' := excluded[lot.name := barred];
    drawn := winners;
    results, next := BatchWinners(None, lot, winners), at + m;
    BatchRecords(None, lot, drawn);
    OncePerPersonRestrictedBatch(ledger, excluded, restricted, LotOf, FullName, lot.name, results, stages, ks);
  }

  /** `draw_lots_group(tickets_df, lots_df, current_lot_index)`, with the
      raw names of the restricted lots `restricted` and the session's
      `restricted_winners_per_lot` map `excluded`; the map as the call
      leaves it is returned in `excluded'`. A restricted draw is described
      by the trace `stages`/`ks`. */
  method DrawLotsGroup(lots: seq<Lot>, restricted: set<string>, excluded: map<string, set<(string, string)>>,
                       tickets: seq<Ticket>, at: nat, ghost ledger: seq<Winner>)
    returns (results: Option<seq<Winner>>, rest: seq<Ticket>, next: nat, excluded': map<string, set<(string, string)>>,
             ghost drawn: seq<Ticket>, ghost stages: seq<Stage<set<(string, string)>>>, ghost ks: seq<nat>)
    requires OncePerPerson(ledger, excluded, restricted, LotOf, FullName)
    ensures multiset(drawn) + multiset(rest) == multiset(tickets)
    ensures OncePerPerson(ledger + (if results.Some? then results.value else []), excluded', restricted, LotOf, FullName)
    // every lot drawn already, or fewer tickets than copies
    ensures results.None? <==> at >= |lots| || |tickets| < GroupCount(lots, at)
    ensures results.None? ==> drawn == [] && rest == tickets && next == at && excluded' == excluded
    ensures drawn == [] ==> rest == tickets
    ensures results.Some? ==> at < |lots| && results.value == BatchWinners(None, lots[at], drawn)
                              && TicketsOf(results.value) == drawn && at + |drawn| <= next <= at + GroupCount(lots, at)
    // an unrestricted lot: every copy is drawn
    ensures results.Some? && lots[at].name !in restricted ==>
              excluded' == excluded && |drawn| == GroupCount(lots, at) && next == at + GroupCount(lots, at)
    // a restricted lot: one copy per eligible person, and the index moves by the eligible tickets
    ensures results.Some? && lots[at].name in restricted ==>
              var key, n := lots[at].name, GroupCount(lots, at);
              var e := |EligibleTickets(tickets, Barred(excluded, key))|;
              var p := |People(tickets, FullName) - Barred(excluded, key)|;
              && next == at + (if e < n then e else n)
              && |drawn| == (if p < n then p else n)
              && Excludes(stages, ks, FullName) && Drawn(stages, ks) == drawn
              && stages[0] == Stage(tickets, Barred(excluded, key)) && Last(stages).pool == rest
              && excluded' == excluded[key := Last(stages).barred]
  {
    drawn, stages, ks, excluded' := [], [], [], excluded;
    if at >= |lots| {
      assert ledger + [] == ledger;
      return None, tickets, at, excluded', drawn, stages, ks;
    }
    var lot := lots[at];
    var n := GroupSize(lots, at);
    if |tickets| < n {
      assert ledger + [] == ledger;
      return None, tickets, at, excluded', drawn, stages, ks;
    }
    if lot.name in restricted {
      var records;
      records, rest, next, excluded', drawn, stages, ks := RestrictedGroup(lot, n, at, excluded, tickets, restricted, ledger);
      BatchRecords(None, lot, drawn);
      return Some(records), rest, next, excluded', drawn, stages, ks;
    }
    var winners;
    winners, rest := Sample(tickets, n);
    drawn := winners;
    results, next := Some(BatchWinners(None, lot, winners)), at + n;
    BatchRecords(None, lot, drawn);
    OncePerPersonOtherBatch(ledger, excluded, restricted, LotOf, FullName, results.value);
  }

  /** The state of the application between two clicks. */
  class Session {
    /** `lots_df`, in drawing order. */
    const lots: seq<Lot>
    /** `load_data()[0]`: the ticket table as loaded; a reset restores it. */
    const loaded: seq<Ticket>
    /** `restricted_lots`, as a set of raw names. */
    const restricted: set<string>
    /** `tickets_df`: the tickets not drawn yet. */
    var pool: seq<Ticket>
    /** `current_lot_index`: the first lot row not drawn yet. */
    var cursor: nat
    /** `results`: every record drawn since the last reset. */
    var ledger: seq<Winner>
    /** `restricted_winners_per_lot`: for a restricted lot name, the people
        who have won it. */
    var excluded: map<string, set<(string, string)>>

    /** The cursor stays within the lot table; the tickets behind the ledger
        together with the pool are exactly the loaded tickets; and no person
        appears twice among the records of one restricted lot. */
    ghost predicate Valid()
      reads this
    {
      && cursor <= |lots|
      && multiset(TicketsOf(ledger)) + multiset(pool) == multiset(loaded)
      && OncePerPerson(ledger, excluded, restricted, LotOf, FullName)
    }

    /** A fresh session over the loaded tables. */
    constructor(lots: seq<Lot>, loaded: seq<Ticket>)
      ensures this.lots == lots && this.loaded == loaded && restricted == set x | x in RestrictedLots2024
      ensures pool == loaded && cursor == 0 && ledger == [] && excluded == map[]
      ensures Valid()
    {
      this.lots, this.loaded := lots, loaded;
      restricted := set x | x in RestrictedLots2024;
      pool, cursor, ledger, excluded := loaded, 0, [], map[];
    }

    /** The draw button: draw the group at the cursor; the pool and the map
        always become what the draw left, while the ledger and the cursor
        move only when the draw produced records. The cursor then passes the
        whole group, or, on a restricted lot, as many rows as there were
        eligible tickets, which may be more than the records made. */
    method DrawNext() returns (shown: seq<Winner>, ghost drawn: seq<Ticket>)
      requires Valid()
      modifies this
      ensures Valid()
      ensures ledger == old(ledger) + shown && TicketsOf(shown) == drawn
      ensures multiset(drawn) + multiset(pool) == multiset(old(pool))
      ensures shown == [] ==> cursor == old(cursor) && pool == old(pool)
      ensures shown != [] ==> old(cursor) < |lots|
                              && old(cursor) + |shown| <= cursor <= old(cursor) + GroupCount(lots, old(cursor))
      ensures old(cursor) >= |lots| || lots[old(cursor)].name !in restricted ==> excluded == old(excluded)
      // a group larger than the pool is not drawn
      ensures old(cursor) < |lots| && |old(pool)| < GroupCount(lots, old(cursor)) ==> shown == []
      // the records carry the group's lot and sponsor and no number
      ensures shown != [] ==> shown == BatchWinners(None, lots[old(cursor)], drawn)
      // an unrestricted group is drawn whole exactly when the pool covers it
      ensures old(cursor) < |lots| && lots[old(cursor)].name !in restricted ==>
                (shown != [] <==> GroupCount(lots, old(cursor)) <= |old(pool)|)
                && (shown != [] ==> |shown| == GroupCount(lots, old(cursor))
                                    && cursor == old(cursor) + GroupCount(lots, old(cursor)))
      // a restricted group the pool covers gets one record per eligible
      // person, at most one per copy, and the cursor passes one row per
      // eligible ticket, at most the group; the winners are distinct people
      // not barred from the lot before, and the lot's set grows by exactly
      // them (a reset keeps it, so they stay barred)
      ensures old(cursor) < |lots| && lots[old(cursor)].name in restricted
              && GroupCount(lots, old(cursor)) <= |old(pool)| ==>
                var key, n := lots[old(cursor)].name, GroupCount(lots, old(cursor));
                var e := |EligibleTickets(old(pool), Barred(old(excluded), key))|;
                var p := |People(old(pool), FullName) - Barred(old(excluded), key)|;
                && |shown| == (if p < n then p else n)
                && (shown != [] ==> cursor == old(cursor) + (if e < n then e else n))
                && BarredGrowth(old(excluded), excluded, key, drawn, FullName)
    {
      var results, rest, next, excluded', got, stages, ks := DrawLotsGroup(lots, restricted, excluded, pool, cursor, ledger);
      if results.Some? && lots[cursor].name in restricted {
        ExcludesGrowBarred(excluded, lots[cursor].name, FullName, stages, ks);
      }
      if results.Some? && results.value != [] {
        shown, drawn := results.value, got;
        TicketsOfAppend(ledger, shown);
        MoveDrawn(TicketsOf(ledger), pool, loaded, drawn, rest);
        ledger, cursor := ledger + shown, next;
      } else {
        shown, drawn := [], [];
        if results.Some? {
          assert ledger + results.value == ledger;
        } else {
          assert ledger + [] == ledger;
        }
      }
      pool, excluded := rest, excluded';
    }

    /** `reset_results` (its session part): back to the first lot, no
        records and the loaded tickets; the people who won a restricted lot
        stay barred from it. */
    method Reset()
      requires Valid()
      modifies this
      ensures cursor == 0 && ledger == [] && pool == loaded && excluded == old(excluded)
      ensures Valid()
    {
      cursor, ledger, pool := 0, [], loaded;
    }
  }
}
