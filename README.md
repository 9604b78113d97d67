# Tombola draw engine — a Dafny model

This project models the charity-raffle ("tombola") tools of the Institut de
Myologie in Dafny, and proves properties of the model. It covers two parts.

The first is the preparation script `ProcessExcel.py`. It turns every sale
row into one ticket record per ticket bought. Each record gets a suffixed
ticket id (`<original>-1`, `<original>-2`, …), a running index, and a number
from a shuffled range 1..total.

The second is the group-draw engine of the Streamlit draw applications, in
their three versions:
- `TirageStreamlit_2025_4.py`;
- `TirageStreamlit_2025_2.py`;
- `TirageStreamlit_2024.py`.

Each click of "Tirer les prochains lots" finds the run of identical lot rows
(same "lot" and "offert par") at the cursor. It draws one winner per copy,
removes the winning tickets from the pool, appends the records to the
results, and moves the cursor. Some lots are "restricted": there, a person
may win the lot only once. The three versions differ on several points.

| | 2025_4 | 2025_2 | 2024 |
|---|---|---|---|
| person | name key `name:<first>\|<last>` (normalised) | normalised e-mail, else name key | raw (Prénom, Nom) pair |
| restricted lot | normalised name in normalised list | normalised name in normalised list | raw name in list |
| draw on a restricted lot | per ticket among the eligible tickets | a person first, then one of their tickets | per ticket among the eligible tickets |
| nobody eligible | the lot's set is emptied and a new round starts | the group shrinks to the eligible people | the group shrinks to the eligible *tickets* |
| lot number | one per copy, from that copy's own row | one per group (unrestricted), none (restricted) | none |
| reset | clears the restriction map | clears the restriction map | keeps the restriction map |

Modules:
- `Text` models `norm_text`, `format_name`, `format_last_name` and the
  character-level `strip`, `casefold`, `upper` and `capitalize`.
- `Records` holds the tickets, lots, result records, the name key and the
  public export (the surname reduced to its initial).
- `Pool` covers ticket removal, sampling without replacement, ticket-id
  uniqueness, and ghost traces of a sequential restricted draw.
- `LotGroups` covers the group scan, `get_lot_number`, the 2025_2 group
  number, and the lists of restricted lots.
- `Ledger` states "a person wins a restricted lot at most once" over a whole
  session.
- `Tirage2025v4`, `Tirage2025v2` and `Tirage2024` each hold a `Session`
  class. Its fields are the lot table, the loaded tickets, the pool
  (`tickets_df`), the cursor (`current_lot_index`), the ledger (`results`)
  and the restriction map (`restricted_winners_per_lot`). Each module has a
  heap-free `DrawLotsGroup` method and the methods `DrawNext` (the button
  handler) and `Reset`.
- `ProcessExcel` covers the total, the participant count, the shuffled
  numbers and the expansion loop.

`DataFrame.sample` and `random.shuffle` are nondeterministic choices (`:|`).
Every property proved holds for every choice.

`sample(n)` followed by `drop` is modelled as `n` successive single picks
from the remaining pool (`Pool.Sample`).

In each variant the button handler reassigns the pool on every click. It
extends the results and moves the cursor only when the draw returned a
non-empty list. This has consequences that the model keeps as written:

- **2025_2, nobody eligible.** A restricted lot on which nobody is eligible
  returns `None` with a cursor past the group. The handler throws that
  cursor away, so the session stays on the group. `DrawNext` proves that
  the click changes nothing: no records, the cursor and pool unchanged, the
  lot's barred set unchanged.
- **2025_2, unreachable break.** The `eligible_tickets.empty` exit inside
  the person-first loop is never taken. Every pass removes exactly one
  eligible person, and the loop runs at most as many times as there are
  eligible people (`Pool.EligiblePeopleShrink`).
- **2024, cursor versus records.** The group shrinks to the number of
  eligible *tickets*, and the cursor moves by that number. The loop,
  however, makes one record per eligible *person*. So with one holder of
  two tickets, the cursor passes two copies and only one record is written
  (`Tirage2024.OneHolderTwoTickets`).
- **Restricted copies left over.** In 2025_2 and 2024, copies beyond the
  lowered count of a restricted draw are not skipped: the cursor moves only
  past the copies counted, and the next click starts on the remaining
  copies. In 2024, copies within the lowered count can still be skipped
  (previous bullet).

Four behaviours of the code are easy to miss, and the model keeps them:
- the 2024 reset keeps the restriction map (`TirageStreamlit_2024.py:57-66`
  assigns the cursor, the results and the pool, never the map);
- the public export keeps the e-mail address (`TirageStreamlit_2025_4.py:106`,
  `TirageStreamlit_2024.py:51`);
- in 2025_2 and 2024 the cursor can move by less than a whole group
  (`TirageStreamlit_2025_2.py:171`, `TirageStreamlit_2024.py:141`);
- the latest variant draws restricted lots per ticket, not person first
  (`TirageStreamlit_2025_4.py:205-218`).

A lot-table row whose "lot" or "offert par" cell is empty (NaN) compares
equal to no row, not even to another empty one, so it always forms a group
of one (`LotGroups.MissingCellAlone`).

## Model

| member | source | states |
|---|---|---|
| Text.LowerChar | TirageStreamlit_2025_4.py:39 | casefold on one character: an upper-case letter becomes its lower-case letter, anything else is kept |
| Text.UpperChar | TirageStreamlit_2025_4.py:102 | `upper` on one character: a lower-case letter becomes its upper-case letter, anything else is kept |
| Text.CaseMappings | TirageStreamlit_2025_4.py:39 | upper and lower are idempotent, each absorbs the other, and both keep uncased characters and white space |
| Text.TrimStartDropsSpaces | TirageStreamlit_2025_4.py:39 | `lstrip` leaves a suffix of the text that does not start with white space, and only white space was removed |
| Text.TrimEndDropsSpaces | TirageStreamlit_2025_4.py:39 | `rstrip` leaves a prefix of the text that does not end with white space, and only white space was removed |
| Text.StripKeepsMiddle | TirageStreamlit_2025_4.py:39 | `strip` is the contiguous middle of the text, bounded by non-space characters, with only white space cut on either side |
| Text.Strip | TirageStreamlit_2025_4.py:39 | `strip()` is no longer than the text and neither starts nor ends with white space |
| Text.CaseFold | TirageStreamlit_2025_4.py:39 | `casefold()` keeps the length, leaves no upper-case letter, and keeps white space where it was |
| Text.Norm | TirageStreamlit_2025_4.py:37-39 | `norm_text` is no longer than the text, neither starts nor ends with white space, and holds no upper-case letter |
| Text.NormIdempotent | TirageStreamlit_2025_4.py:37-39 | `norm_text` has no white space at either end and no upper-case letter, and normalising again changes nothing |
| Text.Split | TirageStreamlit_2025_4.py:131 | `s.split(sep)` always has at least one part (`"".split("-") == [""]`) |
| Text.Join | TirageStreamlit_2025_4.py:131 | `sep.join(parts)` starts with the first part, followed by the separator when a second part follows |
| Text.SplitJoinRoundTrip | TirageStreamlit_2025_4.py:131 | `sep.join(s.split(sep)) == s`, and no part contains the separator |
| Text.Recase | TirageStreamlit_2025_4.py:129-141 | the recased text has the same length; its first character is upper-cased (at a word start) or lower-cased, and every later character is upper-cased exactly when it follows a separator, lower-cased otherwise |
| Text.Capitalize | TirageStreamlit_2025_4.py:131 | `capitalize()` keeps the length, upper-cases the first character and lower-cases every other one |
| Text.CapitalizeEach | TirageStreamlit_2025_4.py:131 | the list comprehension capitalises every part, in order |
| Text.FormatEachName | TirageStreamlit_2025_4.py:137-140 | every space-separated segment is formatted like a first name, in order |
| Text.JoinRecase | TirageStreamlit_2025_4.py:137-140 | joining recased parts at an uncased separator recases the whole text, with the separator as one more word boundary |
| Text.FormatName | TirageStreamlit_2025_4.py:129-131 | `format_name` is one recasing pass: the first character and each character after "-" upper-cased, all others lower-cased |
| Text.FormatLastName | TirageStreamlit_2025_4.py:134-141 | `format_last_name` is one recasing pass with both " " and "-" as word boundaries |
| Text.RecaseIdempotent | TirageStreamlit_2025_4.py:129-141 | recasing a recased text changes nothing |
| Text.FormatIdempotent | TirageStreamlit_2025_4.py:129-141 | both formatters keep the length and are idempotent |
| Text.FormatLastNameInitial | TirageStreamlit_2025_4.py:102 | the first character of a formatted surname is the upper-cased first character of the raw surname |
| Records.BatchWinners | TirageStreamlit_2025_2.py:194-201 | one record per drawn ticket |
| Records.TicketsOfAppend | TirageStreamlit_2025_4.py:325 | the tickets behind an extended ledger are the old ones followed by the new batch's |
| Records.BatchRecords | TirageStreamlit_2025_2.py:194-201 | restricted records: record `i` is drawn ticket `i` with the lot's name and sponsor, in draw order |
| Records.NameKey | TirageStreamlit_2025_4.py:52-55 | `_person_key` starts with `name:` and holds the separator "\|" |
| Records.SeparatedInjective | TirageStreamlit_2025_4.py:55 | `p + x + "\|" + y` determines `x` and `y` when `x` has no "\|" (both directions) |
| Records.NameKeyInjective | TirageStreamlit_2025_4.py:52-55 | two tickets share a name key iff their normalised first names and surnames agree |
| Records.Redact | TirageStreamlit_2025_4.py:102 | `Nom[0].upper() + "."` is two characters, an initial that is never a lower-case letter and a dot; an uncased first character is kept as it is |
| Records.Export2025 | TirageStreamlit_2025_4.py:95-110 | one export row per result record |
| Records.Export2024 | TirageStreamlit_2024.py:41-54 | one export row per result record, without a lot-number column |
| Records.ExportRedactsSurname | TirageStreamlit_2025_4.py:99-107 | a record can be exported iff the surname is not empty; its row is the first name, the surname's upper-cased initial plus ".", and the ticket id, lot, sponsor and e-mail |
| Records.RedactableAppend | TirageStreamlit_2025_4.py:98 | results can be exported iff both parts of a concatenation can |
| Records.Export2025Append | TirageStreamlit_2025_4.py:97-108 | exporting the extended results is the old export followed by the batch's |
| Records.Export2024Append | TirageStreamlit_2024.py:43-53 | the same for the 2024 export |
| Pool.Remove | TirageStreamlit_2025_4.py:235 | dropping a row leaves one row fewer, the multiset minus exactly that row, every other row kept |
| Pool.TwoOccurrences | TirageStreamlit_2025_4.py:246 | a value counted twice in a multiset sits at two positions |
| Pool.DistinctByPermutation | TirageStreamlit_2025_4.py:246 | pairwise-distinct keys survive any permutation |
| Pool.NoTicketDrawnTwice | TirageStreamlit_2025_4.py:245-246 | with unique ticket ids, the drawn tickets are pairwise distinct and none of them stays in the pool |
| Pool.LedgerIdsDistinct | TirageStreamlit_2025_4.py:320-325 | no ticket id appears twice in the session's results, nor in both the results and the pool |
| Pool.MoveDrawn | TirageStreamlit_2025_4.py:320-325 | moving drawn tickets from the pool to the results keeps their union equal to the loaded tickets |
| Pool.Sample | TirageStreamlit_2025_4.py:245-246 | `sample(n)` then `drop`: `n` tickets picked, the rest is the pool minus exactly those |
| Pool.Drawn | TirageStreamlit_2025_4.py:218 | one drawn ticket per step of a trace |
| Pool.RemovesConserve | TirageStreamlit_2025_4.py:235 | over a sequential draw, the drawn tickets plus the final pool are the initial pool |
| Pool.RemovesExtend | TirageStreamlit_2025_4.py:235 | a trace extended by one drop draws one more ticket, the dropped row |
| Pool.KeysAppend | TirageStreamlit_2025_2.py:204 | the people of a drawn list grow by the new winner |
| Pool.DistinctByAppend | TirageStreamlit_2025_2.py:204 | a winner new to the list keeps the list's people distinct |
| Pool.ExcludesExtend | TirageStreamlit_2025_2.py:204-207 | drawing a non-barred person's ticket and barring that person extends an exclusion trace |
| Pool.ExcludesNoRepeat | TirageStreamlit_2025_2.py:177-207 | in an exclusion trace, no person wins twice, none was barred before, and the final barred set is the initial one plus the winners |
| Pool.EligiblePeopleShrink | TirageStreamlit_2025_2.py:204-207 | drawing one eligible person's ticket and barring them leaves exactly one eligible person fewer |
| Pool.EligibleTicketIffPerson | TirageStreamlit_2025_2.py:183 | there is an eligible ticket iff there is an eligible person |
| LotGroups.RunFrom | TirageStreamlit_2025_4.py:171-176 | the run from a position stays inside the lot table |
| LotGroups.GroupCount | TirageStreamlit_2025_4.py:168-176 | `group_count >= 1` and `cursor + group_count <= len(lots)` |
| LotGroups.RunFromMaximal | TirageStreamlit_2025_4.py:171-176 | every row of the run is a copy of the anchor, and the row after it is not (or the table ends) |
| LotGroups.GroupIsMaximalRun | TirageStreamlit_2025_4.py:168-176 | the group is the maximal run of copies of the lot at the cursor |
| LotGroups.MaximalRunUnique | TirageStreamlit_2025_4.py:168-176 | there is only one maximal run at a position |
| LotGroups.MissingCellAlone | TirageStreamlit_2025_4.py:171-176 | a row whose "lot" or "offert par" cell is NaN is a group of one, since NaN compares equal to nothing |
| LotGroups.GroupSize | TirageStreamlit_2025_4.py:168-176 | the `while` scan computes exactly that maximal run |
| LotGroups.FirstUsable | TirageStreamlit_2025_4.py:71-73 | a found candidate is in range and usable |
| LotGroups.FirstUsableIsFirst | TirageStreamlit_2025_4.py:71-74 | the search finds the first usable candidate, and finds none iff no candidate is usable |
| LotGroups.GetLotNumber | TirageStreamlit_2025_4.py:59-74 | a number read from a column is a non-NaN cell of the row; otherwise it is `fallback_index + 1` |
| LotGroups.GetLotNumberFirstPresent | TirageStreamlit_2025_4.py:59-74 | the number is the first candidate column present and not NaN; if there is none (and only then) it is `index + 1` |
| LotGroups.CopyNumbers | TirageStreamlit_2025_4.py:187-190 | one lot number per copy of the group |
| LotGroups.GroupLotNumber | TirageStreamlit_2025_2.py:222 | the group's number is a cell of the row (possibly NaN), otherwise `cursor + 1` |
| LotGroups.GroupLotNumberFirstPresent | TirageStreamlit_2025_2.py:222 | the nested `get`: the first of the three columns the row has, NaN or not; `cursor + 1` iff the row has none of them |
| LotGroups.NormSet | TirageStreamlit_2025_4.py:156 | `restricted_lots_norm` holds the normalised form of every listed name, and nothing else |
| LotGroups.NormalisedMatchIgnoresCase | TirageStreamlit_2025_4.py:194 | a lot name and its normalised form are restricted alike |
| LotGroups.NormalisedMatchListed | TirageStreamlit_2025_4.py:156 | a name is restricted iff some listed name normalises to the same text |
| Ledger.Barred | TirageStreamlit_2024.py:99 | `get(lot, set())`: a lot without an entry bars nobody |
| Ledger.BarredNewEntry | TirageStreamlit_2025_2.py:147-148 | creating an empty entry for a lot bars nobody new |
| Ledger.OncePerPersonRestrictedBatch | TirageStreamlit_2025_2.py:177-207 | a restricted draw following the exclusion rule keeps "a person wins a restricted lot at most once" over the whole ledger |
| Ledger.OncePerPersonOtherBatch | TirageStreamlit_2025_2.py:211-231 | records of unrestricted lots keep that promise |
| Ledger.OncePerPersonNewEntry | TirageStreamlit_2025_2.py:147-148 | adding the empty entry keeps that promise |
| Ledger.ExcludesGrowBarred | TirageStreamlit_2025_2.py:177-207 | a draw following the exclusion rule, its final set stored under the lot, leaves the other entries alone, has distinct winners none of whom was barred, and grows the lot's set by exactly them |
| Tirage2025v4.GroupWinners | TirageStreamlit_2025_4.py:221-229 | one record per drawn ticket |
| Tirage2025v4.GroupWinnersCopies | TirageStreamlit_2025_4.py:186-190 | record `i` is drawn ticket `i` with the lot number of lot row `cursor + i` and the first row's name and sponsor |
| Tirage2025v4.RoundTraceExtend | TirageStreamlit_2025_4.py:202-235 | one more pass of the round-reset loop extends its trace by the dropped ticket |
| Tirage2025v4.RoundStretchExcludes | TirageStreamlit_2025_4.py:204-210 | between two round resets the loop follows the exclusion rule |
| Tirage2025v4.NoRepeatBetweenResets | TirageStreamlit_2025_4.py:204-210 | between two round resets no person wins twice, and nobody barred at the stretch's start wins |
| Tirage2025v4.WinnerBarredAfterDraw | TirageStreamlit_2025_4.py:232 | every winner was in the pool and is in the lot's set after their draw |
| Tirage2025v4.RestrictedDraw | TirageStreamlit_2025_4.py:194-237 | min(copies, pool) tickets drawn per the round-reset rule; the set is left empty iff the loop stopped early |
| Tirage2025v4.RestrictedGroup | TirageStreamlit_2025_4.py:194-237 | the lot gets a set in the map if it has none; min(copies, pool) tickets drawn per the round trace; only the lot's set changes, and it ends empty iff the pool ran out |
| Tirage2025v4.DrawLotsGroup | TirageStreamlit_2025_4.py:162-260 | None with nothing changed when all lots are drawn, the pool is empty, or an unrestricted group is short; otherwise the pool loses exactly the drawn tickets and the cursor moves past the group; unrestricted draws every copy; restricted draws min(copies, pool) per the round trace, only the lot's entry changing |
| Tirage2025v4.Session.constructor | TirageStreamlit_2025_4.py:307-312 | cursor 0, empty results, the loaded pool, an empty map, and the invariant |
| Tirage2025v4.Session.DrawNext | TirageStreamlit_2025_4.py:319-331 | the invariant is kept; the ledger grows by exactly the shown records, one per copy with that copy's lot number; nothing moves on an empty draw; an unrestricted group is drawn whole exactly when the pool covers it; a restricted group with tickets left gets min(copies, pool) records and only its own set in the map changes; the cursor moves past the whole group |
| Tirage2025v4.Session.Reset | TirageStreamlit_2025_4.py:113-126 | cursor 0, empty results, the loaded pool, an empty map |
| Tirage2025v2.PersonId | TirageStreamlit_2025_2.py:88-101 | `person_id` starts with `email:` exactly when the ticket has a usable address |
| Tirage2025v2.PersonIdSame | TirageStreamlit_2025_2.py:88-101 | two tickets share a person id iff both have usable matching e-mails, or neither has one and their names match; an e-mail id never equals a name id |
| Tirage2025v2.PersonFirstDraw | TirageStreamlit_2025_2.py:177-207 | with at least `m` eligible people, `m` passes each pick a non-barred person and one of their tickets, and bar that person |
| Tirage2025v2.RestrictedGroup | TirageStreamlit_2025_2.py:145-209 | nobody eligible: None, the cursor past the group, the set unchanged; else min(copies, eligible people) records without a lot number, the cursor moving by that many, the lot's set grown by the winners, and the once-per-person promise kept |
| Tirage2025v2.DrawLotsGroup | TirageStreamlit_2025_2.py:122-231 | all drawn or an empty pool: None, nothing changed; unrestricted: all copies with the group's one number or None on shortage; restricted as above |
| Tirage2025v2.Session.constructor | TirageStreamlit_2025_2.py:274-281 | cursor 0, empty results, the loaded pool, an empty map, and the invariant |
| Tirage2025v2.Session.DrawNext | TirageStreamlit_2025_2.py:288-297 | the invariant (with once-per-person) is kept; the ledger grows by the shown records and the cursor by their number; an empty draw moves nothing, even when the draw skipped the group; an unrestricted group is drawn whole, with the group's number, exactly when the pool covers it; a restricted group gets min(copies, eligible people) records without a number, won by distinct people none of whom was barred from the lot, and only its own set in the map changes, growing by exactly those people |
| Tirage2025v2.Session.Reset | TirageStreamlit_2025_2.py:57-67 | cursor 0, empty results, the loaded pool, an empty map |
| Tirage2024.EligibleTickets | TirageStreamlit_2024.py:131-132 | at most the pool's tickets |
| Tirage2024.EligibleTicketsByPeople | TirageStreamlit_2024.py:126-132 | a ticket is eligible iff it is in the pool and its holder is an eligible person |
| Tirage2024.PeopleCons | TirageStreamlit_2024.py:127 | the people of a pool are the first holder plus the people of the rest |
| Tirage2024.EligiblePeopleAtMostTickets | TirageStreamlit_2024.py:134-141 | there are never more eligible people than eligible tickets |
| Tirage2024.OneHolderTwoTickets | TirageStreamlit_2024.py:134-141 | one holder of two tickets: two eligible tickets but one eligible person |
| Tirage2024.TicketFirstDraw | TirageStreamlit_2024.py:143-174 | up to `m` passes drawing eligible tickets and barring their holders give min(eligible people, m) winners |
| Tirage2024.RestrictedGroup | TirageStreamlit_2024.py:121-177 | the cursor moves by min(copies, eligible tickets), records number min(copies, eligible people), the lot's set grows by the winners, and the promise is kept |
| Tirage2024.DrawLotsGroup | TirageStreamlit_2024.py:101-195 | None iff all lots are drawn or the pool is smaller than the group, and then nothing changes; unrestricted: every copy drawn; restricted as above |
| Tirage2024.Session.constructor | TirageStreamlit_2024.py:238-245 | cursor 0, empty results, the loaded pool, an empty map, and the invariant |
| Tirage2024.Session.DrawNext | TirageStreamlit_2024.py:252-261 | the invariant (with once-per-person) is kept; the ledger grows by the shown records, without a lot number; an empty draw moves nothing; a group larger than the pool is not drawn; an unrestricted group is drawn whole exactly when the pool covers it; on a restricted group the pool covers, min(copies, eligible people) records are made, the cursor passes min(copies, eligible tickets) rows when there are records, the winners are distinct people none of whom was barred from the lot, and only the lot's set in the map changes, growing by exactly them (a reset keeps the map, so they stay barred) |
| Tirage2024.Session.Reset | TirageStreamlit_2024.py:57-66 | cursor 0, empty results, the loaded pool, and the restriction map kept as it was |
| ProcessExcel.TokenPrefix | ProcessExcel.py:23 | the token is a prefix of the text without white space, and it ends at the end of the text or at white space |
| ProcessExcel.FirstToken | ProcessExcel.py:23 | `split()[0]` fails iff the text is all white space; otherwise the token is non-empty and holds no white space |
| ProcessExcel.TokenPrefixOf | ProcessExcel.py:23 | the token of `tok + post` is `tok` when `post` starts with white space |
| ProcessExcel.TrimStartPast | ProcessExcel.py:23 | leading white space is skipped exactly |
| ProcessExcel.FirstTokenOf | ProcessExcel.py:23 | `split()[0]` of white space, a token and a tail is the token |
| ProcessExcel.NoTokenInSpaces | ProcessExcel.py:23 | a blank tariff has no first token (the `IndexError`) |
| ProcessExcel.ParseInt | ProcessExcel.py:23 | `int(tok)` succeeds only on a token holding a digit, and gives a negative value only after a leading "-" |
| ProcessExcel.DecimalString | ProcessExcel.py:58 | `str(n)` is a non-empty string of digits |
| ProcessExcel.DecimalDigitsValue | ProcessExcel.py:58 | the digits of `str(n)` have value `n` |
| ProcessExcel.DecimalRoundTrip | ProcessExcel.py:23 | `int(str(n)) == n` and `int("-" + str(n)) == -n` |
| ProcessExcel.DecimalInjective | ProcessExcel.py:58 | different copy numbers have different decimal strings |
| ProcessExcel.TicketCount | ProcessExcel.py:23 | a blank tariff has no count |
| ProcessExcel.TicketCountOf | ProcessExcel.py:23 | a tariff "`n` word" counts `n` tickets |
| ProcessExcel.Sum | ProcessExcel.py:23 | the sum of counts none of which is negative is not negative |
| ProcessExcel.TotalTickets | ProcessExcel.py:23 | `total_tickets` exists iff every tariff parses, and is not negative when no count is |
| ProcessExcel.Counts | ProcessExcel.py:23 | one count per sale row |
| ProcessExcel.MadeIsSum | ProcessExcel.py:50-61 | with no negative count the rows make exactly `total_tickets` records |
| ProcessExcel.MadeMonotone | ProcessExcel.py:50 | earlier rows make no more records than all rows |
| ProcessExcel.RowEntries | ProcessExcel.py:51-61 | one record per copy of a row |
| ProcessExcel.Expansion | ProcessExcel.py:50-61 | as many records as the rows make |
| ProcessExcel.ExpansionAt | ProcessExcel.py:50-61 | copy `i` of row `r` sits right after the earlier rows' records, with index position + 1, the row's names and e-mail, id `orig-(i+1)` and the number at its position |
| ProcessExcel.ExpansionLocate | ProcessExcel.py:50-61 | every record position is some copy of some row |
| ProcessExcel.ExpansionIndexes | ProcessExcel.py:54 | the k-th record has index k + 1 and the k-th shuffled number |
| ProcessExcel.LastDash | ProcessExcel.py:58 | in `orig-digits` the last dash precedes the digits |
| ProcessExcel.SuffixedInjective | ProcessExcel.py:58 | `orig-n` determines `orig` and `n` |
| ProcessExcel.CopyIdsDiffer | ProcessExcel.py:58 | two copies of one row, or of rows with different original ids, get different ids |
| ProcessExcel.ExpandedIdsDistinct | ProcessExcel.py:58 | distinct original ids give pairwise distinct expanded ids |
| ProcessExcel.MadeStep | ProcessExcel.py:50-52 | one more row makes its count of records more |
| ProcessExcel.ExpansionStep | ProcessExcel.py:50-61 | the expansion of one more row appends that row's records |
| ProcessExcel.RowEntriesStep | ProcessExcel.py:52-61 | one more copy appends one record |
| ProcessExcel.ExpandRow | ProcessExcel.py:52-61 | the inner loop appends that row's records, or fails iff the numbers run out |
| ProcessExcel.ExpandSales | ProcessExcel.py:44-61 | the loop produces exactly the expansion, and fails iff the numbers run out |
| ProcessExcel.Range | ProcessExcel.py:40 | `range(lo, hi)` has `hi - lo` elements (none if `hi <= lo`) |
| ProcessExcel.Shuffle | ProcessExcel.py:41 | the shuffle permutes the list in place |
| ProcessExcel.PermutationOfRange | ProcessExcel.py:39-41 | a permutation of 1..total has `total` pairwise distinct numbers, exactly 1..total |
| ProcessExcel.UniqueColumn | ProcessExcel.py:59 | records copying such numbers have pairwise distinct numbers, exactly 1..total |
| ProcessExcel.ExpandedNumbers | ProcessExcel.py:39-61 | with no negative count, `total_tickets` records whose "Nombre unique" values are pairwise distinct and exactly 1..total |
| ProcessExcel.ProcessSales | ProcessExcel.py:23-61 | the script computes `total_tickets`; it completes when no count is negative; its records are the expansion under a permutation of 1..total |
| ProcessExcel.Upper | ProcessExcel.py:27 | `str.upper()` keeps the length and leaves no lower-case letter |
| ProcessExcel.DropDuplicates | ProcessExcel.py:30 | `drop_duplicates` is no longer than its input, and keeps the first element first |
| ProcessExcel.DropDuplicatesKeepsEachOnce | ProcessExcel.py:30 | `drop_duplicates` keeps every value, once, and nothing else |
| ProcessExcel.DistinctCard | ProcessExcel.py:32 | a list without repetition has as many elements as its set |
| ProcessExcel.DropDuplicatesCount | ProcessExcel.py:30-32 | `drop_duplicates` leaves as many rows as there are distinct values |
| ProcessExcel.UniqueParticipants | ProcessExcel.py:27-32 | there are no more participants than sale rows, and at least one when there is a sale |
| ProcessExcel.UniqueParticipantsCount | ProcessExcel.py:27-32 | `num_unique_participants` is the number of distinct upper-cased (Prénom, Nom) pairs |

## Left out

- The Streamlit interface: images, CSS, columns, the "Prochain(s) lot(s)" preview and the history table. They are presentation only; the preview repeats the group scan.
- Excel and filesystem I/O: `load_data`, `load_existing_results` (with its column migration), `save_results`, the `to_excel` writes, `os.remove`, `ExcelFile`, and the `print` calls. The model takes the loaded tables as parameters, and a session starts with empty results.
- `random.seed(42)` and the uniformity of `sample` and `shuffle`: the draws are nondeterministic choices, and only their structure is proved.
- Unicode case mapping: `casefold`, `upper` and `capitalize` map only the one-to-one pairs of ASCII and Latin-1 letters (A-Z, À-Þ without ×). Letters outside them are kept, so ß, ÿ and µ, which Python's `upper` and `casefold` change, stay as they are, and no character expands into two. White space is Python's within Latin-1.
- pandas NaN in the ticket table: a missing ticket cell is its text "nan". In 2024, `format_name` and `format_last_name` call `.split` on the raw cell, and in the 2025 files `format_last_name` does so after `str`, so only 2024 fails on a missing "Prénom" or "Nom" (`TirageStreamlit_2024.py:70`, `:79`). The model formats the text "nan" there instead of failing.
- pandas NaN in the lot table: the "lot" and "offert par" cells and the lot-number columns are `Cell` values, so NaN is modelled where the code compares or reads them. A record's "lot" and "offert par" are the cell's text ("nan" for an empty cell).
- `is_restricted_person` (2024) is never called by the application; the draw tests the restriction map directly, as `Ledger.Barred` does.
- Python `int()` accepts surrounding white space, underscores and non-ASCII digits. The model parses an optional sign and ASCII digits only; `split()[0]` already removes the white space.
- The `_person_key` column of 2025_4 is a precomputed function of the row. The model computes it from the ticket (`Records.NameKey`).
- Result records hold the ticket; their "Prénom" and "Nom" are computed from it by `format_name` and `format_last_name`.
- The restriction list is a session constant, and the restriction map a session field. The draw methods receive both as parameters and return the new map.
- An empty surname makes `Nom[0]` fail in the export. The export requires a non-empty surname instead of modelling the crash.
- Records.Export2025: the record's "Adresse e-mail" is always present, so the `get` default of `""` is never used. A missing lot number is `None`.
- Tirage2025v4.Session.DrawNext: states the restricted lot's round-reset rule only through `DrawLotsGroup`'s round trace, not in its own ensures.
- Tirage2025v2.Session.DrawNext: states the outcome of the person-first exclusion rule (distinct winners, none barred before, the set grown by exactly them); the pass-by-pass order is stated only through `DrawLotsGroup`'s trace.
- ProcessExcel.ExpandSales: requires every tariff to parse, since the script computes `total_tickets` from the same counts first and stops there otherwise. `ProcessSales` handles that case.
