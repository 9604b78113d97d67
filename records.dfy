/** The rows the draw applications read and write: tickets, lots, result
    records and the public export. Cell values are taken as their `str`
    rendering; an empty ticket cell therefore reads "nan". */
module Records {
  import opened Text

  datatype Option<T> = None | Some(value: T)

  /** One row of the expanded ticket table ("Numéro du billet original",
      "Prénom", "Nom", "Adresse e-mail"). */
  datatype Ticket = Ticket(id: string, firstName: string, lastName: string, email: string)

  /** A cell of the lot table that may be empty (pandas NaN). */
  datatype Cell = NaN | Val(text: string)

  /** The `str` rendering of a cell: "nan" when it is empty. */
  function CellText(c: Cell): string {
    if c.NaN? then "nan" else c.text
  }

  /** One row of the lot table: the "lot" and "offert par" cells, and
      whatever other columns the sheet has (the lot-number column among
      them). `name` and `sponsor` are the two cells as text. */
  datatype Lot = Lot(lotCell: Cell, sponsorCell: Cell, columns: map<string, Cell>) {
    const name: string := CellText(lotCell)
    const sponsor: string := CellText(sponsorCell)
  }

  /** A lot number: read from a lot-table column, or the 1-based position of
      the lot row. */
  datatype LotNo = Column(cell: Cell) | Position(n: nat)

  /** One result record: the lot number (None where the record has no
      "Numéro du lot" key), the winning ticket, and the lot's "lot" and
      "offert par". The record's "Prénom", "Nom", "Adresse e-mail" and
      "Numéro du billet original" are computed from the ticket by
      `FirstNameOf`, `LastNameOf` and the ticket's own fields. */
  datatype Winner = Winner(lotNo: Option<LotNo>, ticket: Ticket, lot: string, sponsor: string)

  /** The winning tickets behind a sequence of records, in order. */
  function TicketsOf(results: seq<Winner>): (ts: seq<Ticket>)
    ensures |ts| == |results|
  {
    seq(|results|, i requires 0 <= i < |results| => results[i].ticket)
  }

  lemma TicketsOfAppend(a: seq<Winner>, b: seq<Winner>)
    ensures TicketsOf(a + b) == TicketsOf(a) + TicketsOf(b)
  {
  }

  /** The records of a group whose copies went to `drawn`, all with the same
      lot number `lotNo` (None: no "Numéro du lot" key). */
  function BatchWinners(lotNo: Option<LotNo>, lot: Lot, drawn: seq<Ticket>): (r: seq<Winner>)
    ensures |r| == |drawn|
  {
    seq(|drawn|, i requires 0 <= i < |drawn| => Winner(lotNo, drawn[i], lot.name, lot.sponsor))
  }

  /** Each record of a batch holds its winning ticket, the shared lot
      number, and the group's lot and sponsor. */
  lemma BatchRecords(lotNo: Option<LotNo>, lot: Lot, drawn: seq<Ticket>)
    ensures TicketsOf(BatchWinners(lotNo, lot, drawn)) == drawn
    ensures forall i :: 0 <= i < |drawn| ==>
              BatchWinners(lotNo, lot, drawn)[i] == Winner(lotNo, drawn[i], lot.name, lot.sponsor)
  {
  }

  /** The record's "Prénom": `format_name(winner["Prénom"])`. */
  function FirstNameOf(w: Winner): string {
    FormatName(w.ticket.firstName)
  }

  /** The record's "Nom": `format_last_name(winner["Nom"])`. */
  function LastNameOf(w: Winner): string {
    FormatLastName(w.ticket.lastName)
  }

  /** One row of the public export, with or without the lot-number column. */
  datatype PublicRow =
    | WithLot(lotNo: Option<LotNo>, firstName: string, lastName: string, ticketId: string,
              lot: string, sponsor: string, email: string)
    | WithoutLot(firstName: string, lastName: string, ticketId: string,
                 lot: string, sponsor: string, email: string)

  /** The name-based person identity of the 2025 applications:
      `"name:" + norm(Prénom) + "|" + norm(Nom)`. */
  function NameKey(t: Ticket): (r: string)
    ensures |r| >= 6 && r[..5] == "name:" && '|' in r
  {
    "name:" + Norm(t.firstName) + "|" + Norm(t.lastName)
  }

  /** The position of the first "|" in `s` at or after `i` (or `|s|`). */
  function SkipToBar(s: string, i: nat): (j: nat)
    requires i <= |s|
    ensures i <= j <= |s|
    decreases |s| - i
  {
    if i == |s| || s[i] == '|' then i else SkipToBar(s, i + 1)
  }

  lemma {:induction false} SkipToBarAt(s: string, i: nat, k: nat)
    requires i <= k < |s| && s[k] == '|'
    requires forall m :: i <= m < k ==> s[m] != '|'
    ensures SkipToBar(s, i) == k
    decreases k - i
  {
    if i < k {
      SkipToBarAt(s, i + 1, k);
    }
  }

  /** Joining two fields with a separator the first never contains can be
      undone. */
  lemma SeparatedInjective(p: string, x: string, y: string, x': string, y': string)
    requires '|' !in x && '|' !in x'
    ensures p + x + "|" + y == p + x' + "|" + y' <==> x == x' && y == y'
  {
    var s, s' := p + x + "|" + y, p + x' + "|" + y';
    if s == s' {
      forall m | |p| <= m < |p| + |x| ensures s[m] != '|' {
        assert s[m] == x[m - |p|];
      }
      forall m | |p| <= m < |p| + |x'| ensures s'[m] != '|' {
        assert s'[m] == x'[m - |p|];
      }
      SkipToBarAt(s, |p|, |p| + |x|);
      SkipToBarAt(s', |p|, |p| + |x'|);
      assert x == s[|p|..|p| + |x|] && x' == s'[|p|..|p| + |x'|];
      assert y == s[|p| + |x| + 1..] && y' == s'[|p| + |x'| + 1..];
    }
  }

  /** Two tickets have the same name key exactly when their normalised first
      names and surnames agree, provided no normalised first name contains
      the separator "|". */
  lemma NameKeyInjective(a: Ticket, b: Ticket)
    requires '|' !in Norm(a.firstName) && '|' !in Norm(b.firstName)
    ensures NameKey(a) == NameKey(b) <==>
              Norm(a.firstName) == Norm(b.firstName) && Norm(a.lastName) == Norm(b.lastName)
  {
    SeparatedInjective("name:", Norm(a.firstName), Norm(a.lastName), Norm(b.firstName), Norm(b.lastName));
  }

  /** `Nom[0].upper() + "."`: a one-letter initial that is never a
      lower-case letter, then a dot. */
  function Redact(lastName: string): (r: string)
    requires |lastName| > 0
    ensures |r| == 2 && r[1] == '.' && !IsLowerLetter(r[0])
    ensures Uncased(lastName[0]) ==> r[0] == lastName[0]
  {
    [UpperChar(lastName[0]), '.']
  }

  /** Every record's "Nom" has a first character to keep. */
  predicate Redactable(results: seq<Winner>) {
    forall i :: 0 <= i < |results| ==> |LastNameOf(results[i])| > 0
  }

  /** The export of the 2025 applications: every field copied except the
      surname, reduced to its initial; a record without a lot number exports
      an empty cell there (None). */
  function Export2025(results: seq<Winner>): (rows: seq<PublicRow>)
    requires Redactable(results)
    ensures |rows| == |results|
  {
    seq(|results|, i requires 0 <= i < |results| =>
      var r := results[i];
      WithLot(r.lotNo, FirstNameOf(r), Redact(LastNameOf(r)), r.ticket.id, r.lot, r.sponsor, r.ticket.email))
  }

  /** The export of the 2024 application: no lot-number column. */
  function Export2024(results: seq<Winner>): (rows: seq<PublicRow>)
    requires Redactable(results)
    ensures |rows| == |results|
  {
    seq(|results|, i requires 0 <= i < |results| =>
      var r := results[i];
      WithoutLot(FirstNameOf(r), Redact(LastNameOf(r)), r.ticket.id, r.lot, r.sponsor, r.ticket.email))
  }

  /** Exporting the record of a drawn ticket shows the formatted first name,
      the upper-cased initial of the raw surname followed by ".", and keeps
      the ticket id, the lot, the sponsor and the e-mail. A record can be
      exported exactly when its ticket's surname is not empty. */
  lemma ExportRedactsSurname(lotNo: Option<LotNo>, t: Ticket, lot: string, sponsor: string)
    ensures Redactable([Winner(lotNo, t, lot, sponsor)]) <==> |t.lastName| > 0
    ensures |t.lastName| > 0 ==>
              && Export2025([Winner(lotNo, t, lot, sponsor)])
                 == [WithLot(lotNo, FormatName(t.firstName), [UpperChar(t.lastName[0]), '.'],
                             t.id, lot, sponsor, t.email)]
              && Export2024([Winner(lotNo, t, lot, sponsor)])
                 == [WithoutLot(FormatName(t.firstName), [UpperChar(t.lastName[0]), '.'],
                                t.id, lot, sponsor, t.email)]
  {
    var w := Winner(lotNo, t, lot, sponsor);
    assert Redactable([w]) <==> |LastNameOf(w)| > 0 by {
      assert [w][0] == w;
    }
    if |t.lastName| > 0 {
      FormatLastNameInitial(t.lastName);
      CaseMappings(t.lastName[0]);
    }
  }

  /** Results can be exported exactly when each part of them can. */
  lemma RedactableAppend(earlier: seq<Winner>, batch: seq<Winner>)
    ensures Redactable(earlier + batch) <==> Redactable(earlier) && Redactable(batch)
  {
    var all := earlier + batch;
    assert forall i :: 0 <= i < |earlier| ==> all[i] == earlier[i];
    assert forall i :: 0 <= i < |batch| ==> all[|earlier| + i] == batch[i];
  }

  /** Exporting is row by row, so exporting a ledger that grew by a batch of
      results is the old export followed by the batch's export. */
  lemma Export2025Append(earlier: seq<Winner>, batch: seq<Winner>)
    requires Redactable(earlier) && Redactable(batch)
    ensures Redactable(earlier + batch)
    ensures Export2025(earlier + batch) == Export2025(earlier) + Export2025(batch)
  {
    RedactableAppend(earlier, batch);
    var all := earlier + batch;
    var a, b, c := Export2025(all), Export2025(earlier), Export2025(batch);
    forall i | 0 <= i < |a| ensures a[i] == (b + c)[i] {
      if i >= |earlier| {
        assert all[i] == batch[i - |earlier|];
      }
    }
  }

  /** The same for the 2024 export. */
  lemma Export2024Append(earlier: seq<Winner>, batch: seq<Winner>)
    requires Redactable(earlier) && Redactable(batch)
    ensures Redactable(earlier + batch)
    ensures Export2024(earlier + batch) == Export2024(earlier) + Export2024(batch)
  {
    RedactableAppend(earlier, batch);
    var all := earlier + batch;
    var a, b, c := Export2024(all), Export2024(earlier), Export2024(batch);
    forall i | 0 <= i < |a| ensures a[i] == (b + c)[i] {
      if i >= |earlier| {
        assert all[i] == batch[i - |earlier|];
      }
    }
  }
}
