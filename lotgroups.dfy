/** The lot table as the draw applications walk it: groups of identical
    consecutive lots, the lot number of each copy, and the lists of lots on
    which a person may win only once. */
module LotGroups {
  import opened Text
  import opened Records

  /** The pandas comparison of two cells: an empty cell (NaN) equals
      nothing, not even another empty cell. */
  predicate CellEq(a: Cell, b: Cell) {
    a.Val? && b.Val? && a.text == b.text
  }

  /** Two lot rows are copies of the same lot when both "lot" and
      "offert par" compare equal. */
  predicate SameLot(a: Lot, b: Lot) {
    CellEq(a.lotCell, b.lotCell) && CellEq(a.sponsorCell, b.sponsorCell)
  }

  /** The number of rows from `from` on that are copies of `anchor`, up to
      the first row that is not. */
  function RunFrom(lots: seq<Lot>, anchor: Lot, from: nat): (k: nat)
    requires from <= |lots|
    ensures from + k <= |lots|
    decreases |lots| - from
  {
    if from < |lots| && SameLot(lots[from], anchor) then 1 + RunFrom(lots, anchor, from + 1) else 0
  }

  /** `group_count` for the group that starts at `at`. */
  function GroupCount(lots: seq<Lot>, at: nat): (n: nat)
    requires at < |lots|
    ensures 1 <= n && at + n <= |lots|
  {
    1 + RunFrom(lots, lots[at], at + 1)
  }

  /** `lots[at+1..at+n]` are copies of `lots[at]`, and the row after them
      (if any) is not. */
  predicate IsMaximalRun(lots: seq<Lot>, at: nat, n: nat)
    requires at < |lots|
  {
    && 1 <= n && at + n <= |lots|
    && (forall i :: at < i < at + n ==> SameLot(lots[i], lots[at]))
    && (at + n == |lots| || !SameLot(lots[at + n], lots[at]))
  }

  lemma {:induction false} RunFromMaximal(lots: seq<Lot>, anchor: Lot, from: nat)
    requires from <= |lots|
    ensures forall i :: from <= i < from + RunFrom(lots, anchor, from) ==> SameLot(lots[i], anchor)
    ensures from + RunFrom(lots, anchor, from) == |lots|
         || !SameLot(lots[from + RunFrom(lots, anchor, from)], anchor)
    decreases |lots| - from
  {
    if from < |lots| && SameLot(lots[from], anchor) {
      RunFromMaximal(lots, anchor, from + 1);
    }
  }

  /** The group is the maximal run of copies of the lot at the cursor; it is
      never empty and never runs past the end of the table. */
  lemma GroupIsMaximalRun(lots: seq<Lot>, at: nat)
    requires at < |lots|
    ensures IsMaximalRun(lots, at, GroupCount(lots, at))
  {
    RunFromMaximal(lots, lots[at], at + 1);
  }

  /** There is only one maximal run at a position, so the group size is
      determined by the table alone. */
  lemma MaximalRunUnique(lots: seq<Lot>, at: nat, n: nat, m: nat)
    requires at < |lots| && IsMaximalRun(lots, at, n) && IsMaximalRun(lots, at, m)
    ensures n == m
  {
  }

  /** A lot row whose "lot" or "offert par" cell is empty compares equal to
      no row, so it is a group of one, whatever follows it. */
  lemma MissingCellAlone(lots: seq<Lot>, at: nat)
    requires at < |lots| && (lots[at].lotCell.NaN? || lots[at].sponsorCell.NaN?)
    ensures GroupCount(lots, at) == 1
  {
  }

  /** The `while` loop that grows `group_count`. */
  method GroupSize(lots: seq<Lot>, at: nat) returns (n: nat)
    requires at < |lots|
    ensures IsMaximalRun(lots, at, n) && n == GroupCount(lots, at)
  {
    n := 1;
    while at + n < |lots| && SameLot(lots[at + n], lots[at])
      invariant 1 <= n && at + n <= |lots|
      invariant forall i :: at < i < at + n ==> SameLot(lots[i], lots[at])
      invariant GroupCount(lots, at) == n + RunFrom(lots, lots[at], at + n)
    {
      n := n + 1;
    }
  }

  // ---------------------------------------------------------------------
  // Lot numbers

  /** Column `c` of a lot row can give its number: it exists, and unless
      missing values are accepted it is not NaN. */
  predicate Usable(columns: map<string, Cell>, c: string, acceptNaN: bool) {
    c in columns && (acceptNaN || columns[c].Val?)
  }

  /** The position in `candidates` of the first usable column, searching from
      `from`. */
  function FirstUsable(columns: map<string, Cell>, candidates: seq<string>, acceptNaN: bool, from: nat): (r: Option<nat>)
    requires from <= |candidates|
    ensures r.Some? ==> from <= r.value < |candidates| && Usable(columns, candidates[r.value], acceptNaN)
    decreases |candidates| - from
  {
    if from == |candidates| then None
    else if Usable(columns, candidates[from], acceptNaN) then Some(from)
    else FirstUsable(columns, candidates, acceptNaN, from + 1)
  }

  /** `FirstUsable` finds the first usable candidate at or after `from`, and
      finds none exactly when none is usable. */
  lemma {:induction false} FirstUsableIsFirst(columns: map<string, Cell>, candidates: seq<string>, acceptNaN: bool, from: nat)
    requires from <= |candidates|
    ensures var r := FirstUsable(columns, candidates, acceptNaN, from);
      && (r.Some? ==> forall j :: from <= j < r.value ==> !Usable(columns, candidates[j], acceptNaN))
      && (r.None? <==> forall j :: from <= j < |candidates| ==> !Usable(columns, candidates[j], acceptNaN))
    decreases |candidates| - from
  {
    if from < |candidates| && !Usable(columns, candidates[from], acceptNaN) {
      FirstUsableIsFirst(columns, candidates, acceptNaN, from + 1);
    }
  }

  /** The columns `get_lot_number` tries, in order. */
  const LotNumberColumns: seq<string> := [
    "numéro", "numero",
    "Numéro", "Numero",
    "numéro du lot", "numero du lot",
    "Numéro du lot", "Numero du lot",
    "N° lot", "N°", "N°Lot", "N° Lot",
    "Numero lot", "numéro lot", "numero lot"
  ]

  /** `get_lot_number(lot_row, fallback_index=index)`. */
  function GetLotNumber(lot: Lot, index: nat): (r: LotNo)
    ensures r.Column? ==> r.cell.Val? && r.cell in lot.columns.Values
    ensures r.Position? ==> r.n == index + 1
  {
    match FirstUsable(lot.columns, LotNumberColumns, false, 0)
    case Some(j) => Column(lot.columns[LotNumberColumns[j]])
    case None => Position(index + 1)
  }

  /** A lot's number is the value of the first candidate column that is
      present and not missing; only when there is none is it the 1-based
      position `index + 1`. */
  lemma GetLotNumberFirstPresent(lot: Lot, index: nat)
    ensures var r := GetLotNumber(lot, index);
      && (r.Column? ==> r.cell.Val?)
      && (r.Column? ==>
            exists j :: 0 <= j < |LotNumberColumns|
              && LotNumberColumns[j] in lot.columns && r.cell == lot.columns[LotNumberColumns[j]]
              && (forall i :: 0 <= i < j ==> !Usable(lot.columns, LotNumberColumns[i], false)))
      && (r.Position? <==> forall j :: 0 <= j < |LotNumberColumns| ==> !Usable(lot.columns, LotNumberColumns[j], false))
      && (r.Position? ==> r.n == index + 1)
  {
    FirstUsableIsFirst(lot.columns, LotNumberColumns, false, 0);
  }

  /** The number of each copy of the group at `at` in the 2025 (v4) draw:
      copy `i` has the number of its own lot row `at + i`. */
  function CopyNumbers(lots: seq<Lot>, at: nat, n: nat): (r: seq<LotNo>)
    requires at + n <= |lots|
    ensures |r| == n
  {
    seq(n, i requires 0 <= i < n => GetLotNumber(lots[at + i], at + i))
  }

  /** The columns the 2025 (v2) draw looks up with nested `lot.get`. */
  const GroupNumberColumns: seq<string> := ["numéro du lot", "Numero lot", "N° lot"]

  /** The one lot number shared by all copies of a group in the 2025 (v2)
      draw: the first of the three columns the lot row has, even if its cell
      is empty, otherwise `at + 1`. */
  function GroupLotNumber(lot: Lot, at: nat): (r: LotNo)
    ensures r.Column? ==> r.cell in lot.columns.Values
    ensures r.Position? ==> r.n == at + 1
  {
    match FirstUsable(lot.columns, GroupNumberColumns, true, 0)
    case Some(j) => Column(lot.columns[GroupNumberColumns[j]])
    case None => Position(at + 1)
  }

  /** The group's number is the cell of the first of the three columns the
      row has, NaN or not; only when the row has none of them is it
      `at + 1`. */
  lemma GroupLotNumberFirstPresent(lot: Lot, at: nat)
    ensures var r := GroupLotNumber(lot, at);
      && (r.Column? <==> exists j :: 0 <= j < |GroupNumberColumns| && GroupNumberColumns[j] in lot.columns)
      && (r.Column? ==>
            exists j :: 0 <= j < |GroupNumberColumns|
              && GroupNumberColumns[j] in lot.columns && r.cell == lot.columns[GroupNumberColumns[j]]
              && (forall i :: 0 <= i < j ==> GroupNumberColumns[i] !in lot.columns))
      && (r.Position? ==> r.n == at + 1)
  {
    FirstUsableIsFirst(lot.columns, GroupNumberColumns, true, 0);
  }

  // ---------------------------------------------------------------------
  // Restricted lots

  /** The 2025 list of lots a person may win only once. */
  const RestrictedLots2025: seq<string> := [
    "Pot de miel + abonnement Kazidomi", "Patchs anti-cernes",
    "Patchs anti-cernes + gel douche + beurre de karité", "Crème pour les mains",
    "Pot beurre de karité de poche + petite pochette", "Lot de 10 pinces et barrettes cheveux", "Savon",
    "Totebag + gel douche + beurre de karité + patch aloe vera + pince cheveux", "Jeu de rôles",
    "Gazette/enquête pour enfant espion", "Escape game à domicile", "Boucles d'oreilles", "Sweat",
    "Pochoirs + livret", "Cahier d'activité forêt",
    "Lot éponges lavables 4 couleurs", "Sac à dos + travel kit", "Barrette ronde + bracelet + créoles",
    "Créoles + bracelet", "Lunettes de soleil",
    "Boucles d'oreilles cœur", "Créoles", "Bracelet océan", "Lot affiches", "Etagère enfant",
    "Décoration murale", "Jeu de piste", "Box 2 repas pour 2",
    "Peluche fruits et légumes", "2 entrées enfant", "2 Kits éducatif + pochette", "Gel douche"
  ]

  /** The set of the normalised names of a list: `restricted_lots_norm`. */
  function NormSet(names: seq<string>): (r: set<string>)
    ensures forall x :: x in names ==> Norm(x) in r
    ensures forall y :: y in r ==> exists x :: x in names && Norm(x) == y
  {
    set x | x in names :: Norm(x)
  }

  /** Matching against a normalised list ignores surrounding white space and
      case: a name and its normalised form match alike. */
  lemma NormalisedMatchIgnoresCase(names: seq<string>, lotName: string)
    ensures Norm(lotName) in NormSet(names) <==> Norm(Norm(lotName)) in NormSet(names)
  {
    var n := Norm(lotName);
    assert Norm(n) == n by {
      NormIdempotent(lotName);
    }
  }

  /** A name matches a normalised list exactly when some listed name
      normalises to the same text. */
  lemma NormalisedMatchListed(names: seq<string>, lotName: string)
    ensures Norm(lotName) in NormSet(names) <==> exists i :: 0 <= i < |names| && Norm(names[i]) == Norm(lotName)
  {
    var n := Norm(lotName);
    if n in NormSet(names) {
      var x :| x in names && Norm(x) == n;
      var i :| 0 <= i < |names| && names[i] == x;
    }
  }

  /** The 2024 list ("Souris gamer" appears twice). */
  const RestrictedLots2024: seq<string> := [
    "Gourde", "Tatouages éphémères", "Produit de beauté", "Drone miniature",
    "Batterie externe", "Souris gamer", "Charentaise", "Tote bag",
    "2 entrées rugby Stade Français", "Boite à histoire enfant", "Lot pins & illustration",
    "Lot vélo", "Souris gamer", "Jeu de piste", "Mitaines GIRO", "Kit éducatif", "Eclairage avant vélo",
    "Pochoirs", "Peinture par numéro", "Gourde KLEAN KANTEEN"
  ]
}
