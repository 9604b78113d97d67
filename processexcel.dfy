/** The preparation script: it reads the sales export, one row per sale of
    some number of tickets, and writes one record per ticket, with a
    suffixed ticket id, a running index, and a number drawn from a shuffled
    range 1..total. It also counts the participants, ignoring case. */
module ProcessExcel {
  import opened Text
  import opened Records
  import opened Pool

  /** One sale row after the renaming: "Prénom", "Nom", "Numéro du billet
      original", "Nombre de tickets" (the tariff text) and "Adresse e-mail". */
  datatype Sale = Sale(firstName: string, lastName: string, ticketNo: string, tariff: string, email: string)

  /** One record of the expanded table: "Numéro d'index", "Prénom", "Nom",
      "Adresse e-mail", "Numéro du billet original" and "Nombre unique". */
  datatype Entry = Entry(index: nat, firstName: string, lastName: string, email: string,
                         ticketId: string, unique: int)

  // ----- `int(row['Nombre de tickets'].split()[0])` -----

  /** The longest prefix of `s` without white space: a prefix of `s` that
      holds no white space and ends at the end of `s` or at white space. */
  function TokenPrefix(s: string): (r: string)
    ensures |r| <= |s| && r == s[..|r|]
    ensures forall i :: 0 <= i < |r| ==> !IsSpace(r[i])
    ensures |r| == |s| || IsSpace(s[|r|])
  {
    if s == [] || IsSpace(s[0]) then [] else [s[0]] + TokenPrefix(s[1..])
  }

  /** `s.split()[0]`, or None where `split()` gives no token (an
      `IndexError` in the script). */
  function FirstToken(s: string): (r: Option<string>)
    ensures r.None? <==> forall i :: 0 <= i < |s| ==> IsSpace(s[i])
    ensures r.Some? ==> r.value != [] && forall i :: 0 <= i < |r.value| ==> !IsSpace(r.value[i])
  {
    var t := TrimStart(s);
    TrimStartDropsSpaces(s);
    if t == [] then None else Some(TokenPrefix(t))
  }

  /** The token of a text made of white space, the token, and nothing or
      white space followed by anything. */
  lemma {:induction false} TokenPrefixOf(tok: string, post: string)
    requires forall i :: 0 <= i < |tok| ==> !IsSpace(tok[i])
    requires post == [] || IsSpace(post[0])
    ensures TokenPrefix(tok + post) == tok
  {
    if tok != [] {
      assert (tok + post)[1..] == tok[1..] + post;
      TokenPrefixOf(tok[1..], post);
    } else {
      assert tok + post == post;
    }
  }

  /** `split()` skips leading white space. */
  lemma {:induction false} TrimStartPast(pre: string, s: string)
    requires forall i :: 0 <= i < |pre| ==> IsSpace(pre[i])
    requires s != [] && !IsSpace(s[0])
    ensures TrimStart(pre + s) == s
  {
    if pre == [] {
      assert pre + s == s;
    } else {
      assert (pre + s)[1..] == pre[1..] + s;
      TrimStartPast(pre[1..], s);
    }
  }

  /** The first token is the first maximal run of non-space characters. */
  lemma FirstTokenOf(pre: string, tok: string, post: string)
    requires forall i :: 0 <= i < |pre| ==> IsSpace(pre[i])
    requires tok != [] && forall i :: 0 <= i < |tok| ==> !IsSpace(tok[i])
    requires post == [] || IsSpace(post[0])
    ensures FirstToken(pre + tok + post) == Some(tok)
  {
    assert pre + tok + post == pre + (tok + post);
    TrimStartPast(pre, tok + post);
    TokenPrefixOf(tok, post);
  }

  /** A text of white space only has no token. */
  lemma {:induction false} NoTokenInSpaces(s: string)
    requires forall i :: 0 <= i < |s| ==> IsSpace(s[i])
    ensures FirstToken(s) == None
  {
    TrimStartDropsSpaces(s);
  }

  predicate IsDigit(c: char) {
    '0' <= c <= '9'
  }

  predicate AllDigits(s: string) {
    forall i :: 0 <= i < |s| ==> IsDigit(s[i])
  }

  /** The value of a string of decimal digits. */
  function DigitsValue(ds: string): nat
    requires AllDigits(ds)
  {
    if ds == [] then 0 else 10 * DigitsValue(ds[..|ds| - 1]) + (ds[|ds| - 1] - '0') as nat
  }

  /** `int(tok)`: an optional sign followed by one or more decimal digits;
      None where Python raises `ValueError`. */
  function ParseInt(tok: string): (r: Option<int>)
    ensures r.Some? ==> tok != [] && exists i :: 0 <= i < |tok| && IsDigit(tok[i])
    ensures r.Some? && r.value < 0 ==> tok[0] == '-'
  {
    if tok != [] && (tok[0] == '+' || tok[0] == '-') then
      if |tok| > 1 && AllDigits(tok[1..]) then
        Some(if tok[0] == '-' then -(DigitsValue(tok[1..]) as int) else DigitsValue(tok[1..]))
      else None
    else if tok != [] && AllDigits(tok) then Some(DigitsValue(tok))
    else None
  }

  /** `str(n)` for a natural number. */
  function DecimalString(n: nat): (s: string)
    ensures s != [] && AllDigits(s)
  {
    if n < 10 then [('0' as int + n) as char] else DecimalString(n / 10) + [('0' as int + n % 10) as char]
  }

  /** Reading back the digits `str` writes gives the number again. */
  lemma {:induction false} DecimalDigitsValue(n: nat)
    ensures DigitsValue(DecimalString(n)) == n
  {
    if n >= 10 {
      DecimalDigitsValue(n / 10);
      var s := DecimalString(n);
      assert s[..|s| - 1] == DecimalString(n / 10);
    }
  }

  /** `int(str(n)) == n`, and `int("-" + str(n)) == -n`. */
  lemma DecimalRoundTrip(n: nat)
    ensures ParseInt(DecimalString(n)) == Some(n)
    ensures ParseInt("-" + DecimalString(n)) == Some(-(n as int))
  {
    DecimalDigitsValue(n);
    var s := DecimalString(n);
    assert ('0' as int + n % 10) as char != '-';
    assert s[0] != '+' && s[0] != '-';
    assert ("-" + s)[1..] == s;
  }

  /** Different numbers are written differently. */
  lemma DecimalInjective(m: nat, n: nat)
    requires DecimalString(m) == DecimalString(n)
    ensures m == n
  {
    DecimalDigitsValue(m);
    DecimalDigitsValue(n);
  }

  /** The number of tickets of a sale: the leading integer of its tariff
      text; None where the script stops with an error. */
  function TicketCount(tariff: string): (r: Option<int>)
    ensures r.Some? ==> exists i :: 0 <= i < |tariff| && !IsSpace(tariff[i])
  {
    match FirstToken(tariff)
    case None => None
    case Some(tok) => ParseInt(tok)
  }

  /** A tariff written as a count followed by a word. */
  lemma TicketCountOf(n: nat, rest: string)
    requires rest == [] || IsSpace(rest[0])
    ensures TicketCount(DecimalString(n) + rest) == Some(n)
  {
    var tok := DecimalString(n);
    forall i | 0 <= i < |tok| ensures !IsSpace(tok[i]) {
      assert IsDigit(tok[i]);
    }
    assert [] + tok + rest == tok + rest;
    FirstTokenOf([], tok, rest);
    DecimalRoundTrip(n);
  }

  /** Every sale's tariff yields a count. */
  predicate Parsed(sales: seq<Sale>) {
    forall r :: 0 <= r < |sales| ==> TicketCount(sales[r].tariff).Some?
  }

  /** The count of each sale, in order. */
  function Counts(sales: seq<Sale>): (cs: seq<int>)
    requires Parsed(sales)
    ensures |cs| == |sales|
  {
    seq(|sales|, r requires 0 <= r < |sales| && Parsed(sales) => TicketCount(sales[r].tariff).value)
  }

  function Sum(xs: seq<int>): (r: int)
    ensures (forall i :: 0 <= i < |xs| ==> xs[i] >= 0) ==> r >= 0
  {
    if xs == [] then 0 else Sum(xs[..|xs| - 1]) + xs[|xs| - 1]
  }

  /** `total_tickets`: the sum of the counts, or None where one of them
      stops the script. */
  function TotalTickets(sales: seq<Sale>): (r: Option<int>)
    ensures r.Some? <==> Parsed(sales)
    ensures r.Some? && (forall i :: 0 <= i < |sales| ==> Counts(sales)[i] >= 0) ==> r.value >= 0
  {
    if Parsed(sales) then Some(Sum(Counts(sales))) else None
  }

  // ----- the expansion loop -----

  /** `range(1, n + 1)` has this many elements. */
  function Clamp(n: int): nat {
    if n < 0 then 0 else n
  }

  /** The number of records the rows with these counts make. */
  function Made(counts: seq<int>): nat {
    if counts == [] then 0 else Made(counts[..|counts| - 1]) + Clamp(counts[|counts| - 1])
  }

  /** With no negative count, the rows make `total_tickets` records. */
  lemma {:induction false} MadeIsSum(counts: seq<int>)
    requires forall r :: 0 <= r < |counts| ==> counts[r] >= 0
    ensures Made(counts) == Sum(counts)
  {
    if counts != [] {
      MadeIsSum(counts[..|counts| - 1]);
    }
  }

  /** The rows of a prefix make no more records than all of them. */
  lemma {:induction false} MadeMonotone(counts: seq<int>, j: nat)
    requires j <= |counts|
    ensures Made(counts[..j]) <= Made(counts)
    decreases |counts|
  {
    if j < |counts| {
      var k := |counts| - 1;
      assert counts[..k][..j] == counts[..j];
      MadeMonotone(counts[..k], j);
    } else {
      assert counts[..j] == counts;
    }
  }

  /** The first `n` records of a sale whose records start at position
      `start`: copy `i` has index `start + i + 1`, the id suffixed with
      `-(i + 1)`, and the number at position `start + i`. */
  function RowEntries(sale: Sale, n: nat, start: nat, numbers: seq<int>): (e: seq<Entry>)
    requires start + n <= |numbers|
    ensures |e| == n
  {
    seq(n, i requires 0 <= i < n => Entry(start + i + 1, sale.firstName, sale.lastName, sale.email,
                                          sale.ticketNo + "-" + DecimalString(i + 1), numbers[start + i]))
  }

  /** `expanded_data` once the rows with these counts have been processed. */
  function Expansion(sales: seq<Sale>, counts: seq<int>, numbers: seq<int>): (e: seq<Entry>)
    requires |counts| == |sales| && Made(counts) <= |numbers|
    ensures |e| == Made(counts)
  {
    if sales == [] then []
    else
      var k := |sales| - 1;
      Expansion(sales[..k], counts[..k], numbers) + RowEntries(sales[k], Clamp(counts[k]), Made(counts[..k]), numbers)
  }

  /** Copy `i` of row `r` sits at position `Made(counts[..r]) + i`, with
      index one more than its position, the row's names and e-mail, the
      row's ticket id suffixed with `-(i + 1)`, and the number at its
      position. */
  lemma {:induction false} ExpansionAt(sales: seq<Sale>, counts: seq<int>, numbers: seq<int>, r: nat, i: nat)
    requires |counts| == |sales| && Made(counts) <= |numbers|
    requires r < |sales| && i < Clamp(counts[r])
    ensures Made(counts[..r]) + i < Made(counts)
    ensures var k := Made(counts[..r]) + i;
      Expansion(sales, counts, numbers)[k]
        == Entry(k + 1, sales[r].firstName, sales[r].lastName, sales[r].email,
                 sales[r].ticketNo + "-" + DecimalString(i + 1), numbers[k])
  {
    var k := |sales| - 1;
    var pre := Expansion(sales[..k], counts[..k], numbers);
    var row := RowEntries(sales[k], Clamp(counts[k]), Made(counts[..k]), numbers);
    assert Expansion(sales, counts, numbers) == pre + row;
    if r < k {
      assert counts[..k][..r] == counts[..r];
      assert sales[..k][r] == sales[r] && counts[..k][r] == counts[r];
      ExpansionAt(sales[..k], counts[..k], numbers, r, i);
      assert (pre + row)[Made(counts[..r]) + i] == pre[Made(counts[..r]) + i];
    } else {
      assert counts[..r] == counts[..k];
      assert (pre + row)[Made(counts[..r]) + i] == row[i];
    }
  }

  /** Every position of the expansion falls in the block of one row. */
  lemma {:induction false} ExpansionLocate(counts: seq<int>, p: nat) returns (r: nat, i: nat)
    requires p < Made(counts)
    ensures r < |counts| && i < Clamp(counts[r]) && p == Made(counts[..r]) + i
  {
    assert counts != [];
    var k := |counts| - 1;
    if p < Made(counts[..k]) {
      r, i := ExpansionLocate(counts[..k], p);
      assert counts[..k][..r] == counts[..r] && counts[..k][r] == counts[r];
    } else {
      r, i := k, p - Made(counts[..k]);
    }
  }

  /** The k-th record (from 0) has index k + 1 and the k-th number. */
  lemma ExpansionIndexes(sales: seq<Sale>, counts: seq<int>, numbers: seq<int>)
    requires |counts| == |sales| && Made(counts) <= |numbers|
    ensures var e := Expansion(sales, counts, numbers);
      forall p :: 0 <= p < |e| ==> e[p].index == p + 1 && e[p].unique == numbers[p]
  {
    var e := Expansion(sales, counts, numbers);
    forall p | 0 <= p < |e| ensures e[p].index == p + 1 && e[p].unique == numbers[p] {
      var r, i := ExpansionLocate(counts, p);
      ExpansionAt(sales, counts, numbers, r, i);
    }
  }

  /** In an id followed by "-" and a number, the last dash is the one
      before the number. */
  lemma LastDash(a: string, x: string)
    requires AllDigits(x)
    ensures (a + "-" + x)[|a|] == '-'
    ensures forall k :: |a| < k < |a + "-" + x| ==> IsDigit((a + "-" + x)[k])
  {
    var s := a + "-" + x;
    forall k | |a| < k < |s| ensures IsDigit(s[k]) {
      assert s[k] == x[k - |a| - 1];
    }
  }

  /** An id followed by "-" and a number determines both. */
  lemma SuffixedInjective(a: string, x: string, b: string, y: string)
    requires x != [] && AllDigits(x) && y != [] && AllDigits(y)
    requires a + "-" + x == b + "-" + y
    ensures a == b && x == y
  {
    var s := a + "-" + x;
    LastDash(a, x);
    LastDash(b, y);
    assert s[|a|] == '-' && s[|b|] == '-';
    assert |a| == |b|;
    assert a == s[..|a|] && b == s[..|b|];
    assert x == s[|a| + 1..] && y == s[|b| + 1..];
  }

  /** Two different copies, of one row or of two rows with different
      original ticket numbers, get different ids. */
  lemma CopyIdsDiffer(sales: seq<Sale>, counts: seq<int>, numbers: seq<int>, r: nat, i: nat, s: nat, j: nat)
    requires |counts| == |sales| && Made(counts) <= |numbers|
    requires r < |sales| && i < Clamp(counts[r]) && s < |sales| && j < Clamp(counts[s])
    requires r != s ==> sales[r].ticketNo != sales[s].ticketNo
    requires r != s || i != j
    ensures Made(counts[..r]) + i < Made(counts) && Made(counts[..s]) + j < Made(counts)
    ensures Expansion(sales, counts, numbers)[Made(counts[..r]) + i].ticketId
         != Expansion(sales, counts, numbers)[Made(counts[..s]) + j].ticketId
  {
    ExpansionAt(sales, counts, numbers, r, i);
    ExpansionAt(sales, counts, numbers, s, j);
    var x, y := DecimalString(i + 1), DecimalString(j + 1);
    if sales[r].ticketNo + "-" + x == sales[s].ticketNo + "-" + y {
      SuffixedInjective(sales[r].ticketNo, x, sales[s].ticketNo, y);
      DecimalInjective(i + 1, j + 1);
    }
  }

  /** When the sales' original ticket numbers are distinct, so are the
      records' ticket ids. */
  lemma ExpandedIdsDistinct(sales: seq<Sale>, counts: seq<int>, numbers: seq<int>)
    requires |counts| == |sales| && Made(counts) <= |numbers|
    requires forall r, s :: 0 <= r < s < |sales| ==> sales[r].ticketNo != sales[s].ticketNo
    ensures var e := Expansion(sales, counts, numbers);
      forall p, q :: 0 <= p < q < |e| ==> e[p].ticketId != e[q].ticketId
  {
    var e := Expansion(sales, counts, numbers);
    forall p, q | 0 <= p < q < |e| ensures e[p].ticketId != e[q].ticketId {
      var r, i := ExpansionLocate(counts, p);
      var s, j := ExpansionLocate(counts, q);
      CopyIdsDiffer(sales, counts, numbers, r, i, s, j);
    }
  }

  /** The records of one more row. */
  lemma MadeStep(counts: seq<int>, row: nat)
    requires row < |counts|
    ensures Made(counts[..row + 1]) == Made(counts[..row]) + Clamp(counts[row])
  {
    assert counts[..row + 1][..row] == counts[..row];
  }

  /** The expansion of one more row. */
  lemma ExpansionStep(sales: seq<Sale>, counts: seq<int>, numbers: seq<int>, row: nat)
    requires |counts| == |sales| && row < |sales|
    requires Made(counts[..row]) + Clamp(counts[row]) <= |numbers|
    ensures Made(counts[..row + 1]) == Made(counts[..row]) + Clamp(counts[row])
    ensures Expansion(sales[..row + 1], counts[..row + 1], numbers)
         == Expansion(sales[..row], counts[..row], numbers)
            + RowEntries(sales[row], Clamp(counts[row]), Made(counts[..row]), numbers)
  {
    MadeStep(counts, row);
    assert counts[..row + 1][..row] == counts[..row] && sales[..row + 1][..row] == sales[..row];
  }

  /** One more copy of a row. */
  lemma RowEntriesStep(sale: Sale, i: nat, start: nat, numbers: seq<int>)
    requires start + i < |numbers|
    ensures RowEntries(sale, i + 1, start, numbers)
         == RowEntries(sale, i, start, numbers)
            + [Entry(start + i + 1, sale.firstName, sale.lastName, sale.email,
                     sale.ticketNo + "-" + DecimalString(i + 1), numbers[start + i])]
  {
  }

  /** The inner loop of the script for one sale: `n` more records appended
      to `expanded`, each taking the number at `cur`, which runs level with
      the records made so far; None where the numbers run out (an
      `IndexError`). */
  method ExpandRow(expanded: seq<Entry>, cur: nat, sale: Sale, n: int, numbers: seq<int>)
      returns (r: Option<seq<Entry>>, next: nat)
    requires cur == |expanded| <= |numbers|
    ensures r.Some? <==> cur + Clamp(n) <= |numbers|
    ensures r.Some? ==> r.value == expanded + RowEntries(sale, Clamp(n), cur, numbers) && next == |r.value|
  {
    var out := expanded;
    next := cur;
    var i := 1;
    while i <= n
      invariant 1 <= i && i - 1 <= Clamp(n)
      invariant next == |out| == cur + i - 1 && next <= |numbers|
      invariant out == expanded + RowEntries(sale, i - 1, cur, numbers)
    {
      if next >= |numbers| {
        return None, next;
      }
      RowEntriesStep(sale, i - 1, cur, numbers);
      out := out + [Entry(|out| + 1, sale.firstName, sale.lastName, sale.email,
                          sale.ticketNo + "-" + DecimalString(i), numbers[next])];
      next := next + 1;
      i := i + 1;
    }
    return Some(out), next;
  }

  /** The expansion loop of the script: for each sale, as many records as
      its count, each taking the next number of `numbers`; None where the
      numbers run out. The counts are known to parse: the script computes
      `total_tickets` from them first. */
  method ExpandSales(sales: seq<Sale>, numbers: seq<int>) returns (r: Option<seq<Entry>>)
    requires Parsed(sales)
    ensures r.Some? <==> Made(Counts(sales)) <= |numbers|
    ensures r.Some? ==> r.value == Expansion(sales, Counts(sales), numbers)
  {
    ghost var counts := Counts(sales);
    var expanded: seq<Entry> := [];
    var cur := 0;
    for row := 0 to |sales|
      invariant cur == |expanded| == Made(counts[..row]) && cur <= |numbers|
      invariant expanded == Expansion(sales[..row], counts[..row], numbers)
    {
      var n := TicketCount(sales[row].tariff).value;
      assert counts[row] == n;
      var more;
      more, cur := ExpandRow(expanded, cur, sales[row], n, numbers);
      MadeStep(counts, row);
      if more.None? {
        MadeMonotone(counts, row + 1);
        return None;
      }
      ExpansionStep(sales, counts, numbers, row);
      expanded := more.value;
    }
    assert counts[..|sales|] == counts && sales[..|sales|] == sales;
    return Some(expanded);
  }

  // ----- the shuffled numbers -----

  /** `list(range(lo, hi))`. */
  function Range(lo: int, hi: int): (r: seq<int>)
    ensures |r| == if hi <= lo then 0 else hi - lo
  {
    if hi <= lo then [] else seq(hi - lo, i requires 0 <= i < hi - lo => lo + i)
  }

  /** `random.shuffle`: the list is permuted in place; which permutation is
      chosen is left open. */
  method Shuffle(a: array<int>)
    modifies a
    ensures multiset(a[..]) == old(multiset(a[..]))
  {
    var i := a.Length;
    while i > 1
      invariant 0 <= i <= a.Length
      invariant multiset(a[..]) == old(multiset(a[..]))
    {
      var j :| 0 <= j < i;
      a[i - 1], a[j] := a[j], a[i - 1];
      i := i - 1;
    }
  }

  /** A permutation of 1..total has `total` elements, pairwise distinct,
      which are exactly the numbers from 1 to `total`. */
  lemma PermutationOfRange(numbers: seq<int>, total: nat)
    requires multiset(numbers) == multiset(Range(1, total + 1))
    ensures |numbers| == total
    ensures forall v :: v in numbers <==> 1 <= v <= total
    ensures forall i, j :: 0 <= i < j < |numbers| ==> numbers[i] != numbers[j]
  {
    var rng := Range(1, total + 1);
    assert |numbers| == |multiset(numbers)| == |multiset(rng)| == total;
    forall v ensures v in numbers <==> 1 <= v <= total {
      assert v in numbers <==> v in multiset(numbers);
      if 1 <= v <= total {
        assert rng[v - 1] == v;
      }
    }
    DistinctByPermutation(rng, numbers, x => x);
  }

  /** The "Nombre unique" values of a list of records. */
  function UniqueValues(e: seq<Entry>): set<int> {
    set p | 0 <= p < |e| :: e[p].unique
  }

  /** Records whose "Nombre unique" column copies a sequence of distinct
      numbers, which are exactly 1..total, have distinct numbers covering
      1..total. */
  lemma UniqueColumn(e: seq<Entry>, numbers: seq<int>, total: nat)
    requires |e| == |numbers| && forall p :: 0 <= p < |e| ==> e[p].unique == numbers[p]
    requires forall i, j :: 0 <= i < j < |numbers| ==> numbers[i] != numbers[j]
    requires forall v :: v in numbers <==> 1 <= v <= total
    ensures forall p, q :: 0 <= p < q < |e| ==> e[p].unique != e[q].unique
    ensures forall v :: v in UniqueValues(e) <==> 1 <= v <= total
  {
    forall v | 1 <= v <= total ensures v in UniqueValues(e) {
      assert v in numbers;
      var p :| 0 <= p < |numbers| && numbers[p] == v;
      assert e[p].unique == v;
    }
    forall p | 0 <= p < |e| ensures 1 <= e[p].unique <= total {
      assert numbers[p] in numbers;
    }
  }

  /** With no negative count, the script makes `total_tickets` records, and
      when its numbers are a permutation of 1..total_tickets, the records'
      "Nombre unique" values are pairwise distinct and are exactly the
      numbers 1..total_tickets. */
  lemma ExpandedNumbers(sales: seq<Sale>, numbers: seq<int>)
    requires Parsed(sales) && forall r :: 0 <= r < |sales| ==> Counts(sales)[r] >= 0
    requires Sum(Counts(sales)) >= 0
    requires multiset(numbers) == multiset(Range(1, Sum(Counts(sales)) + 1))
    ensures Made(Counts(sales)) == Sum(Counts(sales)) == |numbers|
    ensures var e := Expansion(sales, Counts(sales), numbers);
      && (forall p, q :: 0 <= p < q < |e| ==> e[p].unique != e[q].unique)
      && (forall v :: v in UniqueValues(e) <==> 1 <= v <= Sum(Counts(sales)))
  {
    var counts, total := Counts(sales), Sum(Counts(sales));
    MadeIsSum(counts);
    PermutationOfRange(numbers, total);
    ExpansionIndexes(sales, counts, numbers);
    UniqueColumn(Expansion(sales, counts, numbers), numbers, total);
  }

  /** The whole script on the sales rows: `total_tickets`, then the
      shuffled numbers 1..total, then the expansion; None where the script
      stops with an error. */
  method ProcessSales(sales: seq<Sale>) returns (total: Option<int>, expanded: Option<seq<Entry>>)
    ensures total == TotalTickets(sales)
    ensures total.None? ==> expanded.None?
    // with no negative count the expansion always completes ...
    ensures total.Some? && (forall r :: 0 <= r < |sales| ==> Counts(sales)[r] >= 0) ==> expanded.Some?
    // ... and its numbers are a permutation of 1..total
    ensures expanded.Some? ==>
              && Parsed(sales) && total.Some?
              && (exists numbers :: multiset(numbers) == multiset(Range(1, total.value + 1))
                                    && Made(Counts(sales)) <= |numbers|
                                    && expanded.value == Expansion(sales, Counts(sales), numbers))
  {
    total := TotalTickets(sales);
    if total.None? {
      return total, None;
    }
    var size := if total.value < 0 then 0 else total.value;
    var numbers := new int[size](i => i + 1);
    assert numbers[..] == Range(1, total.value + 1);
    Shuffle(numbers);
    expanded := ExpandSales(sales, numbers[..]);
    if forall r :: 0 <= r < |sales| ==> Counts(sales)[r] >= 0 {
      MadeIsSum(Counts(sales));
    }
  }

  // ----- the participant count -----

  /** `str.upper()`. */
  function Upper(s: string): (r: string)
    ensures |r| == |s| && forall i :: 0 <= i < |r| ==> !IsLowerLetter(r[i])
  {
    seq(|s|, i requires 0 <= i < |s| => UpperChar(s[i]))
  }

  /** The upper-cased (Prénom, Nom) pair of each sale, in order. */
  function UpperPairs(sales: seq<Sale>): (ps: seq<(string, string)>)
    ensures |ps| == |sales|
  {
    seq(|sales|, r requires 0 <= r < |sales| => (Upper(sales[r].firstName), Upper(sales[r].lastName)))
  }

  /** `drop_duplicates()`: the first occurrence of each value, in order. */
  function DropDuplicates<T(==)>(s: seq<T>): (r: seq<T>)
    ensures |r| <= |s|
    ensures s != [] ==> r != [] && r[0] == s[0]
  {
    if s == [] then []
    else
      var d := DropDuplicates(s[..|s| - 1]);
      if s[|s| - 1] in d then d else d + [s[|s| - 1]]
  }

  /** `drop_duplicates()` keeps every value once and nothing else. */
  lemma {:induction false} DropDuplicatesKeepsEachOnce<T>(s: seq<T>)
    ensures forall x :: x in s ==> x in DropDuplicates(s)
    ensures forall x :: x in DropDuplicates(s) ==> x in s
    ensures forall i, j :: 0 <= i < j < |DropDuplicates(s)| ==> DropDuplicates(s)[i] != DropDuplicates(s)[j]
  {
    if s != [] {
      var k := |s| - 1;
      DropDuplicatesKeepsEachOnce(s[..k]);
      assert s == s[..k] + [s[k]];
    }
  }

  /** A sequence without repetition has as many elements as its set. */
  lemma {:induction false} DistinctCard<T>(s: seq<T>)
    requires forall i, j :: 0 <= i < j < |s| ==> s[i] != s[j]
    ensures |set x | x in s| == |s|
  {
    if s != [] {
      var k := |s| - 1;
      DistinctCard(s[..k]);
      assert (set x | x in s) == (set x | x in s[..k]) + {s[k]};
      assert s[k] !in s[..k];
    }
  }

  /** `drop_duplicates()` leaves as many elements as there are distinct
      values. */
  lemma DropDuplicatesCount<T>(s: seq<T>)
    ensures |DropDuplicates(s)| == |set x | x in s|
  {
    DropDuplicatesKeepsEachOnce(s);
    DistinctCard(DropDuplicates(s));
    var d := DropDuplicates(s);
    assert (set x | x in d) == (set x | x in s);
  }

  /** `num_unique_participants`. */
  function UniqueParticipants(sales: seq<Sale>): (r: nat)
    ensures r <= |sales| && (sales != [] ==> r >= 1)
  {
    |DropDuplicates(UpperPairs(sales))|
  }

  /** The participant count is the number of distinct upper-cased
      (Prénom, Nom) pairs. */
  lemma UniqueParticipantsCount(sales: seq<Sale>)
    ensures UniqueParticipants(sales) == |set r | 0 <= r < |sales| :: (Upper(sales[r].firstName), Upper(sales[r].lastName))|
  {
    var ps := UpperPairs(sales);
    DropDuplicatesCount(ps);
    var pairs := set r | 0 <= r < |sales| :: (Upper(sales[r].firstName), Upper(sales[r].lastName));
    forall x | x in ps ensures x in pairs {
      var r :| 0 <= r < |ps| && ps[r] == x;
    }
    forall x | x in pairs ensures x in ps {
      var r :| 0 <= r < |sales| && x == (Upper(sales[r].firstName), Upper(sales[r].lastName));
      assert ps[r] == x;
    }
    assert (set x | x in ps) == pairs;
  }
}
