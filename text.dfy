/** Text helpers shared by the three draw applications: the comparison key
    `norm_text` (strip, then case-fold) and the display formatting of winners'
    first and last names.

    Python's case mappings are modelled by the one-to-one mapping of the ASCII
    and Latin-1 letter pairs (ß, ÿ and µ, whose partners lie outside that
    range or are two letters, are left alone), and `str.isspace` by its
    Latin-1 part. */
module Text {

  /** `str.isspace` on the Latin-1 range: TAB..CR, the four separators
      0x1C..0x1F, SPACE, NEL and NO-BREAK SPACE. */
  predicate IsSpace(c: char) {
    ('\t' <= c <= '\r') || ('\U{1C}' <= c <= ' ') || c == '\U{85}' || c == '\U{A0}'
  }

  predicate IsUpperLetter(c: char) {
    ('A' <= c <= 'Z') || ('\U{C0}' <= c <= '\U{DE}' && c != '\U{D7}')
  }

  predicate IsLowerLetter(c: char) {
    ('a' <= c <= 'z') || ('\U{E0}' <= c <= '\U{FE}' && c != '\U{F7}')
  }

  /** Characters that the case mappings leave alone. */
  predicate Uncased(c: char) {
    !IsUpperLetter(c) && !IsLowerLetter(c)
  }

  function LowerChar(c: char): (r: char)
    ensures IsUpperLetter(c) ==> IsLowerLetter(r) && r as int == c as int + 32
    ensures !IsUpperLetter(c) ==> r == c
  {
    if IsUpperLetter(c) then (c as int + 32) as char else c
  }

  function UpperChar(c: char): (r: char)
    ensures IsLowerLetter(c) ==> IsUpperLetter(r) && r as int == c as int - 32
    ensures !IsLowerLetter(c) ==> r == c
  {
    if IsLowerLetter(c) then (c as int - 32) as char else c
  }

  /** Both case mappings are idempotent and each undoes the other's effect. */
  lemma CaseMappings(c: char)
    ensures UpperChar(UpperChar(c)) == UpperChar(c) && LowerChar(LowerChar(c)) == LowerChar(c)
    ensures UpperChar(LowerChar(c)) == UpperChar(c) && LowerChar(UpperChar(c)) == LowerChar(c)
    ensures Uncased(c) <==> Uncased(UpperChar(c))
    ensures Uncased(c) <==> Uncased(LowerChar(c))
    ensures IsSpace(UpperChar(c)) == IsSpace(c) && IsSpace(LowerChar(c)) == IsSpace(c)
  {
  }

  // ---------------------------------------------------------------------
  // strip / casefold / norm_text

  /** `s` without its leading whitespace. */
  function TrimStart(s: string): (r: string)
    ensures |r| <= |s|
  {
    if s != [] && IsSpace(s[0]) then TrimStart(s[1..]) else s
  }

  /** `s` without its trailing whitespace. */
  function TrimEnd(s: string): (r: string)
    ensures |r| <= |s|
  {
    if s != [] && IsSpace(s[|s| - 1]) then TrimEnd(s[..|s| - 1]) else s
  }

  /** `TrimStart` drops exactly the whitespace before the first other
      character: what it keeps is a suffix that does not start with
      whitespace, and all it drops is whitespace. */
  lemma {:induction false} TrimStartDropsSpaces(s: string)
    ensures var r := TrimStart(s);
      && r == s[|s| - |r|..]
      && (r == [] || !IsSpace(r[0]))
      && (forall i :: 0 <= i < |s| - |r| ==> IsSpace(s[i]))
  {
    if s != [] && IsSpace(s[0]) {
      TrimStartDropsSpaces(s[1..]);
    }
  }

  /** `TrimEnd` drops exactly the whitespace after the last other
      character. */
  lemma {:induction false} TrimEndDropsSpaces(s: string)
    ensures var r := TrimEnd(s);
      && r == s[..|r|]
      && (r == [] || !IsSpace(r[|r| - 1]))
      && (forall i :: |r| <= i < |s| ==> IsSpace(s[i]))
  {
    if s != [] && IsSpace(s[|s| - 1]) {
      TrimEndDropsSpaces(s[..|s| - 1]);
    }
  }

  /** Number of whitespace characters at the start of `s`. */
  function LeadingSpaces(s: string): (i: nat)
    ensures i <= |s|
  {
    |s| - |TrimStart(s)|
  }

  /** `str.strip()`: `s` without the whitespace at both ends. */
  function Strip(s: string): (r: string)
    ensures |r| <= |s|
    ensures r == [] || (!IsSpace(r[0]) && !IsSpace(r[|r| - 1]))
  {
    TrimStartDropsSpaces(s);
    TrimEndDropsSpaces(TrimStart(s));
    TrimEnd(TrimStart(s))
  }

  /** What `Strip` keeps is the slice of `s` between its leading and its
      trailing whitespace, and it neither starts nor ends with whitespace. */
  lemma StripKeepsMiddle(s: string)
    ensures var r, i := Strip(s), LeadingSpaces(s);
      && (r == [] || (!IsSpace(r[0]) && !IsSpace(r[|r| - 1])))
      && i + |r| <= |s| && r == s[i..i + |r|]
      && (forall j :: 0 <= j < i ==> IsSpace(s[j]))
      && (forall j :: i + |r| <= j < |s| ==> IsSpace(s[j]))
  {
    var t := TrimStart(s);
    TrimStartDropsSpaces(s);
    TrimEndDropsSpaces(t);
    var r := TrimEnd(t);
    assert r == s[|s| - |t|..|s| - |t| + |r|];
    forall j | |s| - |t| + |r| <= j < |s| ensures IsSpace(s[j]) {
      assert s[j] == t[j - (|s| - |t|)];
    }
  }

  /** `str.casefold()` under the simple case mapping: no upper-case letter
      is left, and white space stays where it was. */
  function CaseFold(s: string): (r: string)
    ensures |r| == |s|
    ensures forall i :: 0 <= i < |r| ==> !IsUpperLetter(r[i]) && (IsSpace(r[i]) <==> IsSpace(s[i]))
  {
    seq(|s|, i requires 0 <= i < |s| => LowerChar(s[i]))
  }

  /** `norm_text`: `str(x).strip().casefold()`. The key neither starts nor
      ends with white space and holds no upper-case letter. */
  function Norm(s: string): (r: string)
    ensures |r| <= |s|
    ensures r == [] || (!IsSpace(r[0]) && !IsSpace(r[|r| - 1]))
    ensures forall i :: 0 <= i < |r| ==> !IsUpperLetter(r[i])
  {
    CaseFold(Strip(s))
  }

  /** A normalised string has no whitespace at either end and no upper-case
      letter, and normalising it again changes nothing. */
  lemma NormIdempotent(s: string)
    ensures var n := Norm(s);
      (n == [] || (!IsSpace(n[0]) && !IsSpace(n[|n| - 1])))
      && (forall i :: 0 <= i < |n| ==> !IsUpperLetter(n[i]))
      && Norm(n) == n
  {
    var t := Strip(s);
    var n := CaseFold(t);
    StripKeepsMiddle(s);
    if n != [] {
      CaseMappings(t[0]);
      CaseMappings(t[|t| - 1]);
    }
    assert TrimStart(n) == n;
    assert TrimEnd(n) == n;
    assert Strip(n) == n;
    forall i | 0 <= i < |n|
      ensures LowerChar(n[i]) == n[i] && !IsUpperLetter(n[i])
    {
      CaseMappings(t[i]);
    }
    assert CaseFold(n) == n;
  }

  // ---------------------------------------------------------------------
  // str.split(sep) / sep.join(parts)

  /** `s.split(sep)` for a one-character separator: always at least one part,
      empty parts kept. */
  function Split(s: string, sep: char): (parts: seq<string>)
    ensures |parts| >= 1
  {
    if s == [] then [[]]
    else
      var rest := Split(s[1..], sep);
      if s[0] == sep then [[]] + rest else [[s[0]] + rest[0]] + rest[1..]
  }

  /** `sep.join(parts)`: the first part, then the separator when another
      part follows. */
  function Join(sep: char, parts: seq<string>): (r: string)
    ensures |parts| > 0 ==> |parts[0]| <= |r| && r[..|parts[0]|] == parts[0]
    ensures |parts| > 1 ==> |parts[0]| < |r| && r[|parts[0]|] == sep
  {
    if |parts| == 0 then []
    else if |parts| == 1 then parts[0]
    else parts[0] + [sep] + Join(sep, parts[1..])
  }

  lemma JoinConsChar(sep: char, c: char, x: string, rest: seq<string>)
    ensures Join(sep, [[c] + x] + rest) == [c] + Join(sep, [x] + rest)
  {
    if |rest| > 0 {
      assert ([[c] + x] + rest)[1..] == rest;
      assert ([x] + rest)[1..] == rest;
    }
  }

  /** Splitting at `sep` and joining with `sep` gives back the original
      string, and no part contains the separator. */
  lemma {:induction false} SplitJoinRoundTrip(s: string, sep: char)
    ensures Join(sep, Split(s, sep)) == s
    ensures forall p :: p in Split(s, sep) ==> sep !in p
  {
    if s != [] {
      var rest := Split(s[1..], sep);
      SplitJoinRoundTrip(s[1..], sep);
      if s[0] == sep {
        assert ([[]] + rest)[1..] == rest;
        assert Split(s, sep) == [[]] + rest;
        assert s == [sep] + s[1..];
      } else {
        JoinConsChar(sep, s[0], rest[0], rest[1..]);
        assert [rest[0]] + rest[1..] == rest;
        assert s == [s[0]] + s[1..];
        forall p | p in Split(s, sep) ensures sep !in p {
          if p != [s[0]] + rest[0] {
            assert p in rest;
          }
        }
      }
    }
  }

  // ---------------------------------------------------------------------
  // capitalize / format_name / format_last_name

  /** Upper-cases every character that begins a word and lower-cases every
      other one; a word begins at the start of `s` when `start` holds, and
      right after each character of `seps`. */
  function Recase(s: string, seps: set<char>, start: bool): (r: string)
    ensures |r| == |s|
    ensures s != [] ==> r[0] == (if start then UpperChar(s[0]) else LowerChar(s[0]))
    ensures forall i :: 0 < i < |s| ==> r[i] == (if s[i - 1] in seps then UpperChar(s[i]) else LowerChar(s[i]))
  {
    if s == [] then []
    else [if start then UpperChar(s[0]) else LowerChar(s[0])] + Recase(s[1..], seps, s[0] in seps)
  }

  /** Without separators only the first character can be upper-cased. */
  lemma RecaseNoSeparator(p: string, start: bool)
    ensures forall i :: 0 < i < |p| ==> Recase(p, {}, start)[i] == LowerChar(p[i])
  {
    var none: set<char> := {};
    forall i | 0 < i < |p| ensures Recase(p, none, start)[i] == LowerChar(p[i]) {
      assert p[i - 1] !in none;
    }
  }

  /** `str.capitalize()`: first character upper-cased, the rest lower-cased. */
  function Capitalize(p: string): (r: string)
    ensures |r| == |p|
    ensures p != [] ==> r[0] == UpperChar(p[0])
    ensures forall i :: 0 < i < |p| ==> r[i] == LowerChar(p[i])
  {
    RecaseNoSeparator(p, true);
    Recase(p, {}, true)
  }

  function CapitalizeEach(parts: seq<string>): (r: seq<string>)
    ensures |r| == |parts| && forall i :: 0 <= i < |parts| ==> r[i] == Capitalize(parts[i])
  {
    if parts == [] then [] else [Capitalize(parts[0])] + CapitalizeEach(parts[1..])
  }

  /** `format_name`: capitalise each hyphen-separated part of a first name.
      This upper-cases exactly the first character and the characters that
      follow a hyphen, and lower-cases all the others. */
  function FormatName(name: string): (r: string)
    ensures r == Recase(name, {'-'}, true)
  {
    var ps := Split(name, '-');
    var caps := CapitalizeEach(ps);
    assert caps == [Capitalize(ps[0])] + caps[1..];
    JoinRecase(name, '-', {}, true, caps[1..]);
    assert {} + {'-'} == {'-'};
    Join('-', caps)
  }

  function FormatEachName(parts: seq<string>): (r: seq<string>)
    ensures |r| == |parts| && forall i :: 0 <= i < |parts| ==> r[i] == FormatName(parts[i])
  {
    if parts == [] then [] else [FormatName(parts[0])] + FormatEachName(parts[1..])
  }

  /** `format_last_name`: split at spaces, and format each segment as
      `format_name` formats a first name. This upper-cases exactly the first
      character and the characters that follow a space or a hyphen, and
      lower-cases the others. */
  function FormatLastName(lastName: string): (r: string)
    ensures r == Recase(lastName, {' ', '-'}, true)
  {
    var ps := Split(lastName, ' ');
    var fs := FormatEachName(ps);
    assert fs == [Recase(ps[0], {'-'}, true)] + fs[1..];
    JoinRecase(lastName, ' ', {'-'}, true, fs[1..]);
    assert {'-'} + {' '} == {' ', '-'};
    Join(' ', fs)
  }

  /** Joining the recased parts of `s` at an uncased separator recases `s`
      itself, with the separator counted as one more word boundary. */
  lemma {:induction false} JoinRecase(s: string, sep: char, inner: set<char>, start: bool, rest: seq<string>)
    requires Uncased(sep) && sep !in inner
    requires |rest| == |Split(s, sep)| - 1
    requires forall i :: 0 <= i < |rest| ==> rest[i] == Recase(Split(s, sep)[i + 1], inner, true)
    ensures Join(sep, [Recase(Split(s, sep)[0], inner, start)] + rest) == Recase(s, inner + {sep}, start)
  {
    if s != [] {
      var r := Split(s[1..], sep);
      if s[0] == sep {
        assert Split(s, sep) == [[]] + r;
        var rest' := rest[1..];
        assert rest == [Recase(r[0], inner, true)] + rest';
        JoinRecase(s[1..], sep, inner, true, rest');
        assert ([[]] + rest)[1..] == rest;
      } else {
        assert Split(s, sep) == [[s[0]] + r[0]] + r[1..];
        assert ([s[0]] + r[0])[1..] == r[0];
        JoinRecase(s[1..], sep, inner, s[0] in inner, rest);
        JoinConsChar(sep, if start then UpperChar(s[0]) else LowerChar(s[0]), Recase(r[0], inner, s[0] in inner), rest);
      }
    }
  }

  lemma {:induction false} RecaseIdempotent(s: string, seps: set<char>, start: bool)
    requires forall c :: c in seps ==> Uncased(c)
    ensures Recase(Recase(s, seps, start), seps, start) == Recase(s, seps, start)
  {
    if s != [] {
      var c := s[0];
      var c' := if start then UpperChar(c) else LowerChar(c);
      CaseMappings(c);
      assert (c' in seps) == (c in seps);
      var r := Recase(s, seps, start);
      assert r[0] == c' && r[1..] == Recase(s[1..], seps, c in seps);
      RecaseIdempotent(s[1..], seps, c in seps);
    }
  }

  /** Formatting a name twice is the same as formatting it once; the length
      is kept, so a non-empty surname stays non-empty. */
  lemma FormatIdempotent(name: string)
    ensures |FormatName(name)| == |name| && FormatName(FormatName(name)) == FormatName(name)
    ensures |FormatLastName(name)| == |name| && FormatLastName(FormatLastName(name)) == FormatLastName(name)
  {
    RecaseIdempotent(name, {'-'}, true);
    RecaseIdempotent(name, {' ', '-'}, true);
  }

  /** The formatted surname starts with the upper-cased first letter of the
      raw surname. */
  lemma FormatLastNameInitial(lastName: string)
    requires |lastName| > 0
    ensures |FormatLastName(lastName)| == |lastName|
    ensures FormatLastName(lastName)[0] == UpperChar(lastName[0])
  {
  }
}
