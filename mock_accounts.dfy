/** The account catalog of lib/data/mock-accounts.ts, its lookups, and the
    two IBAN display helpers. */
module MockAccounts {
  import opened Collections
  import opened Types

  /** `mockAccounts`: three accounts with pairwise distinct ids. */
  function Catalog(): (accounts: seq<Account>)
    ensures |accounts| == 3
    ensures forall i, j :: 0 <= i < j < |accounts| ==> accounts[i].id != accounts[j].id
  {
    [ Account("acc-001", "IE29AIBK93115212345678", "Main Current Account", Current, "EUR", 12450.00),
      Account("acc-002", "IE29AIBK93115287654321", "Savings Account", Savings, "EUR", 45000.00),
      Account("acc-003", "IE29AIBK93115298765432", "Business Account", Business, "EUR", 89750.50) ]
  }

  /** `getAccountById`: the account with that id, or nothing when absent. */
  function GetAccountById(id: string): (r: Option<Account>)
    ensures r.Some? ==> r.value in Catalog() && r.value.id == id
    ensures r.None? <==> forall a :: a in Catalog() ==> a.id != id
  {
    Find(Catalog(), (a: Account) => a.id == id)
  }

  /** The filter condition of `getAccountsByIds`. */
  function IdIn(ids: seq<string>): Account -> bool
  {
    (a: Account) => a.id in ids
  }

  /** `getAccountsByIds`: the catalog accounts whose id is listed, in catalog
      order, each at most once. */
  function GetAccountsByIds(ids: seq<string>): (r: seq<Account>)
    ensures forall a :: a in r <==> a in Catalog() && a.id in ids
    ensures NoDuplicates(r)
  {
    FilterKeepsDistinct(Catalog(), IdIn(ids));
    Filter(Catalog(), IdIn(ids))
  }

  /** Repeating an id, or adding one that no account has, changes nothing. */
  lemma AccountsByIdsIgnoresRepeatsAndUnknown(ids: seq<string>, x: string)
    requires x in ids || forall a :: a in Catalog() ==> a.id != x
    ensures GetAccountsByIds(ids + [x]) == GetAccountsByIds(ids)
  {
    FilterExt(Catalog(), IdIn(ids + [x]), IdIn(ids));
  }

  /** JavaScript line terminators: the characters `.` in a regular expression
      does not match. */
  predicate IsLineTerminator(c: char)
  {
    c == '\n' || c == '\r' || c == '\U{2028}' || c == '\U{2029}'
  }

  /** The characters `String.prototype.trim` removes. */
  predicate IsJsWhitespace(c: char)
  {
    || IsLineTerminator(c)
    || c == ' ' || c == '\t' || c == '\U{000B}' || c == '\U{000C}'
    || c == '\U{00A0}' || c == '\U{1680}' || ('\U{2000}' <= c <= '\U{200A}')
    || c == '\U{202F}' || c == '\U{205F}' || c == '\U{3000}' || c == '\U{FEFF}'
  }

  /** `s.replace(/(.{4})/g, '$1 ')`: every run of four characters without a
      line terminator, scanning left to right, is followed by a space. */
  function SpaceEveryFour(s: string): (r: string)
    ensures |s| <= |r|
    ensures r == [] <==> s == []
    decreases |s|
  {
    if |s| >= 4 && !IsLineTerminator(s[0]) && !IsLineTerminator(s[1])
       && !IsLineTerminator(s[2]) && !IsLineTerminator(s[3])
    then s[..4] + " " + SpaceEveryFour(s[4..])
    else if s == [] then []
    else [s[0]] + SpaceEveryFour(s[1..])
  }

  /** The replacement only inserts spaces: deleting every space from its
      result and from its input gives the same string, whatever the input. */
  lemma {:induction false} SpaceEveryFourOnlyAddsSpaces(s: string)
    ensures Filter(SpaceEveryFour(s), NotSpace) == Filter(s, NotSpace)
    decreases |s|
  {
    if |s| >= 4 && !IsLineTerminator(s[0]) && !IsLineTerminator(s[1])
       && !IsLineTerminator(s[2]) && !IsLineTerminator(s[3]) {
      SpaceEveryFourOnlyAddsSpaces(s[4..]);
      FilterDropsSeparator(s[..4], ' ', SpaceEveryFour(s[4..]), NotSpace);
      FilterConcat(s[..4], s[4..], NotSpace);
      assert s[..4] + s[4..] == s;
    } else if s != [] {
      SpaceEveryFourOnlyAddsSpaces(s[1..]);
      FilterConcat([s[0]], SpaceEveryFour(s[1..]), NotSpace);
      FilterConcat([s[0]], s[1..], NotSpace);
      assert [s[0]] + s[1..] == s;
    }
  }

  /** `trimStart`: the longest suffix that does not start with whitespace. */
  function TrimStart(s: string): (r: string)
    ensures |r| <= |s| && r == s[|s| - |r|..]
    ensures r != [] ==> !IsJsWhitespace(r[0])
    ensures forall i :: 0 <= i < |s| - |r| ==> IsJsWhitespace(s[i])
  {
    if s != [] && IsJsWhitespace(s[0]) then TrimStart(s[1..]) else s
  }

  /** `trimEnd`: the longest prefix that does not end with whitespace. */
  function TrimEnd(s: string): (r: string)
    ensures |r| <= |s| && r == s[..|r|]
    ensures r != [] ==> !IsJsWhitespace(r[|r| - 1])
    ensures forall i :: |r| <= i < |s| ==> IsJsWhitespace(s[i])
  {
    if s != [] && IsJsWhitespace(s[|s| - 1]) then TrimEnd(s[..|s| - 1]) else s
  }

  /** `formatIBAN`: the replacement, trimmed. Whatever the input, the result
      neither starts nor ends with whitespace. */
  function FormatIban(iban: string): (r: string)
    ensures r != [] ==> !IsJsWhitespace(r[0]) && !IsJsWhitespace(r[|r| - 1])
    ensures |r| <= |SpaceEveryFour(iban)|
  {
    TrimStart(TrimEnd(SpaceEveryFour(iban)))
  }

  /** An input that holds no character `trim` or `.` would treat specially. */
  predicate NoWhitespace(s: string)
  {
    forall i :: 0 <= i < |s| ==> !IsJsWhitespace(s[i])
  }

  /** The intended grouping: blocks of four separated by single spaces. */
  function Grouped(s: string): string
    decreases |s|
  {
    if |s| <= 4 then s else s[..4] + " " + Grouped(s[4..])
  }

  predicate NotSpace(c: char)
  {
    c != ' '
  }

  /** The deletion of every space. */
  function RemoveSpaces(s: string): string
  {
    Filter(s, NotSpace)
  }

  /** Below four characters the regular expression matches nothing. */
  lemma {:induction false} SpaceEveryFourShort(s: string)
    requires |s| < 4
    ensures SpaceEveryFour(s) == s
    decreases |s|
  {
    if s != [] {
      SpaceEveryFourShort(s[1..]);
    }
  }

  /** On a whitespace-free input the replacement gives the grouping plus one
      trailing space when the length is a positive multiple of four. */
  lemma {:induction false} SpaceEveryFourIsGrouped(s: string)
    requires NoWhitespace(s)
    ensures SpaceEveryFour(s) == Grouped(s) + (if |s| > 0 && |s| % 4 == 0 then " " else "")
    decreases |s|
  {
    if |s| < 4 {
      SpaceEveryFourShort(s);
    } else if |s| == 4 {
      assert s[4..] == [];
    } else {
      SpaceEveryFourIsGrouped(s[4..]);
    }
  }

  /** The grouping of a non-empty, space-free string has a space exactly at
      every fifth position, so it is blocks of four separated by single spaces
      with a last block of one to four characters, and it starts with the
      input's first character and ends with its last. */
  lemma {:induction false} GroupedLayout(s: string)
    requires s != [] && forall i :: 0 <= i < |s| ==> s[i] != ' '
    ensures var r := Grouped(s);
            && |r| == |s| + (|s| - 1) / 4
            && (forall i :: 0 <= i < |r| ==> (r[i] == ' ' <==> i % 5 == 4))
            && r[0] == s[0] && r[|r| - 1] == s[|s| - 1]
    decreases |s|
  {
    if |s| > 4 {
      var r := Grouped(s);
      var rest := Grouped(s[4..]);
      GroupedLayout(s[4..]);
      assert r == s[..4] + " " + rest;
      forall i | 0 <= i < |r| ensures r[i] == ' ' <==> i % 5 == 4 {
        if i >= 5 {
          assert r[i] == rest[i - 5];
        }
      }
    }
  }

  /** Deleting the spaces of the grouping of a space-free string gives it back. */
  lemma {:induction false} GroupedRemoveSpaces(s: string)
    requires forall i :: 0 <= i < |s| ==> s[i] != ' '
    ensures RemoveSpaces(Grouped(s)) == s
    decreases |s|
  {
    if |s| <= 4 {
      FilterKeepsAll(s, NotSpace);
    } else {
      var head, tail := s[..4], s[4..];
      GroupedRemoveSpaces(tail);
      FilterKeepsAll(head, NotSpace);
      FilterDropsSeparator(head, ' ', Grouped(tail), NotSpace);
      assert Grouped(s) == head + [' '] + Grouped(tail);
      assert head + tail == s;
    }
  }

  /** `formatIBAN` on a non-empty input without whitespace: deleting the spaces
      gives the input back, and the output is blocks of exactly four characters
      separated by single spaces, the last block one to four characters, with
      no space at either end. */
  lemma FormatIbanShape(iban: string)
    requires iban != [] && NoWhitespace(iban)
    ensures var r := FormatIban(iban);
            && RemoveSpaces(r) == iban
            && |r| == |iban| + (|iban| - 1) / 4
            && (forall i :: 0 <= i < |r| ==> (r[i] == ' ' <==> i % 5 == 4))
  {
    assert forall i :: 0 <= i < |iban| ==> iban[i] != ' ';
    FormatIbanIsGrouped(iban);
    GroupedLayout(iban);
    GroupedRemoveSpaces(iban);
  }

  /** On a non-empty input without whitespace, `formatIBAN` is the grouping. */
  lemma FormatIbanIsGrouped(iban: string)
    requires iban != [] && NoWhitespace(iban)
    ensures FormatIban(iban) == Grouped(iban)
  {
    var g := Grouped(iban);
    SpaceEveryFourIsGrouped(iban);
    GroupedLayout(iban);
    TrimKeepsInner(g);
    if |iban| % 4 == 0 {
      TrimEndDropsSpace(g);
    }
  }

  /** Trimming a string that neither starts nor ends with whitespace keeps it. */
  lemma TrimKeepsInner(s: string)
    requires s != [] && !IsJsWhitespace(s[0]) && !IsJsWhitespace(s[|s| - 1])
    ensures TrimStart(TrimEnd(s)) == s
  {
  }

  /** A trailing space is trimmed away. */
  lemma TrimEndDropsSpace(s: string)
    ensures TrimEnd(s + " ") == TrimEnd(s)
  {
    assert (s + " ")[..|s + " "| - 1] == s;
  }

  function Min(a: int, b: int): int
  {
    if a <= b then a else b
  }

  /** `maskIBAN`: `iban.slice(0, 4) + "..." + iban.slice(-4)`. From four
      characters on, it shows the first four and the last four around "...";
      below eight characters the two overlap. */
  function MaskIban(iban: string): (r: string)
    ensures |iban| >= 4 ==> |r| == 11 && r[..4] == iban[..4] && r[4..7] == "..."
                            && r[7..] == iban[|iban| - 4..]
    ensures |iban| < 4 ==> r == iban + "..." + iban
  {
    iban[..Min(4, |iban|)] + "..." + iban[|iban| - Min(4, |iban|)..]
  }
}
