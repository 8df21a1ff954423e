/** The string functions of Go that the parsers use: Split, TrimSpace, Atoi. */
module Text {
  import opened Common
  import opened Arithmetic
  import opened Sequences

  const INT_MAX: int := 0x7fff_ffff_ffff_ffff
  const INT_MIN: int := -0x8000_0000_0000_0000

  /** The pieces between the separators; never empty. */
  function Split(s: string, sep: char): (ps: seq<string>)
    ensures |ps| > 0
  {
    if s == [] then [[]]
    else
      var rest := Split(s[1..], sep);
      if s[0] == sep then [[]] + rest else [[s[0]] + rest[0]] + rest[1..]
  }

  lemma {:induction false} SplitOne(p: string, sep: char)
    requires sep !in p
    ensures Split(p, sep) == [p]
  {
    if p != [] {
      SplitOne(p[1..], sep);
      assert [p[0]] + p[1..] == p;
    }
  }

  lemma {:induction false} SplitFirst(p: string, sep: char, rest: string)
    requires sep !in p
    ensures Split(p + [sep] + rest, sep) == [p] + Split(rest, sep)
  {
    var s := p + [sep] + rest;
    if p == [] {
      assert s[1..] == rest;
    } else {
      SplitFirst(p[1..], sep, rest);
      assert s[1..] == p[1..] + [sep] + rest;
      assert [p[0]] + p[1..] == p;
    }
  }

  /** The pieces contain no separator, and only characters of the string. */
  lemma {:induction false} SplitPieces(s: string, sep: char, p: string)
    requires p in Split(s, sep)
    ensures sep !in p
    ensures forall c :: c in p ==> c in s
  {
    if s != [] {
      var rest := Split(s[1..], sep);
      if s[0] == sep {
        if p != [] { SplitPieces(s[1..], sep, p); }
      } else if p in rest[1..] {
        SplitPieces(s[1..], sep, p);
      } else {
        SplitPieces(s[1..], sep, rest[0]);
      }
    }
  }

  /** There is one piece more than there are separators. */
  lemma {:induction false} SplitCount(s: string, sep: char)
    ensures |Split(s, sep)| == 1 <==> sep !in s
  {
    if s != [] {
      SplitCount(s[1..], sep);
      assert s == [s[0]] + s[1..];
    }
  }

  lemma SplitFront(s: string, sep: char)
    requires s != []
    ensures var rest := Split(s[1..], sep);
      Split(s, sep) == if s[0] == sep then [[]] + rest else [[s[0]] + rest[0]] + rest[1..]
  {
  }

  /** One more character at the end of the last piece. */
  function LastExtended(ps: seq<string>, c: char): seq<string>
    requires ps != []
  {
    ps[..|ps| - 1] + [ps[|ps| - 1] + [c]]
  }

  lemma ExtendBehind(first: string, rest: seq<string>, c: char)
    requires rest != []
    ensures LastExtended([first] + rest, c) == [first] + LastExtended(rest, c)
  {
    assert ([first] + rest)[..|rest|] == [first] + rest[..|rest| - 1];
  }

  lemma ExtendOnly(x: char, first: string, c: char)
    ensures LastExtended([[x] + first], c) == [[x] + (first + [c])]
  {
    Associative([x], first, [c]);
  }

  lemma {:induction false} SplitLast(s: string, sep: char, c: char)
    requires c != sep
    ensures Split(s + [c], sep) == LastExtended(Split(s, sep), c)
  {
    if s == [] {
      assert s + [c] == [c];
      SplitOne([c], sep);
    } else {
      hide Split, LastExtended;
      SplitLast(s[1..], sep, c);
      SplitFront(s, sep);
      SplitFront(s + [c], sep);
      Associative([s[0]], s[1..], [c]);
      assert (s + [c])[1..] == s[1..] + [c];
      var rest := Split(s[1..], sep);
      LastExtendedIs(rest, c);
      if s[0] == sep {
        ExtendBehind([], rest, c);
      } else if |rest| == 1 {
        ExtendOnly(s[0], rest[0], c);
      } else {
        ExtendBehind([s[0]] + rest[0], rest[1..], c);
      }
    }
  }

  /** What that changes. */
  lemma LastExtendedIs(ps: seq<string>, c: char)
    requires ps != []
    ensures LastExtended(ps, c)[0] == if |ps| == 1 then ps[0] + [c] else ps[0]
    ensures LastExtended(ps, c)[1..] == if |ps| == 1 then [] else LastExtended(ps[1..], c)
  {
  }

  /** strings.Join with a one-character separator. */
  function Join(ps: seq<string>, sep: char): string {
    if ps == [] then [] else if |ps| == 1 then ps[0] else ps[0] + [sep] + Join(ps[1..], sep)
  }

  lemma {:induction false} JoinSplits(ps: seq<string>, sep: char)
    requires ps != [] && forall i :: 0 <= i < |ps| ==> sep !in ps[i]
    ensures Split(Join(ps, sep), sep) == ps
  {
    if |ps| == 1 {
      SplitOne(ps[0], sep);
    } else {
      JoinSplits(ps[1..], sep);
      SplitFirst(ps[0], sep, Join(ps[1..], sep));
    }
  }

  predicate Space(c: char) {
    c == ' ' || c == '\t' || c == '\n' || c == '\r' || c == '\U{B}' || c == '\U{C}' || c == '\U{85}' || c == '\U{A0}'
  }

  function TrimSpace(s: string): string {
    if s == [] then []
    else if Space(s[0]) then TrimSpace(s[1..])
    else if Space(s[|s| - 1]) then TrimSpace(s[..|s| - 1])
    else s
  }

  lemma TrimNothing(s: string)
    requires forall c :: c in s ==> !Space(c)
    ensures TrimSpace(s) == s
  {
  }

  lemma {:induction false} TrimEnd(s: string, c: char)
    requires Space(c)
    ensures TrimSpace(s + [c]) == TrimSpace(s)
  {
    if s == [] {
      assert [c][1..] == [];
    } else if Space(s[0]) {
      assert (s + [c])[1..] == s[1..] + [c];
      TrimEnd(s[1..], c);
    } else {
      assert (s + [c])[..|s|] == s;
    }
  }

  lemma TrimStart(s: string, c: char)
    requires Space(c)
    ensures TrimSpace([c] + s) == TrimSpace(s)
  {
    assert ([c] + s)[1..] == s;
  }

  predicate AllSpace(s: string) {
    forall c :: c in s ==> Space(c)
  }

  /** No white space at either end. */
  predicate Trimmed(s: string) {
    s == [] || (!Space(s[0]) && !Space(s[|s| - 1]))
  }

  /** White space on both sides is taken off, and nothing else. */
  lemma {:induction false} TrimPadded(before: string, s: string, after: string)
    requires AllSpace(before) && AllSpace(after) && Trimmed(s)
    ensures TrimSpace(before + s + after) == s
    decreases |before| + |after|
  {
    if before != [] {
      TrimPadded(before[1..], s, after);
      TrimStart(before[1..] + s + after, before[0]);
      assert before + s + after == [before[0]] + (before[1..] + s + after);
    } else if after != [] {
      var n := |after| - 1;
      TrimPadded(before, s, after[..n]);
      TrimEnd(before + s + after[..n], after[n]);
      assert before + s + after == (before + s + after[..n]) + [after[n]];
    } else {
      assert before + s + after == s;
    }
  }

  predicate Digit(c: char) {
    '0' <= c <= '9'
  }

  predicate AllDigits(s: string) {
    forall i :: 0 <= i < |s| ==> Digit(s[i])
  }

  function DecimalValue(s: string): nat
    requires AllDigits(s)
  {
    if s == [] then 0 else 10 * DecimalValue(s[..|s| - 1]) + (s[|s| - 1] as int - '0' as int)
  }

  /** strconv.Atoi: an optional sign, at least one digit, a value that fits into an int. */
  function Atoi(s: string): Option<int> {
    var signed := s != [] && (s[0] == '-' || s[0] == '+');
    var digits := if signed then s[1..] else s;
    if digits == [] || !AllDigits(digits) then None
    else
      var magnitude: int := DecimalValue(digits);
      var v := if signed && s[0] == '-' then -magnitude else magnitude;
      if INT_MIN <= v <= INT_MAX then Some(v) else None
  }

  /** What Atoi reads has no white space around it. */
  lemma AtoiTrimmed(s: string)
    requires Atoi(s).Some?
    ensures TrimSpace(s) == s
  {
    assert !Space(s[0]) && Digit(s[|s| - 1]);
  }

  function Decimal(n: nat): string {
    (if n < 10 then [] else Decimal(n / 10)) + ['0' + (n % 10) as char]
  }

  lemma {:induction false} DecimalDigits(n: nat)
    ensures Decimal(n) != [] && AllDigits(Decimal(n)) && DecimalValue(Decimal(n)) == n
  {
    var last: string := ['0' + (n % 10) as char];
    if n < 10 {
      assert Decimal(n) == last;
      assert last[..0] == [];
    } else {
      DecimalDigits(n / 10);
      assert Decimal(n)[..|Decimal(n)| - 1] == Decimal(n / 10);
    }
  }

  /** Decimal notation is read back unless the number is too large. */
  lemma AtoiDecimal(n: nat)
    ensures n <= INT_MAX ==> Atoi(Decimal(n)) == Some(n)
    ensures n > INT_MAX ==> Atoi(Decimal(n)) == None
  {
    DecimalDigits(n);
    assert Digit(Decimal(n)[0]);
  }

  /** So it is with a sign. */
  lemma AtoiSigned(n: nat)
    ensures Atoi(['+'] + Decimal(n)) == Atoi(Decimal(n))
    ensures n <= 0 - INT_MIN ==> Atoi(['-'] + Decimal(n)) == Some(0 - n)
    ensures n > 0 - INT_MIN ==> Atoi(['-'] + Decimal(n)) == None
  {
    DecimalDigits(n);
    AtoiDecimal(n);
    hide Decimal;
    assert (['-'] + Decimal(n))[1..] == Decimal(n) && (['+'] + Decimal(n))[1..] == Decimal(n);
  }

  lemma DecimalPlain(n: nat, c: char)
    requires c in Decimal(n)
    ensures Digit(c)
  {
    DecimalDigits(n);
  }
}
