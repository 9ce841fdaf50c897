/** Text pieces shared by the two slot-string parsers: tokens, cuts and decimal integers. */
module Tokens {
  import opened Lists

  // ----- Tokens: maximal runs of non-separator characters, in order -----

  /** The tokens of `pending + s`, where `pending` is a token already begun. */
  function Split(s: string, sep: char -> bool, pending: string): seq<string> {
    if s == "" then
      if pending == "" then [] else [pending]
    else if sep(s[0]) then
      (if pending == "" then [] else [pending]) + Split(s[1..], sep, "")
    else
      Split(s[1..], sep, pending + [s[0]])
  }

  function Fields(s: string, sep: char -> bool): seq<string> {
    Split(s, sep, "")
  }

  ghost predicate Clean(s: string, sep: char -> bool) {
    forall c <- s :: !sep(c)
  }

  lemma {:induction false} SplitAtSeparator(a: string, c: char, b: string, sep: char -> bool, pending: string)
    requires sep(c)
    ensures Split(a + [c] + b, sep, pending) == Split(a, sep, pending) + Split(b, sep, "")
  {
    var s := a + [c] + b;
    if a == "" {
      assert s[1..] == b;
    } else {
      assert s[1..] == a[1..] + [c] + b;
      SplitAtSeparator(a[1..], c, b, sep, if sep(a[0]) then "" else pending + [a[0]]);
    }
  }

  lemma {:induction false} SplitClean(s: string, sep: char -> bool, pending: string)
    requires Clean(s, sep)
    ensures Split(s, sep, pending) == if pending + s == "" then [] else [pending + s]
  {
    if s == "" {
      assert pending + s == pending;
    } else {
      assert !sep(s[0]);
      SplitClean(s[1..], sep, pending + [s[0]]);
      assert pending + [s[0]] + s[1..] == pending + s;
    }
  }

  /** Every token is non-empty and holds no separator. */
  lemma {:induction false} SplitTokensClean(s: string, sep: char -> bool, pending: string)
    requires Clean(pending, sep)
    ensures forall t <- Split(s, sep, pending) :: t != "" && Clean(t, sep)
  {
    if s != "" {
      if sep(s[0]) {
        SplitTokensClean(s[1..], sep, "");
      } else {
        SplitTokensClean(s[1..], sep, pending + [s[0]]);
      }
    }
  }

  /** The tokens hold exactly the characters that are not separators. */
  lemma {:induction false} SplitHolds(s: string, sep: char -> bool, pending: string, c: char)
    requires !sep(c)
    ensures c in pending + s <==> exists t <- Split(s, sep, pending) :: c in t
  {
    var parts := Split(s, sep, pending);
    if s == "" {
      assert pending != "" ==> parts[0] == pending;
    } else if sep(s[0]) {
      SplitHolds(s[1..], sep, "", c);
      var rest := Split(s[1..], sep, "");
      assert "" + s[1..] == s[1..] && (c in s <==> c in s[1..]);
      assert forall t :: t in parts <==> t in rest || (t == pending && pending != "");
    } else {
      SplitHolds(s[1..], sep, pending + [s[0]], c);
      assert pending + [s[0]] + s[1..] == pending + s;
    }
  }

  /** Splitting coarsely and then splitting each piece finely is splitting finely at once. */
  lemma {:induction false} RefineFields(s: string, coarse: char -> bool, fine: char -> bool, pending: string)
    requires forall c :: coarse(c) ==> fine(c)
    ensures Fields(pending + s, fine) == Flatten(Map(t => Fields(t, fine), Split(s, coarse, pending)))
  {
    var split := t => Fields(t, fine);
    if s == "" {
      assert pending + s == pending;
      if pending != "" {
        var ts := [pending];
        assert ts[1..] == [];
        assert Flatten(Map(split, ts)) == Fields(pending, fine) + [];
      }
    } else if coarse(s[0]) {
      SplitAtSeparator(pending, s[0], s[1..], fine, "");
      assert pending + [s[0]] + s[1..] == pending + s;
      RefineFields(s[1..], coarse, fine, "");
      assert "" + s[1..] == s[1..];
      var rest := Split(s[1..], coarse, "");
      if pending != "" {
        assert ([pending] + rest)[1..] == rest;
        assert Map(split, [pending] + rest) == [Fields(pending, fine)] + Map(split, rest);
      } else {
        assert [] + rest == rest;
      }
    } else {
      RefineFields(s[1..], coarse, fine, pending + [s[0]]);
      assert pending + [s[0]] + s[1..] == pending + s;
    }
  }

  /** Two separator tests that agree on the characters of `s` give the same tokens. */
  lemma {:induction false} SameSeparators(s: string, a: char -> bool, b: char -> bool, pending: string)
    requires forall c <- s :: a(c) == b(c)
    ensures Split(s, a, pending) == Split(s, b, pending)
  {
    if s != "" {
      assert s[0] in s && forall c <- s[1..] :: c in s;
      SameSeparators(s[1..], a, b, if a(s[0]) then "" else pending + [s[0]]);
    }
  }

  /** The tokens joined with one space between neighbours. */
  function Join(ts: seq<string>): string {
    if ts == [] then "" else if |ts| == 1 then ts[0] else ts[0] + [' '] + Join(ts[1..])
  }

  lemma {:induction false} FieldsOfJoin(ts: seq<string>, sep: char -> bool)
    requires sep(' ')
    requires forall t <- ts :: t != "" && Clean(t, sep)
    ensures Fields(Join(ts), sep) == ts
  {
    if |ts| == 1 {
      SplitClean(ts[0], sep, "");
      assert "" + ts[0] == ts[0];
    } else if |ts| > 1 {
      SplitAtSeparator(ts[0], ' ', Join(ts[1..]), sep, "");
      SplitClean(ts[0], sep, "");
      assert "" + ts[0] == ts[0];
      assert forall t <- ts[1..] :: t in ts;
      FieldsOfJoin(ts[1..], sep);
      assert [ts[0]] + ts[1..] == ts;
    }
  }

  // ----- Trimming -----

  function TrimLeft(s: string, space: char -> bool): string {
    if s != "" && space(s[0]) then TrimLeft(s[1..], space) else s
  }

  function TrimRight(s: string, space: char -> bool): string {
    if s != "" && space(s[|s| - 1]) then TrimRight(s[..|s| - 1], space) else s
  }

  function TrimSpace(s: string, space: char -> bool): string {
    TrimRight(TrimLeft(s, space), space)
  }

  lemma {:induction false} TrimLeftKeepsFields(s: string, space: char -> bool, sep: char -> bool)
    requires forall c :: space(c) ==> sep(c)
    ensures Fields(TrimLeft(s, space), sep) == Fields(s, sep)
  {
    if s != "" && space(s[0]) {
      SplitAtSeparator("", s[0], s[1..], sep, "");
      assert "" + [s[0]] + s[1..] == s;
      TrimLeftKeepsFields(s[1..], space, sep);
    }
  }

  lemma {:induction false} TrimRightKeepsFields(s: string, space: char -> bool, sep: char -> bool)
    requires forall c :: space(c) ==> sep(c)
    ensures Fields(TrimRight(s, space), sep) == Fields(s, sep)
  {
    if s != "" && space(s[|s| - 1]) {
      var n := |s| - 1;
      SplitAtSeparator(s[..n], s[n], "", sep, "");
      assert s[..n] + [s[n]] + "" == s;
      TrimRightKeepsFields(s[..n], space, sep);
    }
  }

  lemma TrimSpaceKeepsFields(s: string, space: char -> bool, sep: char -> bool)
    requires forall c :: space(c) ==> sep(c)
    ensures Fields(TrimSpace(s, space), sep) == Fields(s, sep)
  {
    TrimLeftKeepsFields(s, space, sep);
    TrimRightKeepsFields(TrimLeft(s, space), space, sep);
  }

  // ----- Decimal integers, as strconv.Atoi reads them on a 64-bit platform -----

  const MAX_INT := 0x7FFF_FFFF_FFFF_FFFF

  predicate IsDigit(c: char) {
    '0' <= c <= '9'
  }

  predicate AllDigits(s: string) {
    forall c <- s :: IsDigit(c)
  }

  function Value(s: string): nat
    requires AllDigits(s)
  {
    if s == "" then 0
    else
      assert s[|s| - 1] in s;
      Value(s[..|s| - 1]) * 10 + (s[|s| - 1] as int - '0' as int)
  }

  /** An optional sign and at least one digit, within the range of a 64-bit int. */
  function Atoi(s: string): (r: Option<int>)
    ensures r.Some? ==> -MAX_INT - 1 <= r.value <= MAX_INT
    ensures r.Some? && '-' !in s ==> r.value >= 0
  {
    var signed := s != "" && (s[0] == '+' || s[0] == '-');
    var digits := if signed then s[1..] else s;
    if digits == "" || !AllDigits(digits) then None
    else
      var magnitude: int := Value(digits);
      if signed && s[0] == '-' then
        if magnitude > MAX_INT + 1 then None else Some(-magnitude)
      else if magnitude > MAX_INT then None
      else Some(magnitude)
  }

  function Digit(d: nat): char
    requires d < 10
  {
    '0' + d as char
  }

  function Decimal(n: nat): (s: string)
    ensures s != ""
  {
    if n < 10 then [Digit(n)] else Decimal(n / 10) + [Digit(n % 10)]
  }

  lemma ValueSnoc(s: string, c: char)
    requires AllDigits(s) && IsDigit(c)
    ensures AllDigits(s + [c]) && Value(s + [c]) == Value(s) * 10 + (c as int - '0' as int)
  {
    assert (s + [c])[..|s|] == s;
  }

  lemma {:induction false} DecimalRoundTrip(n: nat)
    ensures AllDigits(Decimal(n)) && Value(Decimal(n)) == n
  {
    if n < 10 {
      ValueSnoc("", Digit(n));
      assert "" + [Digit(n)] == [Digit(n)];
    } else {
      DecimalRoundTrip(n / 10);
      ValueSnoc(Decimal(n / 10), Digit(n % 10));
    }
  }

  lemma AtoiOfDecimal(n: nat)
    requires n <= MAX_INT
    ensures Atoi(Decimal(n)) == Some(n)
  {
    DecimalRoundTrip(n);
    assert Decimal(n)[0] in Decimal(n);
  }
}
