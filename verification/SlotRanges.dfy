/**
 The two readers of the slot column of CLUSTER NODES: the strict one (internal/redis/slot_ranges.go)
 and the lenient one (internal/redis/cluster_reshard.go), the text format they read, and why they agree.
 */
module SlotRanges {
  import opened Lists
  import opened Tokens

  /** An inclusive range of hash slots. */
  datatype SlotRange = SlotRange(start: int, end: int)

  // ----- Separators -----

  /** White space in the sense of Unicode, as Go's unicode.IsSpace decides it. */
  predicate IsSpace(c: char) {
    c == ' ' || '\t' <= c <= '\r' || c == '\U{85}' || c == '\U{A0}' || c == '\U{1680}' ||
    '\U{2000}' <= c <= '\U{200A}' || c == '\U{2028}' || c == '\U{2029}' || c == '\U{202F}' ||
    c == '\U{205F}' || c == '\U{3000}'
  }

  predicate IsSlotSeparator(c: char) {
    IsSpace(c) || c == ','
  }

  /** The separators that the lenient reader knows. */
  predicate IsBlank(c: char) {
    c == ' ' || c == '\t'
  }

  // ----- The strict reader -----

  function FirstIndex(s: string, c: char): (i: nat)
    requires c in s
    ensures i < |s| && s[i] == c && c !in s[..i]
  {
    if s[0] == c then 0
    else
      var i := 1 + FirstIndex(s[1..], c);
      assert s[..i] == [s[0]] + s[1..][..i - 1];
      i
  }

  lemma {:induction false} FirstIndexIs(s: string, c: char, i: nat)
    requires i < |s| && s[i] == c && c !in s[..i]
    ensures FirstIndex(s, c) == i
  {
    if i > 0 {
      assert s[0] == s[..i][0];
      assert s[..i][1..] == s[1..][..i - 1];
      FirstIndexIs(s[1..], c, i - 1);
    }
  }

  /** The pieces of `s` between occurrences of `c`; there is always at least one. */
  function SplitOn(s: string, c: char): (parts: seq<string>)
    ensures parts != []
  {
    if c in s then
      var i := FirstIndex(s, c);
      [s[..i]] + SplitOn(s[i + 1..], c)
    else
      [s]
  }

  function ParseSlotToken(token: string): (r: Option<SlotRange>)
    ensures r.Some? ==> 0 <= r.value.start <= r.value.end <= MAX_INT
  {
    if token == "" || '[' in token || ']' in token then None
    else if '-' in token then
      var parts := SplitOn(token, '-');
      if |parts| != 2 then None
      else
        match (Atoi(parts[0]), Atoi(parts[1]))
        case (Some(start), Some(end)) =>
          if start < 0 || end < start then None else Some(SlotRange(start, end))
        case _ => None
    else
      match Atoi(token)
      case Some(slot) => if slot < 0 then None else Some(SlotRange(slot, slot))
      case None => None
  }

  /** What the strict reader makes of a slot column; None stands for its error. */
  function Ranges(raw: string): (r: Option<seq<SlotRange>>)
    ensures r.Some? ==> WellFormed(r.value)
  {
    var r := Traverse(ParseSlotToken, Fields(raw, IsSlotSeparator));
    r
  }

  ghost predicate WellFormed(ranges: seq<SlotRange>) {
    forall i | 0 <= i < |ranges| :: 0 <= ranges[i].start <= ranges[i].end <= MAX_INT
  }

  method ParseSlotRanges(raw: string) returns (result: Option<seq<SlotRange>>)
    ensures result == Ranges(raw)
  {
    var trimmed := TrimSpace(raw, IsSpace);
    TrimSpaceKeepsFields(raw, IsSpace, IsSlotSeparator);
    if trimmed == "" {
      return Some([]);
    }
    var tokens := Fields(trimmed, IsSlotSeparator);
    var ranges: seq<SlotRange> := [];
    for i := 0 to |tokens|
      invariant |ranges| == i
      invariant forall j | 0 <= j < i :: ParseSlotToken(tokens[j]) == Some(ranges[j])
    {
      match ParseSlotToken(tokens[i]) {
        case None => return None;
        case Some(range) => ranges := ranges + [range];
      }
    }
    assert Traverse(ParseSlotToken, tokens).Some? && Traverse(ParseSlotToken, tokens).value == ranges;
    return Some(ranges);
  }

  // ----- Counting -----

  function Size(r: SlotRange): int {
    r.end - r.start + 1
  }

  function Total(ranges: seq<SlotRange>): int {
    Sum(Size, ranges)
  }

  method CountSlots(ranges: seq<SlotRange>) returns (total: int)
    ensures total == Total(ranges)
  {
    total := 0;
    for i := 0 to |ranges|
      invariant total == Total(ranges[..i])
    {
      SumSnoc(Size, ranges[..i], ranges[i]);
      assert ranges[..i + 1] == ranges[..i] + [ranges[i]];
      total := total + (ranges[i].end - ranges[i].start + 1);
    }
    assert ranges[..|ranges|] == ranges;
  }

  // ----- The lenient reader -----

  method SplitFields(s: string) returns (fields: seq<string>)
    ensures fields == Fields(s, IsBlank)
  {
    fields := [];
    var start := -1;
    for i := 0 to |s|
      invariant -1 <= start < i
      invariant fields + Split(s[i..], IsBlank, if start >= 0 then s[start..i] else "") == Fields(s, IsBlank)
    {
      assert s[i..][1..] == s[i + 1..];
      if s[i] == ' ' || s[i] == '\t' {
        if start >= 0 {
          assert forall rest :: fields + ([s[start..i]] + rest) == fields + [s[start..i]] + rest;
          fields := fields + [s[start..i]];
          start := -1;
        } else {
          assert [] + Split(s[i + 1..], IsBlank, "") == Split(s[i + 1..], IsBlank, "");
        }
      } else if start < 0 {
        start := i;
        assert s[i..i + 1] == "" + [s[i]];
      } else {
        assert s[start..i + 1] == s[start..i] + [s[i]];
      }
    }
    if start >= 0 {
      assert s[start..|s|] == s[start..];
      fields := fields + [s[start..]];
    } else {
      assert fields + [] == fields;
    }
  }

  predicate OccursAt(s: string, sep: string, i: nat) {
    i + |sep| <= |s| && s[i..i + |sep|] == sep
  }

  method CutString(s: string, sep: string) returns (before: string, after: string, found: bool)
    ensures found ==> s == before + sep + after && forall j | 0 <= j < |before| :: !OccursAt(s, sep, j)
    ensures !found ==> before == s && after == "" && forall j | 0 <= j < |s| :: !OccursAt(s, sep, j)
  {
    for i := 0 to |s|
      invariant forall j | 0 <= j < i :: !OccursAt(s, sep, j)
    {
      if OccursAt(s, sep, i) {
        assert s == s[..i] + sep + s[i + |sep|..];
        return s[..i], s[i + |sep|..], true;
      }
    }
    return s, "", false;
  }

  /** The slots that the lenient reader sees in one token. */
  function TokenCount(part: string): int {
    if part != "" && part[0] == '[' then 0
    else if '-' !in part then 1
    else
      var i := FirstIndex(part, '-');
      match (Atoi(part[..i]), Atoi(part[i + 1..]))
      case (Some(lo), Some(hi)) => hi - lo + 1
      case _ => 0
  }

  /** The lenient count of a slot column. */
  function LenientCount(slots: string): int {
    Sum(TokenCount, Fields(slots, IsBlank))
  }

  lemma CutAtDash(part: string, before: string, after: string, found: bool)
    requires found ==> part == before + "-" + after && forall j | 0 <= j < |before| :: !OccursAt(part, "-", j)
    requires !found ==> forall j | 0 <= j < |part| :: !OccursAt(part, "-", j)
    ensures found <==> '-' in part
    ensures found ==> before == part[..FirstIndex(part, '-')] && after == part[FirstIndex(part, '-') + 1..]
  {
    forall j | 0 <= j < |part| && part[j] == '-' ensures OccursAt(part, "-", j) {
      assert part[j..j + 1] == "-";
    }
    if found {
      assert part[|before|] == '-';
      assert part[..|before|] == before && part[|before| + 1..] == after;
      forall j | 0 <= j < |before| ensures before[j] != '-' {
        assert part[j] == before[j];
      }
      FirstIndexIs(part, '-', |before|);
    }
  }

  method CountSlotsFromRanges(slotStr: string) returns (total: int)
    ensures total == LenientCount(slotStr)
  {
    if slotStr == "" {
      return 0;
    }
    total := 0;
    var fields := SplitFields(slotStr);
    for i := 0 to |fields|
      invariant total == Sum(TokenCount, fields[..i])
    {
      var part := fields[i];
      SumSnoc(TokenCount, fields[..i], part);
      assert fields[..i + 1] == fields[..i] + [part];
      if |part| > 0 && part[0] == '[' {
        continue;
      }
      var lo, hi, found := CutString(part, "-");
      CutAtDash(part, lo, hi, found);
      if !found {
        total := total + 1;
        continue;
      }
      match (Atoi(lo), Atoi(hi)) {
        case (Some(loVal), Some(hiVal)) => total := total + (hiVal - loVal + 1);
        case _ =>
      }
    }
    assert fields[..|fields|] == fields;
  }

  function DigitPrefix(s: string): (n: nat)
    ensures n <= |s| && AllDigits(s[..n])
    ensures n < |s| ==> !IsDigit(s[n])
  {
    if s != "" && IsDigit(s[0]) then
      var n := 1 + DigitPrefix(s[1..]);
      assert s[..n] == [s[0]] + s[1..][..n - 1];
      n
    else 0
  }

  lemma {:induction false} DigitPrefixIs(s: string, n: nat)
    requires n <= |s| && forall i | 0 <= i < n :: IsDigit(s[i])
    requires n < |s| ==> !IsDigit(s[n])
    ensures DigitPrefix(s) == n
  {
    if n > 0 {
      DigitPrefixIs(s[1..], n - 1);
    }
  }

  /** The slot named by a migrating or importing marker. */
  function OpenSlot(part: string): Option<int> {
    if |part| < 2 || part[0] != '[' then None
    else
      var inner := part[1..];
      var n := DigitPrefix(inner);
      if n == 0 then None else Atoi(inner[..n])
  }

  /** The slots named by the markers of a slot column, in order. */
  function OpenSlots(slots: string): seq<int> {
    Collect(OpenSlot, Fields(slots, IsBlank))
  }

  method ParseOpenSlots(slotStr: string) returns (slots: seq<int>)
    ensures slots == OpenSlots(slotStr)
  {
    slots := [];
    var fields := SplitFields(slotStr);
    for i := 0 to |fields|
      invariant slots == Collect(OpenSlot, fields[..i])
    {
      var part := fields[i];
      CollectSnoc(OpenSlot, fields[..i], part);
      assert fields[..i + 1] == fields[..i] + [part];
      if |part| < 2 || part[0] != '[' {
        continue;
      }
      var inner := part[1..];
      var idx := 0;
      while idx < |inner| && '0' <= inner[idx] <= '9'
        invariant idx <= |inner| && forall j | 0 <= j < idx :: IsDigit(inner[j])
      {
        idx := idx + 1;
      }
      DigitPrefixIs(inner, idx);
      if idx == 0 {
        continue;
      }
      match Atoi(inner[..idx]) {
        case None => continue;
        case Some(slot) => slots := slots + [slot];
      }
    }
    assert fields[..|fields|] == fields;
  }

  // ----- Agreement of the two readers -----

  lemma TokenCountAgrees(token: string)
    requires ParseSlotToken(token).Some?
    ensures TokenCount(token) == Size(ParseSlotToken(token).value)
  {
    assert token[0] in token;
    if '-' in token {
      var i := FirstIndex(token, '-');
      assert SplitOn(token, '-')[1..] == SplitOn(token[i + 1..], '-');
      assert '-' !in token[i + 1..];
    }
  }

  /**
   On every slot column that the strict reader accepts and whose only separators are spaces and tabs,
   the two readers count the same number of slots.
   */
  lemma CountsAgree(slots: string)
    requires forall c <- slots :: IsSlotSeparator(c) ==> IsBlank(c)
    requires Ranges(slots).Some?
    ensures LenientCount(slots) == Total(Ranges(slots).value)
  {
    var ts := Fields(slots, IsSlotSeparator);
    SameSeparators(slots, IsBlank, IsSlotSeparator, "");
    forall i | 0 <= i < |ts|
      ensures TokenCount(ts[i]) == match ParseSlotToken(ts[i]) case Some(r) => Size(r) case None => 0
    {
      TokenCountAgrees(ts[i]);
    }
    TraverseCollects(ParseSlotToken, ts);
    SumCollect(ParseSlotToken, Size, TokenCount, ts);
  }

  // ----- When the counts differ -----

  lemma SeparatorUnread(s: string, c: char)
    requires c in s && IsSlotSeparator(c)
    ensures Atoi(s).None?
  {
    assert !IsDigit(c) && s == [s[0]] + s[1..];
  }

  /** A piece in which separators and a dash meet counts nothing. */
  lemma DashedPieceCounts(t: string, c: char)
    requires '-' in t && c in t && IsSlotSeparator(c)
    ensures TokenCount(t) == 0
  {
    var i := FirstIndex(t, '-');
    assert t == t[..i] + [t[i]] + t[i + 1..];
    if c in t[..i] {
      SeparatorUnread(t[..i], c);
    } else {
      SeparatorUnread(t[i + 1..], c);
    }
  }

  lemma BracketUnread(t: string)
    requires '[' in t
    ensures Ranges(t).None?
  {
    assert "" + t == t;
    SplitHolds(t, IsSlotSeparator, "", '[');
    var ts := Fields(t, IsSlotSeparator);
    var u :| u in ts && '[' in u;
    var i: nat :| i < |ts| && ts[i] == u;
    assert ParseSlotToken(ts[i]).None?;
  }

  lemma TotalAtLeast(t: string)
    requires Ranges(t).Some?
    ensures Total(Ranges(t).value) >= |Fields(t, IsSlotSeparator)| == |Ranges(t).value|
  {
    var one := (r: SlotRange) => 1;
    SumOnes(one, Ranges(t).value);
    SumAtMost(one, Size, Ranges(t).value);
  }

  /** One strict token, and no dash beside a separator. */
  ghost predicate Plain(t: string) {
    |Fields(t, IsSlotSeparator)| == 1 && ('-' !in t || Clean(t, IsSlotSeparator))
  }

  lemma CleanPiece(t: string)
    requires t != "" && Clean(t, IsSlotSeparator) && Ranges(t).Some?
    ensures TokenCount(t) == Total(Ranges(t).value) && Plain(t)
  {
    SplitClean(t, IsSlotSeparator, "");
    assert "" + t == t;
    assert Fields(t, IsSlotSeparator) == [t];
    TokenCountAgrees(t);
    assert Ranges(t).value == [] + [Ranges(t).value[0]];
    SumSnoc(Size, [], Ranges(t).value[0]);
  }

  lemma DashlessPiece(t: string)
    requires t != "" && '-' !in t && Ranges(t).Some?
    ensures TokenCount(t) == Total(Ranges(t).value) <==> Plain(t)
  {
    if '[' in t {
      BracketUnread(t);
    }
    assert t[0] in t && TokenCount(t) == 1;
    TotalAtLeast(t);
    var ts := Fields(t, IsSlotSeparator);
    if |ts| == 1 {
      assert "" + t == t;
      if '-' in ts[0] {
        SplitHolds(t, IsSlotSeparator, "", '-');
      }
      assert ParseSlotToken(ts[0]) == Some(Ranges(t).value[0]);
      assert Ranges(t).value == [] + [Ranges(t).value[0]];
      SumSnoc(Size, [], Ranges(t).value[0]);
    }
  }

  lemma SomeToken(t: string, c: char)
    requires c in t && !IsSlotSeparator(c)
    ensures |Fields(t, IsSlotSeparator)| > 0
  {
    assert "" + t == t;
    SplitHolds(t, IsSlotSeparator, "", c);
  }

  lemma DashedPiece(t: string, c: char)
    requires '-' in t && c in t && IsSlotSeparator(c) && Ranges(t).Some?
    ensures TokenCount(t) != Total(Ranges(t).value)
  {
    DashedPieceCounts(t, c);
    SomeToken(t, '-');
    TotalAtLeast(t);
  }

  /**
   The readers agree on a piece that the strict one accepts exactly when it holds a single strict token, and
   either no dash or no separator.
   */
  lemma PieceCountsAgree(t: string)
    requires t != "" && Ranges(t).Some?
    ensures TokenCount(t) == Total(Ranges(t).value) <==> Plain(t)
  {
    if '-' !in t {
      DashlessPiece(t);
    } else if c :| c in t && IsSlotSeparator(c) {
      DashedPiece(t, c);
    } else {
      CleanPiece(t);
    }
  }

  /** What the strict reader counts in one token. */
  function StrictCount(token: string): int {
    match ParseSlotToken(token)
    case Some(r) => Size(r)
    case None => 0
  }

  lemma TotalOfTokens(s: string)
    requires Ranges(s).Some?
    ensures Total(Ranges(s).value) == Sum(StrictCount, Fields(s, IsSlotSeparator))
  {
    var ts := Fields(s, IsSlotSeparator);
    TraverseCollects(ParseSlotToken, ts);
    SumCollect(ParseSlotToken, Size, StrictCount, ts);
  }

  /** By how much the readers differ on a piece between blanks. */
  function Gap(piece: string): int {
    TokenCount(piece) - Sum(StrictCount, Fields(piece, IsSlotSeparator))
  }

  lemma DashlessToken(token: string)
    requires '-' !in token && ParseSlotToken(token).Some?
    ensures Size(ParseSlotToken(token).value) == 1
  {}

  lemma DashlessTotal(t: string)
    requires '-' !in t && Ranges(t).Some?
    ensures Total(Ranges(t).value) == |Fields(t, IsSlotSeparator)|
  {
    var ts, rs := Fields(t, IsSlotSeparator), Ranges(t).value;
    assert "" + t == t;
    SplitHolds(t, IsSlotSeparator, "", '-');
    forall i | 0 <= i < |rs| ensures Size(rs[i]) == 1 {
      assert ts[i] in ts && ParseSlotToken(ts[i]) == Some(rs[i]);
      DashlessToken(ts[i]);
    }
    SumOnes(Size, rs);
  }

  /**
   By how much the readers differ on a piece that the strict one accepts: of dashless tokens the lenient one sees
   a single slot, where a dash meets a separator it sees none, and otherwise they agree.
   */
  lemma GapValue(t: string)
    requires t != "" && Ranges(t).Some?
    ensures Gap(t) == if '-' !in t then 1 - |Fields(t, IsSlotSeparator)|
                      else if Clean(t, IsSlotSeparator) then 0
                      else -Total(Ranges(t).value)
  {
    TotalOfTokens(t);
    if '-' !in t {
      DashlessTotal(t);
      if '[' in t {
        BracketUnread(t);
      }
      assert t[0] in t;
    } else if c :| c in t && IsSlotSeparator(c) {
      DashedPieceCounts(t, c);
    } else {
      CleanPiece(t);
    }
  }

  /** On a column the readers differ by the sum of their differences on its pieces. */
  lemma GapsAdd(slots: string)
    requires Ranges(slots).Some?
    ensures LenientCount(slots) == Total(Ranges(slots).value) + Sum(Gap, Fields(slots, IsBlank))
    ensures forall t <- Fields(slots, IsBlank) :: t != "" && Ranges(t).Some? && (Gap(t) == 0 <==> Plain(t))
  {
    var ts, split := Fields(slots, IsBlank), (t: string) => Fields(t, IsSlotSeparator);
    var strict := (t: string) => Sum(StrictCount, Fields(t, IsSlotSeparator));
    RefineFields(slots, IsBlank, IsSlotSeparator, "");
    assert "" + slots == slots;
    TotalOfTokens(slots);
    SumFlatten(StrictCount, split, strict, ts);
    SumCombine(Gap, strict, TokenCount, ts);
    SplitTokensClean(slots, IsBlank, "");
    forall t <- ts ensures t != "" && Ranges(t).Some? && (Gap(t) == 0 <==> Plain(t)) {
      PieceReadable(slots, t);
      TotalOfTokens(t);
      PieceCountsAgree(t);
    }
  }

  lemma PieceReadable(slots: string, t: string)
    requires Ranges(slots).Some? && t in Fields(slots, IsBlank)
    ensures Ranges(t).Some?
  {
    var ts, split := Fields(slots, IsBlank), (t: string) => Fields(t, IsSlotSeparator);
    RefineFields(slots, IsBlank, IsSlotSeparator, "");
    assert "" + slots == slots;
    var all, own := Fields(slots, IsSlotSeparator), Fields(t, IsSlotSeparator);
    assert all == Flatten(Map(split, ts));
    var k: nat :| k < |ts| && ts[k] == t;
    forall i | 0 <= i < |own| ensures ParseSlotToken(own[i]).Some? {
      FlattenMember(Map(split, ts), own[i]);
      assert own[i] in Map(split, ts)[k];
      var j: nat :| j < |all| && all[j] == own[i];
    }
  }

  // ----- Columns with markers -----

  predicate Unmarked(token: string) {
    token == "" || token[0] != '['
  }

  /** The column without its markers. */
  function WithoutMarkers(slots: string): string {
    Join(Filter(Unmarked, Fields(slots, IsBlank)))
  }

  lemma {:induction false} SplitFrom(s: string, sep: char -> bool, pending: string, c: char)
    requires exists t <- Split(s, sep, pending) :: c in t
    ensures c in pending || c in s
  {
    if s != "" {
      if sep(s[0]) {
        if c !in pending {
          SplitFrom(s[1..], sep, "", c);
        }
      } else {
        SplitFrom(s[1..], sep, pending + [s[0]], c);
      }
    }
  }

  lemma WithoutMarkersFields(slots: string)
    requires forall c <- slots :: IsSlotSeparator(c) ==> IsBlank(c)
    ensures forall sep | sep == IsBlank || sep == IsSlotSeparator ::
              Fields(WithoutMarkers(slots), sep) == Filter(Unmarked, Fields(slots, IsBlank))
  {
    var ts := Filter(Unmarked, Fields(slots, IsBlank));
    SplitTokensClean(slots, IsBlank, "");
    forall t <- ts ensures t != "" && Clean(t, IsBlank) && Clean(t, IsSlotSeparator) {
      FilterMember(Unmarked, Fields(slots, IsBlank), t);
      forall c <- t ensures !IsSlotSeparator(c) {
        SplitFrom(slots, IsBlank, "", c);
      }
    }
    FieldsOfJoin(ts, IsBlank);
    FieldsOfJoin(ts, IsSlotSeparator);
  }

  /**
   On every column whose separators are blanks: if the strict reader accepts what is left without the markers,
   it counts there what the lenient reader counts in the whole column.
   */
  lemma MarkedCountsAgree(slots: string)
    requires forall c <- slots :: IsSlotSeparator(c) ==> IsBlank(c)
    requires Ranges(WithoutMarkers(slots)).Some?
    ensures LenientCount(slots) == Total(Ranges(WithoutMarkers(slots)).value)
  {
    var ts := Fields(slots, IsBlank);
    WithoutMarkersFields(slots);
    SumFilter(TokenCount, Unmarked, ts);
    TotalOfTokens(WithoutMarkers(slots));
    var rest := Filter(Unmarked, ts);
    forall i | 0 <= i < |rest| ensures TokenCount(rest[i]) == StrictCount(rest[i]) {
      TokenCountAgrees(rest[i]);
    }
    SumSame(TokenCount, StrictCount, rest);
  }

  lemma {:induction false} JoinChars(ts: seq<string>, c: char)
    requires c in Join(ts) && c != ' '
    ensures exists t <- ts :: c in t
  {
    if |ts| == 1 {
      assert ts[0] in ts;
    } else if c in ts[0] {
      assert ts[0] in ts;
    } else {
      JoinChars(ts[1..], c);
      var t :| t in ts[1..] && c in t;
      assert t in ts;
    }
  }

  /** The column that the client makes of a line: the fields from the k-th on, joined by spaces. */
  function ColumnOf(line: string, k: nat): string {
    var parts := Fields(line, IsSpace);
    if k <= |parts| then Join(parts[k..]) else ""
  }

  lemma ColumnSeparators(line: string, k: nat, c: char)
    requires ',' !in line && c in ColumnOf(line, k) && IsSlotSeparator(c)
    ensures IsBlank(c)
  {
    var parts := Fields(line, IsSpace);
    if c != ' ' {
      JoinChars(parts[k..], c);
      var t :| t in parts[k..] && c in t;
      assert t in parts;
      SplitFrom(line, IsSpace, "", c);
      SplitTokensClean(line, IsSpace, "");
    }
  }

  /** On every column of a line without commas the readers agree, markers aside. */
  lemma ClientColumnsAgree(line: string, k: nat)
    requires ',' !in line && Ranges(WithoutMarkers(ColumnOf(line, k))).Some?
    ensures LenientCount(ColumnOf(line, k)) == Total(Ranges(WithoutMarkers(ColumnOf(line, k))).value)
  {
    forall c | c in ColumnOf(line, k) && IsSlotSeparator(c) ensures IsBlank(c) {
      ColumnSeparators(line, k, c);
    }
    MarkedCountsAgree(ColumnOf(line, k));
  }

  // ----- The text format, and the round trip through it -----

  /** One entry of the slot column: a stable range, or a slot on its way to or from another node. */
  datatype SlotItem =
    | Stable(range: SlotRange)
    | Migrating(slot: nat, peer: string)
    | Importing(slot: nat, peer: string)

  ghost predicate ValidItem(item: SlotItem) {
    match item
    case Stable(r) => 0 <= r.start <= r.end <= MAX_INT
    case _ => item.slot <= MAX_INT && Clean(item.peer, IsSlotSeparator)
  }

  function RenderRange(r: SlotRange): string {
    if r.start < 0 || r.end < r.start then ""
    else if r.start == r.end then Decimal(r.start)
    else Decimal(r.start) + "-" + Decimal(r.end)
  }

  function RenderItem(item: SlotItem): string {
    match item
    case Stable(r) => RenderRange(r)
    case Migrating(slot, peer) => "[" + Decimal(slot) + ("->-" + peer + "]")
    case Importing(slot, peer) => "[" + Decimal(slot) + ("-<-" + peer + "]")
  }

  function Render(items: seq<SlotItem>): string {
    Join(Map(RenderItem, items))
  }

  function RangeOf(item: SlotItem): Option<SlotRange> {
    if item.Stable? then Some(item.range) else None
  }

  function MarkOf(item: SlotItem): Option<int> {
    if item.Stable? then None else Some(item.slot)
  }

  function SizeOf(item: SlotItem): int {
    if item.Stable? then Size(item.range) else 0
  }

  ghost predicate Digits(s: string) {
    s != "" && forall i | 0 <= i < |s| :: IsDigit(s[i])
  }

  lemma DecimalDigits(n: nat)
    requires n <= MAX_INT
    ensures Digits(Decimal(n)) && Atoi(Decimal(n)) == Some(n)
  {
    DecimalRoundTrip(n);
    AtoiOfDecimal(n);
  }

  lemma NotIn(s: string, c: char)
    requires forall i | 0 <= i < |s| :: s[i] != c
    ensures c !in s
  {}

  lemma NumberReads(t: string, n: nat)
    requires Digits(t) && Atoi(t) == Some(n)
    ensures ParseSlotToken(t) == Some(SlotRange(n, n))
  {
    NotIn(t, '-');
    NotIn(t, '[');
    NotIn(t, ']');
  }

  lemma PairSplits(t: string, lo: string, hi: string)
    requires Digits(lo) && Digits(hi) && t == lo + "-" + hi
    ensures '-' in t && SplitOn(t, '-') == [lo, hi]
  {
    assert t[|lo|] == '-' && t[..|lo|] == lo && t[|lo| + 1..] == hi;
    NotIn(lo, '-');
    NotIn(hi, '-');
    FirstIndexIs(t, '-', |lo|);
    assert SplitOn(t, '-') == [lo] + SplitOn(hi, '-');
  }

  lemma PairReads(t: string, lo: string, hi: string, start: nat, end: nat)
    requires Digits(lo) && Digits(hi) && t == lo + "-" + hi
    requires Atoi(lo) == Some(start) && Atoi(hi) == Some(end) && start <= end
    ensures ParseSlotToken(t) == Some(SlotRange(start, end))
  {
    PairSplits(t, lo, hi);
    NotIn(t, '[');
    NotIn(t, ']');
  }

  lemma CleanByIndex(t: string)
    requires forall i | 0 <= i < |t| :: !IsSlotSeparator(t[i])
    ensures Clean(t, IsSlotSeparator)
  {}

  lemma RangeTextReads(t: string, lo: string, hi: string, r: SlotRange)
    requires 0 <= r.start <= r.end && Digits(lo) && Digits(hi)
    requires Atoi(lo) == Some(r.start) && Atoi(hi) == Some(r.end)
    requires t == if r.start == r.end then lo else lo + "-" + hi
    ensures ParseSlotToken(t) == Some(r)
  {
    if r.start == r.end {
      NumberReads(t, r.start);
    } else {
      PairReads(t, lo, hi, r.start, r.end);
    }
  }

  lemma RangeTextClean(t: string, lo: string, hi: string)
    requires Digits(lo) && Digits(hi) && (t == lo || t == lo + "-" + hi)
    ensures t != "" && t[0] != '[' && Clean(t, IsSlotSeparator)
  {
    CleanByIndex(t);
  }

  lemma RangeReads(r: SlotRange)
    requires 0 <= r.start <= r.end <= MAX_INT
    ensures ParseSlotToken(RenderRange(r)) == Some(r)
    ensures RenderRange(r) != "" && RenderRange(r)[0] != '[' && Clean(RenderRange(r), IsSlotSeparator)
  {
    DecimalDigits(r.start);
    DecimalDigits(r.end);
    RangeTextReads(RenderRange(r), Decimal(r.start), Decimal(r.end), r);
    RangeTextClean(RenderRange(r), Decimal(r.start), Decimal(r.end));
  }

  lemma TwoTokens(a: string, b: string)
    requires Digits(a) && Digits(b)
    ensures Fields(a + [','] + b, IsSlotSeparator) == [a, b]
    ensures Fields(a + [','] + b, IsBlank) == [a + [','] + b]
  {
    var t := a + [','] + b;
    SplitAtSeparator(a, ',', b, IsSlotSeparator, "");
    SplitClean(a, IsSlotSeparator, "");
    SplitClean(b, IsSlotSeparator, "");
    SplitClean(t, IsBlank, "");
    assert "" + a == a && "" + b == b && "" + t == t;
  }

  lemma TraverseTwo<A, B>(f: A -> Option<B>, x: A, y: A, u: B, v: B)
    requires f(x) == Some(u) && f(y) == Some(v)
    ensures Traverse(f, [x, y]) == Some([u, v])
  {
    var xs := [x, y];
    assert Traverse(f, xs).Some? && Traverse(f, xs).value == [u, v];
  }

  /**
   Commas set the readers apart: of two slot numbers joined by a comma the strict reader sees both
   and the lenient one sees a single slot.
   */
  lemma CountsDisagreeOnCommas(a: string, b: string, m: nat, n: nat)
    requires Digits(a) && Digits(b) && Atoi(a) == Some(m) && Atoi(b) == Some(n)
    ensures Ranges(a + [','] + b) == Some([SlotRange(m, m), SlotRange(n, n)])
    ensures LenientCount(a + [','] + b) == 1
  {
    var t := a + [','] + b;
    TwoTokens(a, b);
    NumberReads(a, m);
    NumberReads(b, n);
    TraverseTwo(ParseSlotToken, a, b, SlotRange(m, m), SlotRange(n, n));
    NotIn(t, '-');
    SumSnoc(TokenCount, [], t);
    assert [] + [t] == [t];
  }

  lemma MarkerOpens(t: string, digits: string, tail: string, slot: nat)
    requires Digits(digits) && Atoi(digits) == Some(slot)
    requires tail != "" && tail[0] == '-' && t == "[" + digits + tail
    ensures OpenSlot(t) == Some(slot)
  {
    var inner := t[1..];
    assert inner == digits + tail && inner[..|digits|] == digits;
    DigitPrefixIs(inner, |digits|);
  }

  lemma MarkerReads(slot: nat, tail: string)
    requires slot <= MAX_INT && Clean(tail, IsSlotSeparator) && tail != "" && tail[0] == '-'
    ensures var t := "[" + Decimal(slot) + tail;
            t != "" && t[0] == '[' && Clean(t, IsSlotSeparator) && OpenSlot(t) == Some(slot)
  {
    var digits := Decimal(slot);
    DecimalDigits(slot);
    var t := "[" + digits + tail;
    MarkerOpens(t, digits, tail, slot);
    forall i | 0 <= i < |t| ensures !IsSlotSeparator(t[i]) {
      if |digits| < i {
        assert t[i] in tail;
      }
    }
    CleanByIndex(t);
  }

  lemma TailClean(arrow: string, peer: string)
    requires arrow == "->-" || arrow == "-<-"
    requires Clean(peer, IsSlotSeparator)
    ensures Clean(arrow + peer + "]", IsSlotSeparator) && (arrow + peer + "]")[0] == '-'
  {
    var t := arrow + peer + "]";
    forall i | 0 <= i < |t| ensures !IsSlotSeparator(t[i]) {
      if 3 <= i < |t| - 1 {
        assert t[i] in peer;
      }
    }
    CleanByIndex(t);
  }

  lemma BracketTokenReads(t: string)
    requires t != "" && t[0] == '['
    ensures ParseSlotToken(t).None? && TokenCount(t) == 0
  {
    assert '[' in t;
  }

  lemma MarkerItemReads(item: SlotItem)
    requires ValidItem(item) && !item.Stable?
    ensures var t := RenderItem(item);
            t != "" && t[0] == '[' && Clean(t, IsSlotSeparator) && OpenSlot(t) == Some(item.slot)
  {
    var arrow := if item.Migrating? then "->-" else "-<-";
    TailClean(arrow, item.peer);
    MarkerReads(item.slot, arrow + item.peer + "]");
  }

  lemma ItemReads(item: SlotItem)
    requires ValidItem(item)
    ensures RenderItem(item) != "" && Clean(RenderItem(item), IsSlotSeparator)
    ensures ParseSlotToken(RenderItem(item)) == RangeOf(item)
    ensures TokenCount(RenderItem(item)) == SizeOf(item)
    ensures OpenSlot(RenderItem(item)) == MarkOf(item)
  {
    if item.Stable? {
      RangeReads(item.range);
      TokenCountAgrees(RenderItem(item));
    } else {
      MarkerItemReads(item);
      BracketTokenReads(RenderItem(item));
    }
  }

  lemma RenderedTokens(items: seq<SlotItem>)
    requires forall i | 0 <= i < |items| :: ValidItem(items[i])
    ensures Fields(Render(items), IsSlotSeparator) == Map(RenderItem, items)
    ensures Fields(Render(items), IsBlank) == Map(RenderItem, items)
  {
    var ts := Map(RenderItem, items);
    forall i | 0 <= i < |items|
      ensures ts[i] != "" && Clean(ts[i], IsSlotSeparator) && Clean(ts[i], IsBlank)
    {
      ItemReads(items[i]);
      forall c <- ts[i] ensures !IsBlank(c) {
        assert !IsSlotSeparator(c);
      }
    }
    FieldsOfJoin(ts, IsSlotSeparator);
    FieldsOfJoin(ts, IsBlank);
  }

  lemma RenderedRanges(items: seq<SlotItem>)
    requires forall i | 0 <= i < |items| :: ValidItem(items[i])
    ensures Ranges(Render(items)) ==
            if forall i | 0 <= i < |items| :: items[i].Stable? then Some(Collect(RangeOf, items)) else None
  {
    RenderedTokens(items);
    forall i | 0 <= i < |items| ensures ParseSlotToken(RenderItem(items[i])) == RangeOf(items[i]) {
      ItemReads(items[i]);
    }
    TraverseMap(RenderItem, ParseSlotToken, RangeOf, items);
    TraverseCollects(RangeOf, items);
  }

  lemma RenderedCount(items: seq<SlotItem>)
    requires forall i | 0 <= i < |items| :: ValidItem(items[i])
    ensures LenientCount(Render(items)) == Total(Collect(RangeOf, items))
  {
    RenderedTokens(items);
    forall i | 0 <= i < |items| ensures TokenCount(RenderItem(items[i])) == SizeOf(items[i]) {
      ItemReads(items[i]);
    }
    SumMap(RenderItem, TokenCount, SizeOf, items);
    SumCollect(RangeOf, Size, SizeOf, items);
  }

  lemma RenderedMarks(items: seq<SlotItem>)
    requires forall i | 0 <= i < |items| :: ValidItem(items[i])
    ensures OpenSlots(Render(items)) == Collect(MarkOf, items)
  {
    RenderedTokens(items);
    forall i | 0 <= i < |items| ensures OpenSlot(RenderItem(items[i])) == MarkOf(items[i]) {
      ItemReads(items[i]);
    }
    CollectMap(RenderItem, OpenSlot, MarkOf, items);
  }

  /**
   Reading undoes writing: whatever stable ranges and markers a slot column lists, and in whatever
   order, the strict reader returns exactly the ranges when there is no marker and refuses otherwise,
   the lenient reader counts exactly the slots of the ranges, and the marker reader returns exactly
   the marked slots, in order.
   */
  lemma RenderedColumnReads(items: seq<SlotItem>)
    requires forall i | 0 <= i < |items| :: ValidItem(items[i])
    ensures Ranges(Render(items)) ==
            if forall i | 0 <= i < |items| :: items[i].Stable? then Some(Collect(RangeOf, items)) else None
    ensures LenientCount(Render(items)) == Total(Collect(RangeOf, items))
    ensures OpenSlots(Render(items)) == Collect(MarkOf, items)
  {
    RenderedRanges(items);
    RenderedCount(items);
    RenderedMarks(items);
  }
}
