/**
  The names under which an activity's data is stored: "{bizType}_{actID}" for a one-off
  leaderboard and "{bizType}_{actID}_r{N}" for round N of a periodic one.
 */
module BizIds {
  import opened Options

  // ---------------------------------------------------------------- decimal numbers

  predicate IsDigit(c: char) {
    '0' <= c <= '9'
  }

  predicate AllDigits(s: string) {
    forall i | 0 <= i < |s| :: IsDigit(s[i])
  }

  function DigitOf(d: int): char
    requires 0 <= d < 10
  {
    ['0', '1', '2', '3', '4', '5', '6', '7', '8', '9'][d]
  }

  function ValueOf(c: char): int
    requires IsDigit(c)
  {
    c as int - '0' as int
  }

  function FormatNat(n: nat): string {
    if n < 10 then [DigitOf(n)] else FormatNat(n / 10) + [DigitOf(n % 10)]
  }

  function FormatInt(n: int): string {
    if n < 0 then "-" + FormatNat(-n) else FormatNat(n)
  }

  function ParseNat(s: string): nat
    requires AllDigits(s)
  {
    if s == "" then 0 else ParseNat(s[..|s| - 1]) * 10 + ValueOf(s[|s| - 1])
  }

  const MIN_INT32 := -0x8000_0000
  const MAX_INT32 := 0x7fff_ffff

  predicate IsInt32(n: int) {
    MIN_INT32 <= n <= MAX_INT32
  }

  /** strconv.ParseInt(s, 10, 32): an optional sign, digits, and the range of an int32. */
  function ParseInt32(s: string): Option<int> {
    var signed := s != "" && (s[0] == '-' || s[0] == '+');
    var digits := if signed then s[1..] else s;
    if digits == "" || !AllDigits(digits) then None
    else
      var n: int := if signed && s[0] == '-' then -(ParseNat(digits) as int) else ParseNat(digits);
      if IsInt32(n) then Some(n) else None
  }

  lemma {:induction false} FormattedNatParses(n: nat)
    ensures FormatNat(n) != "" && AllDigits(FormatNat(n)) && ParseNat(FormatNat(n)) == n
  {
    var s := FormatNat(n);
    if n < 10 {
      assert s[..|s| - 1] == "";
    } else {
      FormattedNatParses(n / 10);
      assert s[..|s| - 1] == FormatNat(n / 10);
    }
  }

  lemma DigitsParse(digits: string)
    requires digits != "" && AllDigits(digits)
    ensures ParseInt32(digits) == if ParseNat(digits) <= MAX_INT32 then Some(ParseNat(digits) as int) else None
  {
    assert IsDigit(digits[0]);
  }

  lemma NegativeDigitsParse(digits: string)
    requires digits != "" && AllDigits(digits)
    ensures ParseInt32("-" + digits)
         == if -(ParseNat(digits) as int) >= MIN_INT32 then Some(-(ParseNat(digits) as int)) else None
  {
    assert ("-" + digits)[1..] == digits;
  }

  /** An optional sign and decimal digits, and the number they denote. */
  predicate Denotes(s: string, digits: string, n: int) {
    && digits != "" && AllDigits(digits)
    && (|| (s == digits && n == ParseNat(digits))
        || (s == "+" + digits && n == ParseNat(digits))
        || (s == "-" + digits && n == -(ParseNat(digits) as int)))
  }

  /** Exactly the strings that are accepted, and their value. */
  lemma ParsesIff(s: string, n: int)
    ensures ParseInt32(s) == Some(n) <==> IsInt32(n) && exists digits :: Denotes(s, digits, n)
  {
    if ParseInt32(s) == Some(n) {
      var digits := if s[0] == '-' || s[0] == '+' then s[1..] else s;
      assert s == digits || s == [s[0]] + digits;
      assert Denotes(s, digits, n);
    }
    forall digits | Denotes(s, digits, n) && IsInt32(n) ensures ParseInt32(s) == Some(n) {
      assert IsDigit(digits[0]);
      assert s != digits ==> s[1..] == digits;
    }
  }

  lemma FormattedNegativeParses(n: int)
    requires n < 0
    ensures ParseInt32(FormatInt(n)) == if IsInt32(n) then Some(n) else None
  {
    FormattedNatParses(-n);
    NegativeDigitsParse(FormatNat(-n));
  }

  lemma FormattedNonNegativeParses(n: int)
    requires n >= 0
    ensures ParseInt32(FormatInt(n)) == if IsInt32(n) then Some(n) else None
  {
    FormattedNatParses(n);
    DigitsParse(FormatNat(n));
  }

  /** Formatting and parsing are inverse, for every int32. */
  lemma FormattedIntParses(n: int)
    ensures ParseInt32(FormatInt(n)) == if IsInt32(n) then Some(n) else None
  {
    if n < 0 {
      FormattedNegativeParses(n);
    } else {
      FormattedNonNegativeParses(n);
    }
  }

  lemma FormattedIntHasNoUnderscore(n: int)
    ensures FormatInt(n) != "" && FormatInt(n)[0] != 'r' && '_' !in FormatInt(n)
  {
    var digits := FormatNat(if n < 0 then -n else n);
    FormattedNatParses(if n < 0 then -n else n);
    assert forall i | 0 <= i < |digits| :: IsDigit(digits[i]);
  }

  // ---------------------------------------------------------------- splitting

  /** The last position of a character, or -1. */
  function LastIndex(s: string, c: char): (i: int)
    ensures -1 <= i < |s|
    ensures i >= 0 ==> s[i] == c
    ensures forall j | i < j < |s| :: s[j] != c
  {
    if s == "" then -1 else if s[|s| - 1] == c then |s| - 1 else LastIndex(s[..|s| - 1], c)
  }

  lemma {:induction false} LastIndexIs(a: string, c: char, b: string)
    requires c !in b
    ensures LastIndex(a + [c] + b, c) == |a|
  {
    var s := a + [c] + b;
    if b != "" {
      var front := b[..|b| - 1];
      assert s[|s| - 1] == b[|b| - 1];
      assert s[..|s| - 1] == a + [c] + front;
      LastIndexIs(a, c, front);
    }
  }

  lemma LastUnderscore(a: string, b: string)
    requires '_' !in b
    ensures LastIndex(a + "_" + b, '_') == |a|
    ensures (a + "_" + b)[|a| + 1..] == b && (a + "_" + b)[..|a|] == a
  {
    LastIndexIs(a, '_', b);
  }

  predicate IsRoundSuffix(suffix: string) {
    |suffix| >= 2 && suffix[0] == 'r' && AllDigits(suffix[1..])
  }

  /** What remains of a round's id without its last "_r{digits}". */
  function SplitRound(bizId: string): Option<string> {
    var i := LastIndex(bizId, '_');
    if i >= 0 && IsRoundSuffix(bizId[i + 1..]) then Some(bizId[..i]) else None
  }

  /** The ids that have the form of a round's, and their base, are exactly those. */
  lemma SplitRoundIff(bizId: string, base: string)
    ensures SplitRound(bizId) == Some(base)
       <==> exists digits :: digits != "" && AllDigits(digits) && bizId == base + "_r" + digits
  {
    if SplitRound(bizId) == Some(base) {
      var i := LastIndex(bizId, '_');
      var digits := bizId[i + 2..];
      assert bizId[i + 1..][1..] == digits;
      assert bizId == base + "_r" + digits;
    }
    forall digits | digits != "" && AllDigits(digits) && bizId == base + "_r" + digits
      ensures SplitRound(bizId) == Some(base)
    {
      RoundIdSplits(base, digits);
    }
  }

  lemma RoundIdSplits(base: string, digits: string)
    requires digits != "" && AllDigits(digits)
    ensures SplitRound(base + "_r" + digits) == Some(base)
  {
    var bizId := base + "_r" + digits;
    assert bizId == base + ['_'] + ("r" + digits);
    LastIndexIs(base, '_', "r" + digits);
    assert bizId[|base| + 1..] == "r" + digits;
    assert ("r" + digits)[1..] == digits;
    assert bizId[..|base|] == base;
  }

  /** Searches for the last underscore from the end, then checks the digits behind it. */
  method IsRoundBizId(bizId: string) returns (isRound: bool)
    ensures isRound <==> SplitRound(bizId).Some?
  {
    var i := |bizId| - 1;
    while i >= 0
      invariant -1 <= i < |bizId|
      invariant forall j | i < j < |bizId| :: bizId[j] != '_'
    {
      if bizId[i] == '_' {
        assert LastIndex(bizId, '_') == i;
        var suffix := bizId[i + 1..];
        if |suffix| >= 2 && suffix[0] == 'r' {
          for k := 1 to |suffix|
            invariant AllDigits(suffix[1..k])
          {
            if !IsDigit(suffix[k]) {
              assert suffix[1..][k - 1] == suffix[k];
              return false;
            }
            assert suffix[1..k + 1] == suffix[1..k] + [suffix[k]];
          }
          assert suffix[1..|suffix|] == suffix[1..];
          return true;
        }
        return false;
      }
      i := i - 1;
    }
    return false;
  }

  /** The same search, returning what stands before the underscore. */
  method ExtractRoundBizBase(bizId: string) returns (base: string, ok: bool)
    ensures ok <==> SplitRound(bizId).Some?
    ensures base == if ok then SplitRound(bizId).value else ""
  {
    var i := |bizId| - 1;
    while i >= 0
      invariant -1 <= i < |bizId|
      invariant forall j | i < j < |bizId| :: bizId[j] != '_'
    {
      if bizId[i] == '_' {
        assert LastIndex(bizId, '_') == i;
        var suffix := bizId[i + 1..];
        if |suffix| >= 2 && suffix[0] == 'r' {
          for k := 1 to |suffix|
            invariant AllDigits(suffix[1..k])
          {
            if !IsDigit(suffix[k]) {
              assert suffix[1..][k - 1] == suffix[k];
              return "", false;
            }
            assert suffix[1..k + 1] == suffix[1..k] + [suffix[k]];
          }
          assert suffix[1..|suffix|] == suffix[1..];
          return bizId[..i], true;
        }
        return "", false;
      }
      i := i - 1;
    }
    return "", false;
  }

  // ---------------------------------------------------------------- the codec

  function ComputeBizId(bizType: string, actID: int, roundIndex: int): string {
    if roundIndex > 0 then bizType + "_" + FormatInt(actID) + "_r" + FormatInt(roundIndex)
    else bizType + "_" + FormatInt(actID)
  }

  datatype Parsed =
    | OneOff(bizType: string, actID: int)
    | Round(bizType: string, actID: int)
    | Unrecognized

  /** Split at the last underscore, which must not be the first character. */
  function SplitActivity(s: string): Option<(string, int)> {
    var sep := LastIndex(s, '_');
    if sep <= 0 then None
    else
      match ParseInt32(s[sep + 1..])
      case None => None
      case Some(actID) => Some((s[..sep], actID))
  }

  /** How a node that finds an id in the registry recovers the activity behind it. */
  function ParseBizId(bizId: string): Parsed {
    if LastIndex(bizId, '_') <= 0 then Unrecognized
    else
      match SplitRound(bizId)
      case Some(base) =>
        (match SplitActivity(base)
         case Some((bizType, actID)) => Round(bizType, actID)
         case None => Unrecognized)
      case None =>
        (match SplitActivity(bizId)
         case Some((bizType, actID)) => OneOff(bizType, actID)
         case None => Unrecognized)
  }

  lemma ActivitySplits(bizType: string, actID: int)
    requires IsInt32(actID)
    ensures SplitActivity(bizType + "_" + FormatInt(actID)) == if bizType == "" then None else Some((bizType, actID))
  {
    FormattedIntHasNoUnderscore(actID);
    LastUnderscore(bizType, FormatInt(actID));
    FormattedIntParses(actID);
  }

  lemma ActivityIsNoRound(bizType: string, actID: int)
    ensures SplitRound(bizType + "_" + FormatInt(actID)) == None
  {
    FormattedIntHasNoUnderscore(actID);
    LastUnderscore(bizType, FormatInt(actID));
  }

  /** An id is that of a round exactly when it was computed for a positive round index. */
  lemma RoundIdsAreRecognized(bizType: string, actID: int, roundIndex: int)
    requires IsInt32(actID)
    ensures SplitRound(ComputeBizId(bizType, actID, roundIndex)).Some? <==> roundIndex > 0
    ensures roundIndex > 0 ==>
              SplitRound(ComputeBizId(bizType, actID, roundIndex)).value == ComputeBizId(bizType, actID, 0)
  {
    ActivityIsNoRound(bizType, actID);
    if roundIndex > 0 {
      FormattedNatParses(roundIndex);
      RoundIdSplits(bizType + "_" + FormatInt(actID), FormatInt(roundIndex));
    }
  }

  /**
    The codec round trip: a node recovers the business type, underscores and all, and the
    activity id from every id ever computed, and can tell rounds from one-off leaderboards. The
    one exception is the empty business type, which is never recovered.
   */
  lemma ParsingRecoversTheActivity(bizType: string, actID: int, roundIndex: int)
    requires IsInt32(actID)
    ensures
      ParseBizId(ComputeBizId(bizType, actID, roundIndex))
      == if bizType == "" then Unrecognized
         else if roundIndex > 0 then Round(bizType, actID)
         else OneOff(bizType, actID)
  {
    var bizId := ComputeBizId(bizType, actID, roundIndex);
    ActivitySplits(bizType, actID);
    FormattedIntHasNoUnderscore(actID);
    LastUnderscore(bizType, FormatInt(actID));
    RoundIdsAreRecognized(bizType, actID, roundIndex);
    if roundIndex > 0 {
      assert LastIndex(bizId, '_') >= |bizType| + 1 by {
        assert bizId[|bizType + "_" + FormatInt(actID)|] == '_';
      }
    }
  }

  /** The id of a round is its activity's id, the mark of a round, and the round's number. */
  lemma RoundNumberIsRecovered(bizType: string, actID: int, roundIndex: int)
    requires roundIndex > 0
    ensures
      var id, base := ComputeBizId(bizType, actID, roundIndex), ComputeBizId(bizType, actID, 0);
      && |id| > |base| + 2 && id[..|base| + 2] == base + "_r"
      && AllDigits(id[|base| + 2..]) && ParseNat(id[|base| + 2..]) == roundIndex
  {
    FormattedNatParses(roundIndex);
    var base := ComputeBizId(bizType, actID, 0);
    assert ComputeBizId(bizType, actID, roundIndex)[|base| + 2..] == FormatNat(roundIndex);
    assert ComputeBizId(bizType, actID, roundIndex)[..|base| + 2] == base + "_r";
  }

  /** No two rounds of any activities share an id. */
  lemma BizIdsAreUnique(b1: string, a1: int, r1: int, b2: string, a2: int, r2: int)
    requires b1 != "" && b2 != "" && IsInt32(a1) && IsInt32(a2) && r1 >= 0 && r2 >= 0
    ensures ComputeBizId(b1, a1, r1) == ComputeBizId(b2, a2, r2) <==> (b1, a1, r1) == (b2, a2, r2)
  {
    ParsingRecoversTheActivity(b1, a1, r1);
    ParsingRecoversTheActivity(b2, a2, r2);
    if ComputeBizId(b1, a1, r1) == ComputeBizId(b2, a2, r2) && r1 > 0 {
      var base := ComputeBizId(b1, a1, 0);
      var s := ComputeBizId(b1, a1, r1);
      assert s[|base| + 2..] == FormatNat(r1);
      assert s[|base| + 2..] == FormatNat(r2);
      FormattedNatParses(r1);
      FormattedNatParses(r2);
    }
  }
}
