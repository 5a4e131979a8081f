/** The canonical segment_id wire key "way:seq:dir" and its strict parser. */
module SegmentIds {
  import opened Results

  const MAX_INT64 := 0x7FFF_FFFF_FFFF_FFFF

  /** Other stands for a value outside the two directions. */
  datatype Direction = Forward | Reverse | Other(code: int)

  // ---- decimal digits

  predicate IsDigit(c: char) { '0' <= c <= '9' }

  predicate AllDigits(s: string) { forall i :: 0 <= i < |s| ==> IsDigit(s[i]) }

  function DigitChar(d: nat): (c: char)
    requires d < 10
    ensures IsDigit(c)
  {
    "0123456789"[d]
  }

  function DigitValue(c: char): nat
    requires IsDigit(c)
  {
    c as int - '0' as int
  }

  function FormatNat(n: nat): (s: string)
    ensures |s| > 0 && AllDigits(s)
  {
    if n < 10 then [DigitChar(n)] else FormatNat(n / 10) + [DigitChar(n % 10)]
  }

  function FormatInt(n: int): string {
    if n < 0 then "-" + FormatNat(-n) else FormatNat(n)
  }

  function NatValue(s: string): nat
    requires AllDigits(s)
  {
    if |s| == 0 then 0 else NatValue(s[..|s| - 1]) * 10 + DigitValue(s[|s| - 1])
  }

  lemma {:induction false} ValueOfFormat(n: nat)
    ensures NatValue(FormatNat(n)) == n
  {
    if n < 10 {
      assert FormatNat(n)[..0] == "";
    } else {
      ValueOfFormat(n / 10);
      assert FormatNat(n)[..|FormatNat(n)| - 1] == FormatNat(n / 10);
    }
  }

  /** The digit of n that stands i places before the last. */
  function DigitAt(n: nat, i: nat): (d: nat)
    ensures d < 10
  {
    if i == 0 then n % 10 else DigitAt(n / 10, i - 1)
  }

  /** A number is written in its decimal digits, the last one last, without a leading zero. */
  lemma {:induction false} WrittenInDigits(n: nat, i: nat)
    requires i < |FormatNat(n)|
    ensures var s := FormatNat(n);
      s[|s| - 1 - i] as int == '0' as int + DigitAt(n, i) && (|s| > 1 ==> s[0] != '0')
  {
    if n >= 10 {
      WrittenInDigits(n / 10, if i == 0 then 0 else i - 1);
      NoLeadingZero(n / 10);
    }
  }

  lemma {:induction false} NoLeadingZero(n: nat)
    requires n > 0
    ensures FormatNat(n)[0] != '0'
  {
    if n >= 10 {
      NoLeadingZero(n / 10);
    }
  }

  /** A value that is no direction never renders as one. */
  function DirectionName(d: Direction): string {
    match d
    case Forward => "F"
    case Reverse => "R"
    case Other(code) => "Direction(" + FormatInt(code) + ")"
  }

  // ---- parsing

  datatype Error = WrongFieldCount(fields: nat) | BadWay(reason: FieldError) | WayNotPositive
    | BadSeq(reason: FieldError) | SeqOverflow | BadDirection

  datatype FieldError = Empty | NotNumeric | NonCanonical

  /** The general base-10 parser: an optional sign, digits, 64-bit range. */
  function ParseInt(s: string): Option<int> {
    var digits := if |s| > 0 && (s[0] == '+' || s[0] == '-') then s[1..] else s;
    if |digits| == 0 || !AllDigits(digits) then None
    else
      var magnitude: int := NatValue(digits);
      var value := if s[0] == '-' then -magnitude else magnitude;
      if -MAX_INT64 - 1 <= value <= MAX_INT64 then Some(value) else None
  }

  function ParseNonNegInt64(field: string): Result<int, FieldError> {
    if field == "" then Err(Empty)
    else if field[0] == '+' || field[0] == '-' then Err(NotNumeric)
    else
      var value := ParseInt(field);
      if value.None? then Err(NotNumeric)
      else if FormatInt(value.value) != field then Err(NonCanonical)
      else Ok(value.value)
  }

  function ColonAt(s: string): nat {
    if s == "" || s[0] == ':' then 0 else 1 + ColonAt(s[1..])
  }

  /** Splits at colons into at most n fields, the last holding whatever is left. */
  function SplitN(s: string, n: nat): seq<string>
    requires n > 0
    decreases n
  {
    FirstColon(s);
    var at := ColonAt(s);
    if n == 1 || at == |s| then [s] else [s[..at]] + SplitN(s[at + 1..], n - 1)
  }

  lemma {:induction false} FirstColon(s: string)
    ensures ColonAt(s) <= |s| && ':' !in s[..ColonAt(s)] && (ColonAt(s) < |s| ==> s[ColonAt(s)] == ':')
  {
    if s != "" && s[0] != ':' {
      FirstColon(s[1..]);
      assert s[..ColonAt(s)] == [s[0]] + s[1..][..ColonAt(s[1..])];
    }
  }

  datatype SegmentKey = SegmentKey(way: int, seqNo: int, dir: Direction)

  function FormatSegmentId(k: SegmentKey): string {
    FormatInt(k.way) + ":" + FormatInt(k.seqNo) + ":" + DirectionName(k.dir)
  }

  function ParseSegmentId(text: string): Result<SegmentKey, Error> {
    var fields := SplitN(text, 4);
    if |fields| != 3 then Err(WrongFieldCount(|fields|))
    else
      var way := ParseNonNegInt64(fields[0]);
      if way.Err? then Err(BadWay(way.error))
      else if way.value < 1 then Err(WayNotPositive)
      else
        var seqNo := ParseNonNegInt64(fields[1]);
        if seqNo.Err? then Err(BadSeq(seqNo.error))
        else if seqNo.value > MAX_INT64 then Err(SeqOverflow)
        else if fields[2] == "F" then Ok(SegmentKey(way.value, seqNo.value, Forward))
        else if fields[2] == "R" then Ok(SegmentKey(way.value, seqNo.value, Reverse))
        else Err(BadDirection)
  }

  // ---- round trips

  predicate InRange(k: SegmentKey) {
    1 <= k.way <= MAX_INT64 && 0 <= k.seqNo <= MAX_INT64 && !k.dir.Other?
  }

  lemma {:induction false} ColonSplit(a: string, rest: string)
    requires ':' !in a
    ensures ColonAt(a + ":" + rest) == |a| && ColonAt(a) == |a|
  {
    if |a| > 0 {
      assert a[0] in a;
      assert (a + ":" + rest)[1..] == a[1..] + ":" + rest;
      ColonSplit(a[1..], rest);
    }
  }

  lemma DigitsHaveNoColon(s: string)
    requires AllDigits(s)
    ensures ':' !in s
  {
  }

  lemma SplitField(a: string, rest: string, n: nat)
    requires ':' !in a && n > 1
    ensures SplitN(a + ":" + rest, n) == [a] + SplitN(rest, n - 1)
  {
    ColonSplit(a, rest);
    var s := a + ":" + rest;
    assert s[..|a|] == a && s[|a| + 1..] == rest;
  }

  lemma SplitThree(a: string, b: string, c: string)
    requires ':' !in a && ':' !in b && ':' !in c
    ensures SplitN(a + ":" + b + ":" + c, 4) == [a, b, c]
  {
    assert a + ":" + b + ":" + c == a + ":" + (b + ":" + c);
    SplitField(a, b + ":" + c, 4);
    SplitField(b, c, 3);
    ColonSplit(c, "");
  }

  lemma ParseOfFormattedInt(n: nat)
    requires n <= MAX_INT64
    ensures ParseNonNegInt64(FormatInt(n)) == Ok(n)
  {
    ValueOfFormat(n);
    assert IsDigit(FormatNat(n)[0]);
  }

  lemma ParseOfValid(k: SegmentKey)
    requires InRange(k)
    ensures ParseSegmentId(FormatSegmentId(k)) == Ok(k)
  {
    DigitsHaveNoColon(FormatNat(k.way));
    DigitsHaveNoColon(FormatNat(k.seqNo));
    SplitThree(FormatInt(k.way), FormatInt(k.seqNo), DirectionName(k.dir));
    ParseOfFormattedInt(k.way);
    ParseOfFormattedInt(k.seqNo);
  }

  lemma {:induction false} SplitJoins(s: string, n: nat)
    requires n > 0
    ensures Joined(SplitN(s, n)) == s
    decreases n
  {
    FirstColon(s);
    if n > 1 && ColonAt(s) < |s| {
      var at := ColonAt(s);
      SplitJoins(s[at + 1..], n - 1);
      assert s == s[..at] + ":" + s[at + 1..];
    }
  }

  function Joined(fields: seq<string>): string {
    if |fields| == 0 then "" else if |fields| == 1 then fields[0] else fields[0] + ":" + Joined(fields[1..])
  }

  /** Formatting what an accepted string parsed to gives back that string. */
  lemma FormatOfParse(text: string)
    requires ParseSegmentId(text).Ok?
    ensures InRange(ParseSegmentId(text).value) && FormatSegmentId(ParseSegmentId(text).value) == text
  {
    var fields := SplitN(text, 4);
    SplitJoins(text, 4);
    JoinedThree(fields);
    NonNegative(fields[0]);
    NonNegative(fields[1]);
  }

  lemma JoinedThree(fields: seq<string>)
    requires |fields| == 3
    ensures Joined(fields) == fields[0] + ":" + fields[1] + ":" + fields[2]
  {
    assert Joined(fields[1..]) == fields[1] + ":" + Joined(fields[1..][1..]);
    assert fields[1..][1..] == [fields[2]];
  }

  /** A key within range is its way and its sequence number in digits, and a letter for its direction. */
  lemma KeyText(k: SegmentKey)
    requires InRange(k)
    ensures FormatSegmentId(k) == FormatNat(k.way) + ":" + FormatNat(k.seqNo) + if k.dir == Forward then ":F" else ":R"
  {
    assert FormatSegmentId(k) == FormatNat(k.way) + ":" + FormatNat(k.seqNo) + (":" + DirectionName(k.dir));
  }

  /** Parsing a formatted key gives back its fields, exactly for the keys within range. */
  lemma ParseOfFormat(k: SegmentKey)
    ensures ParseSegmentId(FormatSegmentId(k)) == Ok(k) <==>
      && 1 <= k.way <= 0x7FFF_FFFF_FFFF_FFFF && 0 <= k.seqNo <= 0x7FFF_FFFF_FFFF_FFFF
      && (k.dir == Forward || k.dir == Reverse)
  {
    if InRange(k) {
      ParseOfValid(k);
    } else if ParseSegmentId(FormatSegmentId(k)) == Ok(k) {
      FormatOfParse(FormatSegmentId(k));
    }
  }

  lemma NonNegative(field: string)
    requires ParseNonNegInt64(field).Ok?
    ensures 0 <= ParseNonNegInt64(field).value <= MAX_INT64
  {
  }

  /** The accepted strings are exactly the formatted keys within range. */
  lemma AcceptedIffFormatted(text: string)
    ensures ParseSegmentId(text).Ok? <==> exists k :: InRange(k) && FormatSegmentId(k) == text
  {
    if ParseSegmentId(text).Ok? {
      FormatOfParse(text);
    }
    if k :| InRange(k) && FormatSegmentId(k) == text {
      ParseOfFormat(k);
    }
  }

  /** No two accepted strings name one segment. */
  lemma NoAliases(a: string, b: string)
    requires ParseSegmentId(a).Ok? && ParseSegmentId(a) == ParseSegmentId(b)
    ensures a == b
  {
    FormatOfParse(a);
    FormatOfParse(b);
  }

  // ---- what is wrong with a rejected string

  /** A number from 0 to the largest signed 64-bit one, in digits, without a leading zero. */
  ghost predicate Canonical(field: string) {
    exists n: nat :: n <= 0x7FFF_FFFF_FFFF_FFFF && FormatNat(n) == field
  }

  lemma CanonicalIff(field: string)
    ensures ParseNonNegInt64(field).Ok? <==> Canonical(field)
    ensures ParseNonNegInt64(field).Ok? ==> FormatNat(ParseNonNegInt64(field).value) == field
  {
    if ParseNonNegInt64(field).Ok? {
      NonNegative(field);
    }
    if Canonical(field) {
      var n: nat :| n <= MAX_INT64 && FormatNat(n) == field;
      ParseOfFormattedInt(n);
    }
  }

  /** As many fields as there are colons, and one; at most n. */
  lemma {:induction false} SplitCount(s: string, n: nat)
    requires n > 0
    ensures |SplitN(s, n)| == if multiset(s)[':'] + 1 < n then multiset(s)[':'] + 1 else n
    decreases n
  {
    ColonsBehind(s);
    if n > 1 && ColonAt(s) < |s| {
      SplitCount(s[ColonAt(s) + 1..], n - 1);
    }
  }

  /** There is no colon before the first one. */
  lemma ColonsBehind(s: string)
    ensures ColonAt(s) <= |s|
    ensures multiset(s)[':'] == if ColonAt(s) == |s| then 0 else 1 + multiset(s[ColonAt(s) + 1..])[':']
  {
    FirstColon(s);
    var at := ColonAt(s);
    if at == |s| {
      assert s[..at] == s;
      return;
    }
    assert s == s[..at] + [':'] + s[at + 1..];
  }

  /** A string is rejected for its number of fields, counted up to four, exactly when it does not have two colons. */
  lemma WrongCountIff(text: string)
    ensures var r, colons := ParseSegmentId(text), multiset(text)[':'];
      && (r.Err? && r.error.WrongFieldCount? <==> colons != 2)
      && (colons != 2 ==> r == Err(WrongFieldCount(if colons < 3 then colons + 1 else 4)))
  {
    SplitCount(text, 4);
  }

  /** With two colons, the first of these that applies is reported; if none does, the string is accepted. */
  lemma FirstFault(way: string, seqNo: string, dir: string)
    requires ':' !in way && ':' !in seqNo && ':' !in dir
    ensures var r := ParseSegmentId(way + ":" + seqNo + ":" + dir);
      if !Canonical(way) then r.Err? && r.error.BadWay?
      else if way == "0" then r == Err(WayNotPositive)
      else if !Canonical(seqNo) then r.Err? && r.error.BadSeq?
      else if dir != "F" && dir != "R" then r == Err(BadDirection)
      else r.Ok? && FormatNat(r.value.way) == way && FormatNat(r.value.seqNo) == seqNo
  {
    SplitThree(way, seqNo, dir);
    CanonicalIff(way);
    CanonicalIff(seqNo);
    ZeroIff(way);
    if ParseNonNegInt64(seqNo).Ok? {
      NonNegative(seqNo);
    }
  }

  lemma ZeroIff(field: string)
    ensures field == "0" <==> ParseNonNegInt64(field).Ok? && ParseNonNegInt64(field).value < 1
  {
    assert FormatNat(0) == "0";
    ParseOfFormattedInt(0);
    if ParseNonNegInt64(field).Ok? {
      CanonicalIff(field);
      NonNegative(field);
    }
  }
}
