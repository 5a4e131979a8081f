/** The parameters of a benchmark job and the printed key jobs are deduplicated by. */
module CacheKeys {
  import opened SegmentIds

  datatype Params = Params(
    algorithm: string, alpha: real, beta: real, capacityScale: real, requestCount: int, seed: int)

  const DEFAULT_OD_COUNT := 1000

  /** Unicode white space. */
  predicate IsSpace(c: char) {
    || c in " \t\n\r\U{000B}\U{000C}\U{0085}\U{00A0}\U{1680}\U{2028}\U{2029}\U{202F}\U{205F}\U{3000}"
    || '\U{2000}' <= c <= '\U{200A}'
  }

  predicate Blank(s: string) {
    forall i :: 0 <= i < |s| ==> IsSpace(s[i])
  }

  /** Zero and blank fields filled with the harness defaults. */
  function WithDefaults(p: Params): Params {
    Params(
      if Blank(p.algorithm) then "all" else p.algorithm,
      if p.alpha == 0.0 then 0.15 else p.alpha,
      if p.beta == 0.0 then 4.0 else p.beta,
      if p.capacityScale == 0.0 then 1.0 else p.capacityScale,
      if p.requestCount == 0 then DEFAULT_OD_COUNT else p.requestCount,
      p.seed)
  }

  /** How floating-point numbers print, and which numbers there are. */
  datatype Printer = Printer(text: real -> string, floats: real -> bool) {
    /** Different numbers print differently, and none prints a field separator. */
    ghost predicate Valid() {
      && floats(0.15) && floats(4.0) && floats(1.0)
      && (forall x, y :: floats(x) && floats(y) && text(x) == text(y) ==> x == y)
      && forall x :: floats(x) ==> '|' !in text(x)
    }

    predicate Prints(p: Params) {
      floats(p.alpha) && floats(p.beta) && floats(p.capacityScale)
    }

    /** The text of the effective tuple. */
    function CacheKey(p: Params): string {
      var d := WithDefaults(p);
      Field(Field(Field(Field(Field("algo=" + d.algorithm, "a=", text(d.alpha)), "b=", text(d.beta)),
                        "cap=", text(d.capacityScale)), "n=", FormatInt(d.requestCount)), "seed=", FormatInt(d.seed))
    }
  }

  /** One more field after what is printed already. */
  function Field(before: string, name: string, value: string): string {
    before + "|" + (name + value)
  }

  lemma BarBehind(x: string, s: string, y: string, t: string)
    requires x + "|" + s == y + "|" + t && |x| < |y|
    ensures '|' in s
  {
    assert (x + "|" + s)[|y|] == '|';
    assert s[|y| - |x| - 1] == '|';
  }

  lemma SplitAtLastBar(x: string, s: string, y: string, t: string)
    requires x + "|" + s == y + "|" + t && '|' !in s && '|' !in t
    ensures x == y && s == t
  {
    if |x| < |y| {
      BarBehind(x, s, y, t);
    } else if |y| < |x| {
      BarBehind(y, t, x, s);
    } else {
      assert (x + "|" + s)[..|x|] == x && (y + "|" + t)[..|y|] == y;
      assert (x + "|" + s)[|x| + 1..] == s && (y + "|" + t)[|y| + 1..] == t;
    }
  }

  lemma SameField(before: string, name: string, value: string, before': string, value': string)
    requires Field(before, name, value) == Field(before', name, value')
    requires '|' !in name && '|' !in value && '|' !in value'
    ensures before == before' && value == value'
  {
    SplitAtLastBar(before, name + value, before', name + value');
    assert (name + value)[|name|..] == value && (name + value')[|name|..] == value';
  }

  lemma DecimalText(n: int)
    ensures '|' !in FormatInt(n) && (n < 0 <==> FormatInt(n)[0] == '-')
  {
  }

  lemma NatTextInjective(m: nat, n: nat)
    requires FormatNat(m) == FormatNat(n)
    ensures m == n
  {
    ValueOfFormat(m);
    ValueOfFormat(n);
  }

  lemma NegativeText(n: int)
    requires n < 0
    ensures FormatInt(n)[1..] == FormatNat(-n)
  {
  }

  lemma NegativeInjective(m: int, n: int)
    requires m < 0 && n < 0 && FormatInt(m) == FormatInt(n)
    ensures m == n
  {
    NegativeText(m);
    NegativeText(n);
    NatTextInjective(-m, -n);
  }

  lemma DecimalInjective(m: int, n: int)
    requires FormatInt(m) == FormatInt(n)
    ensures m == n
  {
    DecimalText(m);
    DecimalText(n);
    if m < 0 {
      NegativeInjective(m, n);
      return;
    }
    NatTextInjective(m, n);
  }

  /** The printed key names the effective tuple: no two tuples share it, whatever the algorithm is called. */
  lemma KeyNamesTuple(printer: Printer, p: Params, q: Params)
    requires printer.Valid() && printer.Prints(p) && printer.Prints(q)
    ensures printer.CacheKey(p) == printer.CacheKey(q) <==> WithDefaults(p) == WithDefaults(q)
  {
    if printer.CacheKey(p) == printer.CacheKey(q) {
      SameKeySameTuple(printer, p, q);
    }
  }

  /** Two parameters that take effect alike: equal, or each unset or the default. */
  ghost predicate Alike(x: real, y: real, default: real) {
    x == y || ((x == 0.0 || x == default) && (y == 0.0 || y == default))
  }

  ghost predicate SameAlgorithm(a: string, b: string) {
    a == b || ((AllSpace(a) || a == "all") && (AllSpace(b) || b == "all"))
  }

  ghost predicate SameCount(m: int, n: int) {
    m == n || ((m == 0 || m == 1000) && (n == 0 || n == 1000))
  }

  /** Nothing but tabs, line ends, form feeds, spaces and the other white space of Unicode, by code point. */
  ghost predicate AllSpace(s: string) {
    forall i :: 0 <= i < |s| ==>
      var c := s[i] as int;
      || 0x9 <= c <= 0xD || c == 0x20 || c == 0x85 || c == 0xA0 || c == 0x1680 || 0x2000 <= c <= 0x200A
      || c == 0x2028 || c == 0x2029 || c == 0x202F || c == 0x205F || c == 0x3000
  }

  lemma BlankIsAllSpace(s: string)
    ensures Blank(s) <==> AllSpace(s)
  {
  }

  /** Two tuples share a key exactly when every parameter takes effect alike, unset ones as the defaults. */
  lemma SameKeyIff(printer: Printer, p: Params, q: Params)
    requires printer.Valid()
    requires printer.floats(p.alpha) && printer.floats(p.beta) && printer.floats(p.capacityScale)
    requires printer.floats(q.alpha) && printer.floats(q.beta) && printer.floats(q.capacityScale)
    ensures printer.CacheKey(p) == printer.CacheKey(q) <==>
      && SameAlgorithm(p.algorithm, q.algorithm) && Alike(p.alpha, q.alpha, 0.15) && Alike(p.beta, q.beta, 4.0)
      && Alike(p.capacityScale, q.capacityScale, 1.0) && SameCount(p.requestCount, q.requestCount) && p.seed == q.seed
  {
    KeyNamesTuple(printer, p, q);
    SameTupleIff(p, q);
  }

  lemma SameTupleIff(p: Params, q: Params)
    ensures WithDefaults(p) == WithDefaults(q) <==>
      && SameAlgorithm(p.algorithm, q.algorithm) && Alike(p.alpha, q.alpha, 0.15) && Alike(p.beta, q.beta, 4.0)
      && Alike(p.capacityScale, q.capacityScale, 1.0) && SameCount(p.requestCount, q.requestCount) && p.seed == q.seed
  {
    BlankIsAllSpace(p.algorithm);
    BlankIsAllSpace(q.algorithm);
    assert !IsSpace("all"[0]);
  }

  /** The text of a key, for a tuple that leaves nothing unset. */
  lemma KeyReads(printer: Printer, p: Params)
    requires WithDefaults(p) == p
    ensures printer.CacheKey(p)
            == "algo=" + p.algorithm + ("|a=" + printer.text(p.alpha)) + ("|b=" + printer.text(p.beta))
               + ("|cap=" + printer.text(p.capacityScale)) + ("|n=" + FormatInt(p.requestCount))
               + ("|seed=" + FormatInt(p.seed))
  {
    var key := "algo=" + p.algorithm;
    key := FieldReads(key, "a=", printer.text(p.alpha), "|a=");
    key := FieldReads(key, "b=", printer.text(p.beta), "|b=");
    key := FieldReads(key, "cap=", printer.text(p.capacityScale), "|cap=");
    key := FieldReads(key, "n=", FormatInt(p.requestCount), "|n=");
    key := FieldReads(key, "seed=", FormatInt(p.seed), "|seed=");
  }

  lemma FieldReads(before: string, name: string, value: string, shown: string) returns (after: string)
    requires shown == "|" + name
    ensures after == Field(before, name, value) == before + (shown + value)
  {
    after := Field(before, name, value);
    assert shown + value == "|" + (name + value);
  }

  lemma SameKeySameTuple(printer: Printer, p: Params, q: Params)
    requires printer.Valid() && printer.Prints(p) && printer.Prints(q) && printer.CacheKey(p) == printer.CacheKey(q)
    ensures WithDefaults(p) == WithDefaults(q)
  {
    var c, d := WithDefaults(p), WithDefaults(q);
    var c1, d1 := "algo=" + c.algorithm, "algo=" + d.algorithm;
    var c2, d2 := Field(c1, "a=", printer.text(c.alpha)), Field(d1, "a=", printer.text(d.alpha));
    var c3, d3 := Field(c2, "b=", printer.text(c.beta)), Field(d2, "b=", printer.text(d.beta));
    var c4, d4 := Field(c3, "cap=", printer.text(c.capacityScale)), Field(d3, "cap=", printer.text(d.capacityScale));
    var c5, d5 := Field(c4, "n=", FormatInt(c.requestCount)), Field(d4, "n=", FormatInt(d.requestCount));
    DecimalText(c.seed);
    DecimalText(d.seed);
    SameField(c5, "seed=", FormatInt(c.seed), d5, FormatInt(d.seed));
    DecimalInjective(c.seed, d.seed);
    DecimalText(c.requestCount);
    DecimalText(d.requestCount);
    SameField(c4, "n=", FormatInt(c.requestCount), d4, FormatInt(d.requestCount));
    DecimalInjective(c.requestCount, d.requestCount);
    SameField(c3, "cap=", printer.text(c.capacityScale), d3, printer.text(d.capacityScale));
    SameField(c2, "b=", printer.text(c.beta), d2, printer.text(d.beta));
    SameField(c1, "a=", printer.text(c.alpha), d1, printer.text(d.alpha));
    assert c1[5..] == c.algorithm && d1[5..] == d.algorithm;
  }

  /** Filling defaults twice is filling them once, so a stored job keeps the key it was created under. */
  lemma DefaultsIdempotent(p: Params)
    ensures WithDefaults(WithDefaults(p)) == WithDefaults(p)
  {
    assert !IsSpace("all"[0]);
  }

  /** A way to key parameters, and the parameters there are. */
  datatype Keying = Keying(key: Params -> string, has: Params -> bool) {
    /** Keys stand for effective tuples. */
    ghost predicate Valid() {
      && (forall p, q :: has(p) && has(q) ==> (key(p) == key(q) <==> WithDefaults(p) == WithDefaults(q)))
      && forall p :: has(p) ==> has(WithDefaults(p))
    }
  }

  /** The keying the store uses. */
  function Printed(printer: Printer): Keying {
    Keying(p => printer.CacheKey(p), p => printer.Prints(p))
  }

  lemma PrintedIsValid(printer: Printer)
    requires printer.Valid()
    ensures Printed(printer).Valid()
  {
    var keying := Printed(printer);
    forall p, q | keying.has(p) && keying.has(q)
      ensures keying.key(p) == keying.key(q) <==> WithDefaults(p) == WithDefaults(q)
    {
      KeyNamesTuple(printer, p, q);
    }
  }

  // ---- a printer the assumptions hold of

  predicate TwoDecimals(x: real) { x * 100.0 == Hundred(x) as real }

  function Hundred(x: real): int { (x * 100.0).Floor }

  /** The numbers with two decimals, printed as hundredths. */
  function Hundredths(): Printer {
    Printer(x => FormatInt(Hundred(x)), x => TwoDecimals(x))
  }

  lemma SameHundredths(x: real, y: real)
    requires TwoDecimals(x) && TwoDecimals(y) && FormatInt(Hundred(x)) == FormatInt(Hundred(y))
    ensures x == y
  {
    DecimalInjective(Hundred(x), Hundred(y));
  }

  lemma HundredthsPrint()
    ensures Hundredths().Valid()
  {
    var printer := Hundredths();
    forall x, y | printer.floats(x) && printer.floats(y) && printer.text(x) == printer.text(y)
      ensures x == y
    {
      SameHundredths(x, y);
    }
    forall x | printer.floats(x)
      ensures '|' !in printer.text(x)
    {
      DecimalText(Hundred(x));
    }
  }
}
