/** The sequence-ID pattern the controllers repeat: a prefix, optionally the
    day stamp YYYYMMDD, then (the last issued sequence number + 1) left-padded
    with zeros. The "last issued" ID is the most recently created row whose ID
    matches the scope, so the store's existing IDs in creation order are an
    input. The number is read back from the last ID by one of three suffix
    extractions, and parsed the way JavaScript's `parseInt` does. */
module Ids {
  import opened Common

  // ---------------------------------------------------------------------
  // Decimal text

  predicate IsDigit(c: char) { '0' <= c <= '9' }

  predicate AllDigits(s: string) {
    forall i :: 0 <= i < |s| ==> IsDigit(s[i])
  }

  function DigitChar(d: nat): (c: char)
    requires d < 10
    ensures IsDigit(c) && c as int - '0' as int == d
  {
    "0123456789"[d]
  }

  function DigitValue(c: char): nat
    requires IsDigit(c)
  {
    c as int - '0' as int
  }

  function Pow10(k: nat): (p: nat)
    ensures p >= 1
  {
    if k == 0 then 1 else 10 * Pow10(k - 1)
  }

  /** `String(n)` for a non-negative integer. */
  function NatToString(n: nat): (s: string)
    ensures |s| >= 1 && AllDigits(s)
    decreases n
  {
    if n < 10 then [DigitChar(n)] else NatToString(n / 10) + [DigitChar(n % 10)]
  }

  /** The number formed by the last `k` decimal digits of `n` (that is, `n`
      modulo 10^k), computed digit by digit. */
  function LowDigits(n: nat, k: nat): (r: nat)
    ensures r < Pow10(k)
  {
    if k == 0 then 0 else LowDigits(n / 10, k - 1) * 10 + n % 10
  }

  /** `String(n)` for any integer. */
  function IntToString(n: int): string {
    if n < 0 then "-" + NatToString(-n) else NatToString(n)
  }

  /** The number a string of decimal digits denotes. */
  function DigitsValue(s: string): nat
    requires AllDigits(s)
    decreases |s|
  {
    if s == [] then 0 else DigitsValue(s[..|s| - 1]) * 10 + DigitValue(s[|s| - 1])
  }

  function Zeros(k: nat): (z: string)
    ensures |z| == k && AllDigits(z)
  {
    if k == 0 then "" else Zeros(k - 1) + "0"
  }

  /** `s.padStart(width, '0')`: never truncates. */
  function PadStart(s: string, width: nat): (r: string)
    ensures |r| == if |s| >= width then |s| else width
  {
    if |s| >= width then s else Zeros(width - |s|) + s
  }

  predicate IsSpace(c: char) {
    c == ' ' || c == '\t' || c == '\n' || c == '\r'
  }

  function TrimStart(s: string): (r: string)
    ensures |r| <= |s|
  {
    if s != [] && IsSpace(s[0]) then TrimStart(s[1..]) else s
  }

  /** The longest run of digits at the front of `s`. */
  function DigitRun(s: string): (r: string)
    ensures AllDigits(r) && |r| <= |s|
  {
    if s != [] && IsDigit(s[0]) then [s[0]] + DigitRun(s[1..]) else []
  }

  /** `parseInt(s)` in base 10: leading blanks, an optional sign, then the
      longest digit run; `None` stands for `NaN` (no digits at all). */
  function ParseInt(s: string): Option<int> {
    var t := TrimStart(s);
    var negative := t != [] && t[0] == '-';
    var rest := if t != [] && (t[0] == '-' || t[0] == '+') then t[1..] else t;
    var d := DigitRun(rest);
    if d == [] then None
    else if negative then Some(-(DigitsValue(d) as int))
    else Some(DigitsValue(d) as int)
  }

  // ---------------------------------------------------------------------
  // The scheme

  /** How the previous sequence number is cut out of the last ID:
      `slice(-k)`, `slice(k)` or `replace(p, '')` (first occurrence). */
  datatype Suffix = LastChars(k: nat) | DropChars(n: nat) | RemovePrefix(p: string)

  /** `prefix`; whether the day stamp follows it; whether the lookup of the last
      row is restricted to IDs starting with the scope (`LIKE 'scope%'`, or no
      `where` clause at all); pad width; suffix extraction. */
  datatype IdScheme = IdScheme(prefix: string, dated: bool, filtered: bool, width: nat, suffix: Suffix)

  /** The day stamp that `toISOString().slice(0, 10).replace(/-/g, '')` or
      `moment().format('YYYYMMDD')` yields. */
  predicate IsDayStamp(today: string) {
    |today| == 8 && AllDigits(today)
  }

  function Scope(s: IdScheme, today: string): string {
    s.prefix + (if s.dated then today else "")
  }

  predicate StartsWith(x: string, p: string) {
    |p| <= |x| && x[..|p|] == p
  }

  /** The row `findOne({ where: …LIKE scope%…, order: createdAt DESC })`
      returns: the most recently created matching ID. */
  function LastIssued(s: IdScheme, today: string, existing: seq<string>): (r: Option<string>)
    ensures r.Some? ==> r.value in existing
    ensures r.Some? && s.filtered ==> StartsWith(r.value, Scope(s, today))
    ensures r.None? ==> forall e :: e in existing ==> s.filtered && !StartsWith(e, Scope(s, today))
    ensures r.Some? ==> exists i :: 0 <= i < |existing| && existing[i] == r.value &&
                          forall j :: i < j < |existing| ==> s.filtered && !StartsWith(existing[j], Scope(s, today))
    decreases |existing|
  {
    if existing == [] then None
    else
      var e := existing[|existing| - 1];
      if !s.filtered || StartsWith(e, Scope(s, today)) then Some(e)
      else
        var before := existing[..|existing| - 1];
        assert forall j :: 0 <= j < |before| ==> before[j] == existing[j];
        LastIssued(s, today, before)
  }

  /** Index of the first occurrence of `p` in `x` (what `String.replace` with a
      string pattern acts on). */
  function IndexOf(x: string, p: string, from: nat): (r: Option<nat>)
    ensures r.Some? ==> from <= r.value && r.value + |p| <= |x| && x[r.value..r.value + |p|] == p
    decreases |x| - from
  {
    if from + |p| > |x| then None
    else if x[from..from + |p|] == p then Some(from)
    else IndexOf(x, p, from + 1)
  }

  function Extract(suffix: Suffix, id: string): string {
    match suffix
    case LastChars(k) => if k == 0 || k >= |id| then id else id[|id| - k..]
    case DropChars(n) => if n >= |id| then "" else id[n..]
    case RemovePrefix(p) =>
      match IndexOf(id, p, 0)
      case None => id
      case Some(i) => id[..i] + id[i + |p|..]
  }

  /** `lastId + 1`, where `lastId` is 0 without a previous row; `None` is NaN. */
  function NextNumber(s: IdScheme, last: Option<string>): Option<int> {
    match last
    case None => Some(1)
    case Some(id) =>
      match ParseInt(Extract(s.suffix, id))
      case None => None
      case Some(v) => Some(v + 1)
  }

  /** The ID whose sequence number is `n`. */
  function Format(s: IdScheme, today: string, n: int): string {
    Scope(s, today) + PadStart(IntToString(n), s.width)
  }

  /** The generator: the next ID given the store's IDs in creation order. */
  function NextId(s: IdScheme, today: string, existing: seq<string>): (r: string)
    ensures StartsWith(r, Scope(s, today))
    ensures |r| >= |Scope(s, today)| + s.width
  {
    var text := match NextNumber(s, LastIssued(s, today, existing))
                case None => "NaN"
                case Some(v) => IntToString(v);
    Scope(s, today) + PadStart(text, s.width)
  }

  /** The generator with the previous number read from everything after the
      scope rather than from its last `k` characters (see Findings). Schemes
      that already cut at the scope are unchanged. */
  function Fixed(s: IdScheme): (f: IdScheme)
    ensures f.prefix == s.prefix && f.dated == s.dated && f.filtered == s.filtered && f.width == s.width
    ensures !s.suffix.LastChars? ==> f == s
  {
    if s.suffix.LastChars? then s.(suffix := DropChars(|s.prefix| + if s.dated then 8 else 0)) else s
  }

  // ---------------------------------------------------------------------
  // Instances (the source repeats the pattern in every controller)

  function DatedScheme(prefix: string): IdScheme {
    IdScheme(prefix, true, true, 4, LastChars(4))
  }

  const BillIds := DatedScheme("BILL")
  const PaymentIds := DatedScheme("PAY")
  const TransactionIds := DatedScheme("TXN")
  const FulfillmentIds := DatedScheme("FUL")
  const PrescriptionIds := DatedScheme("RX")
  const AppointmentIds := DatedScheme("APT")
  const LabReportIds := DatedScheme("LAB")
  const ScheduleIds := DatedScheme("SCH")
  const EmergencyIds := DatedScheme("EM")
  const DoctorIds := IdScheme("DOC", false, false, 4, RemovePrefix("DOC"))
  const PatientIds := IdScheme("PAT", false, false, 6, RemovePrefix("PAT"))

  /** A category code: the category's three-letter prefix, padded to 4, read
      back with `slice(3)`. */
  function CategoryScheme(prefix: string): IdScheme {
    IdScheme(prefix, false, true, 4, DropChars(3))
  }

  function ItemPrefix(category: string): (p: string)
    ensures |p| == 3
  {
    match category
    case "medicine" => "MED"
    case "surgical_equipment" => "SUR"
    case "consumables" => "CON"
    case "lab_supplies" => "LAB"
    case "office_supplies" => "OFF"
    case "medical_devices" => "DEV"
    case _ => "ITM"
  }

  function DrugPrefix(category: string): (p: string)
    ensures |p| == 3
  {
    match category
    case "tablet" => "TAB"
    case "capsule" => "CAP"
    case "syrup" => "SYR"
    case "injection" => "INJ"
    case "ointment" => "OIN"
    case "drops" => "DRP"
    case "inhaler" => "INH"
    case "other" => "OTH"
    case _ => "DRG"
  }

  // ---------------------------------------------------------------------
  // Facts about decimal text

  /** `TrimStart` removes exactly the leading blanks. */
  lemma {:induction false} TrimStartIsSuffix(s: string)
    ensures var r := TrimStart(s); r == s[|s| - |r|..] && (r != [] ==> !IsSpace(r[0]))
    ensures forall i :: 0 <= i < |s| - |TrimStart(s)| ==> IsSpace(s[i])
  {
    if s != [] && IsSpace(s[0]) {
      TrimStartIsSuffix(s[1..]);
      assert forall i :: 1 <= i < |s| ==> s[i] == s[1..][i - 1];
    }
  }

  /** `DigitRun` is the longest prefix made of digits. */
  lemma {:induction false} DigitRunIsLongest(s: string)
    ensures var r := DigitRun(s); r == s[..|r|] && (|r| < |s| ==> !IsDigit(s[|r|]))
  {
    if s != [] && IsDigit(s[0]) {
      DigitRunIsLongest(s[1..]);
    }
  }

  lemma AllDigitsConcat(a: string, b: string)
    requires AllDigits(a) && AllDigits(b)
    ensures AllDigits(a + b)
  {
    forall i | 0 <= i < |a + b| ensures IsDigit((a + b)[i]) {
      if i < |a| { assert (a + b)[i] == a[i]; } else { assert (a + b)[i] == b[i - |a|]; }
    }
  }

  lemma {:induction false} DigitsValueBound(s: string)
    requires AllDigits(s)
    ensures DigitsValue(s) < Pow10(|s|)
    decreases |s|
  {
    if s != [] {
      DigitsValueBound(s[..|s| - 1]);
    }
  }

  lemma {:induction false} ZerosValue(k: nat)
    ensures DigitsValue(Zeros(k)) == 0
  {
    if k > 0 {
      assert Zeros(k)[..k - 1] == Zeros(k - 1);
      ZerosValue(k - 1);
    }
  }

  /** `String(n)` read back as digits gives `n`. */
  lemma {:induction false} NatToStringValue(n: nat)
    ensures DigitsValue(NatToString(n)) == n
    decreases n
  {
    if n >= 10 {
      var s := NatToString(n);
      assert s[..|s| - 1] == NatToString(n / 10);
      NatToStringValue(n / 10);
    }
  }

  /** Leading zeros do not change the value. */
  lemma {:induction false} LeadingZerosValue(k: nat, t: string)
    requires AllDigits(t)
    ensures AllDigits(Zeros(k) + t)
    ensures DigitsValue(Zeros(k) + t) == DigitsValue(t)
    decreases |t|
  {
    AllDigitsConcat(Zeros(k), t);
    if t == [] {
      assert Zeros(k) + t == Zeros(k);
      ZerosValue(k);
    } else {
      var t' := t[..|t| - 1];
      var x := Zeros(k) + t;
      assert x[..|x| - 1] == Zeros(k) + t';
      assert x[|x| - 1] == t[|t| - 1];
      LeadingZerosValue(k, t');
    }
  }

  /** Zero padding does not change the value. */
  lemma PaddedValue(n: nat, width: nat)
    ensures AllDigits(PadStart(NatToString(n), width))
    ensures DigitsValue(PadStart(NatToString(n), width)) == n
  {
    var t := NatToString(n);
    NatToStringValue(n);
    if |t| < width {
      LeadingZerosValue(width - |t|, t);
    }
  }

  lemma {:induction false} DigitRunOfDigits(s: string)
    requires AllDigits(s)
    ensures DigitRun(s) == s
    decreases |s|
  {
    if s != [] {
      DigitRunOfDigits(s[1..]);
    }
  }

  /** `parseInt` of a non-empty digit string is its value. */
  lemma ParseDigits(s: string)
    requires s != [] && AllDigits(s)
    ensures ParseInt(s) == Some(DigitsValue(s) as int)
  {
    assert TrimStart(s) == s;
    DigitRunOfDigits(s);
  }

  /** The last `k` digits of a digit string denote its `k` low digits. */
  lemma {:induction false} LastDigitsValue(s: string, k: nat)
    requires AllDigits(s) && k <= |s|
    ensures AllDigits(s[|s| - k..])
    ensures DigitsValue(s[|s| - k..]) == LowDigits(DigitsValue(s), k)
    decreases k
  {
    if k == 0 {
      assert s[|s| - k..] == [];
    } else {
      var s' := s[..|s| - 1];
      var u := s[|s| - k..];
      assert u[..|u| - 1] == s'[|s'| - (k - 1)..];
      assert u[|u| - 1] == s[|s| - 1];
      LastDigitsValue(s', k - 1);
      var v, d := DigitsValue(s'), DigitValue(s[|s| - 1]);
      assert DigitsValue(s) == v * 10 + d;
      assert DigitsValue(s) / 10 == v && DigitsValue(s) % 10 == d;
    }
  }

  /** Below 10^k a number is its own `k` low digits. */
  lemma {:induction false} LowDigitsSmall(n: nat, k: nat)
    requires n < Pow10(k)
    ensures LowDigits(n, k) == n
    decreases k
  {
    if k > 0 {
      LowDigitsSmall(n / 10, k - 1);
    }
  }

  // ---------------------------------------------------------------------
  // Properties of the generator

  /** Equal numbers give equal IDs (stated separately so that callers need
      not unfold `Format` to see it). */
  lemma FormatCongruent(s: IdScheme, today: string, a: int, b: int)
    requires a == b
    ensures Format(s, today, a) == Format(s, today, b)
  {
  }

  lemma FormatStartsWithScope(s: IdScheme, today: string, n: int)
    ensures StartsWith(Format(s, today, n), Scope(s, today))
  {
    var x := Format(s, today, n);
    assert x[..|Scope(s, today)|] == Scope(s, today);
  }

  /** With no earlier ID in scope, the sequence starts at 1 (`…0001`). */
  lemma FirstInScope(s: IdScheme, today: string, existing: seq<string>)
    requires s.filtered
    requires forall e :: e in existing ==> !StartsWith(e, Scope(s, today))
    ensures NextId(s, today, existing) == Format(s, today, 1)
  {
  }

  /** The ID just issued is the one the next call finds (its scope matches). */
  lemma IssuedIsLast(s: IdScheme, today: string, existing: seq<string>, id: string)
    requires StartsWith(id, Scope(s, today))
    ensures LastIssued(s, today, existing + [id]) == Some(id)
  {
  }

  /** An ID with sequence `n >= 0` is its scope followed by digits worth `n`. */
  lemma FormatDigits(s: IdScheme, today: string, n: nat)
    ensures var t := PadStart(NatToString(n), s.width);
            Format(s, today, n) == Scope(s, today) + t &&
            |t| >= s.width && |t| >= 1 && AllDigits(t) && DigitsValue(t) == n
  {
    PaddedValue(n, s.width);
  }

  lemma NextIdOfNumber(s: IdScheme, today: string, existing: seq<string>, x: string, v: int)
    requires LastIssued(s, today, existing) == Some(x)
    requires ParseInt(Extract(s.suffix, x)) == Some(v)
    ensures NextId(s, today, existing) == Format(s, today, v + 1)
  {
  }

  lemma ExtractLastChars(k: nat, c: string, t: string)
    requires 1 <= k <= |t|
    ensures Extract(LastChars(k), c + t) == t[|t| - k..]
  {
    var x := c + t;
    if k < |x| {
      assert x[|x| - k..] == t[|t| - k..];
    } else {
      assert x == t;
    }
  }

  lemma ParseLastChars(k: nat, c: string, t: string)
    requires 1 <= k <= |t| && AllDigits(t)
    ensures ParseInt(Extract(LastChars(k), c + t)) == Some(LowDigits(DigitsValue(t), k) as int)
  {
    ExtractLastChars(k, c, t);
    var u := t[|t| - k..];
    LastDigitsValue(t, k);
    ParseDigits(u);
  }

  lemma ParseDropChars(c: string, t: string)
    requires 1 <= |t| && AllDigits(t)
    ensures ParseInt(Extract(DropChars(|c|), c + t)) == Some(DigitsValue(t) as int)
  {
    assert (c + t)[|c|..] == t;
    ParseDigits(t);
  }

  /** `replace(p, '')` on `p + t` finds `p` at the start and leaves `t`. */
  lemma ExtractRemovePrefix(p: string, t: string)
    ensures Extract(RemovePrefix(p), p + t) == t
  {
    var x := p + t;
    assert x[0..|p|] == p;
    assert IndexOf(x, p, 0) == Some(0);
    assert x[..0] + x[|p|..] == t;
  }

  lemma ParseRemovePrefix(p: string, t: string)
    requires 1 <= |t| && AllDigits(t)
    ensures ParseInt(Extract(RemovePrefix(p), p + t)) == Some(DigitsValue(t) as int)
  {
    ExtractRemovePrefix(p, t);
    ParseDigits(t);
  }

  lemma ParseFormatLastChars(s: IdScheme, today: string, n: nat)
    requires s.suffix.LastChars? && 1 <= s.suffix.k <= s.width
    ensures ParseInt(Extract(s.suffix, Format(s, today, n))) == Some(LowDigits(n, s.suffix.k) as int)
  {
    FormatDigits(s, today, n);
    ParseLastChars(s.suffix.k, Scope(s, today), PadStart(NatToString(n), s.width));
  }

  /** As written, `slice(-k)` reads back only the last `k` digits: the next ID
      after sequence `n` has sequence `(n mod 10^k) + 1`. */
  lemma NextAfterLastChars(s: IdScheme, today: string, existing: seq<string>, n: nat)
    requires s.suffix.LastChars? && 1 <= s.suffix.k <= s.width
    requires LastIssued(s, today, existing) == Some(Format(s, today, n))
    ensures NextId(s, today, existing) == Format(s, today, LowDigits(n, s.suffix.k) + 1)
  {
    ParseFormatLastChars(s, today, n);
    NextIdOfNumber(s, today, existing, Format(s, today, n), LowDigits(n, s.suffix.k));
  }

  /** Below 10^k the `slice(-k)` round trip holds: the next ID continues the
      sequence. */
  lemma RoundTripBelowBound(s: IdScheme, today: string, existing: seq<string>, n: nat)
    requires s.suffix.LastChars? && 1 <= s.suffix.k <= s.width
    requires n < Pow10(s.suffix.k)
    requires LastIssued(s, today, existing) == Some(Format(s, today, n))
    ensures NextId(s, today, existing) == Format(s, today, n + 1)
  {
    NextAfterLastChars(s, today, existing, n);
    LowDigitsSmall(n, s.suffix.k);
  }

  /** Every dated generator (`<prefix><yyyymmdd><nnnn>` read back with
      `slice(-4)`) continues its day's sequence up to number 9999. */
  lemma DatedContinues(prefix: string, today: string, existing: seq<string>, n: nat)
    requires n < 10000
    requires LastIssued(DatedScheme(prefix), today, existing) == Some(Format(DatedScheme(prefix), today, n))
    ensures NextId(DatedScheme(prefix), today, existing) == Format(DatedScheme(prefix), today, n + 1)
  {
    assert Pow10(4) == 10000;
    RoundTripBelowBound(DatedScheme(prefix), today, existing, n);
  }

  /** Reading everything after the scope (`slice(k)` with `k` the scope's
      length) round-trips for every sequence number. */
  lemma NextAfterDropScope(s: IdScheme, today: string, existing: seq<string>, n: nat)
    requires s.suffix == DropChars(|Scope(s, today)|)
    requires LastIssued(s, today, existing) == Some(Format(s, today, n))
    ensures NextId(s, today, existing) == Format(s, today, n + 1)
  {
    ParseFormatDropScope(s, today, n);
    NextIdOfNumber(s, today, existing, Format(s, today, n), n);
  }

  lemma ParseFormatDropScope(s: IdScheme, today: string, n: nat)
    requires s.suffix == DropChars(|Scope(s, today)|)
    ensures ParseInt(Extract(s.suffix, Format(s, today, n))) == Some(n)
  {
    FormatDigits(s, today, n);
    ParseDropChars(Scope(s, today), PadStart(NatToString(n), s.width));
  }

  /** `replace(prefix, '')` on an undated ID removes the leading prefix, so it
      too round-trips for every sequence number. */
  lemma NextAfterRemovePrefix(s: IdScheme, today: string, existing: seq<string>, n: nat)
    requires !s.dated && s.suffix == RemovePrefix(s.prefix)
    requires LastIssued(s, today, existing) == Some(Format(s, today, n))
    ensures NextId(s, today, existing) == Format(s, today, n + 1)
  {
    ParseFormatRemovePrefix(s, today, n);
    NextIdOfNumber(s, today, existing, Format(s, today, n), n);
  }

  /** Doctor codes (`DOC` and four digits) and patient codes (`PAT` and six
      digits) continue their sequence for every number, past the padding
      width included. */
  lemma DoctorIdsContinue(today: string, existing: seq<string>, n: nat)
    requires LastIssued(DoctorIds, today, existing) == Some(Format(DoctorIds, today, n))
    ensures NextId(DoctorIds, today, existing) == Format(DoctorIds, today, n + 1)
  {
    NextAfterRemovePrefix(DoctorIds, today, existing, n);
  }

  lemma PatientIdsContinue(today: string, existing: seq<string>, n: nat)
    requires LastIssued(PatientIds, today, existing) == Some(Format(PatientIds, today, n))
    ensures NextId(PatientIds, today, existing) == Format(PatientIds, today, n + 1)
  {
    NextAfterRemovePrefix(PatientIds, today, existing, n);
  }

  lemma UndatedScope(s: IdScheme, today: string)
    requires !s.dated
    ensures Scope(s, today) == s.prefix
  {
    assert s.prefix + "" == s.prefix;
  }

  lemma ParseFormatRemovePrefix(s: IdScheme, today: string, n: nat)
    requires !s.dated && s.suffix == RemovePrefix(s.prefix)
    ensures ParseInt(Extract(s.suffix, Format(s, today, n))) == Some(n)
  {
    var t := PadStart(NatToString(n), s.width);
    FormatDigits(s, today, n);
    UndatedScope(s, today);
    ParseRemovePrefix(s.prefix, t);
  }

  /** Two IDs of one scheme and day are equal only if their numbers are. */
  lemma FormatInjective(s: IdScheme, today: string, n: nat, m: nat)
    requires Format(s, today, n) == Format(s, today, m)
    ensures n == m
  {
    var c := Scope(s, today);
    var a, b := PadStart(NatToString(n), s.width), PadStart(NatToString(m), s.width);
    FormatDigits(s, today, n);
    FormatDigits(s, today, m);
    assert (c + a)[|c|..] == a && (c + b)[|c|..] == b;
  }

  lemma FormatDistinct(s: IdScheme, today: string, n: nat, m: nat)
    requires n != m
    ensures Format(s, today, n) != Format(s, today, m)
  {
    if Format(s, today, n) == Format(s, today, m) {
      FormatInjective(s, today, n, m);
    }
  }

  /** The fixed generator continues every sequence. */
  lemma FixedContinues(s: IdScheme, today: string, existing: seq<string>, n: nat)
    requires s.suffix.LastChars? && (s.dated ==> IsDayStamp(today))
    requires LastIssued(Fixed(s), today, existing) == Some(Format(s, today, n))
    ensures NextId(Fixed(s), today, existing) == Format(s, today, n + 1)
  {
    FixedSameFormat(s, today, n);
    FixedSameFormat(s, today, n + 1);
    NextAfterDropScope(Fixed(s), today, existing, n);
  }

  lemma FixedSameFormat(s: IdScheme, today: string, n: int)
    ensures Scope(Fixed(s), today) == Scope(s, today)
    ensures Format(Fixed(s), today, n) == Format(s, today, n)
  {
  }

  /** The fixed generator and the source's agree wherever the source's round
      trip holds, so the fix changes nothing below 10^k. */
  lemma FixedAgreesBelowBound(s: IdScheme, today: string, existing: seq<string>, n: nat)
    requires s.filtered && s.suffix.LastChars? && 1 <= s.suffix.k <= s.width && n < Pow10(s.suffix.k)
    requires s.dated ==> IsDayStamp(today)
    requires LastIssued(s, today, existing) == Some(Format(s, today, n))
    ensures NextId(Fixed(s), today, existing) == NextId(s, today, existing)
  {
    FixedSameFormat(s, today, n);
    LastIssuedSameScope(s, Fixed(s), today, existing);
    FixedContinues(s, today, existing, n);
    RoundTripBelowBound(s, today, existing, n);
  }

  lemma {:induction false} LastIssuedSameScope(s: IdScheme, f: IdScheme, today: string, existing: seq<string>)
    requires Scope(s, today) == Scope(f, today) && s.filtered == f.filtered
    ensures LastIssued(s, today, existing) == LastIssued(f, today, existing)
    decreases |existing|
  {
    if existing != [] {
      LastIssuedSameScope(s, f, today, existing[..|existing| - 1]);
    }
  }

  /** Issue `count` IDs one after another, each appended to the store. */
  function IssueMany(s: IdScheme, today: string, existing: seq<string>, count: nat): (r: seq<string>)
    ensures |r| == |existing| + count
    decreases count
  {
    if count == 0 then existing
    else
      var before := IssueMany(s, today, existing, count - 1);
      before + [NextId(s, today, before)]
  }

  /** The newest ID is the last issued one whenever it lies in the scope. */
  lemma LastOfScope(s: IdScheme, today: string, existing: seq<string>)
    requires |existing| > 0
    ensures StartsWith(existing[|existing| - 1], Scope(s, today)) ==>
            LastIssued(s, today, existing) == Some(existing[|existing| - 1])
  {
  }

  /** After an ID of the scope with number `m`, the fixed generator issues `m + 1`. */
  lemma FixedNextAfter(s: IdScheme, today: string, before: seq<string>, m: nat)
    requires s.filtered && s.suffix.LastChars? && (s.dated ==> IsDayStamp(today))
    requires |before| > 0 && before[|before| - 1] == Format(s, today, m)
    ensures NextId(Fixed(s), today, before) == Format(s, today, m + 1)
  {
    LastOfScope(Fixed(s), today, before);
    FixedSameFormat(s, today, m);
    FormatStartsWithScope(s, today, m);
    FixedContinues(s, today, before, m);
  }

  /** The IDs `…1, …2, …, …count` of one scope, in order. */
  function Run(s: IdScheme, today: string, count: nat): (r: seq<string>)
    ensures |r| == count
  {
    if count == 0 then [] else Run(s, today, count - 1) + [Format(s, today, count)]
  }

  lemma {:induction false} RunElement(s: IdScheme, today: string, count: nat, j: nat)
    requires j < count
    ensures Run(s, today, count)[j] == Format(s, today, j + 1)
    decreases count
  {
    var prev, last := Run(s, today, count - 1), Format(s, today, count);
    assert Run(s, today, count) == prev + [last];
    if j < count - 1 {
      RunElement(s, today, count - 1, j);
      assert (prev + [last])[j] == prev[j];
    } else {
      FormatCongruent(s, today, j + 1, count);
    }
  }

  /** With the fixed generator a scope's IDs are `…1, …2, …, …count`, whatever
      `count` is. */
  lemma {:induction false} FixedIssuesInOrder(s: IdScheme, today: string, existing: seq<string>, count: nat)
    requires s.filtered && s.suffix.LastChars? && (s.dated ==> IsDayStamp(today))
    requires forall e :: e in existing ==> !StartsWith(e, Scope(s, today))
    ensures IssueMany(Fixed(s), today, existing, count) == existing + Run(s, today, count)
    decreases count
  {
    if count == 0 {
      assert existing + [] == existing;
    } else {
      FixedIssuesInOrder(s, today, existing, count - 1);
      FixedNextInRun(s, today, existing, count);
      AppendStep(IssueMany(Fixed(s), today, existing, count), IssueMany(Fixed(s), today, existing, count - 1),
                 Format(s, today, count), existing, Run(s, today, count - 1), Run(s, today, count));
    }
  }

  /** One step of the induction above: after `…1 … …(count - 1)` the fixed
      generator issues `…count`. */
  lemma FixedNextInRun(s: IdScheme, today: string, existing: seq<string>, count: nat)
    requires s.filtered && s.suffix.LastChars? && (s.dated ==> IsDayStamp(today))
    requires forall e :: e in existing ==> !StartsWith(e, Scope(s, today))
    requires count > 0
    requires IssueMany(Fixed(s), today, existing, count - 1) == existing + Run(s, today, count - 1)
    ensures NextId(Fixed(s), today, IssueMany(Fixed(s), today, existing, count - 1)) == Format(s, today, count)
  {
    var f := Fixed(s);
    var before := IssueMany(f, today, existing, count - 1);
    if count == 1 {
      assert before == existing by { assert existing + [] == existing; }
      FixedSameFormat(s, today, 1);
      FirstInScope(f, today, existing);
    } else {
      assert before[|before| - 1] == Format(s, today, count - 1) by {
        LastOfAppend(existing, Run(s, today, count - 1));
        RunElement(s, today, count - 1, count - 2);
      }
      FixedNextAfter(s, today, before, count - 1);
      FormatCongruent(s, today, count - 1 + 1, count);
    }
  }

  lemma AppendStep(r: seq<string>, before: seq<string>, y: string, a: seq<string>, b: seq<string>, rb: seq<string>)
    requires r == before + [y] && before == a + b && rb == b + [y]
    ensures r == a + rb
  {
    assert (a + b) + [y] == a + (b + [y]);
  }

  lemma RunDistinct(s: IdScheme, today: string, count: nat, i: nat, j: nat)
    requires i < j < count
    ensures Run(s, today, count)[i] != Run(s, today, count)[j]
  {
    var r := Run(s, today, count);
    RunElement(s, today, count, i);
    RunElement(s, today, count, j);
    if r[i] == r[j] {
      FormatInjective(s, today, i + 1, j + 1);
    }
  }

  lemma IndexAfter(a: seq<string>, b: seq<string>, i: nat)
    requires i < |b|
    ensures (a + b)[|a| + i] == b[i]
  {
  }

  lemma LastOfAppend(a: seq<string>, b: seq<string>)
    requires |b| > 0
    ensures (a + b)[|a + b| - 1] == b[|b| - 1]
  {
  }

  /** Corrected property: the fixed generator's IDs of one day are pairwise
      distinct. */
  lemma FixedNeverRepeats(s: IdScheme, today: string, existing: seq<string>, count: nat, i: nat, j: nat)
    requires s.filtered && s.suffix.LastChars? && (s.dated ==> IsDayStamp(today))
    requires forall e :: e in existing ==> !StartsWith(e, Scope(s, today))
    requires i < j < count
    ensures IssueMany(Fixed(s), today, existing, count)[|existing| + i] != IssueMany(Fixed(s), today, existing, count)[|existing| + j]
  {
    FixedIssuesInOrder(s, today, existing, count);
    IndexAfter(existing, Run(s, today, count), i);
    IndexAfter(existing, Run(s, today, count), j);
    RunDistinct(s, today, count, i, j);
  }

  lemma {:induction false} LowDigitsOfPow10(k: nat)
    ensures LowDigits(Pow10(k), k) == 0
  {
    if k > 0 {
      assert Pow10(k) / 10 == Pow10(k - 1) && Pow10(k) % 10 == 0;
      LowDigitsOfPow10(k - 1);
    }
  }

  /** As written: once a scope reaches sequence 10^k, the next `slice(-k)`
      call re-issues that scope's first ID (`…0001`). */
  lemma RolloverRepeatsFirst(s: IdScheme, today: string, existing: seq<string>, n: nat)
    requires s.suffix.LastChars? && 1 <= s.suffix.k <= s.width && n == Pow10(s.suffix.k)
    requires LastIssued(s, today, existing) == Some(Format(s, today, n))
    ensures NextId(s, today, existing) == Format(s, today, 1)
  {
    LowDigitsOfPow10(s.suffix.k);
    NextAfterLastChars(s, today, existing, n);
    FormatCongruent(s, today, LowDigits(n, s.suffix.k) + 1, 1);
  }

  /** The day's 10001st bill: after `BILL<day>10000` the generator answers
      `BILL<day>0001` again, which the unique constraint then rejects. */
  lemma BillRollover(today: string, existing: seq<string>)
    requires LastIssued(BillIds, today, existing) == Some(Format(BillIds, today, 10000))
    ensures NextId(BillIds, today, existing) == Format(BillIds, today, 1)
  {
    assert Pow10(4) == 10000;
    RolloverRepeatsFirst(BillIds, today, existing, 10000);
  }
}
