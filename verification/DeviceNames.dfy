/** Device names: parsing, printing and the environment suffix (pkg/npuutil/device.go). */
module DeviceNames {
  import opened Wrappers
  import opened Decimal
  import opened Text

  /** Both fields are Go int32 values. */
  datatype DeviceName = DeviceName(logicID: int, sliceID: int) {
    predicate IsSlice() { sliceID != 0 }

    function EnvSuffix(): string {
      if IsSlice() then Itoa(logicID) + "_" + Itoa(sliceID) else Itoa(logicID)
    }

    function ToString(): string {
      if IsSlice() then PREFIX + (Itoa(logicID) + "-" + Itoa(sliceID)) else PREFIX + Itoa(logicID)
    }
  }

  datatype NameError = NoPrefix | NoID | BadShape | BadLogicID | BadSliceID

  const PREFIX := "npu-"

  /** Go's conversion int32(v) of a 64-bit int. */
  function ToInt32(v: int): int {
    var low := v % 0x1_0000_0000;
    if low < 0x8000_0000 then low else low - 0x1_0000_0000
  }

  function ParseDeviceName(name: string): Result<DeviceName, NameError> {
    if !(PREFIX <= name) then Err(NoPrefix)
    else
      var rest := name[|PREFIX|..];
      if rest == "" then Err(NoID)
      else
        var parts := Split(rest, '-');
        if |parts| > 2 then Err(BadShape)
        else
          var logicID := Atoi(parts[0]);
          if logicID.None? then Err(BadLogicID)
          else if |parts| == 1 then Ok(DeviceName(ToInt32(logicID.value), 0))
          else
            var sliceID := Atoi(parts[1]);
            if sliceID.None? then Err(BadSliceID)
            else Ok(DeviceName(ToInt32(logicID.value), ToInt32(sliceID.value)))
  }

  lemma SplitPair(a: string, b: string)
    requires '-' !in a && '-' !in b
    ensures Split(a + "-" + b, '-') == [a, b]
  {
    SplitPrefix(a, b, '-');
    SplitWhole(b, '-');
  }

  ghost predicate NamesCard(name: string, a: string) {
    '-' !in a && name == PREFIX + a && Atoi(a).Some?
  }

  ghost predicate NamesSlice(name: string, a: string, b: string) {
    '-' !in a && '-' !in b && name == PREFIX + (a + "-" + b) && Atoi(a).Some? && Atoi(b).Some?
  }

  lemma ParseCard(name: string, a: string)
    requires NamesCard(name, a)
    ensures ParseDeviceName(name) == Ok(DeviceName(ToInt32(Atoi(a).value), 0))
  {
    SplitWhole(a, '-');
    assert name[|PREFIX|..] == a;
  }

  lemma ParseSlice(name: string, a: string, b: string)
    requires NamesSlice(name, a, b)
    ensures ParseDeviceName(name) == Ok(DeviceName(ToInt32(Atoi(a).value), ToInt32(Atoi(b).value)))
  {
    SplitPair(a, b);
    assert name[|PREFIX|..] == a + "-" + b;
  }

  /** A name is accepted exactly when it is the prefix and one number, or the prefix and two numbers. */
  lemma Accepted(name: string)
    ensures ParseDeviceName(name).Ok? <==>
            || (exists a :: NamesCard(name, a))
            || (exists a, b :: NamesSlice(name, a, b))
  {
    if a :| NamesCard(name, a) {
      ParseCard(name, a);
    }
    if a, b :| NamesSlice(name, a, b) {
      ParseSlice(name, a, b);
    }
    if ParseDeviceName(name).Ok? {
      var rest := name[|PREFIX|..];
      assert name == PREFIX + rest;
      SplitJoin(rest, '-');
      var parts := Split(rest, '-');
      if |parts| == 1 {
        assert NamesCard(name, parts[0]);
      } else {
        assert Join(parts[1..], '-') == parts[1];
        assert NamesSlice(name, parts[0], parts[1]);
      }
    }
  }

  /** Printing and parsing again gives the name back, for every pair of non-negative int32 IDs. */
  lemma ParsePrinted(d: DeviceName)
    requires 0 <= d.logicID < 0x8000_0000 && 0 <= d.sliceID < 0x8000_0000
    ensures ParseDeviceName(d.ToString()) == Ok(d)
  {
    var a, b := Itoa(d.logicID), Itoa(d.sliceID);
    ItoaReadsBack(d.logicID);
    ItoaReadsBack(d.sliceID);
    if d.IsSlice() {
      ParseSlice(d.ToString(), a, b);
    } else {
      ParseCard(d.ToString(), a);
    }
  }

  lemma ItoaReadsBack(i: int)
    requires 0 <= i < 0x8000_0000
    ensures '-' !in Itoa(i) && Atoi(Itoa(i)) == Some(i) && ToInt32(i) == i
  {
    DigitsHasNo(i, '-');
    AtoiPrinted(i);
  }

  /** A printed name holding a negative number is not accepted: its sign reads as a separator. */
  lemma NegativeNotAccepted(d: DeviceName)
    requires d.logicID < 0 || d.sliceID < 0
    ensures ParseDeviceName(d.ToString()).Err?
  {
    if d.logicID < 0 {
      var tail := Digits(-d.logicID) + (if d.IsSlice() then "-" + Itoa(d.sliceID) else "");
      assert d.ToString() == PREFIX + ("-" + tail);
    } else {
      var a, b := Itoa(d.logicID), Digits(-d.sliceID);
      DigitsHasNo(d.logicID, '-');
      DigitsHasNo(-d.sliceID, '-');
      assert d.ToString() == PREFIX + (a + "-" + ("-" + b));
      DoubleDash(a, b);
    }
  }

  lemma DoubleDash(a: string, b: string)
    requires '-' !in a
    ensures ParseDeviceName(PREFIX + (a + "-" + ("-" + b))).Err?
  {
    var rest := a + "-" + ("-" + b);
    SplitPrefix(a, "-" + b, '-');
    SplitPrefix("", b, '-');
    assert "" + "-" + b == "-" + b;
    assert (PREFIX + rest)[|PREFIX|..] == rest;
    assert |Split(rest, '-')| > 2;
  }

  // ---- Printing what was parsed ----

  const INT32_LIMIT: int := 0x8000_0000

  /** The text that printing gives for the device an accepted name denotes. */
  function Printed(name: string): string
    requires ParseDeviceName(name).Ok?
  {
    ParseDeviceName(name).value.ToString()
  }

  /** The printed name denotes the same device. */
  predicate RoundTrips(name: string) {
    ParseDeviceName(name).Ok? && ParseDeviceName(Printed(name)) == ParseDeviceName(name)
  }

  /** int32(v) is not negative. */
  predicate StaysPositive(v: int) {
    v % 0x1_0000_0000 < INT32_LIMIT
  }

  lemma PositiveRoundTrips(name: string)
    requires ParseDeviceName(name).Ok?
    ensures var d := ParseDeviceName(name).value; RoundTrips(name) <==> d.logicID >= 0 && d.sliceID >= 0
  {
    var d := ParseDeviceName(name).value;
    if d.logicID >= 0 && d.sliceID >= 0 {
      ParsePrinted(d);
    } else {
      NegativeNotAccepted(d);
    }
  }

  /** A number without a minus sign is natural, and canonical exactly when it is the printed form of its value. */
  lemma UnsignedText(a: string)
    requires '-' !in a && Atoi(a).Some?
    ensures a != "" && Atoi(a).value >= 0
    ensures Canonical(a) <==> a == Digits(Atoi(a).value)
  {
    DigitsCanonical(Atoi(a).value);
    if Canonical(a) {
      CanonicalIsPrinted(a);
    }
  }

  /**
    A card name "npu-<a>". It round-trips exactly when the number taken modulo 2^32 is below 2^31; the number itself
    is kept exactly when it is below 2^31, and the printed name then has it in shortest form, without leading zeros
    or a plus sign; and printing gives the very same text exactly when the text was in that form already.
  */
  lemma CardPrintNormalises(name: string, a: string)
    requires NamesCard(name, a)
    ensures ParseDeviceName(name).Ok? && Atoi(a).value >= 0
    ensures RoundTrips(name) <==> StaysPositive(Atoi(a).value)
    ensures ParseDeviceName(name).value == DeviceName(Atoi(a).value, 0) <==> Atoi(a).value < INT32_LIMIT
    ensures Atoi(a).value < INT32_LIMIT ==> Printed(name) == PREFIX + Digits(Atoi(a).value)
    ensures Printed(name) == name <==> Canonical(a) && Atoi(a).value < INT32_LIMIT
  {
    ParseCard(name, a);
    PositiveRoundTrips(name);
    UnsignedText(a);
    KeptBelowLimit(Atoi(a).value);
    CardText(a, Atoi(a).value);
  }

  lemma KeptBelowLimit(v: int)
    requires v >= 0
    ensures ToInt32(v) == v <==> v < INT32_LIMIT
    ensures ToInt32(v) >= 0 <==> StaysPositive(v)
  {
  }

  lemma CardText(a: string, v: int)
    requires '-' !in a && Atoi(a) == Some(v) && v >= 0
    requires Canonical(a) <==> a == Digits(v)
    ensures v < INT32_LIMIT ==> DeviceName(ToInt32(v), 0).ToString() == PREFIX + Digits(v)
    ensures DeviceName(ToInt32(v), 0).ToString() == PREFIX + a <==> Canonical(a) && v < INT32_LIMIT
  {
    KeptBelowLimit(v);
    var d := DeviceName(ToInt32(v), 0);
    if d.ToString() == PREFIX + a {
      assert Itoa(d.logicID) == d.ToString()[|PREFIX|..] == (PREFIX + a)[|PREFIX|..] == a;
      MinusFirst(d.logicID);
      AtoiPrinted(d.logicID);
    }
  }

  /** Two numbers without leading zeros or signs; the second goes away when it is zero. */
  function ShortForm(v: nat, u: nat): string {
    if u == 0 then Digits(v) else Digits(v) + "-" + Digits(u)
  }

  /**
    A slice name "npu-<a>-<b>". The same for both numbers; a second number that is zero goes away, so the printed text
    is the same text only if it was not.
  */
  lemma SlicePrintNormalises(name: string, a: string, b: string)
    requires NamesSlice(name, a, b)
    ensures ParseDeviceName(name).Ok? && Atoi(a).value >= 0 && Atoi(b).value >= 0
    ensures RoundTrips(name) <==> StaysPositive(Atoi(a).value) && StaysPositive(Atoi(b).value)
    ensures ParseDeviceName(name).value == DeviceName(Atoi(a).value, Atoi(b).value)
            <==> Atoi(a).value < INT32_LIMIT && Atoi(b).value < INT32_LIMIT
    ensures Atoi(a).value < INT32_LIMIT && Atoi(b).value < INT32_LIMIT ==>
              Printed(name) == PREFIX + ShortForm(Atoi(a).value, Atoi(b).value)
    ensures Printed(name) == name
            <==> Canonical(a) && Canonical(b) && b != "0" && Atoi(a).value < INT32_LIMIT && Atoi(b).value < INT32_LIMIT
  {
    ParseSlice(name, a, b);
    PositiveRoundTrips(name);
    UnsignedText(a);
    UnsignedText(b);
    KeptBelowLimit(Atoi(a).value);
    KeptBelowLimit(Atoi(b).value);
    SliceText(a, b, Atoi(a).value, Atoi(b).value);
  }

  lemma SliceText(a: string, b: string, v: int, u: int)
    requires '-' !in a && '-' !in b && Atoi(a) == Some(v) && Atoi(b) == Some(u) && v >= 0 && u >= 0
    requires (Canonical(a) <==> a == Digits(v)) && (Canonical(b) <==> b == Digits(u))
    ensures v < INT32_LIMIT && u < INT32_LIMIT ==>
              DeviceName(ToInt32(v), ToInt32(u)).ToString() == PREFIX + ShortForm(v, u)
    ensures DeviceName(ToInt32(v), ToInt32(u)).ToString() == PREFIX + (a + "-" + b)
            <==> Canonical(a) && Canonical(b) && b != "0" && v < INT32_LIMIT && u < INT32_LIMIT
  {
    KeptBelowLimit(v);
    KeptBelowLimit(u);
    assert Digits(v) + "" == Digits(v);
    assert Digits(v) + "-" + Digits(u) == Digits(v) + ("-" + Digits(u));
    assert Digits(0) == "0";
    var d := DeviceName(ToInt32(v), ToInt32(u));
    if d.ToString() == PREFIX + (a + "-" + b) {
      SameSliceText(d, a, b);
      AtoiPrinted(d.logicID);
      AtoiPrinted(d.sliceID);
    }
  }

  lemma MinusFirst(i: int)
    ensures i < 0 <==> Itoa(i) != "" && Itoa(i)[0] == '-'
  {
    DigitsCanonical(if i < 0 then -i else i);
  }

  lemma SameSliceText(d: DeviceName, a: string, b: string)
    requires a != "" && b != "" && '-' !in a && '-' !in b && d.ToString() == PREFIX + (a + "-" + b)
    ensures d.logicID >= 0 && d.sliceID > 0 && a == Digits(d.logicID) && b == Digits(d.sliceID)
  {
    var rest := a + "-" + b;
    assert rest == (PREFIX + rest)[|PREFIX|..] == d.ToString()[|PREFIX|..];
    MinusFirst(d.logicID);
    MinusFirst(d.sliceID);
    assert rest[0] == a[0];
    DigitsHasNo(d.logicID, '-');
    assert rest[|a|] == '-' && '-' in rest;
    assert d.IsSlice() && rest == Itoa(d.logicID) + "-" + Itoa(d.sliceID);
    SplitPrefix(Itoa(d.logicID), Itoa(d.sliceID), '-');
    SplitPair(a, b);
    SplitJoin(Itoa(d.sliceID), '-');
    var head, tail := Itoa(d.logicID), Split(Itoa(d.sliceID), '-');
    assert [head] + tail == [a, b];
    assert head == ([head] + tail)[0] == a && tail == ([head] + tail)[1..] == [a, b][1..] == [b];
  }

  /** For every accepted name: when the printed text names the same device again, told from the text alone. */
  lemma PrintNormalises(name: string)
    requires ParseDeviceName(name).Ok?
    ensures (exists a :: NamesCard(name, a)) || (exists a, b :: NamesSlice(name, a, b))
    ensures forall a :: NamesCard(name, a) ==> (RoundTrips(name) <==> StaysPositive(Atoi(a).value))
    ensures forall a, b :: NamesSlice(name, a, b) ==>
              (RoundTrips(name) <==> StaysPositive(Atoi(a).value) && StaysPositive(Atoi(b).value))
    ensures RoundTrips(name) ==> Printed(Printed(name)) == Printed(name)
  {
    Accepted(name);
    forall a | NamesCard(name, a) ensures RoundTrips(name) <==> StaysPositive(Atoi(a).value) {
      CardPrintNormalises(name, a);
    }
    forall a, b | NamesSlice(name, a, b)
      ensures RoundTrips(name) <==> StaysPositive(Atoi(a).value) && StaysPositive(Atoi(b).value)
    {
      SlicePrintNormalises(name, a, b);
    }
  }

  /** Every ID in the upper half of uint32 is accepted as a negative number, and its printed form is rejected. */
  lemma WrappedNamesDoNotRoundTrip(n: nat)
    requires 0x8000_0000 <= n < 0x1_0000_0000
    ensures ParseDeviceName(PREFIX + Digits(n)) == Ok(DeviceName(n - 0x1_0000_0000, 0))
    ensures ParseDeviceName(DeviceName(n - 0x1_0000_0000, 0).ToString()).Err?
  {
    WrappedParse(n, Digits(n), PREFIX + Digits(n));
    NegativeNotAccepted(DeviceName(n - 0x1_0000_0000, 0));
  }

  lemma WrappedParse(n: nat, a: string, name: string)
    requires 0x8000_0000 <= n < 0x1_0000_0000 && a == Digits(n) && name == PREFIX + a
    ensures ParseDeviceName(name) == Ok(DeviceName(n - 0x1_0000_0000, 0))
  {
    AtoiPrinted(n);
    DigitsHasNo(n, '-');
    assert NamesCard(name, a);
    ParseCard(name, a);
    Wraps(n);
  }

  lemma Wraps(n: nat)
    requires 0x8000_0000 <= n < 0x1_0000_0000
    ensures ToInt32(n) == n - 0x1_0000_0000
  {
  }

  /** Distinct devices never share an environment variable suffix. */
  lemma EnvSuffixInjective(d: DeviceName, e: DeviceName)
    requires d.EnvSuffix() == e.EnvSuffix()
    ensures d == e
  {
    SuffixShape(d);
    SuffixShape(e);
    if d.IsSlice() && e.IsSlice() {
      CutUnique(Itoa(d.logicID), Itoa(d.sliceID), Itoa(e.logicID), Itoa(e.sliceID), '_');
      ItoaInjective(d.sliceID, e.sliceID);
    }
    ItoaInjective(d.logicID, e.logicID);
  }

  lemma SuffixShape(d: DeviceName)
    ensures '_' !in Itoa(d.logicID) && '_' !in Itoa(d.sliceID)
    ensures '_' in d.EnvSuffix() <==> d.IsSlice()
  {
    ItoaHasNoUnderscore(d.logicID);
    ItoaHasNoUnderscore(d.sliceID);
    if d.IsSlice() {
      assert d.EnvSuffix()[|Itoa(d.logicID)|] == '_';
    }
  }

  lemma ItoaHasNoUnderscore(i: int)
    ensures '_' !in Itoa(i)
  {
    DigitsHasNo(if i < 0 then -i else i, '_');
  }

  /** Text cut at its last separator has one reading. */
  lemma CutUnique(a: string, b: string, a': string, b': string, sep: char)
    requires sep !in b && sep !in b'
    requires a + [sep] + b == a' + [sep] + b'
    ensures a == a' && b == b'
  {
    var s, t := a + [sep] + b, a' + [sep] + b';
    assert s[|a|] == sep && t[|a'|] == sep;
    assert forall i :: |a| < i < |s| ==> s[i] == b[i - |a| - 1];
    assert forall i :: |a'| < i < |t| ==> t[i] == b'[i - |a'| - 1];
    assert |a| == |a'|;
    assert s[..|a|] == a && t[..|a|] == a';
    assert s[|a| + 1..] == b && t[|a| + 1..] == b';
  }
}
