/** The acceptance rule of `data_filter` for one line of instrument output,
    and what the whole filter returns for a list of lines. The method that
    runs the filter over the lines is `JigglerState.Jiggler.DataFilter`. */
module RowFilter {
  import opened Wrappers
  import opened PyNumbers
  import opened PyStrings

  /** A kept row after conversion: frequency (float), time in microseconds
      (int), angular deflection (int), and the two temperatures (float). */
  datatype Sample = Sample(frequency: PyFloat, time: int, deflection: int, temp1: PyFloat, temp2: PyFloat)

  /** One line: exactly five comma-separated fields; the first is not an int()
      literal but is a float() literal; the next two are int() literals; the
      last two are float() literals. None is a rejected line. */
  function ParseRow(line: string): Option<Sample> {
    var f := Split(line, ',');
    if |f| != 5 || ParseInt(f[0]).Some? then None
    else
      match (ParseFloat(f[0]), ParseInt(f[1]), ParseInt(f[2]), ParseFloat(f[3]), ParseFloat(f[4]))
      case (Some(freq), Some(time), Some(deflection), Some(t1), Some(t2)) =>
        Some(Sample(freq, time, deflection, t1, t2))
      case _ => None
  }

  /** The rows `parse` keeps, converted, in input order. The filter uses it
      with `ParseRow`; the lemmas about it hold for any line rule. */
  function Kept(lines: seq<string>, parse: string -> Option<Sample>): seq<Sample> {
    if lines == [] then []
    else
      var earlier := Kept(lines[..|lines| - 1], parse);
      match parse(lines[|lines| - 1])
      case Some(s) => earlier + [s]
      case None => earlier
  }

  /** The number of lines `parse` rejects: `bad_count`. */
  function Rejected(lines: seq<string>, parse: string -> Option<Sample>): nat {
    if lines == [] then 0
    else Rejected(lines[..|lines| - 1], parse) + (if parse(lines[|lines| - 1]).None? then 1 else 0)
  }

  /** The diagnostic printed when rows were dropped: loop number, the first
      kept frequency and the number of rejected lines. */
  datatype FilterWarning = FilterWarning(loop: int, frequency: PyFloat, rejected: nat)

  datatype FilterReport = FilterReport(rows: seq<Sample>, rejected: nat, warning: Option<FilterWarning>)

  /** The diagnostic reads `data_clean[0]`, an IndexError when lines were
      rejected and none was kept. */
  datatype FilterError = NoRowToReport

  /** What `data_filter` returns, or the error it raises. */
  function FilterOutcome(loop: int, lines: seq<string>): Result<FilterReport, FilterError> {
    var rows := Kept(lines, ParseRow);
    var bad := Rejected(lines, ParseRow);
    if bad == 0 then Ok(FilterReport(rows, 0, None))
    else if rows == [] then Err(NoRowToReport)
    else Ok(FilterReport(rows, bad, Some(FilterWarning(loop, rows[0].frequency, bad))))
  }

  // ---------------------------------------------------------------------------
  // The filter over many lines

  /** Every line is either kept or counted as rejected. */
  lemma {:induction false} CountsAddUp(lines: seq<string>, parse: string -> Option<Sample>)
    ensures |Kept(lines, parse)| + Rejected(lines, parse) == |lines|
  {
    if lines != [] {
      CountsAddUp(lines[..|lines| - 1], parse);
    }
  }

  /** Filtering two batches one after the other keeps the same rows, in the
      same order, as filtering them together. */
  lemma {:induction false} KeptAppend(a: seq<string>, b: seq<string>, parse: string -> Option<Sample>)
    ensures Kept(a + b, parse) == Kept(a, parse) + Kept(b, parse)
  {
    if b != [] {
      var c := a + b;
      assert c[..|c| - 1] == a + b[..|b| - 1];
      assert c[|c| - 1] == b[|b| - 1];
      KeptAppend(a, b[..|b| - 1], parse);
    } else {
      assert a + b == a;
    }
  }

  /** A row is kept exactly when some line converts to it. */
  lemma {:induction false} KeptMembership(lines: seq<string>, parse: string -> Option<Sample>, s: Sample)
    ensures s in Kept(lines, parse) <==> exists i :: 0 <= i < |lines| && parse(lines[i]) == Some(s)
  {
    if lines != [] {
      var init := lines[..|lines| - 1];
      KeptMembership(init, parse, s);
      if exists i :: 0 <= i < |init| && parse(init[i]) == Some(s) {
        var i :| 0 <= i < |init| && parse(init[i]) == Some(s);
        assert lines[i] == init[i];
      }
      if exists i :: 0 <= i < |lines| && parse(lines[i]) == Some(s) {
        var i :| 0 <= i < |lines| && parse(lines[i]) == Some(s);
        if i < |init| {
          assert init[i] == lines[i];
        }
      }
    }
  }

  /** The filter raises exactly when there is at least one line and every
      line is rejected. */
  lemma {:induction false} FilterFailsIff(loop: int, lines: seq<string>)
    ensures FilterOutcome(loop, lines).Err? <==> |lines| > 0 && forall i :: 0 <= i < |lines| ==> ParseRow(lines[i]).None?
  {
    CountsAddUp(lines, ParseRow);
    var rows := Kept(lines, ParseRow);
    if rows != [] {
      KeptMembership(lines, ParseRow, rows[0]);
    } else if forall i :: 0 <= i < |lines| ==> ParseRow(lines[i]).None? {
    } else {
      var i :| 0 <= i < |lines| && ParseRow(lines[i]).Some?;
      KeptMembership(lines, ParseRow, ParseRow(lines[i]).value);
    }
  }

  /** A report warns exactly when a line was rejected, and its counts add up
      to the number of lines. */
  lemma FilterReportCounts(loop: int, lines: seq<string>)
    requires FilterOutcome(loop, lines).Ok?
    ensures var rep := FilterOutcome(loop, lines).value;
            |rep.rows| + rep.rejected == |lines| && (rep.warning.Some? <==> rep.rejected > 0)
  {
    CountsAddUp(lines, ParseRow);
  }

  // ---------------------------------------------------------------------------
  // Lines as the instrument writes them

  /** The comma-separated line the instrument prints for one sample, with the
      line ending `pad` that `read_until` leaves on it. */
  function InstrumentLine(freq: Decimal, time: int, deflection: int, t1: Decimal, t2: Decimal, pad: string): string
    requires freq.Valid() && t1.Valid() && t2.Valid()
  {
    Join([DecimalText(freq), IntText(time), IntText(deflection), DecimalText(t1), DecimalText(t2)], ',') + pad
  }

  predicate AllSpace(pad: string) {
    forall i :: 0 <= i < |pad| ==> IsSpace(pad[i])
  }

  lemma DecimalTextFree(d: Decimal)
    requires d.Valid()
    ensures Free(DecimalText(d), ',')
  {
    var w := NatText(d.whole);
    var f := PaddedText(d.frac, d.places);
    var body := w + "." + f;
    forall i | 0 <= i < |body| ensures body[i] != ',' {
      if i < |w| { assert body[i] == w[i]; }
      else if i > |w| { assert body[i] == f[i - |w| - 1]; }
    }
    assert DecimalText(d) == (if d.negative then "-" else "") + body;
  }

  lemma IntTextFree(n: int)
    ensures Free(IntText(n), ',')
  {
    var m: nat := if n < 0 then -n else n;
    var w := NatText(m);
    assert IntText(n) == (if n < 0 then "-" else "") + w;
  }

  /** The fields of an instrument line, the line ending staying on the last. */
  lemma InstrumentLineFields(freq: Decimal, time: int, deflection: int, t1: Decimal, t2: Decimal, pad: string)
    requires freq.Valid() && t1.Valid() && t2.Valid()
    requires AllSpace(pad)
    ensures Split(InstrumentLine(freq, time, deflection, t1, t2, pad), ',')
            == [DecimalText(freq), IntText(time), IntText(deflection), DecimalText(t1), DecimalText(t2) + pad]
  {
    var fs := [DecimalText(freq), IntText(time), IntText(deflection), DecimalText(t1), DecimalText(t2)];
    JoinAppend(fs, ',', pad);
    assert fs[..4] + [fs[4] + pad] == [DecimalText(freq), IntText(time), IntText(deflection), DecimalText(t1), DecimalText(t2) + pad];
    DecimalTextFree(freq);
    IntTextFree(time);
    IntTextFree(deflection);
    DecimalTextFree(t1);
    DecimalTextFree(t2);
    assert Free(DecimalText(t2) + pad, ',') by {
      var u := DecimalText(t2);
      forall i | 0 <= i < |u + pad| ensures (u + pad)[i] != ',' {
        if i >= |u| { assert (u + pad)[i] == pad[i - |u|]; }
      }
    }
    SplitJoin(fs[..4] + [fs[4] + pad], ',');
  }

  /** A line the instrument writes, with a decimal frequency, is kept, and the
      kept row holds exactly the values printed, as long as `int()` accepts
      the length of the time and the deflection; otherwise it is rejected. */
  lemma InstrumentLineKept(freq: Decimal, time: int, deflection: int, t1: Decimal, t2: Decimal, pad: string)
    requires freq.Valid() && t1.Valid() && t2.Valid()
    requires AllSpace(pad)
    ensures DigitLength(time) <= IntMaxStrDigits && DigitLength(deflection) <= IntMaxStrDigits ==>
            ParseRow(InstrumentLine(freq, time, deflection, t1, t2, pad))
            == Some(Sample(Num(freq.Value()), time, deflection, Num(t1.Value()), Num(t2.Value())))
    ensures DigitLength(time) > IntMaxStrDigits || DigitLength(deflection) > IntMaxStrDigits ==>
            ParseRow(InstrumentLine(freq, time, deflection, t1, t2, pad)) == None
  {
    InstrumentLineFields(freq, time, deflection, t1, t2, pad);
    var f := [DecimalText(freq), IntText(time), IntText(deflection), DecimalText(t1), DecimalText(t2) + pad];
    assert DecimalText(freq) + [] == f[0];
    assert IntText(time) + [] == f[1];
    assert IntText(deflection) + [] == f[2];
    assert DecimalText(t1) + [] == f[3];
    DecimalTextRoundTrip(freq, []);
    IntTextRoundTrip(time, []);
    IntTextRoundTrip(deflection, []);
    DecimalTextRoundTrip(t1, []);
    DecimalTextRoundTrip(t2, pad);
    if DigitLength(time) <= IntMaxStrDigits && DigitLength(deflection) <= IntMaxStrDigits {
      RowOfFields(InstrumentLine(freq, time, deflection, t1, t2, pad), f,
                  Num(freq.Value()), time, deflection, Num(t1.Value()), Num(t2.Value()));
    }
  }

  /** A line whose five fields parse as the row rule wants gives the row
      those parses make. */
  lemma RowOfFields(line: string, f: seq<string>, freq: PyFloat, time: int, deflection: int, t1: PyFloat, t2: PyFloat)
    requires Split(line, ',') == f && |f| == 5
    requires ParseInt(f[0]) == None && ParseFloat(f[0]) == Some(freq)
    requires ParseInt(f[1]) == Some(time) && ParseInt(f[2]) == Some(deflection)
    requires ParseFloat(f[3]) == Some(t1) && ParseFloat(f[4]) == Some(t2)
    ensures ParseRow(line) == Some(Sample(freq, time, deflection, t1, t2))
  {
  }

  /** A frequency printed without a decimal point ("124") is an int() literal,
      so its line is rejected whatever the other fields hold. An integer too
      long for int() is instead read by float(), and the line is then kept
      when the other four fields convert. */
  lemma IntegerFrequencyRejected(freq: int, f1: string, f2: string, f3: string, f4: string)
    requires Free(f1, ',') && Free(f2, ',') && Free(f3, ',') && Free(f4, ',')
    ensures DigitLength(freq) <= IntMaxStrDigits ==> ParseRow(Join([IntText(freq), f1, f2, f3, f4], ',')) == None
    ensures DigitLength(freq) > IntMaxStrDigits &&
            ParseInt(f1).Some? && ParseInt(f2).Some? && ParseFloat(f3).Some? && ParseFloat(f4).Some? ==>
            ParseRow(Join([IntText(freq), f1, f2, f3, f4], ','))
            == Some(Sample(Num(freq as real), ParseInt(f1).value, ParseInt(f2).value, ParseFloat(f3).value, ParseFloat(f4).value))
  {
    var line := Join([IntText(freq), f1, f2, f3, f4], ',');
    IntTextFree(freq);
    SplitJoin([IntText(freq), f1, f2, f3, f4], ',');
    assert IntText(freq) + [] == IntText(freq);
    IntTextRoundTrip(freq, []);
    if DigitLength(freq) > IntMaxStrDigits &&
       ParseInt(f1).Some? && ParseInt(f2).Some? && ParseFloat(f3).Some? && ParseFloat(f4).Some? {
      IntTextFloat(freq);
      RowOfFields(line, [IntText(freq), f1, f2, f3, f4], Num(freq as real),
                  ParseInt(f1).value, ParseInt(f2).value, ParseFloat(f3).value, ParseFloat(f4).value);
    }
  }

  /** A line with three fields, the layout from before the temperatures were
      added, is rejected. */
  lemma ThreeFieldLineRejected(f0: string, f1: string, f2: string)
    requires Free(f0, ',') && Free(f1, ',') && Free(f2, ',')
    ensures ParseRow(Join([f0, f1, f2], ',')) == None
  {
    SplitJoin([f0, f1, f2], ',');
  }
}
