/**
 * The CSV export of the probability table: a header of 54 columns (the four
 * die colours, then the sums 0 .. 49) and one row per table entry with the
 * entry's die counts and its probabilities, a missing sum written as 0.
 *
 * The JSON input is a sequence of records in the order `j.values()` yields
 * them; the output file is a string buffer the script appends to. Python's
 * `str` of a float is the parameter `fmt`.
 */
module ProbDistCsv {
  import opened Wrappers
  import opened Text

  const MAX_ROLLS: nat := 10

  /** `range(MAX_ROLLS*5)`: the sums that get a column. */
  const COLUMNS: nat := MAX_ROLLS * 5

  /** The counts written first in each row, in this order. */
  const DIE_NAMES: seq<string> := ["A", "B", "C", "D"]

  /** The columns of a row: the die names whose counts come first, then how many sum columns follow. */
  datatype Layout = Layout(names: seq<string>, columns: nat)

  /** The layout the script writes. */
  const LAYOUT: Layout := Layout(DIE_NAMES, COLUMNS)

  /** One value of `j`: the die counts and, once filled, the distribution keyed by `str(sum)`. */
  datatype Record = Record(parameter: map<string, int>, distribution: Option<map<string, real>>)

  /** The file opened with mode "w+": empty, then only appended to. */
  class CsvFile {
    var text: string

    constructor ()
      ensures text == ""
    {
      text := "";
    }

    /** `f.write(s)`. */
    method Write(s: string)
      modifies this
      ensures text == old(text) + s
    {
      text := text + s;
    }
  }

  /** Text written so far and the key whose lookup raised `KeyError`, if one did. */
  datatype Written = Written(text: string, missing: Option<string>)

  /** The sum columns `0` .. `49` as the header names them. */
  function Columns(): (r: seq<string>)
    ensures |r| == COLUMNS
  {
    seq(COLUMNS, i => IntToString(i))
  }

  /** The header line without its newline, for the given sum column names. */
  function HeaderLine(columns: seq<string>): string
  {
    "A,B,C,D," + Join(",", columns)
  }

  /** `str(count) + ","` for each die name in turn, stopping at the first one `parameter` lacks. */
  function Counts(parameter: map<string, int>, names: seq<string>): (w: Written)
    decreases |names|
  {
    if |names| == 0 then Written("", None)
    else
      var w := Counts(parameter, names[..|names| - 1]);
      var key := names[|names| - 1];
      if w.missing.Some? then w
      else if key !in parameter then Written(w.text, Some(key))
      else Written(w.text + IntToString(parameter[key]) + ",", None)
  }

  /** `str(pb["distribution"].get(str(i), 0))` for each sum column. */
  function Cells(d: map<string, real>, fmt: real -> string, columns: nat): (r: seq<string>)
    ensures |r| == columns
  {
    seq(columns, i => if IntToString(i) in d then fmt(d[IntToString(i)]) else "0")
  }

  /** Lines 19-21: the cells comma-joined. */
  function Values(d: map<string, real>, fmt: real -> string, columns: nat): string
  {
    Join(",", Cells(d, fmt, columns))
  }

  /** What the script writes for one record, and the key it fails on. */
  function RecordOut(r: Record, fmt: real -> string, layout: Layout): Written
  {
    var c := Counts(r.parameter, layout.names);
    if c.missing.Some? then c
    else if r.distribution.None? then Written(c.text, Some("distribution"))
    else Written(c.text + Values(r.distribution.value, fmt, layout.columns) + "\n", None)
  }

  /** The records' rows written one after the other; writing stops at the first `KeyError`. */
  function Emit(records: seq<Record>, fmt: real -> string, layout: Layout): Written
    decreases |records|
  {
    if |records| == 0 then Written("", None)
    else
      var w := Emit(records[..|records| - 1], fmt, layout);
      if w.missing.Some? then w
      else
        var o := RecordOut(records[|records| - 1], fmt, layout);
        Written(w.text + o.text, o.missing)
  }

  /** The file for a layout and header columns, and how writing it ended. */
  function File(records: seq<Record>, fmt: real -> string, layout: Layout, columns: seq<string>): Written
  {
    var e := Emit(records, fmt, layout);
    Written(HeaderLine(columns) + "\n" + e.text, e.missing)
  }

  /** The whole file the script writes and how the script ended. */
  function Script(records: seq<Record>, fmt: real -> string): Written
  {
    File(records, fmt, LAYOUT, Columns())
  }

  /** Appending in two steps appends the concatenation. */
  lemma Appended(a: string, b: string, c: string)
    ensures (a + b) + c == a + (b + c)
  {
  }

  /** Once a lookup has failed, no later name is written. */
  lemma {:induction false} CountsStuck(parameter: map<string, int>, names: seq<string>, k: nat)
    requires k <= |names| && Counts(parameter, names[..k]).missing.Some?
    ensures Counts(parameter, names) == Counts(parameter, names[..k])
    decreases |names|
  {
    if k < |names| {
      assert names[..|names| - 1][..k] == names[..k];
      CountsStuck(parameter, names[..|names| - 1], k);
    } else {
      assert names[..k] == names;
    }
  }

  /** Once a record has failed, no later record is written. */
  lemma {:induction false} EmitStuck(records: seq<Record>, fmt: real -> string, layout: Layout, k: nat)
    requires k <= |records| && Emit(records[..k], fmt, layout).missing.Some?
    ensures Emit(records, fmt, layout) == Emit(records[..k], fmt, layout)
    decreases |records|
  {
    if k < |records| {
      assert records[..|records| - 1][..k] == records[..k];
      EmitStuck(records[..|records| - 1], fmt, layout, k);
    } else {
      assert records[..k] == records;
    }
  }

  lemma CountsStep(parameter: map<string, int>, names: seq<string>, k: nat)
    requires k < |names| && Counts(parameter, names[..k]).missing.None?
    ensures Counts(parameter, names[..k + 1]) ==
      if names[k] !in parameter then Written(Counts(parameter, names[..k]).text, Some(names[k]))
      else Written(Counts(parameter, names[..k]).text + (IntToString(parameter[names[k]]) + ","), None)
  {
    assert names[..k + 1][..k] == names[..k];
    if names[k] in parameter {
      Appended(Counts(parameter, names[..k]).text, IntToString(parameter[names[k]]), ",");
    }
  }

  lemma EmitStep(records: seq<Record>, fmt: real -> string, layout: Layout, i: nat)
    requires i < |records| && Emit(records[..i], fmt, layout).missing.None?
    ensures Emit(records[..i + 1], fmt, layout) ==
      Written(Emit(records[..i], fmt, layout).text + RecordOut(records[i], fmt, layout).text, RecordOut(records[i], fmt, layout).missing)
  {
    assert records[..i + 1][..i] == records[..i];
  }

  /** Line 18 for each die name in turn: `pb["parameter"][key]` raises on the first name it lacks. */
  method WriteCounts(f: CsvFile, parameter: map<string, int>, names: seq<string>) returns (missing: Option<string>)
    modifies f
    ensures f.text == old(f.text) + Counts(parameter, names).text
    ensures missing == Counts(parameter, names).missing
  {
    for k := 0 to |names|
      invariant f.text == old(f.text) + Counts(parameter, names[..k]).text
      invariant Counts(parameter, names[..k]).missing.None?
    {
      var key := names[k];
      CountsStep(parameter, names, k);
      if key !in parameter {
        CountsStuck(parameter, names, k + 1);
        return Some(key);
      }
      var cell := IntToString(parameter[key]) + ",";
      Appended(old(f.text), Counts(parameter, names[..k]).text, cell);
      f.Write(cell);
    }
    assert names[..|names|] == names;
    return None;
  }

  /** Lines 17-22 for one record `pb`. */
  method WriteRecord(f: CsvFile, r: Record, fmt: real -> string, layout: Layout) returns (missing: Option<string>)
    modifies f
    ensures f.text == old(f.text) + RecordOut(r, fmt, layout).text
    ensures missing == RecordOut(r, fmt, layout).missing
  {
    missing := WriteCounts(f, r.parameter, layout.names);
    if missing.Some? {
      return;
    }
    if r.distribution.None? {
      return Some("distribution");
    }
    f.Write(Values(r.distribution.value, fmt, layout.columns));
    f.Write("\n");
  }

  /** Lines 13-15: the die names, the comma-joined sum columns, the newline. */
  method WriteHeader(f: CsvFile, columns: seq<string>)
    modifies f
    ensures f.text == old(f.text) + (HeaderLine(columns) + "\n")
  {
    Appended(old(f.text), "A,B,C,D,", Join(",", columns));
    f.Write("A,B,C,D,");
    f.Write(Join(",", columns));
    Appended(old(f.text), "A,B,C,D," + Join(",", columns), "\n");
    f.Write("\n");
  }

  /** Lines 16-22: each record in turn, until one of them raises. */
  method WriteRows(f: CsvFile, records: seq<Record>, fmt: real -> string, layout: Layout)
    returns (missing: Option<string>)
    modifies f
    ensures f.text == old(f.text) + Emit(records, fmt, layout).text
    ensures missing == Emit(records, fmt, layout).missing
  {
    for i := 0 to |records|
      invariant f.text == old(f.text) + Emit(records[..i], fmt, layout).text
      invariant Emit(records[..i], fmt, layout).missing.None?
    {
      EmitStep(records, fmt, layout, i);
      Appended(old(f.text), Emit(records[..i], fmt, layout).text, RecordOut(records[i], fmt, layout).text);
      missing := WriteRecord(f, records[i], fmt, layout);
      if missing.Some? {
        EmitStuck(records, fmt, layout, i + 1);
        return;
      }
    }
    assert records[..|records|] == records;
    missing := None;
  }

  /** Lines 12-22 for a layout and header columns. */
  method Export(records: seq<Record>, fmt: real -> string, layout: Layout, columns: seq<string>)
    returns (f: CsvFile, missing: Option<string>)
    ensures Written(f.text, missing) == File(records, fmt, layout, columns)
  {
    f := new CsvFile();
    WriteHeader(f, columns);
    ghost var header := HeaderLine(columns) + "\n";
    assert f.text == header;
    missing := WriteRows(f, records, fmt, layout);
    ghost var e := Emit(records, fmt, layout);
    assert f.text == header + e.text && missing == e.missing;
  }

  /**
   * The script from `open(OUTFILE, "w+")` on: the file holds the header and
   * the rows, and it ends early, with the rows so far, at a missing key.
   */
  method Convert(records: seq<Record>, fmt: real -> string) returns (f: CsvFile, missing: Option<string>)
    ensures Written(f.text, missing) == Script(records, fmt)
  {
    f, missing := Export(records, fmt, LAYOUT, Columns());
  }

  // ---------------------------------------------------------------------
  // Properties of the file
  // ---------------------------------------------------------------------

  /** A record the script writes in full: every die name has a count and the distribution is there. */
  predicate WellFormed(r: Record, names: seq<string>)
  {
    (forall k :: 0 <= k < |names| ==> names[k] in r.parameter) && r.distribution.Some?
  }

  /** Python's `str` of a float never holds a comma or a newline. */
  ghost predicate Plain(fmt: real -> string)
  {
    forall x :: ',' !in fmt(x) && '\n' !in fmt(x)
  }

  /** The count fields of a row. */
  function CountFields(parameter: map<string, int>, names: seq<string>): (r: seq<string>)
    requires forall k :: 0 <= k < |names| ==> names[k] in parameter
    ensures |r| == |names|
  {
    seq(|names|, k requires 0 <= k < |names| => IntToString(parameter[names[k]]))
  }

  /** The fields of the row of a well-formed record: its counts, then its cells. */
  function Fields(r: Record, fmt: real -> string, layout: Layout): seq<string>
    requires WellFormed(r, layout.names)
  {
    CountFields(r.parameter, layout.names) + Cells(r.distribution.value, fmt, layout.columns)
  }

  lemma Appended4(a: string, b: string, c: string, d: string)
    ensures (a + b + c) + d == a + (b + c + d)
  {
  }

  /** The last count field of a list of names. */
  lemma CountsLast(parameter: map<string, int>, names: seq<string>)
    requires |names| > 0 && forall k :: 0 <= k < |names| ==> names[k] in parameter
    requires Counts(parameter, names[..|names| - 1]).missing.None?
    ensures Counts(parameter, names) ==
      Written(Counts(parameter, names[..|names| - 1]).text + IntToString(parameter[names[|names| - 1]]) + ",", None)
    ensures CountFields(parameter, names) ==
      CountFields(parameter, names[..|names| - 1]) + [IntToString(parameter[names[|names| - 1]])]
  {
  }

  lemma Regrouped<T>(a: seq<T>, x: T, ys: seq<T>, b: seq<T>)
    requires b == a + [x]
    ensures a + ([x] + ys) == b + ys
  {
  }

  /** Moving one field from the written prefix into the join. */
  lemma JoinShift(ci: string, x: string, ys: seq<string>, zs: seq<string>)
    requires |ys| >= 1
    requires ci + Join(",", [x] + ys) == Join(",", zs)
    ensures (ci + x + ",") + Join(",", ys) == Join(",", zs)
  {
    JoinCons(x, ys, ",");
    Appended4(ci, x, ",", Join(",", ys));
  }

  /** The counts, each followed by a comma, put in front of a join make one longer join. */
  lemma {:induction false} CountsJoin(parameter: map<string, int>, names: seq<string>, ys: seq<string>)
    requires forall k :: 0 <= k < |names| ==> names[k] in parameter
    requires |ys| >= 1
    ensures Counts(parameter, names).missing.None?
    ensures Counts(parameter, names).text + Join(",", ys) == Join(",", CountFields(parameter, names) + ys)
    decreases |names|
  {
    if |names| > 0 {
      var init := names[..|names| - 1];
      var x := IntToString(parameter[names[|names| - 1]]);
      CountsJoin(parameter, init, [x] + ys);
      CountsLast(parameter, names);
      Regrouped(CountFields(parameter, init), x, ys, CountFields(parameter, names));
      JoinShift(Counts(parameter, init).text, x, ys, CountFields(parameter, names) + ys);
    } else {
      assert CountFields(parameter, names) + ys == ys;
    }
  }

  /** Counting writes every name exactly when the parameter has them all. */
  lemma {:induction false} CountsComplete(parameter: map<string, int>, names: seq<string>)
    ensures Counts(parameter, names).missing.None? <==> forall k :: 0 <= k < |names| ==> names[k] in parameter
  {
    if forall k :: 0 <= k < |names| ==> names[k] in parameter {
      CountsPresent(parameter, names);
    } else {
      var j :| 0 <= j < |names| && names[j] !in parameter;
      CountsAbsent(parameter, names, j);
    }
  }

  /** A parameter with every name lets counting finish. */
  lemma {:induction false} CountsPresent(parameter: map<string, int>, names: seq<string>)
    requires forall k :: 0 <= k < |names| ==> names[k] in parameter
    ensures Counts(parameter, names).missing.None?
    decreases |names|
  {
    if |names| > 0 {
      var init := names[..|names| - 1];
      forall k | 0 <= k < |init| ensures init[k] in parameter {
        assert init[k] == names[k];
      }
      CountsPresent(parameter, init);
      CountsFinishes(parameter, names);
    }
  }

  /** A parameter without one of the names makes counting fail. */
  lemma {:induction false} CountsAbsent(parameter: map<string, int>, names: seq<string>, j: nat)
    requires j < |names| && names[j] !in parameter
    ensures Counts(parameter, names).missing.Some?
    decreases |names|
  {
    var init := names[..|names| - 1];
    if j < |init| {
      assert init[j] == names[j];
      CountsAbsent(parameter, init, j);
      CountsFinishes(parameter, names);
    } else {
      assert names[|names| - 1] !in parameter;
      CountsFinishes(parameter, names);
    }
  }

  /** The last name is written exactly when all before it were and the parameter has it. */
  lemma CountsFinishes(parameter: map<string, int>, names: seq<string>)
    requires |names| > 0
    ensures Counts(parameter, names).missing.None? <==>
      Counts(parameter, names[..|names| - 1]).missing.None? && names[|names| - 1] in parameter
  {
  }

  /** Counting stops at the first die name the parameter lacks, and names it. */
  lemma CountsMissing(parameter: map<string, int>, names: seq<string>, j: nat)
    requires j < |names| && names[j] !in parameter
    requires forall k :: 0 <= k < j ==> names[k] in parameter
    ensures Counts(parameter, names).missing == Some(names[j])
  {
    var pre := names[..j];
    forall k | 0 <= k < j ensures pre[k] in parameter {
      assert pre[k] == names[k];
    }
    CountsPresent(parameter, pre);
    assert names[..j + 1][..j] == pre;
    CountsStuck(parameter, names, j + 1);
  }

  /**
   * A record is written in full exactly when it is well-formed, and its row
   * is then its fields comma-joined, then a newline.
   */
  lemma RecordRow(r: Record, fmt: real -> string, layout: Layout)
    requires layout.columns >= 1
    ensures RecordOut(r, fmt, layout).missing.None? <==> WellFormed(r, layout.names)
    ensures WellFormed(r, layout.names) ==>
      RecordOut(r, fmt, layout).text == Join(",", Fields(r, fmt, layout)) + "\n"
  {
    CountsComplete(r.parameter, layout.names);
    if WellFormed(r, layout.names) {
      CountsJoin(r.parameter, layout.names, Cells(r.distribution.value, fmt, layout.columns));
    }
  }

  /**
   * The row of a well-formed record splits at its commas into exactly its
   * fields: `|names| + columns` of them, each count reading back as the
   * count, and each cell the value of its sum or `0` when the sum is missing.
   */
  lemma RowFields(r: Record, fmt: real -> string, layout: Layout)
    requires WellFormed(r, layout.names) && Plain(fmt) && layout.columns >= 1
    ensures Split(Join(",", Fields(r, fmt, layout)), ',') == Fields(r, fmt, layout)
    ensures |Fields(r, fmt, layout)| == |layout.names| + layout.columns
    ensures forall k :: 0 <= k < |layout.names| ==>
      ParseInt(Fields(r, fmt, layout)[k]) == Some(r.parameter[layout.names[k]])
    ensures forall i :: 0 <= i < layout.columns ==>
      Fields(r, fmt, layout)[|layout.names| + i] ==
        if IntToString(i) in r.distribution.value then fmt(r.distribution.value[IntToString(i)]) else "0"
  {
    var fs := Fields(r, fmt, layout);
    var n := |layout.names|;
    FieldsPlain(r, fmt, layout);
    SplitJoin(fs, ',');
    forall k | 0 <= k < n ensures ParseInt(fs[k]) == Some(r.parameter[layout.names[k]]) {
      ParseIntIntToString(r.parameter[layout.names[k]]);
    }
  }

  /** No field holds a comma or a newline. */
  lemma FieldsPlain(r: Record, fmt: real -> string, layout: Layout)
    requires WellFormed(r, layout.names) && Plain(fmt)
    ensures forall k :: 0 <= k < |Fields(r, fmt, layout)| ==>
      ',' !in Fields(r, fmt, layout)[k] && '\n' !in Fields(r, fmt, layout)[k]
  {
    var fs := Fields(r, fmt, layout);
    var n := |layout.names|;
    var d := r.distribution.value;
    forall k | 0 <= k < |fs| ensures ',' !in fs[k] && '\n' !in fs[k] {
      if k < n {
        assert fs[k] == CountFields(r.parameter, layout.names)[k];
        NoComma(IntToString(r.parameter[layout.names[k]]));
      } else {
        var i := k - n;
        assert fs[k] == Cells(d, fmt, layout.columns)[i];
        if IntToString(i) in d {
          var x := d[IntToString(i)];
          assert fs[k] == fmt(x);
          assert ',' !in fmt(x) && '\n' !in fmt(x);
        } else {
          assert fs[k] == "0";
        }
      }
    }
  }

  /** A decimal rendering of an integer has no comma and no newline. */
  lemma NoComma(s: string)
    requires forall k :: 0 <= k < |s| ==> s[k] == '-' || '0' <= s[k] <= '9'
    ensures ',' !in s && '\n' !in s
  {
    forall k | 0 <= k < |s| ensures s[k] != ',' && s[k] != '\n' {}
  }

  /**
   * A row depends on the distribution only through the sum columns: keys
   * outside `0` .. `columns - 1` are never looked up.
   */
  lemma OtherKeysIgnored(r1: Record, r2: Record, fmt: real -> string, layout: Layout)
    requires r1.parameter == r2.parameter && r1.distribution.Some? && r2.distribution.Some?
    requires forall i :: 0 <= i < layout.columns ==>
      (IntToString(i) in r1.distribution.value <==> IntToString(i) in r2.distribution.value)
    requires forall i :: 0 <= i < layout.columns && IntToString(i) in r1.distribution.value ==>
      r1.distribution.value[IntToString(i)] == r2.distribution.value[IntToString(i)]
    ensures RecordOut(r1, fmt, layout) == RecordOut(r2, fmt, layout)
  {
    var c1 := Cells(r1.distribution.value, fmt, layout.columns);
    var c2 := Cells(r2.distribution.value, fmt, layout.columns);
    assert c1 == c2 by {
      forall i | 0 <= i < layout.columns ensures c1[i] == c2[i] {}
    }
  }

  /** Lines each followed by a newline. */
  function Terminated(lines: seq<string>): string
  {
    if |lines| == 0 then "" else lines[0] + "\n" + Terminated(lines[1..])
  }

  lemma {:induction false} TerminatedSnoc(xs: seq<string>, x: string)
    ensures Terminated(xs + [x]) == Terminated(xs) + (x + "\n")
    decreases |xs|
  {
    if |xs| == 0 {
      assert [x][1..] == [];
    } else {
      assert (xs + [x])[1..] == xs[1..] + [x];
      TerminatedSnoc(xs[1..], x);
      Appended(xs[0] + "\n", Terminated(xs[1..]), x + "\n");
    }
  }

  /** Newline-free lines come back from splitting at the newlines, with an empty piece after the last. */
  lemma {:induction false} SplitTerminated(xs: seq<string>)
    requires forall i :: 0 <= i < |xs| ==> '\n' !in xs[i]
    ensures Split(Terminated(xs), '\n') == xs + [""]
    decreases |xs|
  {
    if |xs| > 0 {
      SplitTerminated(xs[1..]);
      SplitFirst(xs[0], '\n', Terminated(xs[1..]));
      assert xs == [xs[0]] + xs[1..];
    }
  }

  /** The rows of well-formed records, without their newlines. */
  function RowLines(records: seq<Record>, fmt: real -> string, layout: Layout): (r: seq<string>)
    requires forall i :: 0 <= i < |records| ==> WellFormed(records[i], layout.names)
    ensures |r| == |records|
  {
    seq(|records|, i requires 0 <= i < |records| => Join(",", Fields(records[i], fmt, layout)))
  }

  lemma RowLinesSnoc(records: seq<Record>, fmt: real -> string, layout: Layout)
    requires |records| > 0
    requires forall i :: 0 <= i < |records| ==> WellFormed(records[i], layout.names)
    ensures RowLines(records, fmt, layout) ==
      RowLines(records[..|records| - 1], fmt, layout) + [Join(",", Fields(records[|records| - 1], fmt, layout))]
  {
  }

  /** Well-formed records are written one row each, in order. */
  lemma {:induction false} EmitRows(records: seq<Record>, fmt: real -> string, layout: Layout)
    requires layout.columns >= 1
    requires forall i :: 0 <= i < |records| ==> WellFormed(records[i], layout.names)
    ensures Emit(records, fmt, layout) == Written(Terminated(RowLines(records, fmt, layout)), None)
    decreases |records|
  {
    if |records| > 0 {
      var init := records[..|records| - 1];
      var last := records[|records| - 1];
      EmitRows(init, fmt, layout);
      RecordRow(last, fmt, layout);
      RowLinesSnoc(records, fmt, layout);
      TerminatedSnoc(RowLines(init, fmt, layout), Join(",", Fields(last, fmt, layout)));
    } else {
      assert RowLines(records, fmt, layout) == [];
    }
  }

  /**
   * At the first record that is not well-formed the script stops: the file
   * holds the rows before it and what was written of that record, and the
   * key that was missing is reported.
   */
  lemma EmitFails(records: seq<Record>, fmt: real -> string, layout: Layout, j: nat)
    requires layout.columns >= 1
    requires j < |records| && !WellFormed(records[j], layout.names)
    requires forall i :: 0 <= i < j ==> WellFormed(records[i], layout.names)
    ensures Emit(records, fmt, layout).missing.Some?
    ensures Emit(records, fmt, layout) ==
      Written(Terminated(RowLines(records[..j], fmt, layout)) + RecordOut(records[j], fmt, layout).text,
              RecordOut(records[j], fmt, layout).missing)
  {
    EmitRows(records[..j], fmt, layout);
    RecordRow(records[j], fmt, layout);
    EmitStep(records, fmt, layout, j);
    EmitStuck(records, fmt, layout, j + 1);
  }

  /** The header splits at its commas into the die names and the column names. */
  lemma HeaderSplit(columns: seq<string>)
    requires |columns| >= 1
    requires forall i :: 0 <= i < |columns| ==> ',' !in columns[i] && '\n' !in columns[i]
    ensures Split(HeaderLine(columns), ',') == DIE_NAMES + columns
    ensures '\n' !in HeaderLine(columns)
  {
    JoinFree(columns, ",", '\n');
    var lead := "A,B,C,D,";
    assert '\n' !in lead by {
      forall k | 0 <= k < |lead| ensures lead[k] != '\n' {}
    }
    Absent(lead, Join(",", columns), '\n');
    var all := DIE_NAMES + columns;
    assert HeaderLine(columns) == Join(",", all) by {
      JoinAppend(DIE_NAMES, columns, ",");
      assert Join(",", DIE_NAMES) == "A,B,C,D";
      Appended("A,B,C,D", ",", Join(",", columns));
    }
    forall k | 0 <= k < |all| ensures ',' !in all[k] {
      if k >= 4 {
        assert all[k] == columns[k - 4];
      }
    }
    SplitJoin(all, ',');
  }

  /** The header's 54 fields: `A` .. `D`, then `0` .. `49`. */
  lemma HeaderFields()
    ensures Split(HeaderLine(Columns()), ',') == DIE_NAMES + Columns()
    ensures |DIE_NAMES + Columns()| == 54
    ensures '\n' !in HeaderLine(Columns())
  {
    var cols := Columns();
    forall i | 0 <= i < |cols| ensures ',' !in cols[i] && '\n' !in cols[i] {
      NoComma(IntToString(i));
    }
    HeaderSplit(cols);
  }

  lemma Absent(a: string, b: string, c: char)
    requires c !in a && c !in b
    ensures c !in a + b
  {
    forall k | 0 <= k < |a + b| ensures (a + b)[k] != c {
      if k < |a| {
        assert (a + b)[k] == a[k];
      } else {
        assert (a + b)[k] == b[k - |a|];
      }
    }
  }

  /**
   * When every record is well-formed the export finishes, and the file is
   * the header line and then one line per record, in order, each ending in
   * a newline.
   */
  lemma FileLines(records: seq<Record>, fmt: real -> string, layout: Layout, columns: seq<string>)
    requires Plain(fmt) && layout.columns >= 1 && '\n' !in HeaderLine(columns)
    requires forall i :: 0 <= i < |records| ==> WellFormed(records[i], layout.names)
    ensures File(records, fmt, layout, columns).missing.None?
    ensures Split(File(records, fmt, layout, columns).text, '\n') ==
      [HeaderLine(columns)] + RowLines(records, fmt, layout) + [""]
  {
    var rows := RowLines(records, fmt, layout);
    EmitRows(records, fmt, layout);
    var lines := [HeaderLine(columns)] + rows;
    assert lines[1..] == rows;
    forall i | 0 <= i < |lines| ensures '\n' !in lines[i] {
      if i > 0 {
        var fs := Fields(records[i - 1], fmt, layout);
        FieldsPlain(records[i - 1], fmt, layout);
        JoinFree(fs, ",", '\n');
        assert lines[i] == Join(",", fs);
      }
    }
    SplitTerminated(lines);
  }

  /** Each row line splits back on commas into the fields of its record. */
  lemma RowsSplit(records: seq<Record>, fmt: real -> string, layout: Layout)
    requires Plain(fmt) && layout.columns >= 1
    requires forall i :: 0 <= i < |records| ==> WellFormed(records[i], layout.names)
    ensures forall i :: 0 <= i < |records| ==>
      Split(RowLines(records, fmt, layout)[i], ',') == Fields(records[i], fmt, layout)
      && |Fields(records[i], fmt, layout)| == |layout.names| + layout.columns
  {
    forall i | 0 <= i < |records|
      ensures Split(RowLines(records, fmt, layout)[i], ',') == Fields(records[i], fmt, layout)
      ensures |Fields(records[i], fmt, layout)| == |layout.names| + layout.columns
    {
      RowFields(records[i], fmt, layout);
    }
  }

  /**
   * When every record is well-formed the script finishes, and the file is
   * the header line and then one line per record, each ending in a newline;
   * the header and every row split into 54 fields.
   */
  lemma ScriptLines(records: seq<Record>, fmt: real -> string)
    requires Plain(fmt)
    requires forall i :: 0 <= i < |records| ==> WellFormed(records[i], DIE_NAMES)
    ensures Script(records, fmt).missing.None?
    ensures Split(Script(records, fmt).text, '\n') == [HeaderLine(Columns())] + RowLines(records, fmt, LAYOUT) + [""]
    ensures |Split(HeaderLine(Columns()), ',')| == 54
    ensures forall i :: 0 <= i < |records| ==>
      Split(RowLines(records, fmt, LAYOUT)[i], ',') == Fields(records[i], fmt, LAYOUT)
      && |Fields(records[i], fmt, LAYOUT)| == 54
  {
    HeaderFields();
    FileLines(records, fmt, LAYOUT, Columns());
    RowsSplit(records, fmt, LAYOUT);
  }
}
