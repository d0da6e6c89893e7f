/**
 The program's `main`: open the output file, write the UTF-8 byte-order mark
 and the header line, let the platform enumerate the locales through
 `LocaleEnumProc`, close the file and report an exit code.

 The file is modelled as the sequence of writes made to it; what the
 platform does is fixed by an `Environment`.
 */
module Exporter {
  import opened Options
  import opened Win32
  import opened Csv
  import opened LocaleEnum

  /** One write to the output file: raw bytes (`fwrite`) or text (`fprintf`). */
  datatype Write = Bytes(bytes: seq<bv8>) | Text(text: string)

  /** The output file as the program leaves it. */
  datatype OutputFile = OutputFile(writes: seq<Write>, closed: bool)

  /**
   What the platform does during one run:
   - `fileOpens`: whether `fopen_s` succeeds;
   - `visited`: the locale names `EnumSystemLocalesEx` hands to the callback,
     in its order (all of them on success, those before the failure otherwise);
   - `enumerationSucceeds`: the value `EnumSystemLocalesEx` returns.
   */
  datatype Environment = Environment(
    platform: Platform,
    fileOpens: bool,
    visited: seq<string>,
    enumerationSucceeds: bool)

  const Utf8Bom: seq<bv8> := [0xEF, 0xBB, 0xBF]

  /** The column names, in the order the fields of a row follow. */
  const ColumnNames: seq<string> := [
    "Locale Name", "LCID", "ANSI CodePage", "ANSI Character Set", "OEM CodePage",
    "OEM Character Set", "Native Language Name", "English Language Name", "Country", "Script"]

  /**
   The header line the program writes with `"%s\n"`: the column names, each
   in double quotes, separated by commas, then a newline.
   */
  const HeaderLine: string := CsvLine(ColumnNames)

  lemma ColumnNamesQuoteFree()
    ensures AllQuoteFree(ColumnNames)
  {
  }

  /**
   Reading the header line back gives the ten column names, one for each
   field of a row.
   */
  lemma HeaderParses()
    ensures ParseLine(HeaderLine) == Some(ColumnNames)
    ensures |ColumnNames| == 10
  {
    ColumnNamesQuoteFree();
    ParseCsvLine(ColumnNames);
  }

  /**
   The header line is the text the program writes: the ten column names,
   each in double quotes, separated by commas, then a newline.
   */
  lemma HeaderLineText()
    ensures HeaderLine ==
      "\"Locale Name\"," + ("\"LCID\"," + ("\"ANSI CodePage\"," + ("\"ANSI Character Set\"," +
      ("\"OEM CodePage\"," + ("\"OEM Character Set\"," + ("\"Native Language Name\"," +
      ("\"English Language Name\"," + ("\"Country\"," + "\"Script\"\n"))))))))
  {
    LineOfColumnNames(ColumnNames);
  }

  /** The CSV line of any ten fields that are the column names. */
  lemma LineOfColumnNames(fs: seq<string>)
    requires |fs| == 10
    requires fs[0] == "Locale Name" && fs[1] == "LCID" && fs[2] == "ANSI CodePage"
    requires fs[3] == "ANSI Character Set" && fs[4] == "OEM CodePage" && fs[5] == "OEM Character Set"
    requires fs[6] == "Native Language Name" && fs[7] == "English Language Name"
    requires fs[8] == "Country" && fs[9] == "Script"
    ensures CsvLine(fs) ==
      "\"Locale Name\"," + ("\"LCID\"," + ("\"ANSI CodePage\"," + ("\"ANSI Character Set\"," +
      ("\"OEM CodePage\"," + ("\"OEM Character Set\"," + ("\"Native Language Name\"," +
      ("\"English Language Name\"," + ("\"Country\"," + "\"Script\"\n"))))))))
  {
    CsvLineOfTen(fs);
    QuotedFirstColumns(fs);
    QuotedMiddleColumns(fs);
    QuotedLastColumns(fs);
  }

  /**
   Each column name between its quotes, spelled out as the header text has
   it; split in three so each proof stays small.
   */
  lemma QuotedFirstColumns(fs: seq<string>)
    requires |fs| == 10
    requires fs[0] == "Locale Name"
    requires fs[1] == "LCID"
    requires fs[2] == "ANSI CodePage"
    requires fs[3] == "ANSI Character Set"
    ensures "\"" + fs[0] + "\"," == "\"Locale Name\","
    ensures "\"" + fs[1] + "\"," == "\"LCID\","
    ensures "\"" + fs[2] + "\"," == "\"ANSI CodePage\","
    ensures "\"" + fs[3] + "\"," == "\"ANSI Character Set\","
  {
  }

  lemma QuotedMiddleColumns(fs: seq<string>)
    requires |fs| == 10
    requires fs[4] == "OEM CodePage"
    requires fs[5] == "OEM Character Set"
    requires fs[6] == "Native Language Name"
    ensures "\"" + fs[4] + "\"," == "\"OEM CodePage\","
    ensures "\"" + fs[5] + "\"," == "\"OEM Character Set\","
    ensures "\"" + fs[6] + "\"," == "\"Native Language Name\","
  {
  }

  lemma QuotedLastColumns(fs: seq<string>)
    requires |fs| == 10
    requires fs[7] == "English Language Name"
    requires fs[8] == "Country"
    requires fs[9] == "Script"
    ensures "\"" + fs[7] + "\"," == "\"English Language Name\","
    ensures "\"" + fs[8] + "\"," == "\"Country\","
    ensures "\"" + fs[9] + "\"\n" == "\"Script\"\n"
  {
  }

  /** The lines the callback writes while the platform hands it `names`, in order. */
  function Rows(p: Platform, names: seq<string>): (rows: seq<string>)
    ensures |rows| <= |names|
    decreases |names|
  {
    if |names| == 0 then []
    else
      var r := LocaleEnumProc(p, names[|names| - 1]);
      Rows(p, names[..|names| - 1]) + (if r.written.Some? then [r.written.value] else [])
  }

  /** The names that get a row, in enumeration order. */
  function QualifyingNames(p: Platform, names: seq<string>): (q: seq<string>)
    ensures |q| <= |names|
    ensures forall i :: 0 <= i < |q| ==> Qualifies(p, q[i])
  {
    if |names| == 0 then []
    else (if Qualifies(p, names[0]) then [names[0]] else []) + QualifyingNames(p, names[1..])
  }

  /** The names kept are exactly the visited names that qualify. */
  lemma {:induction false} QualifyingNamesMembers(p: Platform, names: seq<string>)
    ensures forall n :: n in QualifyingNames(p, names) <==> n in names && Qualifies(p, n)
    decreases |names|
  {
    if |names| > 0 {
      QualifyingNamesMembers(p, names[1..]);
      assert names == [names[0]] + names[1..];
    }
  }

  /** The row of a qualifying locale. */
  function RowOf(p: Platform, name: string): string
    requires Qualifies(p, name)
  {
    FormatRow(BuildRecord(p, name).value)
  }

  lemma {:induction false} QualifyingNamesAppend(p: Platform, a: seq<string>, b: seq<string>)
    ensures QualifyingNames(p, a + b) == QualifyingNames(p, a) + QualifyingNames(p, b)
    decreases |a|
  {
    if |a| > 0 {
      assert (a + b)[1..] == a[1..] + b;
      QualifyingNamesAppend(p, a[1..], b);
    } else {
      assert a + b == b;
    }
  }

  /**
   The callback's writes are exactly the rows of the qualifying names, one
   each, in enumeration order.
   */
  lemma {:induction false} RowsOfQualifyingNames(p: Platform, names: seq<string>)
    ensures var q := QualifyingNames(p, names);
      && |Rows(p, names)| == |q|
      && forall i :: 0 <= i < |q| ==> Qualifies(p, q[i]) && Rows(p, names)[i] == RowOf(p, q[i])
    decreases |names|
  {
    if |names| > 0 {
      var init := names[..|names| - 1];
      var last := names[|names| - 1];
      RowsOfQualifyingNames(p, init);
      QualifyingNamesAppend(p, init, [last]);
      assert init + [last] == names;
      assert QualifyingNames(p, [last]) == if Qualifies(p, last) then [last] else [] by {
        assert [last][1..] == [];
      }
    }
  }

  /**
   Locales are handled independently: the rows for two stretches of the
   enumeration are the rows of the first followed by those of the second.
   */
  lemma {:induction false} RowsAppend(p: Platform, a: seq<string>, b: seq<string>)
    ensures Rows(p, a + b) == Rows(p, a) + Rows(p, b)
    decreases |b|
  {
    if |b| == 0 {
      assert a + b == a;
    } else {
      var init := b[..|b| - 1];
      RowsAppend(p, a, init);
      assert (a + b)[..|a + b| - 1] == a + init;
      assert (a + b)[|a + b| - 1] == b[|b| - 1];
    }
  }

  /** The text writes of a sequence of lines. */
  function AsText(lines: seq<string>): (ws: seq<Write>)
    ensures |ws| == |lines|
    ensures forall i :: 0 <= i < |lines| ==> ws[i] == Text(lines[i])
  {
    seq(|lines|, i requires 0 <= i < |lines| => Text(lines[i]))
  }

  /** One more visited name adds its callback's line, if any, to the rows. */
  lemma RowsStep(p: Platform, names: seq<string>, i: nat)
    requires i < |names|
    ensures var r := LocaleEnumProc(p, names[i]);
      Rows(p, names[..i + 1]) == Rows(p, names[..i]) + (if r.written.Some? then [r.written.value] else [])
  {
    assert names[..i + 1][..i] == names[..i];
  }

  lemma AsTextAppend(lines: seq<string>, line: string)
    ensures AsText(lines + [line]) == AsText(lines) + [Text(line)]
  {
  }

  /**
   `EnumSystemLocalesEx` driving `LocaleEnumProc` over the visited names: the
   writes the callback makes are the rows of the qualifying names, in order.
   The callback never asks to stop, so every visited name is handled.
   */
  method EnumerateLocales(p: Platform, visited: seq<string>) returns (writes: seq<Write>)
    ensures var q := QualifyingNames(p, visited);
      && |writes| == |q|
      && forall i :: 0 <= i < |q| ==> writes[i] == Text(RowOf(p, q[i]))
  {
    writes := [];
    var i := 0;
    var continuing := true;
    while i < |visited| && continuing
      invariant 0 <= i <= |visited|
      invariant continuing
      invariant writes == AsText(Rows(p, visited[..i]))
    {
      var r := LocaleEnumProc(p, visited[i]);
      RowsStep(p, visited, i);
      if r.written.Some? {
        AsTextAppend(Rows(p, visited[..i]), r.written.value);
        writes := writes + [Text(r.written.value)];
      }
      continuing := r.continueEnumeration;
      i := i + 1;
    }
    assert visited[..i] == visited;
    RowsOfQualifyingNames(p, visited);
  }

  /**
   `main`. When the file cannot be opened the exit code is 1 and there is no
   file. Otherwise the file is closed and holds the byte-order mark, the
   header, and the row of every qualifying visited locale in enumeration
   order; the exit code is 0 exactly when the enumeration call succeeded.
   */
  method RunExport(env: Environment) returns (exitCode: int, file: Option<OutputFile>)
    ensures !env.fileOpens ==> exitCode == 1 && file == None
    ensures env.fileOpens ==> exitCode == (if env.enumerationSucceeds then 0 else 1)
    ensures env.fileOpens ==> file.Some? && file.value.closed
    ensures env.fileOpens ==>
              var q := QualifyingNames(env.platform, env.visited);
              var ws := file.value.writes;
              && |ws| == 2 + |q|
              && ws[0] == Bytes(Utf8Bom)
              && ws[1] == Text(HeaderLine)
              && forall i :: 0 <= i < |q| ==> ws[2 + i] == Text(RowOf(env.platform, q[i]))
  {
    if !env.fileOpens {
      return 1, None;
    }
    var rows := EnumerateLocales(env.platform, env.visited);
    file := Some(OutputFile([Bytes(Utf8Bom), Text(HeaderLine)] + rows, true));
    exitCode := if env.enumerationSucceeds then 0 else 1;
  }
}
