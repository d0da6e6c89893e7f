/**
 The exporter's CSV line format: every field wrapped in double quotes, the
 fields joined by commas, the line ended by a newline. Field text is written
 verbatim: a double quote inside a field is not doubled. `ParseLine` reads
 such a line back and is the partner the format is checked against.
 */
module Csv {
  import opened Options

  /** A field the unescaped format can carry unambiguously. */
  predicate QuoteFree(f: string) {
    '"' !in f
  }

  predicate AllQuoteFree(fields: seq<string>) {
    forall i :: 0 <= i < |fields| ==> QuoteFree(fields[i])
  }

  function Quote(f: string): string {
    "\"" + f + "\""
  }

  /** The quoted fields joined by commas. */
  function JoinQuoted(fields: seq<string>): string
    requires |fields| > 0
  {
    if |fields| == 1 then Quote(fields[0]) else Quote(fields[0]) + "," + JoinQuoted(fields[1..])
  }

  /** One line of the file as the exporter writes it. */
  function CsvLine(fields: seq<string>): (line: string)
    requires |fields| > 0
    ensures |line| >= 3 && line[0] == '"' && line[|line| - 1] == '\n'
  {
    JoinQuoted(fields) + "\n"
  }

  /** The position of the first double quote in `s`, or `|s|` if there is none. */
  function FindQuote(s: string): (k: nat)
    ensures k <= |s|
    ensures k < |s| ==> s[k] == '"'
    ensures forall i :: 0 <= i < k ==> s[i] != '"'
  {
    if |s| == 0 || s[0] == '"' then 0 else 1 + FindQuote(s[1..])
  }

  /**
   Reads one quoted field off the front of `s`: the text up to the next
   quote, and what follows that closing quote.
   */
  function ParseField(s: string): (r: Option<(string, string)>)
    ensures r.Some? ==>
              && QuoteFree(r.value.0)
              && |r.value.1| < |s|
              && s == "\"" + r.value.0 + "\"" + r.value.1
  {
    if |s| == 0 || s[0] != '"' then None
    else
      var k := 1 + FindQuote(s[1..]);
      if k == |s| then None
      else
        assert s == "\"" + s[1..k] + "\"" + s[k + 1..];
        Some((s[1..k], s[k + 1..]))
  }

  /**
   Reads a line of quoted, comma-separated fields ending in a newline. A
   field runs from its opening quote to the next quote.
   */
  function ParseLine(line: string): (r: Option<seq<string>>)
    ensures r.Some? ==> |r.value| > 0
    decreases |line|
  {
    match ParseField(line)
    case None => None
    case Some((field, rest)) =>
      if rest == "\n" then Some([field])
      else if |rest| > 0 && rest[0] == ',' then
        match ParseLine(rest[1..])
        case None => None
        case Some(fs) => Some([field] + fs)
      else None
  }

  /** The shape of a line with more than one field. */
  lemma CsvLineCons(fields: seq<string>)
    requires |fields| > 1
    ensures CsvLine(fields) == "\"" + fields[0] + "\"" + ("," + CsvLine(fields[1..]))
  {
  }

  /** A quote-free field is read back whole, whatever follows it. */
  lemma ParseQuotedField(f: string, tail: string)
    requires QuoteFree(f)
    ensures ParseField("\"" + f + "\"" + tail) == Some((f, tail))
  {
    var s := "\"" + f + "\"" + tail;
    assert s[1..] == f + "\"" + tail;
    FindQuoteAfterField(f, tail);
    var k := 1 + |f|;
    assert s[1..k] == f;
    assert s[k + 1..] == tail;
  }

  /** A line holding one quote-free field reads back as that field. */
  lemma ParseLineSingle(f: string)
    requires QuoteFree(f)
    ensures ParseLine("\"" + f + "\"" + "\n") == Some([f])
  {
    ParseQuotedField(f, "\n");
  }

  /** A quote-free field followed by a comma is read off, then the rest is read. */
  lemma ParseLineCons(f: string, rest: string, fs: seq<string>)
    requires QuoteFree(f)
    requires |rest| > 0 && rest[0] == ','
    requires ParseLine(rest[1..]) == Some(fs)
    ensures ParseLine("\"" + f + "\"" + rest) == Some([f] + fs)
  {
    ParseQuotedField(f, rest);
    assert rest != "\n";
  }

  /** Parsing a line the exporter wrote gives back its fields, when none holds a quote. */
  lemma {:induction false} ParseCsvLine(fields: seq<string>)
    requires |fields| > 0 && AllQuoteFree(fields)
    ensures ParseLine(CsvLine(fields)) == Some(fields)
    decreases |fields|
  {
    var f := fields[0];
    if |fields| == 1 {
      ParseLineSingle(f);
      assert CsvLine(fields) == "\"" + f + "\"" + "\n";
      assert [f] == fields;
    } else {
      var tail := CsvLine(fields[1..]);
      CsvLineCons(fields);
      ParseCsvLine(fields[1..]);
      assert ("," + tail)[1..] == tail;
      ParseLineCons(f, "," + tail, fields[1..]);
      assert [f] + fields[1..] == fields;
    }
  }

  lemma {:induction false} FindQuoteAfterField(f: string, tail: string)
    requires QuoteFree(f)
    ensures FindQuote(f + "\"" + tail) == |f|
    decreases |f|
  {
    if |f| > 0 {
      assert (f + "\"" + tail)[1..] == f[1..] + "\"" + tail;
      FindQuoteAfterField(f[1..], tail);
    }
  }

  /** Every line `ParseLine` accepts is exactly the line written for its result. */
  lemma {:induction false} ParseLineSound(line: string)
    requires ParseLine(line).Some?
    ensures CsvLine(ParseLine(line).value) == line
    decreases |line|
  {
    var (field, rest) := ParseField(line).value;
    if rest != "\n" {
      ParseLineSound(rest[1..]);
      var fs := ParseLine(rest[1..]).value;
      assert ParseLine(line).value == [field] + fs;
      CsvLineCons([field] + fs);
      assert ([field] + fs)[1..] == fs;
      assert rest == "," + rest[1..];
    }
  }

  /**
   For quote-free fields the written line determines the fields: a line
   parses to `fields` exactly when it is the line written for them.
   */
  lemma ParseLineIff(line: string, fields: seq<string>)
    requires |fields| > 0 && AllQuoteFree(fields)
    ensures ParseLine(line) == Some(fields) <==> line == CsvLine(fields)
  {
    if line == CsvLine(fields) {
      ParseCsvLine(fields);
    }
    if ParseLine(line) == Some(fields) {
      ParseLineSound(line);
    }
  }

  /** A line of ten fields, written out field by field. */
  lemma CsvLineOfTen(fs: seq<string>)
    requires |fs| == 10
    ensures CsvLine(fs) ==
      ("\"" + fs[0] + "\"," +
        ("\"" + fs[1] + "\"," +
        ("\"" + fs[2] + "\"," +
        ("\"" + fs[3] + "\"," +
        ("\"" + fs[4] + "\"," +
        ("\"" + fs[5] + "\"," +
        ("\"" + fs[6] + "\"," +
        ("\"" + fs[7] + "\"," +
        ("\"" + fs[8] + "\"," +
        ("\"" + fs[9] + "\"\n"))))))))))
  {
    var t := CsvLineOfLastFive(fs);
    t := CsvStep(fs, 4, t);
    t := CsvStep(fs, 3, t);
    t := CsvStep(fs, 2, t);
    t := CsvStep(fs, 1, t);
    t := CsvStep(fs, 0, t);
    assert fs[0..] == fs;
  }

  lemma CsvLineOfLastFive(fs: seq<string>) returns (line: string)
    requires |fs| == 10
    ensures line == CsvLine(fs[5..]) ==
      ("\"" + fs[5] + "\"," +
        ("\"" + fs[6] + "\"," +
        ("\"" + fs[7] + "\"," +
        ("\"" + fs[8] + "\"," +
        ("\"" + fs[9] + "\"\n")))))
  {
    assert fs[9..] == [fs[9]];
    line := CsvLine(fs[9..]);
    line := CsvStep(fs, 8, line);
    line := CsvStep(fs, 7, line);
    line := CsvStep(fs, 6, line);
    line := CsvStep(fs, 5, line);
  }

  /** One field of a CSV line, written out in front of the line of the fields after it. */
  lemma CsvStep(fs: seq<string>, i: nat, tail: string) returns (line: string)
    requires i + 1 < |fs| && tail == CsvLine(fs[i + 1..])
    ensures line == CsvLine(fs[i..]) == "\"" + fs[i] + "\"," + tail
  {
    CsvLineCons(fs[i..]);
    assert fs[i..][1..] == fs[i + 1..];
    line := CsvLine(fs[i..]);
  }

  /** What follows the second field of a line: the remaining fields and the newline. */
  function LineTail(rest: seq<string>): string {
    if |rest| == 0 then "\n" else "," + CsvLine(rest)
  }

  /** A line of at least two fields, split after its second field. */
  lemma CsvLinePair(x: string, y: string, rest: seq<string>)
    ensures CsvLine([x, y] + rest) == (Quote(x) + "," + Quote(y)) + LineTail(rest)
  {
    var fs := [x, y] + rest;
    assert fs[1..] == [y] + rest;
    assert fs[1..][1..] == rest;
    if |rest| > 0 {
      var j := JoinQuoted(rest);
      assert JoinQuoted(fs[1..]) == Quote(y) + "," + j;
      calc {
        CsvLine(fs);
        Quote(x) + "," + (Quote(y) + "," + j) + "\n";
        (Quote(x) + "," + Quote(y)) + ("," + (j + "\n"));
      }
    } else {
      assert JoinQuoted(fs[1..]) == Quote(y);
    }
  }

  /** Moving `","` across a field boundary does not change the quoted text. */
  lemma ShiftAcrossBoundary(f: string, g: string, h: string)
    ensures Quote(f + "\",\"" + g) + "," + Quote(h) == Quote(f) + "," + Quote(g + "\",\"" + h)
  {
  }

  /**
   Without quote doubling the format is ambiguous once a field holds a
   quote: moving the text `","` from the end of one field to the start of
   the next leaves the written line unchanged.
   */
  lemma UnescapedQuotesShift(f: string, g: string, h: string, rest: seq<string>)
    ensures CsvLine([f + "\",\"" + g, h] + rest) == CsvLine([f, g + "\",\"" + h] + rest)
  {
    CsvLinePair(f + "\",\"" + g, h, rest);
    CsvLinePair(f, g + "\",\"" + h, rest);
    ShiftAcrossBoundary(f, g, h);
  }

  /** Two different ten-field rows that are written as the same line. */
  lemma UnescapedQuotesAreAmbiguous()
    ensures var rest := ["", "", "", "", "", "", "", ""];
      var a := ["x\",\"y", "z"] + rest;
      var b := ["x", "y\",\"z"] + rest;
      a != b && |a| == |b| == 10 && CsvLine(a) == CsvLine(b)
  {
    var rest := ["", "", "", "", "", "", "", ""];
    UnescapedQuotesShift("x", "y", "z", rest);
    assert "x" + "\",\"" + "y" == "x\",\"y";
    assert "y" + "\",\"" + "z" == "y\",\"z";
    assert "x\",\"y" != "x" by {
      assert |"x\",\"y"| != |"x"|;
    }
  }
}
