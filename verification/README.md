# Locale code-page exporter, modelled in Dafny

The program (`locale_encoding.c`) walks every locale Windows knows,
looks up each locale's LCID, ANSI and OEM code pages, the names of those
code pages and four descriptive strings, and writes one CSV row per locale
into `windows_locales_extended.csv`, after a UTF-8 byte-order mark and a
fixed header line.

The model treats the Win32 services as uninterpreted lookups held by a
`Platform` value (`Win32` module): `LocaleNameToLCID` gives a 32-bit LCID
where 0 means failure, `GetLocaleInfoW` gives `None` or the text it stored,
`GetCPInfoExW` gives `None` or the code page's name. On top of them:

- `Decimal`: the C runtime's `_wtoi` (white space, optional sign, leading
  digits, saturation to `int`) and the `int` to `UINT` conversion, with the
  decimal rendering it reads back.
- `Hex`: `"0x%04lX"` for the LCID column, with a hexadecimal reader as its
  inverse.
- `Csv`: the line format (every field in double quotes, commas between, a
  newline at the end, no quote doubling) and a line reader as its inverse.
- `LocaleEnum`: `GetCodePageInfo`, the record the callback `LocaleEnumProc`
  assembles (or the early return that skips the locale), and the row it
  writes.
- `Exporter`: the enumeration loop and `main`: open, byte-order mark,
  header, rows in enumeration order, close, exit code.

Points where the behaviour of `locale_encoding.c` is easy to misread:

- Despite the comment on line 75 about escaping quotes, the row is written
  with `%ls` substitutions only. A field holding `"` is written verbatim,
  and two different rows can then produce the same line
  (`Csv.UnescapedQuotesAreAmbiguous`).
- `"0x%04lX"` writes at least four hexadecimal digits. LCIDs of 0x10000 and
  above are written with more digits.
- When the OEM code page lookup fails, the OEM column is empty: the buffer
  keeps its zero initialisation. The empty text is not "0", so the OEM
  character-set column then holds the name of code page 0 (`_wtoi("")` is
  0), or "Unknown".
- The results of writing the byte-order mark and the header are not
  checked. Only a failed open or a failed enumeration call gives exit
  code 1.

## Model

| member | source | states |
|---|---|---|
| LocaleEnum.GetCodePageInfo | locale_encoding.c:5-16 | the platform's code page name when `GetCPInfoExW` succeeds, exactly "Unknown" when it fails |
| LocaleEnum.Qualifies | locale_encoding.c:33-54 | the skip filter: the LCID is non-zero, the ANSI code page lookup succeeds, and its text is not "0" |
| LocaleEnum.BuildRecord | locale_encoding.c:20-86 | a record exists exactly when the LCID is non-zero, the ANSI lookup succeeds and its text is not "0"; it carries the locale name, that LCID and that ANSI text |
| LocaleEnum.LocaleEnumProc | locale_encoding.c:20-89 | the callback always asks to continue, writes a line exactly for qualifying locales, and that line is the record's row |
| LocaleEnum.UnresolvedLcidSkipped | locale_encoding.c:33-38 | an LCID of 0 gives no row and enumeration continues |
| LocaleEnum.MissingAnsiCodePageSkipped | locale_encoding.c:40-54 | a failed ANSI lookup or the text "0" gives no row and enumeration continues |
| LocaleEnum.DescriptiveLookupsNeverSuppress | locale_encoding.c:56-60 | whether a row is written depends only on the LCID and ANSI lookups, never on the four descriptive lookups |
| LocaleEnum.DescriptiveFields | locale_encoding.c:56-60 | each descriptive column is the lookup's text, or empty when that lookup failed |
| LocaleEnum.AnsiCharSet | locale_encoding.c:62-64 | the ANSI character-set column names the code page `_wtoi` reads from the ANSI text, which is its decimal value when the text is a number that fits an `int` |
| LocaleEnum.OemCharSet | locale_encoding.c:66-73 | the OEM text is the lookup's text or ""; the OEM character set is empty for "0", otherwise the name of the code page `_wtoi` reads from it, code page 0 when the lookup failed |
| LocaleEnum.OemCharSetEmptyIff | locale_encoding.c:66-73 | when no code page name is empty, the OEM character-set column is empty exactly when the OEM text is "0" |
| LocaleEnum.FormatRow | locale_encoding.c:75-86 | the `fprintf` row: the ten fields in header order, each in double quotes, commas between, the LCID through `"0x%04lX"`; it starts with a quote and ends with a newline |
| LocaleEnum.FormatRowIsCsvLine | locale_encoding.c:75-86 | the row written by the format string is the CSV line of the ten fields in header order |
| LocaleEnum.RowRoundTrip | locale_encoding.c:75-86 | when no text field holds a quote, reading the row back yields exactly its ten fields, the second being the formatted LCID |
| Csv.ParseCsvLine | locale_encoding.c:76 | a line of quoted, comma-separated quote-free fields reads back as those fields |
| Csv.ParseLineSound | locale_encoding.c:76 | every line the reader accepts is the line written for what it read |
| Csv.ParseLineIff | locale_encoding.c:76 | for quote-free fields a line reads as them exactly when it is the line written for them |
| Csv.CsvLineOfTen | locale_encoding.c:76 | a ten-field line is each field between quotes, followed by a comma, and after the last a newline |
| Csv.UnescapedQuotesShift | locale_encoding.c:75-76 | without quote doubling, moving `","` from one field into the next leaves the line unchanged |
| Csv.UnescapedQuotesAreAmbiguous | locale_encoding.c:75-76 | two different ten-field rows are written as the same line |
| Hex.FormatLcid | locale_encoding.c:76 | `"0x%04lX"` of the LCID: "0x" and then the upper-case hexadecimal digits, zero-padded to four; at least six characters |
| Hex.FormatLcidSpec | locale_encoding.c:76 | the LCID column is "0x" and upper-case hex digits denoting the LCID: four below 0x10000, more without a leading zero above, at most eight |
| Hex.HexRoundTrip | locale_encoding.c:76 | reading the hexadecimal rendering of a number gives the number |
| Hex.HexDigitsLength | locale_encoding.c:76 | the rendering fits in k digits exactly when the number is below 16^k |
| Hex.ParseHexZeroPad | locale_encoding.c:76 | zero padding does not change the value the digits denote |
| Decimal.WToI | locale_encoding.c:63 | `_wtoi` (also at line 71): skip white space, an optional sign, then the leading decimal digits, saturated to the `int` range |
| Decimal.CodePageOf | locale_encoding.c:63 | `UINT codePage = _wtoi(text)` (also at line 71): the code page has its top bit set exactly when `_wtoi` was negative, and equals `_wtoi` otherwise |
| Decimal.ToUint | locale_encoding.c:63 | the `int` from `_wtoi` becomes a `UINT` unchanged when non-negative and wrapped by 2^32 when negative |
| Decimal.WToIOfDigits | locale_encoding.c:63 | on a digit string `_wtoi` is the value of the digits, saturated to the `int` range |
| Decimal.CodePageOfDecimal | locale_encoding.c:63-64 | the code page passed to `GetCPInfoExW` is the decimal value of the text when that fits an `int` |
| Decimal.WToIRoundTrip | locale_encoding.c:63 | `_wtoi` reads back the decimal rendering of any code page up to `INT_MAX` |
| Decimal.CodePageOfNoDigits | locale_encoding.c:63-73 | any text with no digit after its white space and optional sign, such as the empty text of a failed OEM lookup, denotes code page 0 |
| Exporter.HeaderLineText | locale_encoding.c:105-109 | the header line is the literal text the program writes |
| Exporter.LineOfColumnNames | locale_encoding.c:105-109 | the CSV line of the ten column names, in header order, is the literal header text |
| Exporter.HeaderParses | locale_encoding.c:105-109 | the header line reads back as the ten column names, ten fields like a row |
| Exporter.Rows | locale_encoding.c:111-115 | the callback's output over the visited names: each callback's line in visiting order, at most one per name |
| Exporter.QualifyingNames | locale_encoding.c:34-54 | every name kept passes the skip filter, and no more names are kept than were visited |
| Exporter.QualifyingNamesMembers | locale_encoding.c:34-54 | a visited name is kept exactly when it passes the skip filter |
| Exporter.RowsOfQualifyingNames | locale_encoding.c:111-115 | the callback's lines over an enumeration are the rows of the qualifying names, one each, in enumeration order |
| Exporter.RowsAppend | locale_encoding.c:111-115 | locales are handled independently: the lines for two stretches of the enumeration are those of the first followed by those of the second |
| Exporter.EnumerateLocales | locale_encoding.c:111-115 | driving the callback over the visited names writes the rows of the qualifying names in order |
| Exporter.RunExport | locale_encoding.c:91-125 | a failed open gives exit code 1 and no file; otherwise the file is closed and holds the byte-order mark, the header and the rows in order, with exit code 0 exactly when enumeration succeeded |

## Left out

- The Win32 calls `EnumSystemLocalesEx`, `LocaleNameToLCID`, `GetLocaleInfoW` and `GetCPInfoExW` are platform services. They are parameters of the model: the `Platform` lookups, and the `Environment` of a run, which holds the names the enumeration visits and whether the call succeeds.
- `fopen_s` with `ccs=UTF-8`, and how narrow `fwrite`/`fprintf` behave on a Unicode-mode stream, are C runtime I/O. The file is modelled as the sequence of writes the program makes: the three byte-order-mark bytes, then text lines.
- A `wcscpy_s` failure on a code-page name of 256 or more characters (`CodePageName` holds up to 259, the character-set buffers 255) and the fixed `WCHAR` buffer sizes are not modelled; such a failure calls the invalid-parameter handler, which ends the process. A `GetLocaleInfoW` call that fails because its buffer is too small is one of the failures the lookup oracle may report.
- The `stderr` diagnostics and the `printf` status messages are instrumentation, not data.
- UTF-16 and wide characters are not modelled. Strings are sequences of characters, and the platform's texts hold no NUL character: the C code reads each buffer up to its first NUL.
- Decimal.WToI reads only ASCII digits. The C runtime also reads decimal digits of other scripts, such as U+0660-0669 and U+FF10-FF19; `GetLocaleInfoW` reports code pages in ASCII digits.
- `Decimal.WToI` skips only ASCII white space. The wide-character `iswspace` of the C runtime also accepts other Unicode spaces.
- The `dwFlags` argument of `LocaleEnumProc` is unused by the program and is not a parameter of the model.
- The callback's continue flag is modelled in the loop guard of `Exporter.EnumerateLocales`, but the guard never stops the loop, because `LocaleEnumProc` always returns true.
- LocaleEnum.OemCharSetEmptyIff: assumes the platform never names a code page with the empty string, because otherwise a non-"0" OEM code page could also give an empty OEM character-set column.
