/**
 The per-locale record builder: `GetCodePageInfo` and the callback
 `LocaleEnumProc` that `EnumSystemLocalesEx` invokes once per locale name.

 For one locale the callback resolves the LCID, reads the default ANSI code
 page and skips the locale when either is missing, reads four descriptive
 strings whose failures are ignored, names the ANSI and OEM code pages, and
 writes one ten-field CSV row. It always asks the enumeration to continue.
 */
module LocaleEnum {
  import opened Options
  import opened Win32
  import opened Decimal
  import opened Hex
  import opened Csv

  /** The ten values of one exported row, in column order. */
  datatype Record = Record(
    localeName: string,
    lcid: Dword,
    ansiCodePage: string,
    ansiCharSet: string,
    oemCodePage: string,
    oemCharSet: string,
    nativeLanguageName: string,
    englishLanguageName: string,
    country: string,
    script: string)

  /** What one invocation of the callback does: its return value and what it wrote. */
  datatype CallbackResult = CallbackResult(continueEnumeration: bool, written: Option<string>)

  const Unknown: string := "Unknown"

  /** `GetCodePageInfo`: the platform's name for `codePage`, or "Unknown" if it has none. */
  function GetCodePageInfo(p: Platform, codePage: Dword): (name: string)
    ensures p.getCpInfo(codePage).Some? ==> name == p.getCpInfo(codePage).value
    ensures p.getCpInfo(codePage).None? ==> name == "Unknown"
  {
    match p.getCpInfo(codePage)
    case Some(n) => n
    case None => Unknown
  }

  /**
   A `GetLocaleInfoW` call whose result is ignored: on failure the
   zero-initialised buffer is left as it was, an empty string.
   */
  function InfoOrEmpty(p: Platform, lcid: Dword, key: LocaleInfoKey): string {
    p.getLocaleInfo(lcid, key).GetOr("")
  }

  /**
   The locales that get a row: the name resolves to a non-zero LCID, the
   ANSI code page lookup succeeds, and its text is not "0".
   */
  predicate Qualifies(p: Platform, name: string) {
    var lcid := p.localeNameToLcid(name);
    var ansi := p.getLocaleInfo(lcid, IDefaultAnsiCodePage);
    lcid != 0 && ansi.Some? && ansi.value != "0"
  }

  /** The record `LocaleEnumProc` assembles for `name`, or `None` when it returns early. */
  function BuildRecord(p: Platform, name: string): (r: Option<Record>)
    ensures r.Some? <==> Qualifies(p, name)
    ensures r.Some? ==>
              && r.value.localeName == name
              && r.value.lcid == p.localeNameToLcid(name) != 0
              && Some(r.value.ansiCodePage) == p.getLocaleInfo(r.value.lcid, IDefaultAnsiCodePage)
              && r.value.ansiCodePage != "0"
  {
    var lcid := p.localeNameToLcid(name);
    if lcid == 0 then None
    else
      match p.getLocaleInfo(lcid, IDefaultAnsiCodePage)
      case None => None
      case Some(ansi) =>
        if ansi == "0" then None
        else
          var native := InfoOrEmpty(p, lcid, SNativeLangName);
          var english := InfoOrEmpty(p, lcid, SEnglishLanguageName);
          var country := InfoOrEmpty(p, lcid, SEngCountry);
          var script := InfoOrEmpty(p, lcid, SScripts);
          var charSet := GetCodePageInfo(p, CodePageOf(ansi));
          var oem := InfoOrEmpty(p, lcid, IDefaultCodePage);
          var oemCharSet := if oem != "0" then GetCodePageInfo(p, CodePageOf(oem)) else "";
          Some(Record(name, lcid, ansi, charSet, oem, oemCharSet, native, english, country, script))
  }

  /** The ten fields of a record in header order. */
  function RecordFields(r: Record): (fields: seq<string>)
    ensures |fields| == 10
  {
    [r.localeName, FormatLcid(r.lcid), r.ansiCodePage, r.ansiCharSet, r.oemCodePage,
     r.oemCharSet, r.nativeLanguageName, r.englishLanguageName, r.country, r.script]
  }

  /**
   The `fprintf` of the row: each value substituted verbatim between
   quotes, with `","` between values and `"` and a newline at the end. The
   concatenation is grouped from the right; the text is the same.
   */
  function FormatRow(r: Record): (row: string)
    ensures |row| > 0 && row[0] == '"' && row[|row| - 1] == '\n'
  {
    "\"" + r.localeName + "\"," +
    ("\"" + FormatLcid(r.lcid) + "\"," +
    ("\"" + r.ansiCodePage + "\"," +
    ("\"" + r.ansiCharSet + "\"," +
    ("\"" + r.oemCodePage + "\"," +
    ("\"" + r.oemCharSet + "\"," +
    ("\"" + r.nativeLanguageName + "\"," +
    ("\"" + r.englishLanguageName + "\"," +
    ("\"" + r.country + "\"," +
    ("\"" + r.script + "\"\n")))))))))
  }

  /** `LocaleEnumProc`: write the row of a qualifying locale and always continue. */
  function LocaleEnumProc(p: Platform, name: string): (r: CallbackResult)
    ensures r.continueEnumeration
    ensures r.written.Some? <==> Qualifies(p, name)
    ensures r.written.Some? ==> r.written.value == FormatRow(BuildRecord(p, name).value)
  {
    match BuildRecord(p, name)
    case None => CallbackResult(true, None)
    case Some(rec) => CallbackResult(true, Some(FormatRow(rec)))
  }

  // ----- The skip filter -----

  /** A name whose LCID does not resolve gets no row, and enumeration goes on. */
  lemma UnresolvedLcidSkipped(p: Platform, name: string)
    requires p.localeNameToLcid(name) == 0
    ensures LocaleEnumProc(p, name) == CallbackResult(true, None)
  {
  }

  /**
   A locale whose ANSI code page lookup fails, or reports "0", gets no row,
   and enumeration goes on.
   */
  lemma MissingAnsiCodePageSkipped(p: Platform, name: string)
    requires var ansi := p.getLocaleInfo(p.localeNameToLcid(name), IDefaultAnsiCodePage);
      ansi.None? || ansi.value == "0"
    ensures LocaleEnumProc(p, name) == CallbackResult(true, None)
  {
  }

  /**
   The descriptive lookups never decide whether a row is written: two
   platforms that agree on the LCID and the ANSI code page of a locale agree
   on whether it gets a row, whatever they answer for the other keys.
   */
  lemma DescriptiveLookupsNeverSuppress(p: Platform, q: Platform, name: string)
    requires p.localeNameToLcid(name) == q.localeNameToLcid(name)
    requires p.getLocaleInfo(p.localeNameToLcid(name), IDefaultAnsiCodePage)
          == q.getLocaleInfo(q.localeNameToLcid(name), IDefaultAnsiCodePage)
    ensures LocaleEnumProc(p, name).written.Some? <==> LocaleEnumProc(q, name).written.Some?
  {
  }

  // ----- The fields of a row -----

  /**
   A descriptive field holds the platform's answer, or is empty when the
   lookup failed.
   */
  lemma DescriptiveFields(p: Platform, name: string)
    requires Qualifies(p, name)
    ensures var r := BuildRecord(p, name).value;
      && r.nativeLanguageName == p.getLocaleInfo(r.lcid, SNativeLangName).GetOr("")
      && r.englishLanguageName == p.getLocaleInfo(r.lcid, SEnglishLanguageName).GetOr("")
      && r.country == p.getLocaleInfo(r.lcid, SEngCountry).GetOr("")
      && r.script == p.getLocaleInfo(r.lcid, SScripts).GetOr("")
  {
  }

  /**
   The ANSI character-set column names the code page whose number the ANSI
   column spells in decimal: the platform's name for it, or "Unknown".
   */
  lemma AnsiCharSet(p: Platform, name: string)
    requires Qualifies(p, name)
    ensures var r := BuildRecord(p, name).value;
      && r.ansiCharSet == GetCodePageInfo(p, CodePageOf(r.ansiCodePage))
      && (AllDigits(r.ansiCodePage) && ValueOf(r.ansiCodePage) <= IntMax ==>
            r.ansiCharSet == GetCodePageInfo(p, ValueOf(r.ansiCodePage)))
  {
    var r := BuildRecord(p, name).value;
    if AllDigits(r.ansiCodePage) && ValueOf(r.ansiCodePage) <= IntMax {
      CodePageOfDecimal(r.ansiCodePage);
    }
  }

  /**
   The OEM columns: the code page text is the lookup's answer or "" when it
   failed. The character set is empty when that text is "0"; otherwise it is
   the name of the code page `_wtoi` reads from it, which for the empty text
   of a failed lookup is code page 0.
   */
  lemma OemCharSet(p: Platform, name: string)
    requires Qualifies(p, name)
    ensures var r := BuildRecord(p, name).value;
      && r.oemCodePage == p.getLocaleInfo(r.lcid, IDefaultCodePage).GetOr("")
      && (r.oemCodePage == "0" ==> r.oemCharSet == "")
      && (r.oemCodePage != "0" ==> r.oemCharSet == GetCodePageInfo(p, CodePageOf(r.oemCodePage)))
      && (p.getLocaleInfo(r.lcid, IDefaultCodePage).None? ==> r.oemCharSet == GetCodePageInfo(p, 0))
  {
  }

  /** The platform never reports an empty code page name. */
  predicate NamesNonEmpty(p: Platform) {
    forall cp: Dword :: p.getCpInfo(cp).Some? ==> p.getCpInfo(cp).value != ""
  }

  /**
   When the platform's code page names are never empty, the OEM
   character-set column is empty exactly when the OEM code page text is "0".
   */
  lemma OemCharSetEmptyIff(p: Platform, name: string)
    requires NamesNonEmpty(p)
    requires Qualifies(p, name)
    ensures var r := BuildRecord(p, name).value;
      r.oemCharSet == "" <==> r.oemCodePage == "0"
  {
  }

  // ----- The row as written -----

  lemma NoQuoteInLcid(lcid: Dword)
    ensures QuoteFree(FormatLcid(lcid))
  {
    var f := FormatLcid(lcid);
    FormatLcidSpec(lcid);
    forall i | 0 <= i < |f|
      ensures f[i] != '"'
    {
      if i >= 2 {
        assert f[i] == f[2..][i - 2];
      } else {
        assert f[i] == f[..2][i];
      }
    }
  }

  /** The `fprintf` row is the generic CSV line of the record's ten fields. */
  lemma FormatRowIsCsvLine(r: Record)
    ensures FormatRow(r) == CsvLine(RecordFields(r))
  {
    CsvLineOfTen(RecordFields(r));
  }

  /**
   A row is ten quoted fields in header order; when no text field holds a
   double quote, reading the row back gives exactly those ten fields, the
   second being the formatted LCID.
   */
  lemma RowRoundTrip(r: Record)
    requires AllQuoteFree(RecordFields(r)[..1] + RecordFields(r)[2..])
    ensures ParseLine(FormatRow(r)) == Some(RecordFields(r))
    ensures |ParseLine(FormatRow(r)).value| == 10
    ensures ParseLine(FormatRow(r)).value[1] == FormatLcid(r.lcid)
  {
    var fs := RecordFields(r);
    NoQuoteInLcid(r.lcid);
    forall i | 0 <= i < 10
      ensures QuoteFree(fs[i])
    {
      if i == 0 {
        assert fs[i] == (fs[..1] + fs[2..])[0];
      } else if i >= 2 {
        assert fs[i] == (fs[..1] + fs[2..])[i - 1];
      }
    }
    FormatRowIsCsvLine(r);
    ParseCsvLine(fs);
  }
}
