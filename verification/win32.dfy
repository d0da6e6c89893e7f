/**
 The platform services the exporter consumes, as uninterpreted lookups.

 The program calls three Win32 services and implements none of them; the
 model therefore takes them as parameters. A `Platform` value fixes one
 answer for every question the exporter can ask, so the rest of the model is
 a deterministic function of it.
 */
module Win32 {
  import opened Options

  /** An unsigned 32-bit value: `DWORD`, `LCID` and `UINT` on Windows. */
  type Dword = x: int | 0 <= x < 0x1_0000_0000

  /** The `LCTYPE` keys the exporter passes to `GetLocaleInfoW`. */
  datatype LocaleInfoKey =
    | IDefaultAnsiCodePage     // LOCALE_IDEFAULTANSICODEPAGE
    | SNativeLangName          // LOCALE_SNATIVELANGNAME
    | SEnglishLanguageName     // LOCALE_SENGLISHLANGUAGENAME
    | SEngCountry              // LOCALE_SENGCOUNTRY
    | SScripts                 // LOCALE_SSCRIPTS
    | IDefaultCodePage         // LOCALE_IDEFAULTCODEPAGE (the OEM code page)

  /**
   One fixed behaviour of the platform.
   - `localeNameToLcid(name)` is `LocaleNameToLCID(name, 0)`; 0 means failure.
   - `getLocaleInfo(lcid, key)` is `GetLocaleInfoW`: `None` when the call
     returns 0, otherwise the text it stored in the buffer.
   - `getCpInfo(cp)` is `GetCPInfoExW(cp, 0, &info)`: `None` when the call
     fails, otherwise `info.CodePageName`.
   Texts are what precedes the terminating NUL of the buffer, so they hold no
   NUL character; the `wcscmp`, `%ls` and `_wtoi` the program applies to them
   read exactly these characters.
   */
  datatype Platform = Platform(
    localeNameToLcid: string -> Dword,
    getLocaleInfo: (Dword, LocaleInfoKey) -> Option<string>,
    getCpInfo: Dword -> Option<string>)
}
