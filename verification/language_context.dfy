/** The language choice of ai-tool/contexts/LanguageContext.tsx. The page
    environment is a value: whether a browser is present, the browser's
    `navigator.language`, and what storage holds under "language". */
module LanguageContext {
  import opened Wrappers
  import opened Strings
  import opened Types

  const DefaultLanguage: string := "en"
  const SupportedLanguages: seq<string> := ["en", "es", "de", "fr", "pl"]

  /** `stored` is what the storage helper read back for the key, already
      decoded; it is not checked against the supported list. */
  datatype Host = Host(isBrowser: bool, navigatorLanguage: string, stored: Option<string>)

  /** `getBrowserLanguage`: the part of `navigator.language` before the
      first '-', if it is a supported code exactly as written; "en" when it
      is not, or when there is no browser. */
  function BrowserLanguage(host: Host): (r: string)
    ensures r in SupportedLanguages
    ensures !host.isBrowser ==> r == DefaultLanguage
    ensures host.isBrowser ==>
              var primary := host.navigatorLanguage[..FirstIndex(host.navigatorLanguage, '-')];
              r == (if primary in SupportedLanguages then primary else DefaultLanguage)
  {
    if !host.isBrowser then DefaultLanguage
    else
      var primary := SplitOn(host.navigatorLanguage, '-')[0];
      SplitOnHead(host.navigatorLanguage, '-');
      if primary in SupportedLanguages then primary else DefaultLanguage
  }

  /** `getStoredLanguage`: nothing outside a browser. */
  function StoredLanguage(host: Host): (r: Option<string>)
    ensures !host.isBrowser ==> r.None?
    ensures host.isBrowser ==> r == host.stored
  {
    if host.isBrowser then host.stored else None
  }

  /** `getInitialLanguage`: a truthy stored value wins; otherwise the
      browser language, which is always supported. */
  function InitialLanguage(host: Host): (r: string)
    ensures Truthy(StoredLanguage(host)) ==> r == StoredLanguage(host).value
    ensures !Truthy(StoredLanguage(host)) ==> r == BrowserLanguage(host) && r in SupportedLanguages
    ensures !host.isBrowser ==> r == DefaultLanguage
  {
    var stored := StoredLanguage(host);
    if Truthy(stored) then stored.value else BrowserLanguage(host)
  }

  datatype LanguageState = LanguageState(language: string, host: Host)

  /** `setLanguage`: the state takes the language and, in a browser, storage
      keeps the same value; outside one nothing is written. */
  function SetLanguage(s: LanguageState, lang: string): (r: LanguageState)
    requires lang in SupportedLanguages
    ensures r.language == lang
    ensures r.host.isBrowser == s.host.isBrowser && r.host.navigatorLanguage == s.host.navigatorLanguage
    ensures s.host.isBrowser ==> r.host.stored == Some(lang)
    ensures !s.host.isBrowser ==> r.host == s.host
  {
    LanguageState(lang, if s.host.isBrowser then s.host.(stored := Some(lang)) else s.host)
  }

  /** A language set in a browser is the one the next visit starts with. */
  lemma SetLanguageSurvivesReload(s: LanguageState, lang: string)
    requires lang in SupportedLanguages && s.host.isBrowser
    ensures InitialLanguage(SetLanguage(s, lang).host) == lang
  {
    var host := SetLanguage(s, lang).host;
    assert lang == "en" || lang == "es" || lang == "de" || lang == "fr" || lang == "pl";
    assert |lang| == 2;
    assert StoredLanguage(host) == Some(lang);
  }

  /** "de-AT" starts in German: the region is dropped. */
  lemma RegionIsDropped()
    ensures BrowserLanguage(Host(true, "de-AT", None)) == "de"
  {
    var nav := "de-AT";
    assert nav == "de" + ['-'] + "AT";
    FirstIndexAfter("de", '-', "AT");
    assert nav[..2] == "de";
    assert "de" == SupportedLanguages[2];
  }

  /** "DE" starts in English: the match is exact, case included. */
  lemma CaseMatters()
    ensures BrowserLanguage(Host(true, "DE", None)) == "en"
  {
    var nav := "DE";
    assert FirstIndex(nav, '-') == 2;
    assert nav[..2] == nav;
    assert forall k :: 0 <= k < |SupportedLanguages| ==> SupportedLanguages[k][0] != 'D';
  }
}
