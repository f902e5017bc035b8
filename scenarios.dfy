/** Sequences of store operations and what callers can conclude from the
    contracts of the store alone. */
module Scenarios {
  import opened Template
  import opened Localization

  /** Loading the same code twice leaves the store as one load does. */
  method LoadLanguageTwice(m: LanguageManager, code: string) returns (first: bool, second: bool)
    modifies m
    ensures second == first
    ensures first <==> PackFor(m.languagesDir.files, code).Some?
    ensures first ==> m.currentLanguage == code && m.translations == PackFor(m.languagesDir.files, code).value
    ensures !first ==> m.currentLanguage == old(m.currentLanguage) && m.translations == old(m.translations)
  {
    first := m.LoadLanguage(code);
    ghost var language, table := m.currentLanguage, m.translations;
    second := m.LoadLanguage(code);
    assert m.currentLanguage == language && m.translations == table;
  }

  /** On a store whose start-up writes all went through, every built-in language
      can be selected, and its own label is then its bare native name. */
  method SelectBuiltinLanguage(dir: LanguagesDirectory, preferred: string, code: string)
    returns (m: LanguageManager, ok: bool)
    requires code in BuiltinCodes
    modifies dir
    ensures m.Valid() && m.languagesDir == dir
    ensures ok && m.currentLanguage == code && m.translations == DefaultPack(code)
    ensures m.GetLanguageDisplayName(code, None) == NativeNames[code]
  {
    m := new LanguageManager(dir, preferred, {});
    SeededAt(old(dir.files), {}, code);
    ok := m.SetLanguage(code);
  }

  /** A code outside the catalog cannot be selected, even when its pack is on
      disk, although start-up would have loaded it as the preferred language. */
  method SelectUncataloguedLanguage(m: LanguageManager, code: string) returns (ok: bool)
    requires m.Valid() && code !in BuiltinCodes
    modifies m
    ensures !ok && m.Valid()
    ensures m.currentLanguage == old(m.currentLanguage) && m.translations == old(m.translations)
  {
    ok := m.SetLanguage(code);
  }
}
