# Localization store of the sparse file generator, in Dafny

The sparse file generator shows every message through one localization store,
`LanguageManager` in `language_manager.py`. The store has three fields:

- `current_language`: the active language code.
- `translations`: the active key-to-template table.
- `available_languages`: the catalog of the seven built-in languages.

At start-up it writes the seven built-in language packs into its languages
directory. It then installs the catalog and loads the preferred language. If
that fails it falls back to `zh_CN`; if that fails too it carries on with an
empty table. A lookup `get(key, *args)` never fails:

- An unknown key comes back as itself.
- Without arguments, a stored template comes back verbatim.
- With arguments, the template's `{}` fields are filled in order. If that
  substitution raises, the unfilled template comes back instead.

The model has three modules:

- `Template` (`template.dfy`): the part of Python's `str.format(*args)` the
  store relies on. `{}` takes the next argument, `{{` and `}}` stand for
  braces, and everything else raises (`None`). It also gives a reference
  description of templates: literal pieces, escaped, with a field between each
  two (`Compose`, `Split`, `Interleave`). The lemmas prove that `Format` is
  exactly "split into pieces, put the arguments between them".
- `Localization` (`localization.dfy`): the languages directory and the store.
  - The directory is the class `LanguagesDirectory`. Its field `files` maps a
    code to `None` when `<code>.json` exists but cannot be read or parsed, and
    to `Some(table)` when it reads. A code with no file is absent from the map.
  - The store is the class `LanguageManager`. It holds the three fields and a
    reference to its directory. Start-up, loading and selecting are methods
    with frame conditions. The lookups are functions that read the fields.
- `Scenarios` (`scenarios.dfy`): sequences of calls and what a caller can
  conclude from the contracts alone.

Facts about the code that the contracts make explicit:

- Start-up never fails: if neither the preferred pack nor `zh_CN` loads,
  `current_language` is `zh_CN` and the table is empty (lines 22-24). The
  constructor's contract states this.
- `load_language` does no catalog check, so start-up can make an uncatalogued
  code current when its file reads (lines 20-24, 694-708): see the
  constructor's contract and `Scenarios.SelectUncataloguedLanguage`.
- The label's first name comes from `available_languages`, which holds native
  names (lines 675-683, 739-747), so French for an English reader is
  `Français (Français)`. `GetLanguageDisplayName` states this.

## Model

| member | source | states |
|---|---|---|
| `Template.Format` | language_manager.py:713-717 | Substitution succeeds exactly when every brace is an escape or an empty field and there are at least as many arguments as fields. It then puts the arguments between the template's literal pieces in order and ignores surplus arguments; otherwise it raises (`None`). |
| `Template.FormatCharacterized` | language_manager.py:713-717 | The field-by-field scan equals the reference description: ill-formed templates and missing arguments raise, and every other template yields `Interleave(Split(t), args)`. |
| `Template.FormatComposed` | language_manager.py:715 | A template composed of literal pieces formats to the pieces with the arguments between them, and raises when fewer arguments remain than fields. |
| `Template.FormatIllFormed` | language_manager.py:714-717 | A lone brace or a brace around anything other than nothing raises, whatever the arguments. |
| `Template.EscapeRoundTrip` | language_manager.py:715 | Any text with its braces doubled formats back to exactly that text, with any arguments. |
| `Template.FormatPlain` | language_manager.py:715 | Text without braces formats to itself, with any arguments. |
| `Template.ComposeSplit` | language_manager.py:52-62 | Every well-formed template, such as the built-in messages with `{}` fields, is the composition of its own pieces. |
| `Template.SplitCompose` | language_manager.py:52-62 | Composing pieces and splitting the result gives back the same pieces. Together with `ComposeSplit`, templates and their piece lists are in one-to-one correspondence. |
| `Template.Split` | language_manager.py:715 | A well-formed template has one more literal piece than it has fields. |
| `Localization.LanguagesDirectory.SaveLanguageFile` | language_manager.py:685-692 | A successful write makes the file hold the pack. A failed write is swallowed and leaves the directory as it was. |
| `Localization.SeededAt` | language_manager.py:665-673 | After the seven start-up writes, each built-in code whose write went through holds its built-in pack. Every other file is as before, and no file disappears. |
| `Localization.DefaultPacksShareKeys` | language_manager.py:29-663 | Every built-in pack carries the same key set. In the model this holds by construction, since all seven packs are built by the one function `Pack`; that the source's seven packs share their 87 keys was established by comparing their text. |
| `Localization.LanguageManager.constructor` | language_manager.py:9-24 | The directory is seeded and the catalog installed. A readable preferred pack becomes current. Otherwise `zh_CN` is current, with its pack if it reads and an empty table if not. The current code is always the preferred one or `zh_CN`. With its write through, a built-in preference is always current with its built-in pack. |
| `Localization.LanguageManager.InitDefaultLanguages` | language_manager.py:26-683 | Writes the seven built-in packs in order. Afterwards the catalog is exactly the seven codes with their native names. The current code and table are untouched. |
| `Localization.LanguageManager.LoadLanguage` | language_manager.py:694-708 | Returns true exactly when the file for the code exists and reads; the pack and the code then replace the table and the current code. On a missing or unreadable file it returns false and changes nothing. It never changes the catalog and does no catalog check. |
| `Localization.LanguageManager.SetLanguage` | language_manager.py:720-724 | For a code outside the catalog it returns false and changes nothing. For a catalogued code its result and effect are exactly those of `LoadLanguage`. |
| `Localization.LanguageManager.Get` | language_manager.py:710-718 | Without arguments: the stored template verbatim, or the key itself when it is absent. With arguments: the template (or key) with its fields filled in order, or unfilled when substitution would raise. No input makes it fail. |
| `Localization.LanguageManager.GetAvailableLanguages` | language_manager.py:726-728 | The catalog is exactly the seven built-in codes, each with its native name. The copy is a value, so changing it cannot reach the store. |
| `Localization.LanguageManager.GetCurrentLanguage` | language_manager.py:757-759 | Returns the field `currentLanguage`. What that field holds is stated by the contracts of the constructor, `LoadLanguage` and `SetLanguage`. |
| `Localization.LanguageManager.GetLanguageName` | language_manager.py:761-763 | A built-in code's catalog name; any other code is returned as itself. |
| `Localization.LanguageManager.GetLanguageDisplayName` | language_manager.py:730-755 | An omitted viewer means the current language. A built-in language shown to its own readers is its native name. Shown to anyone else it is `N (N)`, with the catalog name (the native name) twice. An unknown code stands in for both names. |
| `Localization.GetEchoesUnknownKey` | language_manager.py:712-718 | A key missing from the active table comes back verbatim, with or without arguments, as long as it holds no brace. |
| `Localization.GetFillsTemplate` | language_manager.py:712-715 | A stored template with pieces `lits`, looked up with enough arguments, is the pieces with the arguments between them in order. |
| `Localization.GetTooFewArguments` | language_manager.py:714-717 | With fewer arguments than fields, the stored template comes back unfilled. |
| `Localization.DisplayNameForOwnReaders` | language_manager.py:752-755 | A built-in language shown to its own readers is its native name, with no parenthesis. |
| `Localization.DisplayNamesDistinct` | language_manager.py:730-755 | For any one viewer, no two built-in languages get the same label, so a chosen menu label identifies its code. |
| `Scenarios.LoadLanguageTwice` | language_manager.py:702-705 | Loading the same code twice gives the same result and the same state as loading it once. |
| `Scenarios.SelectBuiltinLanguage` | language_manager.py:720-724 | On a store whose start-up writes all went through, every built-in language can be selected. Its table is then its built-in pack, and its label for the current reader is its bare native name. |
| `Scenarios.SelectUncataloguedLanguage` | language_manager.py:720-724 | A code outside the catalog is refused and changes nothing, even when its pack is on disk. |

## Left out

- File-system and JSON mechanics (lines 17-18, 685-692, 696-708): the directory is the map `files`. It cannot say whether a path exists but is a directory, or what encoding errors occur. Those are folded into `None`. A pack whose JSON is not a flat string-to-string object is not represented. The map is keyed by code, while the source reaches files by the path `<languages_dir>/<code>.json`, so two codes that name the same file (such as `ZH_CN` and `zh_CN` on a case-insensitive file system) are two entries here; the model cannot show `load_language("ZH_CN")` reading the freshly seeded `zh_CN.json`. Only uncatalogued codes, through the preferred code at start-up, can reach this.
- The creation of the languages directory (lines 17-18), including an exception from `os.makedirs` escaping the constructor: this is I/O that the model does not have.
- `LanguagesDirectory.SaveLanguageFile`: a failed write is modelled as leaving the file as it was. A write that truncates the file before failing can be represented by giving the constructor a directory in which that file is already `None`. The diagnostic `print` calls (lines 692, 707) are output, not logic.
- The `USER_LANGUAGE` environment variable (line 12) is the constructor parameter `preferred`. The `languages_dir` path is the `LanguagesDirectory` object.
- Which writes fail at start-up is the constructor parameter `failedWrites`. The model does not say why they fail.
- `Template.Format`: only auto-numbered `{}` fields and the `{{`/`}}` escapes are modelled, over string arguments. Python also accepts explicit indices (`{0}`), conversions (`{!r}`) and format specs (`{:>5}`), and raises `KeyError` on named fields. The model treats all of these as failures, so `Get` then returns the unfilled template. The built-in templates use only `{}`.
- `Localization.LanguageManager.Get`: arguments are strings. The source also passes exception objects, whose `str()` is not modelled.
- The bulk translation text (lines 29-663): each built-in pack is represented by five of its 87 entries (`title`, `save_location_not_exist`, `file_created_success`, `cli_invalid_size`, `default_extension`), copied from the source. All seven packs in the source have the same 87 keys, as `DefaultPacksShareKeys` states for the five modelled ones.
- The module-level instance `lang` (line 767) is not modelled. Callers construct a `LanguageManager` explicitly.
- Concurrency is not modelled: the source is single-threaded.
