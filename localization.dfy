/** The localization store: a registry of language packs on disk, the active
    key-to-template table, and lookups that never fail. */
module Localization {
  import opened Template

  /** A language pack: translation key to template. */
  type Table = map<string, string>

  /** The languages directory as the store reads it: a code absent from the map
      has no `<code>.json` file; `None` is a file that exists but cannot be
      opened or parsed; `Some(t)` is a readable pack. */
  type Directory = map<string, Option<Table>>

  /** The code the store falls back to when the preferred one does not load. */
  const DefaultLanguage: string := "zh_CN"

  /** The seven languages the store ships packs for. */
  const BuiltinCodes: set<string> := {"zh_CN", "en_US", "ja_JP", "ko_KR", "fr_FR", "de_DE", "es_ES"}

  /** The catalog the store installs: code to display name. */
  const Catalog: map<string, string> := map[
    "zh_CN" := "简体中文",
    "en_US" := "English",
    "ja_JP" := "日本語",
    "ko_KR" := "한국어",
    "fr_FR" := "Français",
    "de_DE" := "Deutsch",
    "es_ES" := "Español"
  ]

  /** Each language's name in that language, used for the bilingual labels. */
  const NativeNames: map<string, string> := map[
    "zh_CN" := "简体中文",
    "en_US" := "English",
    "ja_JP" := "日本語",
    "ko_KR" := "한국어",
    "fr_FR" := "Français",
    "de_DE" := "Deutsch",
    "es_ES" := "Español"
  ]

  /** The built-in pack written for `code` at start-up (a representative part of it). */
  function DefaultPack(code: string): (t: Table)
    requires code in BuiltinCodes
  {
    if code == "zh_CN" then ZhPack
    else if code == "en_US" then EnPack
    else if code == "ja_JP" then JaPack
    else if code == "ko_KR" then KoPack
    else if code == "fr_FR" then FrPack
    else if code == "de_DE" then DePack
    else EsPack
  }

  const ZhPack: Table := Pack("稀疏文件生成器", "保存位置 {} 不存在",
                              "虚拟大文件创建成功!\n文件路径: {}\n显示大小: {}", "错误: 无效的文件大小")
  const EnPack: Table := Pack("Sparse File Generator", "Save location {} does not exist",
                              "Virtual large file created successfully!\nFile path: {}\nDisplay size: {}",
                              "Error: Invalid file size")
  const JaPack: Table := Pack("スパースファイル生成器", "保存場所 {} は存在しません",
                              "仮想大ファイルが正常に作成されました！\nファイルパス: {}\n表示サイズ: {}",
                              "エラー: 無効なファイルサイズ")
  const KoPack: Table := Pack("스파스 파일 생성기", "저장 위치 {} 가 존재하지 않습니다",
                              "가상 대용량 파일이 성공적으로 생성되었습니다!\n파일 경로: {}\n표시 크기: {}",
                              "오류: 잘못된 파일 크기")
  const FrPack: Table := Pack("Générateur de Fichiers Éparses", "L'emplacement de sauvegarde {} n'existe pas",
                              "Fichier virtuel de grande taille créé avec succès!\nChemin du fichier: {}\nTaille affichée: {}",
                              "Erreur: Taille de fichier invalide")
  const DePack: Table := Pack("Sparse-Datei Generator", "Speicherort {} existiert nicht",
                              "Virtuelle große Datei erfolgreich erstellt!\nDateipfad: {}\nAnzeigegröße: {}",
                              "Fehler: Ungültige Dateigröße")
  const EsPack: Table := Pack("Generador de Archivos Dispersos", "La ubicación de guardado {} no existe",
                              "¡Archivo virtual de gran tamaño creado exitosamente!\nRuta del archivo: {}\nTamaño mostrado: {}",
                              "Error: Tamaño de archivo inválido")

  /** The keys every built-in pack carries in this model. */
  const PackKeys: set<string> :=
    {"title", "save_location_not_exist", "file_created_success", "cli_invalid_size", "default_extension"}

  function Pack(title: string, noLocation: string, created: string, invalidSize: string): Table
  {
    map["title" := title,
        "save_location_not_exist" := noLocation,
        "file_created_success" := created,
        "cli_invalid_size" := invalidSize,
        "default_extension" := ".bin"]
  }

  /** The directory after one write of `table` as the pack for `code`: a write
      that fails (`fails`) is swallowed and leaves the file as it was. */
  function SaveFile(files: Directory, code: string, table: Table, fails: bool): Directory
  {
    if fails then files else files[code := Some(table)]
  }

  /** The directory after the start-up write of the built-in pack for `code`,
      which fails when `code` is in `failed`. */
  function SaveDefault(files: Directory, code: string, failed: set<string>): Directory
    requires code in BuiltinCodes
  {
    SaveFile(files, code, DefaultPack(code), code in failed)
  }

  /** The directory after the seven start-up writes, in the order start-up makes them. */
  function Seeded(files: Directory, failed: set<string>): Directory
  {
    var d := SaveDefault(files, "zh_CN", failed);
    var d := SaveDefault(d, "en_US", failed);
    var d := SaveDefault(d, "ja_JP", failed);
    var d := SaveDefault(d, "ko_KR", failed);
    var d := SaveDefault(d, "fr_FR", failed);
    var d := SaveDefault(d, "de_DE", failed);
    SaveDefault(d, "es_ES", failed)
  }

  /** The pack `files` yields for `code`, if its file exists and reads. */
  function PackFor(files: Directory, code: string): Option<Table>
  {
    if code in files then files[code] else None
  }

  /** What one start-up write leaves in each file. */
  lemma SaveDefaultAt(files: Directory, c: string, failed: set<string>, code: string)
    requires c in BuiltinCodes
    ensures code in SaveDefault(files, c, failed) <==> code in files || (code == c && c !in failed)
    ensures PackFor(SaveDefault(files, c, failed), code) ==
            if code == c && c !in failed then Some(DefaultPack(c)) else PackFor(files, code)
  {
  }

  /** What seeding leaves in each file: the built-in pack where the write went
      through, the previous file (or none) everywhere else. */
  lemma SeededAt(files: Directory, failed: set<string>, code: string)
    ensures code in Seeded(files, failed) <==> code in files || (code in BuiltinCodes && code !in failed)
    ensures PackFor(Seeded(files, failed), code) ==
            if code in BuiltinCodes && code !in failed then Some(DefaultPack(code)) else PackFor(files, code)
  {
    var d1 := SaveDefault(files, "zh_CN", failed);
    var d2 := SaveDefault(d1, "en_US", failed);
    var d3 := SaveDefault(d2, "ja_JP", failed);
    var d4 := SaveDefault(d3, "ko_KR", failed);
    var d5 := SaveDefault(d4, "fr_FR", failed);
    var d6 := SaveDefault(d5, "de_DE", failed);
    var d7 := SaveDefault(d6, "es_ES", failed);
    assert Seeded(files, failed) == d7;
    SaveDefaultAt(files, "zh_CN", failed, code);
    SaveDefaultAt(d1, "en_US", failed, code);
    SaveDefaultAt(d2, "ja_JP", failed, code);
    SaveDefaultAt(d3, "ko_KR", failed, code);
    SaveDefaultAt(d4, "fr_FR", failed, code);
    SaveDefaultAt(d5, "de_DE", failed, code);
    SaveDefaultAt(d6, "es_ES", failed, code);
  }

  /** The languages directory: one JSON file per code, shared with anyone who
      holds the same object. */
  class LanguagesDirectory {
    var files: Directory

    constructor (initial: Directory)
      ensures files == initial
    {
      files := initial;
    }

    /** Writes `table` as the pack for `code`; a write that fails (`fails`) is
        swallowed and leaves the file as it was. */
    method SaveLanguageFile(code: string, table: Table, fails: bool)
      modifies this
      ensures files == SaveFile(old(files), code, table, fails)
    {
      if !fails {
        files := files[code := Some(table)];
      }
    }
  }

  class LanguageManager {
    const languagesDir: LanguagesDirectory
    var currentLanguage: string
    var translations: Table
    var availableLanguages: map<string, string>

    /** The catalog is fixed once construction has installed it. */
    ghost predicate Valid()
      reads this
    {
      availableLanguages == Catalog
    }

    /** Seeds the directory with the built-in packs (the writes listed in
        `failedWrites` fail), installs the catalog, then loads `preferred`,
        falling back to the default language, and finally to an empty table. */
    constructor (dir: LanguagesDirectory, preferred: string, failedWrites: set<string>)
      modifies dir
      ensures Valid() && languagesDir == dir
      ensures dir.files == Seeded(old(dir.files), failedWrites)
      ensures PackFor(dir.files, preferred).Some? ==>
                currentLanguage == preferred && translations == PackFor(dir.files, preferred).value
      ensures PackFor(dir.files, preferred).None? && PackFor(dir.files, DefaultLanguage).Some? ==>
                currentLanguage == DefaultLanguage && translations == PackFor(dir.files, DefaultLanguage).value
      ensures PackFor(dir.files, preferred).None? && PackFor(dir.files, DefaultLanguage).None? ==>
                currentLanguage == DefaultLanguage && translations == map[]
      ensures currentLanguage == preferred || currentLanguage == DefaultLanguage
      ensures preferred in BuiltinCodes && preferred !in failedWrites ==>
                currentLanguage == preferred && translations == DefaultPack(preferred)
      ensures preferred !in BuiltinCodes && PackFor(old(dir.files), preferred).None? && DefaultLanguage !in failedWrites ==>
                currentLanguage == DefaultLanguage && translations == DefaultPack(DefaultLanguage)
    {
      ghost var before := dir.files;
      SeededAt(before, failedWrites, preferred);
      SeededAt(before, failedWrites, DefaultLanguage);
      languagesDir := dir;
      currentLanguage := preferred;
      translations := map[];
      availableLanguages := map[];
      new;
      InitDefaultLanguages(failedWrites);
      var ok := LoadLanguage(currentLanguage);
      if !ok {
        currentLanguage := DefaultLanguage;
        ok := LoadLanguage(currentLanguage);
      }
    }

    /** Writes the seven built-in packs and installs the catalog. */
    method InitDefaultLanguages(failedWrites: set<string>)
      modifies this, languagesDir
      ensures languagesDir.files == Seeded(old(languagesDir.files), failedWrites)
      ensures Valid()
      ensures currentLanguage == old(currentLanguage) && translations == old(translations)
    {
      languagesDir.SaveLanguageFile("zh_CN", DefaultPack("zh_CN"), "zh_CN" in failedWrites);
      languagesDir.SaveLanguageFile("en_US", DefaultPack("en_US"), "en_US" in failedWrites);
      languagesDir.SaveLanguageFile("ja_JP", DefaultPack("ja_JP"), "ja_JP" in failedWrites);
      languagesDir.SaveLanguageFile("ko_KR", DefaultPack("ko_KR"), "ko_KR" in failedWrites);
      languagesDir.SaveLanguageFile("fr_FR", DefaultPack("fr_FR"), "fr_FR" in failedWrites);
      languagesDir.SaveLanguageFile("de_DE", DefaultPack("de_DE"), "de_DE" in failedWrites);
      languagesDir.SaveLanguageFile("es_ES", DefaultPack("es_ES"), "es_ES" in failedWrites);
      availableLanguages := Catalog;
    }

    /** Replaces the active table and code with the pack for `code`, or, when
        there is no such file or it does not read, reports false and changes
        nothing. No catalog check. */
    method LoadLanguage(code: string) returns (ok: bool)
      modifies this
      ensures ok <==> PackFor(languagesDir.files, code).Some?
      ensures ok ==> currentLanguage == code && translations == PackFor(languagesDir.files, code).value
      ensures !ok ==> currentLanguage == old(currentLanguage) && translations == old(translations)
      ensures availableLanguages == old(availableLanguages)
    {
      if code !in languagesDir.files {
        return false;
      }
      match languagesDir.files[code]
      case None =>
        ok := false;
      case Some(table) =>
        translations := table;
        currentLanguage := code;
        ok := true;
    }

    /** Loads `code` only if the catalog lists it. */
    method SetLanguage(code: string) returns (ok: bool)
      modifies this
      ensures code !in old(availableLanguages) ==>
                !ok && currentLanguage == old(currentLanguage) && translations == old(translations)
      ensures code in old(availableLanguages) ==>
                (ok <==> PackFor(languagesDir.files, code).Some?) &&
                (ok ==> currentLanguage == code && translations == PackFor(languagesDir.files, code).value) &&
                (!ok ==> currentLanguage == old(currentLanguage) && translations == old(translations))
      ensures availableLanguages == old(availableLanguages)
    {
      if code in availableLanguages {
        ok := LoadLanguage(code);
      } else {
        ok := false;
      }
    }

    /** The template stored for `key`, or the key itself. */
    function Text(key: string): string
      reads this
    {
      if key in translations then translations[key] else key
    }

    /** The translation of `key`: with no arguments the stored template (or the
        key itself) verbatim; with arguments the template with its `{}` fields
        filled in order, or the unfilled template when substitution fails. */
    function Get(key: string, args: seq<string>): (r: string)
      reads this
      ensures args == [] && key in translations ==> r == translations[key]
      ensures args == [] && key !in translations ==> r == key
      ensures args != [] && WellFormed(Text(key)) && Fields(Text(key)) <= |args| ==>
                r == Interleave(Split(Text(key)), args)
      ensures args != [] && !(WellFormed(Text(key)) && Fields(Text(key)) <= |args|) ==>
                r == Text(key)
    {
      var text := Text(key);
      if args != [] then
        match Format(text, args)
        case Some(s) => s
        case None => text
      else text
    }

    /** A copy of the catalog; being a value, later changes to it cannot reach the store. */
    function GetAvailableLanguages(): (r: map<string, string>)
      reads this
      requires Valid()
      ensures r.Keys == BuiltinCodes
      ensures forall c :: c in r ==> r[c] == NativeNames[c]
    {
      availableLanguages
    }

    /** The active language code. */
    function GetCurrentLanguage(): (r: string)
      reads this
      ensures r == currentLanguage
    {
      currentLanguage
    }

    /** The catalog name of `code`, or `code` itself when the catalog lacks it. */
    function GetLanguageName(code: string): (r: string)
      reads this
      requires Valid()
      ensures code in BuiltinCodes ==> r == NativeNames[code]
      ensures code !in BuiltinCodes ==> r == code
    {
      if code in availableLanguages then availableLanguages[code] else code
    }

    /** The label of `code` for a reader of `viewer` (the current language when
        `viewer` is omitted): the native name alone for its own readers, and
        "<catalog name> (<native name>)" for everyone else; an unknown code
        stands in for both names. */
    function GetLanguageDisplayName(code: string, viewer: Option<string>): (r: string)
      reads this
      requires Valid()
      ensures code in BuiltinCodes && Viewer(viewer) == code ==> r == NativeNames[code]
      ensures code in BuiltinCodes && Viewer(viewer) != code ==>
                r == NativeNames[code] + " (" + NativeNames[code] + ")"
      ensures code !in BuiltinCodes ==> r == if Viewer(viewer) == code then code else code + " (" + code + ")"
    {
      var name := if code in availableLanguages then availableLanguages[code] else code;
      var native := if code in NativeNames then NativeNames[code] else code;
      if Viewer(viewer) != code then name + " (" + native + ")" else native
    }

    /** The viewer a display name is built for. */
    function Viewer(viewer: Option<string>): string
      reads this
    {
      if viewer.None? then currentLanguage else viewer.value
    }
  }

  // ---------------------------------------------------------------------------
  // Lemmas about lookups
  // ---------------------------------------------------------------------------

  /** Every built-in pack carries the same keys. */
  lemma DefaultPacksShareKeys(code: string)
    requires code in BuiltinCodes
    ensures DefaultPack(code).Keys == PackKeys
  {
  }

  /** A key missing from the active table comes back verbatim, whatever the
      arguments, as long as it holds no brace. */
  lemma GetEchoesUnknownKey(m: LanguageManager, key: string, args: seq<string>)
    requires key !in m.translations && '{' !in key && '}' !in key
    ensures m.Get(key, args) == key
  {
    EscapePlain(key);
    SplitCompose([key]);
  }

  /** A stored template composed of the pieces `lits` gets the arguments put
      between its pieces, in order; surplus arguments are dropped. */
  lemma GetFillsTemplate(m: LanguageManager, key: string, lits: seq<string>, args: seq<string>)
    requires key in m.translations && |lits| >= 1 && m.translations[key] == Compose(lits)
    requires args != [] && |args| >= |lits| - 1
    ensures m.Get(key, args) == Interleave(lits, args)
  {
    SplitCompose(lits);
  }

  /** With fewer arguments than fields the stored template comes back unfilled. */
  lemma GetTooFewArguments(m: LanguageManager, key: string, lits: seq<string>, args: seq<string>)
    requires key in m.translations && |lits| >= 1 && m.translations[key] == Compose(lits)
    requires args != [] && |args| < |lits| - 1
    ensures m.Get(key, args) == m.translations[key]
  {
    SplitCompose(lits);
  }

  // ---------------------------------------------------------------------------
  // Lemmas about display names
  // ---------------------------------------------------------------------------

  /** A built-in language shown to its own readers is its native name, with no
      parenthesised second name. */
  lemma DisplayNameForOwnReaders(m: LanguageManager, code: string)
    requires m.Valid() && code in BuiltinCodes
    ensures m.GetLanguageDisplayName(code, Some(code)) == NativeNames[code]
    ensures '(' !in m.GetLanguageDisplayName(code, Some(code))
  {
  }

  /** Every native name has between three and eight characters. */
  lemma NativeNameLengths(code: string)
    requires code in BuiltinCodes
    ensures 3 <= |NativeNames[code]| <= 8
  {
  }

  /** Different names give different bilingual labels `N (N)`. */
  lemma {:induction false} BilingualInjective(a: string, b: string)
    requires a != b
    ensures a + " (" + a + ")" != b + " (" + b + ")"
  {
    var la, lb := a + " (" + a + ")", b + " (" + b + ")";
    if |a| == |b| {
      assert la[..|a|] == a && lb[..|b|] == b;
    } else {
      assert |la| != |lb|;
    }
  }

  /** For one viewer, no two built-in languages get the same label, so the
      language menu can map a chosen label back to its code. */
  lemma DisplayNamesDistinct(m: LanguageManager, viewer: Option<string>, c1: string, c2: string)
    requires m.Valid() && c1 in BuiltinCodes && c2 in BuiltinCodes && c1 != c2
    ensures m.GetLanguageDisplayName(c1, viewer) != m.GetLanguageDisplayName(c2, viewer)
  {
    var n1, n2 := NativeNames[c1], NativeNames[c2];
    assert n1 != n2;
    NativeNameLengths(c1);
    NativeNameLengths(c2);
    var v := m.Viewer(viewer);
    if v != c1 && v != c2 {
      BilingualInjective(n1, n2);
    } else if v == c1 {
      assert |n1| < |n2 + " (" + n2 + ")"|;
    } else {
      assert |n2| < |n1 + " (" + n1 + ")"|;
    }
  }
}
