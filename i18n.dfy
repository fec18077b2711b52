/**
 * The user-interface translation table and the lookup `t(key, *args)`
 * (src/frontend/i18n.py).
 */
module I18n {
  import opened Results
  import opened StrFormat

  // The entries that take arguments, cut at their `{}` fields and between words.
  const EnImageBaseNotExistPieces := ["The image base", " directory you", " set (", "{}", ") does not exist"]
  const EnImagesLoadingProgressPieces := ["Loading", " images...", " (Finished ", "{}", " / ", "{}", ")"]
  const EnImageNoPieces := ["Image ", "{}"]
  const EnTableNotExistPieces := ["The table ", "{}", " does not", " exist, load", " images first", " please"]
  const ZhImageBaseNotExistPieces := ["您设置的图片加载目录 ", "{}", " 不存在"]
  const ZhImagesLoadingProgressPieces := ["图片加载中... (已完成 ", "{}", " / ", "{}", ")"]
  const ZhImageNoPieces := ["图片 ", "{}"]
  const ZhTableNotExistPieces := ["图片表 ", "{}", " 不存在，请先加载图片"]
  const JaImageBaseNotExistPieces := ["設定された画像ディレクトリ ", "{}", " が存在しません"]
  const JaImagesLoadingProgressPieces := ["画像を読み込んでいます...", " (完了 ", "{}", " / ", "{}", ")"]
  const JaImageNoPieces := ["画像 ", "{}"]
  const JaTableNotExistPieces := ["画像テーブル ", "{}", " が存在しません。先に画像を読み", "込んでください"]

  /**
   * The keys of the translation table, in source order. The source keys its
   * dictionaries by strings; here the keys are an enumeration, and
   * `KeyByName` maps each key string to its value.
   */
  datatype Key =
    | Title
    | Caption
    | Settings
    | SearchSetting
    | TableNameInput
    | TableNameHelp
    | RecallNumber
    | RecallNumberHelp
    | VectorWeight
    | VectorWeightHelp
    | DistanceThreshold
    | DistanceThresholdHelp
    | ShowDistance
    | ShowFilePath
    | LoadSetting
    | ImageBaseInput
    | ImageBaseHelp
    | ImageBasePlaceholder
    | LoadImages
    | SetTableNamePls
    | SetImageBasePls
    | ImageBaseNotExist
    | ImagesLoading
    | ImagesLoadingProgress
    | ImagesLoaded
    | ImageUploadLabel
    | ImageUploadHelp
    | UploadedImageHeader
    | UploadedImageCaption
    | SimilarImagesHeader
    | NoSimilarImages
    | ImageNo
    | Distance
    | FilePath
    | ImageCaption
    | TableNotExist
    | UploadImageArchive
    | ImageArchive
    | ImageArchiveHelp

  /** The key strings of the table. */
  const KeyByName: map<string, Key> := map[
    "title" := Title,
    "caption" := Caption,
    "settings" := Settings,
    "search_setting" := SearchSetting,
    "table_name_input" := TableNameInput,
    "table_name_help" := TableNameHelp,
    "recall_number" := RecallNumber,
    "recall_number_help" := RecallNumberHelp,
    "vector_weight" := VectorWeight,
    "vector_weight_help" := VectorWeightHelp,
    "distance_threshold" := DistanceThreshold,
    "distance_threshold_help" := DistanceThresholdHelp,
    "show_distance" := ShowDistance,
    "show_file_path" := ShowFilePath,
    "load_setting" := LoadSetting,
    "image_base_input" := ImageBaseInput,
    "image_base_help" := ImageBaseHelp,
    "image_base_placeholder" := ImageBasePlaceholder,
    "load_images" := LoadImages,
    "set_table_name_pls" := SetTableNamePls,
    "set_image_base_pls" := SetImageBasePls,
    "image_base_not_exist" := ImageBaseNotExist,
    "images_loading" := ImagesLoading,
    "images_loading_progress" := ImagesLoadingProgress,
    "images_loaded" := ImagesLoaded,
    "image_upload_label" := ImageUploadLabel,
    "image_upload_help" := ImageUploadHelp,
    "uploaded_image_header" := UploadedImageHeader,
    "uploaded_image_caption" := UploadedImageCaption,
    "similar_images_header" := SimilarImagesHeader,
    "no_similar_images" := NoSimilarImages,
    "image_no" := ImageNo,
    "distance" := Distance,
    "file_path" := FilePath,
    "image_caption" := ImageCaption,
    "table_not_exist" := TableNotExist,
    "upload_image_archive" := UploadImageArchive,
    "image_archive" := ImageArchive,
    "image_archive_help" := ImageArchiveHelp
  ]

  // Each table is a `match` on the key, in source order. Dafny accepts a
  // `match` only when it covers every key, so the three tables define the
  // same keys by construction.

  /** English strings. */
  function En(k: Key): string {
    match k
    case Title => "🔍 Image Search"
    case Caption => "🚀 Similar Image Search application built with vector retrieval feature of OceanBase database"
    case Settings => "🔧 Settings"
    case SearchSetting => "Searching Setting"
    case TableNameInput => "Table Name"
    case TableNameHelp => "Name of the table that stores image vectors and other data"
    case RecallNumber => "Recall Number"
    case RecallNumberHelp => "How many similar images to return"
    case VectorWeight => "Vector Weight"
    case VectorWeightHelp => "Weight of vector search: 0.0=text only, 1.0=vector only, 0.7=recommended"
    case DistanceThreshold => "Distance Threshold"
    case DistanceThresholdHelp => "Only show results with distance <= this value"
    case ShowDistance => "Show Distance"
    case ShowFilePath => "Show File Path"
    case LoadSetting => "Loading Setting"
    case ImageBaseInput => "Image Base"
    case ImageBaseHelp => "Absolute path of directory containing images to load"
    case ImageBasePlaceholder => "Absolute path like /data/imgs"
    case LoadImages => "Load Images"
    case SetTableNamePls => "Set table name first please"
    case SetImageBasePls => "Set image base first please"
    case ImageBaseNotExist => Concat(EnImageBaseNotExistPieces)
    case ImagesLoading => "Loading images..."
    case ImagesLoadingProgress => Concat(EnImagesLoadingProgressPieces)
    case ImagesLoaded => "All images are loaded successfully!"
    case ImageUploadLabel => "Choose an image to upload..."
    case ImageUploadHelp => "Upload an image to search for similar images"
    case UploadedImageHeader => "Upload Image"
    case UploadedImageCaption => "📌 Uploaded Image"
    case SimilarImagesHeader => "Similar Images"
    case NoSimilarImages => "No similar images found"
    case ImageNo => Concat(EnImageNoPieces)
    case Distance => "📏 Distance:"
    case FilePath => "📂 File path:"
    case ImageCaption => "📝 Description:"
    case TableNotExist => Concat(EnTableNotExistPieces)
    case UploadImageArchive => "Upload Image Archive"
    case ImageArchive => "Image Archive"
    case ImageArchiveHelp => "Select an image archive file and click Load Images to extract and load images"
  }

  /** Chinese strings. */
  function Zh(k: Key): string {
    match k
    case Title => "🔍 图像搜索应用"
    case Caption => "🚀 基于 OceanBase 向量检索能力构建的相似图像搜索应用"
    case Settings => "🔧 应用设置"
    case SearchSetting => "图片搜索设置"
    case TableNameInput => "表名"
    case TableNameHelp => "用于存放图片的向量和其他数据的表名"
    case RecallNumber => "召回数量"
    case RecallNumberHelp => "需要返回多少张相似照片"
    case VectorWeight => "向量权重"
    case VectorWeightHelp => "向量检索权重：0.0=纯文本，1.0=纯向量，0.7=推荐"
    case DistanceThreshold => "距离阈值"
    case DistanceThresholdHelp => "只显示距离小于等于该值的结果"
    case ShowDistance => "显示距离"
    case ShowFilePath => "显示文件路径"
    case LoadSetting => "图片加载设置"
    case ImageBaseInput => "图片加载目录"
    case ImageBaseHelp => "需要加载的图片目录路径"
    case ImageBasePlaceholder => "图片目录的绝对路径，如 /data/imgs"
    case LoadImages => "加载图片"
    case SetTableNamePls => "请设置表名"
    case SetImageBasePls => "请设置图片加载目录"
    case ImageBaseNotExist => Concat(ZhImageBaseNotExistPieces)
    case ImagesLoading => "图片加载中..."
    case ImagesLoadingProgress => Concat(ZhImagesLoadingProgressPieces)
    case ImagesLoaded => "所有图片加载完成！"
    case ImageUploadLabel => "选择一张图片..."
    case ImageUploadHelp => "上传一张图片以搜索相似图片"
    case UploadedImageHeader => "上传图片"
    case UploadedImageCaption => "📌 您上传的图片"
    case SimilarImagesHeader => "相似图片"
    case NoSimilarImages => "没有找到相似图片"
    case ImageNo => Concat(ZhImageNoPieces)
    case Distance => "📏 距离:"
    case FilePath => "📂 文件路径:"
    case ImageCaption => "📝 描述:"
    case TableNotExist => Concat(ZhTableNotExistPieces)
    case UploadImageArchive => "上传图片压缩包"
    case ImageArchive => "图片压缩包"
    case ImageArchiveHelp => "选中一个已上传的图片压缩包，点击加载图片来批量加载图片"
  }

  /** Japanese strings. */
  function Ja(k: Key): string {
    match k
    case Title => "🔍 画像検索アプリ"
    case Caption => "🚀 OceanBase のベクトル検索機能で構築された類似画像検索アプリケーション"
    case Settings => "🔧 設定"
    case SearchSetting => "検索設定"
    case TableNameInput => "テーブル名"
    case TableNameHelp => "画像ベクトルなどを保存するテーブル名"
    case RecallNumber => "リコール数"
    case RecallNumberHelp => "返す類似画像の枚数"
    case VectorWeight => "ベクトル重み"
    case VectorWeightHelp => "ベクトル検索の重み：0.0=テキストのみ、1.0=ベクトルのみ、0.7=推奨"
    case DistanceThreshold => "距離しきい値"
    case DistanceThresholdHelp => "距離がこの値以下の結果のみ表示"
    case ShowDistance => "距離を表示"
    case ShowFilePath => "ファイルパスを表示"
    case LoadSetting => "読み込み設定"
    case ImageBaseInput => "画像ディレクトリ"
    case ImageBaseHelp => "読み込む画像ディレクトリのパス"
    case ImageBasePlaceholder => "画像ディレクトリの絶対パス、例: /data/imgs"
    case LoadImages => "画像を読み込む"
    case SetTableNamePls => "テーブル名を設定してください"
    case SetImageBasePls => "画像ディレクトリを設定してください"
    case ImageBaseNotExist => Concat(JaImageBaseNotExistPieces)
    case ImagesLoading => "画像を読み込んでいます..."
    case ImagesLoadingProgress => Concat(JaImagesLoadingProgressPieces)
    case ImagesLoaded => "すべての画像が読み込まれました！"
    case ImageUploadLabel => "画像を選択..."
    case ImageUploadHelp => "類似画像を検索するために画像をアップロード"
    case UploadedImageHeader => "アップロード画像"
    case UploadedImageCaption => "📌 アップロードされた画像"
    case SimilarImagesHeader => "類似画像"
    case NoSimilarImages => "類似画像が見つかりませんでした"
    case ImageNo => Concat(JaImageNoPieces)
    case Distance => "📏 距離:"
    case FilePath => "📂 ファイルパス:"
    case ImageCaption => "📝 説明:"
    case TableNotExist => Concat(JaTableNotExistPieces)
    case UploadImageArchive => "画像圧縮ファイルをアップロード"
    case ImageArchive => "画像圧縮ファイル"
    case ImageArchiveHelp => "アップロードされた画像圧縮ファイルを選択し、画像を読み込むをクリックして一括読み込み"
  }

  /** The language codes the table defines. */
  const Languages: set<string> := {"en", "zh", "ja"}

  /** The language codes are distinct strings. */
  lemma LanguagesDistinct()
    ensures "en" != "zh" && "en" != "ja" && "zh" != "ja"
  {
  }

  /** The table of one language: `TRANSLATIONS[lang]`. */
  function Table(lang: string): Key -> string
    requires lang in Languages
  {
    if lang == "en" then En else if lang == "zh" then Zh else Ja
  }

  /**
   * The module-level `lang`: the `UI_LANG` environment value when it names a
   * language of the table, otherwise `"zh"` (also when the variable is unset).
   */
  function SelectLanguage(uiLang: Option<string>): (lang: string)
    ensures lang in Languages
    ensures uiLang.Some? && uiLang.value in Languages ==> lang == uiLang.value
    ensures (uiLang.None? || uiLang.value !in Languages) ==> lang == "zh"
  {
    var l := uiLang.GetOr("zh");
    if l in Languages then l else "zh"
  }

  /** The string `t` looks up: the table entry for `key`, or `"TODO: " + key` when the key is absent. */
  function Lookup(lang: string, key: string): string
    requires lang in Languages
  {
    var table := Table(lang);
    if key in KeyByName then table(KeyByName[key]) else "TODO: " + key
  }

  /**
   * `t(key, *args)`: with no arguments the looked-up string is returned as it
   * is (its braces are not interpreted); with arguments it is formatted.
   */
  function Translate(uiLang: Option<string>, key: string, args: seq<string>): Result<string, FormatError> {
    var s := Lookup(SelectLanguage(uiLang), key);
    if |args| > 0 then Format(s, args) else Ok(s)
  }

  /** A key of the table is looked up in the selected language's table. */
  lemma LookupKnownKey(lang: string, key: string)
    requires lang in Languages && key in KeyByName
    ensures Lookup(lang, key) == Table(lang)(KeyByName[key])
  {
  }

  /** Without arguments, a key of the table translates to its entry in the selected language. */
  lemma TranslateKnownKey(uiLang: Option<string>, key: string)
    requires key in KeyByName
    ensures Translate(uiLang, key, []) == Ok(Table(SelectLanguage(uiLang))(KeyByName[key]))
  {
    LookupKnownKey(SelectLanguage(uiLang), key);
  }

  /** A key missing from the table is shown as `TODO: <key>`. */
  lemma TranslateMissingKey(uiLang: Option<string>, key: string)
    requires key !in KeyByName
    ensures Translate(uiLang, key, []) == Ok("TODO: " + key)
  {
  }
}
