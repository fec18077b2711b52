/**
 * The `{}` fields of the translation entries, and what `t` makes of them.
 */
module I18nFields {
  import opened Results
  import opened StrFormat
  import opened I18n

  /** The keys whose entries contain `{}` fields. */
  predicate TakesArgs(key: Key) {
    key == ImageBaseNotExist || key == ImagesLoadingProgress || key == ImageNo || key == TableNotExist
  }

  /** The number of `{}` fields each key's entry carries. */
  function ExpectedFields(key: Key): nat {
    if key == ImagesLoadingProgress then 2
    else if TakesArgs(key) then 1
    else 0
  }

  lemma EnImageBaseNotExistWellCut()
    ensures WellCut(EnImageBaseNotExistPieces) && FieldPieces(EnImageBaseNotExistPieces) == 1
  {
  }

  lemma EnImageBaseNotExistFields()
    ensures IsTemplate(En(ImageBaseNotExist)) && FieldCount(En(ImageBaseNotExist)) == 1
  {
    EnImageBaseNotExistWellCut();
    Pieces(EnImageBaseNotExistPieces);
  }

  lemma ZhImageBaseNotExistWellCut()
    ensures WellCut(ZhImageBaseNotExistPieces) && FieldPieces(ZhImageBaseNotExistPieces) == 1
  {
  }

  lemma ZhImageBaseNotExistFields()
    ensures IsTemplate(Zh(ImageBaseNotExist)) && FieldCount(Zh(ImageBaseNotExist)) == 1
  {
    ZhImageBaseNotExistWellCut();
    Pieces(ZhImageBaseNotExistPieces);
  }

  lemma JaImageBaseNotExistWellCut()
    ensures WellCut(JaImageBaseNotExistPieces) && FieldPieces(JaImageBaseNotExistPieces) == 1
  {
  }

  lemma JaImageBaseNotExistFields()
    ensures IsTemplate(Ja(ImageBaseNotExist)) && FieldCount(Ja(ImageBaseNotExist)) == 1
  {
    JaImageBaseNotExistWellCut();
    Pieces(JaImageBaseNotExistPieces);
  }

  lemma EnImagesLoadingProgressWellCut()
    ensures WellCut(EnImagesLoadingProgressPieces) && FieldPieces(EnImagesLoadingProgressPieces) == 2
  {
  }

  lemma EnImagesLoadingProgressFields()
    ensures IsTemplate(En(ImagesLoadingProgress)) && FieldCount(En(ImagesLoadingProgress)) == 2
  {
    EnImagesLoadingProgressWellCut();
    Pieces(EnImagesLoadingProgressPieces);
  }

  lemma ZhImagesLoadingProgressWellCut()
    ensures WellCut(ZhImagesLoadingProgressPieces) && FieldPieces(ZhImagesLoadingProgressPieces) == 2
  {
  }

  lemma ZhImagesLoadingProgressFields()
    ensures IsTemplate(Zh(ImagesLoadingProgress)) && FieldCount(Zh(ImagesLoadingProgress)) == 2
  {
    ZhImagesLoadingProgressWellCut();
    Pieces(ZhImagesLoadingProgressPieces);
  }

  lemma JaImagesLoadingProgressWellCut()
    ensures WellCut(JaImagesLoadingProgressPieces) && FieldPieces(JaImagesLoadingProgressPieces) == 2
  {
  }

  lemma JaImagesLoadingProgressFields()
    ensures IsTemplate(Ja(ImagesLoadingProgress)) && FieldCount(Ja(ImagesLoadingProgress)) == 2
  {
    JaImagesLoadingProgressWellCut();
    Pieces(JaImagesLoadingProgressPieces);
  }

  lemma EnImageNoWellCut()
    ensures WellCut(EnImageNoPieces) && FieldPieces(EnImageNoPieces) == 1
  {
  }

  lemma EnImageNoFields()
    ensures IsTemplate(En(ImageNo)) && FieldCount(En(ImageNo)) == 1
  {
    EnImageNoWellCut();
    Pieces(EnImageNoPieces);
  }

  lemma ZhImageNoWellCut()
    ensures WellCut(ZhImageNoPieces) && FieldPieces(ZhImageNoPieces) == 1
  {
  }

  lemma ZhImageNoFields()
    ensures IsTemplate(Zh(ImageNo)) && FieldCount(Zh(ImageNo)) == 1
  {
    ZhImageNoWellCut();
    Pieces(ZhImageNoPieces);
  }

  lemma JaImageNoWellCut()
    ensures WellCut(JaImageNoPieces) && FieldPieces(JaImageNoPieces) == 1
  {
  }

  lemma JaImageNoFields()
    ensures IsTemplate(Ja(ImageNo)) && FieldCount(Ja(ImageNo)) == 1
  {
    JaImageNoWellCut();
    Pieces(JaImageNoPieces);
  }

  lemma EnTableNotExistWellCut()
    ensures WellCut(EnTableNotExistPieces) && FieldPieces(EnTableNotExistPieces) == 1
  {
  }

  lemma EnTableNotExistFields()
    ensures IsTemplate(En(TableNotExist)) && FieldCount(En(TableNotExist)) == 1
  {
    EnTableNotExistWellCut();
    Pieces(EnTableNotExistPieces);
  }

  lemma ZhTableNotExistWellCut()
    ensures WellCut(ZhTableNotExistPieces) && FieldPieces(ZhTableNotExistPieces) == 1
  {
  }

  lemma ZhTableNotExistFields()
    ensures IsTemplate(Zh(TableNotExist)) && FieldCount(Zh(TableNotExist)) == 1
  {
    ZhTableNotExistWellCut();
    Pieces(ZhTableNotExistPieces);
  }

  lemma JaTableNotExistWellCut()
    ensures WellCut(JaTableNotExistPieces) && FieldPieces(JaTableNotExistPieces) == 1
  {
  }

  lemma JaTableNotExistFields()
    ensures IsTemplate(Ja(TableNotExist)) && FieldCount(Ja(TableNotExist)) == 1
  {
    JaTableNotExistWellCut();
    Pieces(JaTableNotExistPieces);
  }

  /** Every English entry that takes arguments is a template with the expected number of fields. */
  lemma EnFields(k: Key)
    requires TakesArgs(k)
    ensures IsTemplate(En(k)) && FieldCount(En(k)) == ExpectedFields(k)
  {
    match k
    case ImageBaseNotExist => EnImageBaseNotExistFields();
    case ImagesLoadingProgress => EnImagesLoadingProgressFields();
    case ImageNo => EnImageNoFields();
    case TableNotExist => EnTableNotExistFields();
    case _ => assert false;
  }

  /** Every Chinese entry that takes arguments is a template with the expected number of fields. */
  lemma ZhFields(k: Key)
    requires TakesArgs(k)
    ensures IsTemplate(Zh(k)) && FieldCount(Zh(k)) == ExpectedFields(k)
  {
    match k
    case ImageBaseNotExist => ZhImageBaseNotExistFields();
    case ImagesLoadingProgress => ZhImagesLoadingProgressFields();
    case ImageNo => ZhImageNoFields();
    case TableNotExist => ZhTableNotExistFields();
    case _ => assert false;
  }

  /** Every Japanese entry that takes arguments is a template with the expected number of fields. */
  lemma JaFields(k: Key)
    requires TakesArgs(k)
    ensures IsTemplate(Ja(k)) && FieldCount(Ja(k)) == ExpectedFields(k)
  {
    match k
    case ImageBaseNotExist => JaImageBaseNotExistFields();
    case ImagesLoadingProgress => JaImagesLoadingProgressFields();
    case ImageNo => JaImageNoFields();
    case TableNotExist => JaTableNotExistFields();
    case _ => assert false;
  }

  /** Every entry that takes arguments is a template with the same number of `{}` fields in every language. */
  lemma FieldCountsAgree(k: Key)
    requires TakesArgs(k)
    ensures IsTemplate(En(k)) && IsTemplate(Zh(k)) && IsTemplate(Ja(k))
    ensures FieldCount(En(k)) == FieldCount(Zh(k)) == FieldCount(Ja(k)) == ExpectedFields(k)
  {
    EnFields(k);
    ZhFields(k);
    JaFields(k);
  }

  /** In every language, the entry `t` looks up for a key of the table is a template with that key's fields. */
  lemma LookupFields(lang: string, key: string)
    requires lang in Languages && key in KeyByName && TakesArgs(KeyByName[key])
    ensures IsTemplate(Lookup(lang, key)) && FieldCount(Lookup(lang, key)) == ExpectedFields(KeyByName[key])
  {
    LanguagesDistinct();
    LookupKnownKey(lang, key);
    FieldCountsAgree(KeyByName[key]);
  }

  /**
   * With arguments, `t` on an entry that takes arguments succeeds in every
   * language exactly when it is given at least as many arguments as the entry
   * has fields; otherwise `str.format` raises `IndexError`.
   */
  lemma TranslateWithArgs(uiLang: Option<string>, key: string, args: seq<string>)
    requires key in KeyByName && TakesArgs(KeyByName[key]) && |args| > 0
    ensures Translate(uiLang, key, args).Ok? <==> ExpectedFields(KeyByName[key]) <= |args|
    ensures Translate(uiLang, key, args).Err? ==> Translate(uiLang, key, args).error == IndexOutOfRange
  {
    var lang := SelectLanguage(uiLang);
    LookupFields(lang, key);
    FormatTemplateSucceeds(Lookup(lang, key), args, 0);
  }

  // The English progress message filled with `3` and `10`, piece by piece.

  lemma EnglishProgressTail()
    ensures FieldPieces(EnImagesLoadingProgressPieces[3..]) == 2
    ensures Fill(EnImagesLoadingProgressPieces[3..], ["3", "10"], 0) == "3 / 10)"
  {
    var pieces := EnImagesLoadingProgressPieces;
    var args := ["3", "10"];
    assert Fill(pieces[6..], args, 2) == ")";
    assert Fill(pieces[5..], args, 1) == "10)";
    assert Fill(pieces[4..], args, 1) == " / 10)";
  }

  lemma EnglishProgressPieces()
    ensures FieldPieces(EnImagesLoadingProgressPieces) == 2
    ensures Fill(EnImagesLoadingProgressPieces, ["3", "10"], 0) == "Loading" + (" images..." + (" (Finished " + "3 / 10)"))
  {
    var pieces := EnImagesLoadingProgressPieces;
    var args := ["3", "10"];
    EnglishProgressTail();
    assert pieces[2..][1..] == pieces[3..] && pieces[1..][1..] == pieces[2..];
    assert Fill(pieces[2..], args, 0) == " (Finished " + "3 / 10)";
    assert Fill(pieces[1..], args, 0) == " images..." + (" (Finished " + "3 / 10)");
  }

  lemma EnglishProgressText()
    ensures "Loading" + (" images..." + (" (Finished " + "3 / 10)")) == "Loading images... (Finished 3 / 10)"
  {
  }

  lemma EnglishProgressFilled()
    ensures Fill(EnImagesLoadingProgressPieces, ["3", "10"], 0) == "Loading images... (Finished 3 / 10)"
  {
    EnglishProgressPieces();
    EnglishProgressText();
  }

  lemma EnglishProgressFormat()
    ensures Format(Concat(EnImagesLoadingProgressPieces), ["3", "10"]) == Ok("Loading images... (Finished 3 / 10)")
  {
    EnImagesLoadingProgressWellCut();
    EnglishProgressFilled();
    FormatFills(EnImagesLoadingProgressPieces, ["3", "10"], 0);
  }

  /** The key string of the progress message. */
  lemma ProgressKey()
    ensures "images_loading_progress" in KeyByName && KeyByName["images_loading_progress"] == ImagesLoadingProgress
  {
  }

  /** The progress message takes the finished and total counts in that order. */
  lemma ProgressMessage(key: string)
    requires key in KeyByName && KeyByName[key] == ImagesLoadingProgress
    ensures Translate(Some("en"), key, ["3", "10"]) == Ok("Loading images... (Finished 3 / 10)")
  {
    LookupKnownKey("en", key);
    assert En(ImagesLoadingProgress) == Concat(EnImagesLoadingProgressPieces);
    EnglishProgressFormat();
  }
}
