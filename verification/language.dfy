/** The archived LanguageAPI plugin (src/.archived/LanguageAPI/LanguageAPI.py):
    a table of messages per language, a current language, and lookups that
    fall back to it. */
module Language {
  import opened Basics
  import opened Dicts

  datatype LanguageError =
    | LanguageNotExistError(language: string)
    | MessageNotFindError(msgId: string)
    | IndexError                   // `list(data.keys())[0]` of an empty table

  /** A `Language` object: the table and the current language. */
  datatype Language = Language(data: Dict<Dict<string>>, current: string)

  /** `Language(language_data, language)`: without a language the first one
      in the table becomes current, which fails on an empty table. */
  function NewLanguage(data: Dict<Dict<string>>, language: Option<string>): (r: Result<Language, LanguageError>)
    ensures r.Err? <==> language.None? && |data| == 0
    ensures r.Err? ==> r.error == IndexError
    ensures r.Ok? ==> r.value.data == data
    ensures language.Some? ==> r == Ok(Language(data, language.value))
    ensures language.None? && |data| > 0 ==> r == Ok(Language(data, Keys(data)[0]))
  {
    match language
    case Some(l) => Ok(Language(data, l))
    case None => if |data| == 0 then Err(IndexError) else Ok(Language(data, data[0].0))
  }

  /** `set_language`: no check that the language exists. */
  function SetLanguage(lang: Language, language: string): (r: Language)
    ensures r.data == lang.data && r.current == language
  {
    lang.(current := language)
  }

  /** `get_msg_str`: the message for an id in the given language, or in the
      current one when none is given. */
  function GetMsgStr(lang: Language, msgId: string, language: Option<string>): (r: Result<string, LanguageError>)
    ensures var l := if language.Some? then language.value else lang.current;
            (Get(lang.data, l).None? <==> r == Err(LanguageNotExistError(l))) &&
            (Get(lang.data, l).Some? && Get(Get(lang.data, l).value, msgId).None? <==> r == Err(MessageNotFindError(msgId))) &&
            (r.Ok? <==> Get(lang.data, l).Some? && Get(Get(lang.data, l).value, msgId).Some?) &&
            (r.Ok? ==> r.value == Get(Get(lang.data, l).value, msgId).value)
  {
    var l := match language case Some(x) => x case None => lang.current;
    match Get(lang.data, l)
    case None => Err(LanguageNotExistError(l))
    case Some(messages) =>
      match Get(messages, msgId)
      case None => Err(MessageNotFindError(msgId))
      case Some(s) => Ok(s)
  }

  /** `language[msg_id]`. */
  function Lookup(lang: Language, msgId: string): (r: Result<string, LanguageError>)
    ensures r == GetMsgStr(lang, msgId, None)
  {
    GetMsgStr(lang, msgId, None)
  }

  /** Naming the current language explicitly changes nothing. */
  lemma CurrentIsDefault(lang: Language, msgId: string)
    ensures GetMsgStr(lang, msgId, Some(lang.current)) == Lookup(lang, msgId)
  {
  }

  /** Setting an unknown language is accepted; the error surfaces at the
      next lookup, whatever the message id. */
  lemma UnknownLanguageDeferred(lang: Language, language: string, msgId: string)
    requires !HasKey(lang.data, language)
    ensures Lookup(SetLanguage(lang, language), msgId) == Err(LanguageNotExistError(language))
  {
  }

  /** A table read with a language picked from it answers every id its
      entry holds; the default language is the table's first. */
  lemma {:induction false} DefaultIsFirst(data: Dict<Dict<string>>, msgId: string)
    requires |data| > 0 && HasKey(data[0].1, msgId)
    ensures NewLanguage(data, None).Ok?
    ensures Lookup(NewLanguage(data, None).value, msgId) == Ok(Get(data[0].1, msgId).value)
  {
    assert Get(data, data[0].0) == Some(data[0].1);
  }
}
