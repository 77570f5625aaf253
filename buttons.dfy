/** `handle_button` (telegram_bot/tlbot.py, lines 143-176): a branch on the
    text of the pressed button that reads, and never writes, `user_data`. */
module Buttons {
  import opened Options
  import opened Session

  const SendVoiceLabel: string := "ارسال ویس"
  const GetQuoteLabel: string := "دریافت نقل\U{200C}قول"
  const TranslateLabel: string := "ترجمه به انگلیسی"
  const HelpLabel: string := "کمک"
  const SettingsLabel: string := "تنظیمات"
  const BackLabel: string := "بازگشت به حالت اول"

  /** The six texts `handle_button` answers. */
  function Labels(): set<string>
  {
    {SendVoiceLabel, GetQuoteLabel, TranslateLabel, HelpLabel, SettingsLabel, BackLabel}
  }

  /** The reply to the text `text`, given the user's `user_data` and the
      translation service; `None` when no branch matches and nothing is
      sent. */
  function HandleButton(text: string, userData: map<string, string>, translate: string -> string): (r: Option<Reply>)
    ensures r.None? <==> text !in Labels()
    ensures (r.Some? && r.value.Translation?) <==> (text == TranslateLabel && LastTextKey in userData)
    ensures r.Some? && r.value.Translation? ==> r.value.text == translate(userData[LastTextKey])
    ensures r == Some(NothingToTranslate) <==> (text == TranslateLabel && LastTextKey !in userData)
  {
    if text == SendVoiceLabel then Some(AskForVoice)
    else if text == GetQuoteLabel then Some(Quote)
    else if text == TranslateLabel then
      if LastTextKey in userData then Some(Translation(translate(userData[LastTextKey])))
      else Some(NothingToTranslate)
    else if text == HelpLabel then Some(Help)
    else if text == SettingsLabel then Some(SettingsUnavailable)
    else if text == BackLabel then Some(BackToStart)
    else None
  }

  /** The reply depends on `user_data` only through the `last_text` entry. */
  lemma ReadsOnlyLastText(text: string, u1: map<string, string>, u2: map<string, string>, translate: string -> string)
    requires LastTextKey in u1 <==> LastTextKey in u2
    requires LastTextKey in u1 ==> u1[LastTextKey] == u2[LastTextKey]
    ensures HandleButton(text, u1, translate) == HandleButton(text, u2, translate)
  {
  }

  /** Every button other than the translate button answers the same whatever
      the session holds. */
  lemma OtherButtonsIgnoreSession(text: string, u1: map<string, string>, u2: map<string, string>, translate: string -> string)
    requires text != TranslateLabel
    ensures HandleButton(text, u1, translate) == HandleButton(text, u2, translate)
  {
  }
}
