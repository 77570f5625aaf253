/** What the bot says back, and the per-user store `context.user_data`
    (telegram_bot/tlbot.py, lines 107 and 155-156). */
module Session {

  /** The replies of `handle_voice` and `handle_button`, by kind.  The
      keyboards attached to them and the free text of an error are not kept. */
  datatype Reply =
    // handle_voice
    | NoVoiceFile              // line 51
    | Processing               // line 59
    | TranscriptReply(text: string)  // line 104
    | TranslateOffer           // lines 110-117, with the translate keyboard
    | VoiceError               // line 120
    // handle_button
    | AskForVoice              // line 148
    | Quote                    // line 151, a randomly chosen quote
    | Translation(text: string)  // lines 39-43
    | NothingToTranslate       // line 158
    | Help                     // line 161
    | SettingsUnavailable      // line 164
    | BackToStart              // lines 167-176, with the main keyboard

  /** The one key the bot keeps in `user_data`. */
  const LastTextKey: string := "last_text"

  /** The `user_data` dictionary of one user, updated in place by
      `handle_voice`. */
  class UserSession {
    var userData: map<string, string>

    constructor ()
      ensures userData == map[]
    {
      userData := map[];
    }
  }
}
