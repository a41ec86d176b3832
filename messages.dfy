/**
 * The incoming message as the three mode handlers read it
 * (handlers/normal_handler.py, handlers/chat_handler.py,
 * handlers/game_handler.py): each replies to a voice note, downloads and
 * transcribes it, and otherwise takes a text that is not a command.
 */
module Messages {
  import opened Wrappers
  import opened Text

  /**
   * An incoming message: a voice note with the transcription of it (`None`:
   * none came back), a voice note whose file could not be fetched
   * (`get_file` or `download_to_drive` raised), a text, or anything else.
   */
  datatype Message = VoiceNote(transcript: Option<string>) | UnfetchedVoiceNote | TextMessage(text: string) | OtherMessage

  /** What a handler makes of a message. */
  datatype Input = Answer(text: string) | Untranscribed | DownloadFailed | Ignored

  /**
   * A voice note whose transcription is empty or missing cannot be used; a
   * text counts only when it is non-empty and not a command; anything else
   * is ignored.
   */
  function SelectInput(m: Message): (i: Input)
    ensures i.Untranscribed? <==> m.VoiceNote? && (m.transcript.None? || m.transcript.value == "")
    ensures i.DownloadFailed? <==> m.UnfetchedVoiceNote?
    ensures i.Answer? && m.VoiceNote? ==> m.transcript == Some(i.text)
    ensures i.Answer? && m.TextMessage? ==> i.text == m.text
    ensures m.TextMessage? ==> (i.Answer? <==> m.text != "" && !StartsWith(m.text, "/"))
    ensures m.OtherMessage? ==> i.Ignored?
    ensures i.Answer? ==> i.text != ""
  {
    match m
    case VoiceNote(transcript) =>
      if transcript.None? || transcript.value == "" then Untranscribed else Answer(transcript.value)
    case UnfetchedVoiceNote => DownloadFailed
    case TextMessage(text) =>
      if text != "" && !StartsWith(text, "/") then Answer(text) else Ignored
    case OtherMessage => Ignored
  }

  const TranscribingText := "\U{1F399}\U{FE0F} I received your voice note. Transcribing..."
  const UntranscribedText := "Sorry, I couldn't transcribe your voice note. Please try again."

  /**
   * The replies every handler sends before it acts on a message it does not
   * use: a voice note is announced, an untranscribable one is apologised
   * for, and one that cannot be fetched raises after the announcement.
   */
  function UnusedReplies(i: Input): (r: seq<string>)
    ensures i.Ignored? ==> r == []
    ensures i.Untranscribed? || i.DownloadFailed? ==> r != [] && r[0] == TranscribingText
    ensures i.Untranscribed? ==> r == [TranscribingText, UntranscribedText]
    ensures i.DownloadFailed? ==> r == [TranscribingText]
    ensures i.Answer? ==> r == []
  {
    match i
    case Untranscribed => [TranscribingText, UntranscribedText]
    case DownloadFailed => [TranscribingText]
    case _ => []
  }
}
