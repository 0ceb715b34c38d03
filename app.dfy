/** The application state and its handlers (App.tsx): the dark-mode switch
    and the two generation cycles, each of which sets its loading flag,
    clears the error, calls the service and then records either the result
    or an error message. The service's answers are parameters; the helper
    that wraps raw audio into a playable URL is a function parameter too. */
module App {
  import opened Wrappers
  import opened Types
  import GeminiService

  const DialogueFallback := "Error al generar el diálogo. Por favor intenta de nuevo."
  const AudioFallback := "Error al generar el audio. Por favor intenta de nuevo."

  /** `err.message || fallback`: the error's own message unless it is empty. */
  function ErrorMessage(message: string, fallback: string): (r: string)
    ensures r == message || r == fallback
    ensures r == "" <==> message == "" && fallback == ""
  {
    if message != "" then message else fallback
  }

  /** With either fallback text, every failure leaves a non-empty message, so
      the error banner is shown; a non-empty message is shown as it is. */
  lemma ErrorMessageShown(message: string)
    ensures ErrorMessage(message, DialogueFallback) != ""
    ensures ErrorMessage(message, AudioFallback) != ""
    ensures message != "" ==> ErrorMessage(message, DialogueFallback) == message
    ensures message != "" ==> ErrorMessage(message, AudioFallback) == message
  {
    assert |DialogueFallback| > 0 && |AudioFallback| > 0;
  }

  class AppState {
    var topic: string
    var grammar: string
    var vocabulary: string
    var difficulty: DifficultyLevel
    var voiceA: VoiceName
    var voiceB: VoiceName
    var dialogueLines: seq<DialogueLine>
    var audioUrl: Option<string>
    var isGeneratingText: bool
    var isGeneratingAudio: bool
    var error: Option<string>
    var darkMode: bool
    /** The lines the current audio was synthesised from. */
    ghost var audioSource: seq<DialogueLine>

    /** Audio is only ever present for the lines on screen, and then there
        are some. */
    ghost predicate Valid()
      reads this
    {
      audioUrl.Some? ==> audioSource == dialogueLines && |dialogueLines| > 0
    }

    /** The dialogue view is rendered instead of the empty work area exactly
        when there are lines. */
    predicate ShowsDialogueView()
      reads this
    {
      |dialogueLines| > 0
    }

    /** Audio never outlives the dialogue view it belongs to. */
    lemma AudioImpliesDialogueView()
      requires Valid()
      ensures audioUrl.Some? ==> ShowsDialogueView()
    {
    }

    /** The initial state; the dark-mode preference comes from the browser. */
    constructor (prefersDark: bool)
      ensures Valid()
      ensures topic == "" && grammar == "" && vocabulary == ""
      ensures difficulty == B1 && voiceA == "Kore" && voiceB == "Fenrir"
      ensures dialogueLines == [] && audioUrl == None && error == None
      ensures !isGeneratingText && !isGeneratingAudio
      ensures darkMode == prefersDark
    {
      VoiceNamesExactly();
      topic := "";
      grammar := "";
      vocabulary := "";
      difficulty := B1;
      voiceA := "Kore";
      voiceB := "Fenrir";
      dialogueLines := [];
      audioUrl := None;
      isGeneratingText := false;
      isGeneratingAudio := false;
      error := None;
      darkMode := prefersDark;
      audioSource := [];
    }

    /** `toggleDarkMode`: the theme flips and nothing else changes. */
    method ToggleDarkMode()
      requires Valid()
      modifies this
      ensures Valid()
      ensures darkMode == !old(darkMode)
      ensures topic == old(topic) && grammar == old(grammar) && vocabulary == old(vocabulary)
      ensures difficulty == old(difficulty) && voiceA == old(voiceA) && voiceB == old(voiceB)
      ensures dialogueLines == old(dialogueLines) && audioUrl == old(audioUrl) && error == old(error)
      ensures isGeneratingText == old(isGeneratingText) && isGeneratingAudio == old(isGeneratingAudio)
      ensures audioSource == old(audioSource)
    {
      darkMode := !darkMode;
    }

    /** Toggling twice restores the theme. */
    method ToggleDarkModeTwice()
      requires Valid()
      modifies this
      ensures Valid()
      ensures darkMode == old(darkMode)
      ensures dialogueLines == old(dialogueLines) && audioUrl == old(audioUrl) && error == old(error)
    {
      ToggleDarkMode();
      ToggleDarkMode();
    }

    /** The state updates `handleGenerateDialogue` makes before the call:
        loading, no error, no audio and no lines. */
    method BeginDialogueGeneration()
      requires Valid()
      modifies this
      ensures Valid()
      ensures isGeneratingText && error == None && audioUrl == None && dialogueLines == []
      ensures !ShowsDialogueView()
      ensures topic == old(topic) && grammar == old(grammar) && vocabulary == old(vocabulary)
      ensures difficulty == old(difficulty) && voiceA == old(voiceA) && voiceB == old(voiceB)
      ensures isGeneratingAudio == old(isGeneratingAudio) && darkMode == old(darkMode)
    {
      isGeneratingText := true;
      error := None;
      audioUrl := None;
      dialogueLines := [];
    }

    /** The `try`/`catch`/`finally` after the call: the returned lines are
        shown, or the error's message (or the fallback text) is recorded;
        either way loading ends. */
    method FinishDialogueGeneration(result: Outcome<seq<DialogueLine>>)
      requires Valid() && audioUrl == None && dialogueLines == []
      modifies this
      ensures Valid()
      ensures !isGeneratingText && audioUrl == None
      ensures result.Returned? ==> dialogueLines == result.value && error == old(error)
      ensures result.Threw? ==> dialogueLines == [] && error == Some(ErrorMessage(result.message, DialogueFallback))
      ensures result.Threw? ==> error.Some? && error.value != ""
      ensures topic == old(topic) && grammar == old(grammar) && vocabulary == old(vocabulary)
      ensures difficulty == old(difficulty) && voiceA == old(voiceA) && voiceB == old(voiceB)
      ensures isGeneratingAudio == old(isGeneratingAudio) && darkMode == old(darkMode)
    {
      match result {
        case Returned(lines) =>
          dialogueLines := lines;
        case Threw(message) =>
          ErrorMessageShown(message);
          error := Some(ErrorMessage(message, DialogueFallback));
      }
      isGeneratingText := false;
    }

    /** `handleGenerateDialogue` with the service's answer to the prompt:
        the request (None when the key check threw first) is returned, the
        lines are the returned ones on success, and on failure there are no
        lines and the error banner shows the message. Audio is always gone. */
    method HandleGenerateDialogue(apiKey: string, response: Outcome<GeminiService.TextResponse>)
      returns (request: Option<GeminiService.TextRequest>)
      requires Valid()
      modifies this
      ensures Valid()
      ensures topic == old(topic) && grammar == old(grammar) && vocabulary == old(vocabulary)
      ensures difficulty == old(difficulty) && voiceA == old(voiceA) && voiceB == old(voiceB)
      ensures isGeneratingAudio == old(isGeneratingAudio) && darkMode == old(darkMode)
      ensures !isGeneratingText && audioUrl == None
      ensures apiKey == "" ==> request == None
      ensures apiKey != "" ==> request == Some(GeminiService.TextRequest(topic, difficulty, grammar, vocabulary))
      ensures apiKey == "" ==> dialogueLines == [] && error == Some(GeminiService.MissingKeyMessage)
      ensures apiKey != "" ==>
        var result := GeminiService.TextResult(response);
        && (result.Returned? ==> dialogueLines == result.value && error == None)
        && (result.Threw? ==> dialogueLines == [] && error == Some(ErrorMessage(result.message, DialogueFallback)))
    {
      BeginDialogueGeneration();
      var call := GeminiService.GenerateDialogueText(apiKey, topic, difficulty, grammar, vocabulary, response);
      request := call.request;
      FinishDialogueGeneration(call.result);
    }

    /** `handleGenerateAudio` with the service's answer and the helper that
        turns base64 audio into a URL (which may itself throw). With no lines
        nothing happens. Otherwise the lines are kept, a successful run
        replaces the audio with audio of these lines, a failed one keeps the
        previous audio and records the message, and loading ends. */
    method HandleGenerateAudio(apiKey: string, response: Outcome<string>,
                               toWavUrl: string -> Outcome<string>)
      returns (request: Option<GeminiService.SpeechRequest>)
      requires Valid()
      modifies this
      ensures Valid()
      ensures old(dialogueLines) == [] ==> unchanged(this) && request == None
      ensures dialogueLines == old(dialogueLines)
      ensures topic == old(topic) && grammar == old(grammar) && vocabulary == old(vocabulary)
      ensures difficulty == old(difficulty) && voiceA == old(voiceA) && voiceB == old(voiceB)
      ensures isGeneratingText == old(isGeneratingText) && darkMode == old(darkMode)
      ensures isGeneratingAudio == (old(dialogueLines) == [] && old(isGeneratingAudio))
      ensures old(dialogueLines) != [] && apiKey == "" ==>
        request == None && audioUrl == old(audioUrl) && error == Some(GeminiService.MissingKeyMessage)
      ensures old(dialogueLines) != [] && apiKey != "" ==>
        request == Some(GeminiService.SpeechRequest(GeminiService.Script(dialogueLines), voiceA, voiceB))
      ensures audioUrl != old(audioUrl) ==> audioSource == dialogueLines
      ensures old(dialogueLines) != [] && apiKey != "" ==>
        var result := GeminiService.GenerateDialogueAudio(apiKey, dialogueLines, voiceA, voiceB, response).result;
        match result
        case Threw(m) => audioUrl == old(audioUrl) && error == Some(ErrorMessage(m, AudioFallback))
        case Returned(data) =>
          match toWavUrl(data)
          case Returned(url) => audioUrl == Some(url) && error == None
          case Threw(m) => audioUrl == old(audioUrl) && error == Some(ErrorMessage(m, AudioFallback))
    {
      if |dialogueLines| == 0 {
        request := None;
        return;
      }
      isGeneratingAudio := true;
      error := None;
      var call := GeminiService.GenerateDialogueAudio(apiKey, dialogueLines, voiceA, voiceB, response);
      request := call.request;
      FinishAudioGeneration(call.result, toWavUrl);
    }

    /** The `try`/`catch`/`finally` after the synthesis call: the audio data
        is wrapped into a URL, which replaces the audio, or the error's message
        (or the fallback text) is recorded and the previous audio kept; either
        way loading ends and the lines stay. */
    method FinishAudioGeneration(result: Outcome<string>, toWavUrl: string -> Outcome<string>)
      requires Valid() && |dialogueLines| > 0
      modifies this
      ensures Valid()
      ensures dialogueLines == old(dialogueLines) && !isGeneratingAudio
      ensures topic == old(topic) && grammar == old(grammar) && vocabulary == old(vocabulary)
      ensures difficulty == old(difficulty) && voiceA == old(voiceA) && voiceB == old(voiceB)
      ensures isGeneratingText == old(isGeneratingText) && darkMode == old(darkMode)
      ensures audioUrl != old(audioUrl) ==> audioSource == dialogueLines
      ensures match result
        case Threw(m) => audioUrl == old(audioUrl) && error == Some(ErrorMessage(m, AudioFallback))
        case Returned(data) =>
          match toWavUrl(data)
          case Returned(url) => audioUrl == Some(url) && error == old(error)
          case Threw(m) => audioUrl == old(audioUrl) && error == Some(ErrorMessage(m, AudioFallback))
    {
      match result {
        case Returned(data) =>
          match toWavUrl(data) {
            case Returned(url) =>
              audioUrl := Some(url);
              audioSource := dialogueLines;
            case Threw(message) =>
              error := Some(ErrorMessage(message, AudioFallback));
          }
        case Threw(message) =>
          error := Some(ErrorMessage(message, AudioFallback));
      }
      isGeneratingAudio := false;
    }
  }
}
