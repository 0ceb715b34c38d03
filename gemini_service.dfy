/** Request shaping and the guards around the two calls to the generative
    service (services/geminiService.ts). The service itself is not modelled:
    each call is given as the outcome it produced, and the result records
    whether the request was sent at all. */
module GeminiService {
  import opened Wrappers
  import opened Strings
  import opened Types

  // ----- length instruction -----

  const ShortInstruction := "Keep it short and simple. Between 4 to 6 exchanges total."
  const ModerateInstruction := "Moderate length. Between 8 to 12 exchanges total."
  const InDepthInstruction := "In-depth discussion. Between 12 to 16 exchanges total."
  const DefaultInstruction := "Between 6 to 10 exchanges."

  /** The length instruction for a level string: the first code test that
      matches wins, in the order A2; B1 or B2; C1 or C2; otherwise the default. */
  function LengthInstruction(level: string): (r: string)
    ensures r in {ShortInstruction, ModerateInstruction, InDepthInstruction, DefaultInstruction}
    ensures r == DefaultInstruction <==> forall code :: code in LevelCodes ==> !Contains(level, code)
  {
    if Contains(level, "A2") then ShortInstruction
    else if Contains(level, "B1") || Contains(level, "B2") then ModerateInstruction
    else if Contains(level, "C1") || Contains(level, "C2") then InDepthInstruction
    else DefaultInstruction
  }

  /** The intended level-to-length table: fewer exchanges for lower levels. */
  function InstructionFor(l: DifficultyLevel): string {
    match l
    case A2 => ShortInstruction
    case B1 | B2 => ModerateInstruction
    case C1 | C2 => InDepthInstruction
  }

  /** For each of the five levels, the substring tests select the table's
      instruction, never the default. */
  lemma LengthInstructionOfLevel(l: DifficultyLevel)
    ensures LengthInstruction(l.Value()) == InstructionFor(l)
    ensures LengthInstruction(l.Value()) != DefaultInstruction
  {
    LevelContainsOnlyItsCode(l, "A2");
    LevelContainsOnlyItsCode(l, "B1");
    LevelContainsOnlyItsCode(l, "B2");
    LevelContainsOnlyItsCode(l, "C1");
    LevelContainsOnlyItsCode(l, "C2");
  }

  /** The tests are ordered and the first match wins. */
  lemma LengthInstructionFirstMatch(level: string)
    ensures Contains(level, "A2") ==> LengthInstruction(level) == ShortInstruction
    ensures !Contains(level, "A2") && (Contains(level, "B1") || Contains(level, "B2"))
      ==> LengthInstruction(level) == ModerateInstruction
    ensures !Contains(level, "A2") && !Contains(level, "B1") && !Contains(level, "B2")
      && (Contains(level, "C1") || Contains(level, "C2"))
      ==> LengthInstruction(level) == InDepthInstruction
  {
  }

  /** The fallback is reachable, but only from a string outside the enum. */
  lemma DefaultInstructionOnlyOutsideEnum(level: string)
    requires LengthInstruction(level) == DefaultInstruction
    ensures forall l: DifficultyLevel :: level != l.Value()
  {
    forall l: DifficultyLevel ensures level != l.Value() {
      LengthInstructionOfLevel(l);
    }
  }

  // ----- the text-generation prompt -----

  const Indent := "    "
  const GrammarDirective := "Target Grammar Structures (MUST INCLUDE): "
  const VocabularyDirective := "Target Vocabulary (MUST INCLUDE): "

  /** `${x ? `<directive>${x}` : ''}`: the directive line only for a non-empty input. */
  function OptionalLine(directive: string, x: string): string {
    if x != "" then directive + x else ""
  }

  /** A numbered instruction line of the template. */
  function Item(number: string, text: string): string {
    Indent + number + ". " + text
  }

  // The fixed texts of the template. The opening sentence is written in two
  // pieces so that its first character can be read off without expanding it.
  const OpeningText := "Create a realistic conversation dialogue" + " in English between two people (Speaker A and Speaker B)."
  const TopicLabel := "Context/Topic: "
  const LevelLabel := "English CEFR Level: "
  const InstructionsHeading := "Instructions:"
  const MatchLevelText := "Ensure the vocabulary and grammar strictly match the requested CEFR level ("
  const IncorporateText := "If target grammar or vocabulary was provided, try to incorporate it naturally into the conversation."
  const NaturalText := "Make it natural and educational for students."

  /** The lines of the prompt template, with the inputs interpolated. An
      absent grammar or vocabulary target leaves its line blank but indented. */
  function PromptLines(topic: string, level: string, instruction: string, grammar: string, vocabulary: string): (r: seq<string>)
    ensures |r| == 14
    ensures r[5] == Indent <==> grammar == ""
    ensures r[6] == Indent <==> vocabulary == ""
  {
    [ "",
      Indent + OpeningText,
      Indent,
      Indent + TopicLabel + topic,
      Indent + LevelLabel + level,
      Indent + OptionalLine(GrammarDirective, grammar),
      Indent + OptionalLine(VocabularyDirective, vocabulary),
      Indent,
      Indent + InstructionsHeading,
      Item("1", instruction),
      Item("2", MatchLevelText + level + ")."),
      Item("3", IncorporateText),
      Item("4", NaturalText),
      "  " ]
  }

  /** The prompt text: the template lines joined with newlines. It names the
      topic, the level and the length instruction chosen for the level. */
  function Prompt(topic: string, level: string, grammar: string, vocabulary: string): (r: string)
    ensures Contains(r, topic) && Contains(r, level) && Contains(r, LengthInstruction(level))
  {
    PromptMentions(topic, level, LengthInstruction(level), grammar, vocabulary);
    Join(PromptLines(topic, level, LengthInstruction(level), grammar, vocabulary), "\n")
  }

  /** The inputs of a text-generation request; the prompt sent is built
      from them, interpolating the level's value. */
  datatype TextRequest = TextRequest(topic: string, level: DifficultyLevel, grammar: string, vocabulary: string) {
    function PromptText(): string {
      Prompt(topic, level.Value(), grammar, vocabulary)
    }
  }

  /** The template line that begins with the grammar directive. */
  predicate HasGrammarLine(lines: seq<string>) {
    exists i | 0 <= i < |lines| :: Indent + GrammarDirective <= lines[i]
  }

  /** The template line that begins with the vocabulary directive. */
  predicate HasVocabularyLine(lines: seq<string>) {
    exists i | 0 <= i < |lines| :: Indent + VocabularyDirective <= lines[i]
  }

  /** A line that cannot begin with either directive: too short, or its
      fifth character is not the `T` of `Target`. */
  predicate NoDirectiveStart(line: string) {
    |line| < 5 || line[4] != 'T'
  }

  /** Every line of the template except the two optional ones is of that kind,
      whatever the topic and level. */
  lemma FixedLinesHaveNoDirective(topic: string, level: string, instruction: string, grammar: string, vocabulary: string)
    ensures forall i :: 0 <= i < 14 && i != 5 && i != 6 ==>
      NoDirectiveStart(PromptLines(topic, level, instruction, grammar, vocabulary)[i])
  {
    var lines := PromptLines(topic, level, instruction, grammar, vocabulary);
    assert lines[1][4] == OpeningText[0] == 'C';
    assert lines[3][4] == TopicLabel[0] == 'C';
    assert lines[4][4] == LevelLabel[0] == 'E';
    assert lines[8][4] == InstructionsHeading[0] == 'I';
    assert lines[9][4] == '1';
    assert lines[10][4] == '2';
    assert lines[11][4] == '3';
    assert lines[12][4] == '4';
  }

  /** A template line carries the grammar directive iff grammar is non-empty,
      and the vocabulary directive iff vocabulary is non-empty, whatever the
      topic and level. */
  lemma PromptDirectiveLines(topic: string, level: string, instruction: string, grammar: string, vocabulary: string)
    ensures HasGrammarLine(PromptLines(topic, level, instruction, grammar, vocabulary)) <==> grammar != ""
    ensures HasVocabularyLine(PromptLines(topic, level, instruction, grammar, vocabulary)) <==> vocabulary != ""
  {
    var lines := PromptLines(topic, level, instruction, grammar, vocabulary);
    var g, v := Indent + GrammarDirective, Indent + VocabularyDirective;
    assert g[4] == GrammarDirective[0] == 'T' && g[11] == GrammarDirective[7] == 'G';
    assert v[4] == VocabularyDirective[0] == 'T' && v[11] == VocabularyDirective[7] == 'V';
    FixedLinesHaveNoDirective(topic, level, instruction, grammar, vocabulary);
    assert |lines| == 14;
    assert forall i :: 0 <= i < 14 && NoDirectiveStart(lines[i]) ==> !(g <= lines[i]) && !(v <= lines[i]);
    if grammar == "" {
      assert lines[5] == Indent;
    } else {
      assert g <= lines[5];
      assert lines[5][11] == 'G';
    }
    if vocabulary == "" {
      assert lines[6] == Indent;
    } else {
      assert v <= lines[6];
      assert lines[6][11] == 'V';
    }
  }

  /** A string that ends one of the lines is held by their newline join. */
  lemma MentionInLine(lines: seq<string>, k: nat, pre: string, t: string)
    requires k < |lines| && lines[k] == pre + t
    ensures Contains(Join(lines, "\n"), t)
  {
    JoinContainsPart(lines, "\n", k);
    ContainsMiddle(pre, t, "");
    assert pre + t + "" == lines[k];
    ContainsWithin(Join(lines, "\n"), lines[k], t);
  }

  /** The joined template mentions the topic, the level, the length
      instruction and every non-empty grammar or vocabulary target. */
  lemma PromptMentions(topic: string, level: string, instruction: string, grammar: string, vocabulary: string)
    ensures var prompt := Join(PromptLines(topic, level, instruction, grammar, vocabulary), "\n");
      && Contains(prompt, topic)
      && Contains(prompt, level)
      && Contains(prompt, instruction)
      && (grammar != "" ==> Contains(prompt, GrammarDirective + grammar))
      && (vocabulary != "" ==> Contains(prompt, VocabularyDirective + vocabulary))
  {
    var lines := PromptLines(topic, level, instruction, grammar, vocabulary);
    MentionInLine(lines, 3, Indent + TopicLabel, topic);
    MentionInLine(lines, 4, Indent + LevelLabel, level);
    MentionInLine(lines, 9, Indent + "1" + ". ", instruction);
    if grammar != "" {
      MentionInLine(lines, 5, Indent, GrammarDirective + grammar);
    }
    if vocabulary != "" {
      MentionInLine(lines, 6, Indent, VocabularyDirective + vocabulary);
    }
  }

  /** The prompt sent for one of the enum's levels names the topic and the
      level, asks for that level's length from the table, and carries a
      directive line exactly for each non-empty target. */
  lemma RequestPrompt(req: TextRequest)
    ensures var lines := PromptLines(req.topic, req.level.Value(), InstructionFor(req.level), req.grammar, req.vocabulary);
      && req.PromptText() == Join(lines, "\n")
      && Contains(req.PromptText(), req.topic)
      && Contains(req.PromptText(), req.level.Value())
      && Contains(req.PromptText(), InstructionFor(req.level))
      && (HasGrammarLine(lines) <==> req.grammar != "")
      && (HasVocabularyLine(lines) <==> req.vocabulary != "")
  {
    LengthInstructionOfLevel(req.level);
    PromptMentions(req.topic, req.level.Value(), InstructionFor(req.level), req.grammar, req.vocabulary);
    PromptDirectiveLines(req.topic, req.level.Value(), InstructionFor(req.level), req.grammar, req.vocabulary);
  }

  // ----- the speech-synthesis script -----

  /** `${line.speaker}: ${line.text}`; the line determines its speaker and text. */
  function ScriptLine(line: DialogueLine): (r: string)
    ensures ParseScriptLine(r) == Some(line)
  {
    var prefix := line.speaker.Label() + ": ";
    var r := prefix + line.text;
    assert r[..11] == prefix;
    assert r[11..] == line.text;
    assert line.speaker == SpeakerB ==> r[8] == 'B';
    r
  }

  /** `lines.map(ScriptLine)` */
  function ScriptLines(lines: seq<DialogueLine>): (r: seq<string>)
    ensures |r| == |lines|
    ensures forall k :: 0 <= k < |lines| ==> r[k] == ScriptLine(lines[k])
  {
    seq(|lines|, k requires 0 <= k < |lines| => ScriptLine(lines[k]))
  }

  /** The script sent for synthesis: one `speaker: text` line per dialogue
      line, joined with newlines. */
  function Script(lines: seq<DialogueLine>): (r: string)
    ensures r == "" <==> lines == []
  {
    var parts := ScriptLines(lines);
    assert |lines| > 0 ==> |Join(parts, "\n")| >= |parts[0]| > 0;
    Join(parts, "\n")
  }

  /** An empty dialogue gives the empty script, one line gives no separator,
      and a longer dialogue is its first line, a newline, and the rest's script. */
  lemma ScriptShape(lines: seq<DialogueLine>)
    ensures |lines| == 0 ==> Script(lines) == ""
    ensures |lines| == 1 ==> Script(lines) == ScriptLine(lines[0])
    ensures |lines| > 1 ==> Script(lines) == ScriptLine(lines[0]) + "\n" + Script(lines[1..])
  {
    if |lines| > 1 {
      assert ScriptLines(lines)[1..] == ScriptLines(lines[1..]);
    }
  }

  /** Reads one script line back into a dialogue line. */
  function ParseScriptLine(s: string): Option<DialogueLine> {
    if "Speaker A: " <= s then Some(DialogueLine(SpeakerA, s[11..]))
    else if "Speaker B: " <= s then Some(DialogueLine(SpeakerB, s[11..]))
    else None
  }

  /** Reads every line of a script back, failing if any line is not a script line. */
  function ParseScriptLines(parts: seq<string>): Option<seq<DialogueLine>> {
    if |parts| == 0 then Some([])
    else
      match (ParseScriptLine(parts[0]), ParseScriptLines(parts[1..]))
      case (Some(l), Some(rest)) => Some([l] + rest)
      case _ => None
  }

  /** Reads a script back into dialogue lines (the empty script is the empty dialogue). */
  function ParseScript(s: string): Option<seq<DialogueLine>> {
    if s == "" then Some([]) else ParseScriptLines(Split(s, '\n'))
  }

  lemma {:induction false} ParseScriptLinesRoundTrip(lines: seq<DialogueLine>)
    ensures ParseScriptLines(ScriptLines(lines)) == Some(lines)
  {
    if |lines| > 0 {
      assert ScriptLines(lines)[1..] == ScriptLines(lines[1..]);
      ParseScriptLinesRoundTrip(lines[1..]);
      assert [lines[0]] + lines[1..] == lines;
    }
  }

  /** The script determines the dialogue: when no text holds a newline,
      reading the script back gives the lines, speakers and texts, in order. */
  lemma ScriptRoundTrip(lines: seq<DialogueLine>)
    requires forall k :: 0 <= k < |lines| ==> '\n' !in lines[k].text
    ensures ParseScript(Script(lines)) == Some(lines)
  {
    var parts := ScriptLines(lines);
    if |lines| > 0 {
      forall k | 0 <= k < |parts| ensures '\n' !in parts[k] {
        assert parts[k] == lines[k].speaker.Label() + ": " + lines[k].text;
        assert '\n' !in lines[k].speaker.Label() + ": ";
      }
      SplitJoin(parts, '\n');
      ParseScriptLinesRoundTrip(lines);
    }
  }

  // ----- the guarded calls -----

  const MissingKeyMessage := "API Key is missing"
  const NoContentMessage := "No content generated"
  const NoAudioMessage := "No audio data returned"

  /** What the text-generation service answered: the response text (the empty
      string when absent) and what `JSON.parse` made of it, cast unchecked to
      dialogue lines. */
  datatype TextResponse = TextResponse(text: string, parsed: Outcome<seq<DialogueLine>>)

  /** The synthesis request: the script and the voice configured for each speaker. */
  datatype SpeechRequest = SpeechRequest(script: string, voiceA: string, voiceB: string)

  /** A guarded call: the request sent to the service (None when a guard threw
      before the call) and the outcome the caller observes. */
  datatype ServiceCall<Q, T> = ServiceCall(request: Option<Q>, result: Outcome<T>)

  /** The `try` block of `generateDialogueText` after the call: an empty or
      absent text is rejected, otherwise the parsed value is passed through
      unchanged; a thrown error is rethrown as it is. */
  function TextResult(response: Outcome<TextResponse>): (r: Outcome<seq<DialogueLine>>)
    ensures r.Returned? <==> response.Returned? && response.value.text != "" && response.value.parsed.Returned?
    ensures r.Returned? ==> r.value == response.value.parsed.value
    ensures response.Returned? && response.value.text == "" ==> r == Threw(NoContentMessage)
    ensures response.Threw? ==> r == Threw(response.message)
    ensures response.Returned? && response.value.text != "" ==> r == response.value.parsed
  {
    match response
    case Threw(m) => Threw(m)
    case Returned(reply) =>
      if reply.text == "" then Threw(NoContentMessage) else reply.parsed
  }

  /** `generateDialogueText`, given the service's answer to the prompt: with
      no key it throws before sending anything; otherwise it sends the prompt
      and yields what the `try` block makes of the answer. */
  function GenerateDialogueText(apiKey: string, topic: string, level: DifficultyLevel,
                                grammar: string, vocabulary: string,
                                response: Outcome<TextResponse>): (c: ServiceCall<TextRequest, seq<DialogueLine>>)
    ensures apiKey == "" ==> c == ServiceCall(None, Threw(MissingKeyMessage))
    ensures apiKey != "" ==> c.request == Some(TextRequest(topic, level, grammar, vocabulary))
    ensures apiKey != "" ==> c.result == TextResult(response)
  {
    if apiKey == "" then ServiceCall(None, Threw(MissingKeyMessage))
    else
      ServiceCall(Some(TextRequest(topic, level, grammar, vocabulary)), TextResult(response))
  }

  /** `generateDialogueAudio`, given the inline audio data of the service's
      answer (the empty string when any step of the path to it is absent). */
  function GenerateDialogueAudio(apiKey: string, lines: seq<DialogueLine>,
                                 voiceA: string, voiceB: string,
                                 response: Outcome<string>): (c: ServiceCall<SpeechRequest, string>)
    ensures apiKey == "" <==> c.request.None?
    ensures apiKey == "" ==> c.result == Threw(MissingKeyMessage)
    ensures apiKey != "" ==> c.request == Some(SpeechRequest(Script(lines), voiceA, voiceB))
    ensures c.result.Returned? <==> apiKey != "" && response.Returned? && response.value != ""
    ensures c.result.Returned? ==> c.result.value == response.value
    ensures apiKey != "" && response == Returned("") ==> c.result == Threw(NoAudioMessage)
    ensures apiKey != "" && response.Threw? ==> c.result == Threw(response.message)
  {
    if apiKey == "" then ServiceCall(None, Threw(MissingKeyMessage))
    else
      var request := SpeechRequest(Script(lines), voiceA, voiceB);
      var result :=
        match response
        case Threw(m) => Threw(m)
        case Returned(data) =>
          if data == "" then Threw(NoAudioMessage) else Returned(data);
      ServiceCall(Some(request), result)
  }
}
