/** The data model shared by the application (types.ts): the closed set of
    CEFR difficulty levels, the two-speaker dialogue line, and the table of
    selectable synthesis voices. */
module Types {
  import opened Wrappers
  import opened Strings

  /** The CEFR levels offered, in declaration order. At run time each member
      is its string value, `Value()`. */
  datatype DifficultyLevel = A2 | B1 | B2 | C1 | C2 {

    /** The enum member's string value as declared. */
    function Value(): string {
      match this
      case A2 => "A2 - Elementary"
      case B1 => "B1 - Intermediate"
      case B2 => "B2 - Upper Intermediate"
      case C1 => "C1 - Advanced"
      case C2 => "C2 - Proficiency"
    }

    /** The two-character CEFR code that heads the value. */
    function Code(): string {
      match this
      case A2 => "A2"
      case B1 => "B1"
      case B2 => "B2"
      case C1 => "C1"
      case C2 => "C2"
    }

    /** The descriptive name that follows the code and `" - "`. */
    function Name(): string {
      match this
      case A2 => "Elementary"
      case B1 => "Intermediate"
      case B2 => "Upper Intermediate"
      case C1 => "Advanced"
      case C2 => "Proficiency"
    }
  }

  /** Every level, in declaration order (what `Object.values` yields). */
  const AllLevels: seq<DifficultyLevel> := [A2, B1, B2, C1, C2]

  /** The five codes, in the same order. */
  const LevelCodes: seq<string> := ["A2", "B1", "B2", "C1", "C2"]

  /** There are exactly five levels, each listed once, and the list is the codes' order. */
  lemma AllLevelsComplete()
    ensures |AllLevels| == 5
    ensures forall l: DifficultyLevel :: l in AllLevels
    ensures forall i, j :: 0 <= i < j < |AllLevels| ==> AllLevels[i] != AllLevels[j]
    ensures forall i :: 0 <= i < |AllLevels| ==> AllLevels[i].Code() == LevelCodes[i]
  {
    forall l: DifficultyLevel ensures l in AllLevels {
      match l
      case A2 => assert AllLevels[0] == l;
      case B1 => assert AllLevels[1] == l;
      case B2 => assert AllLevels[2] == l;
      case C1 => assert AllLevels[3] == l;
      case C2 => assert AllLevels[4] == l;
    }
  }

  /** Each value is its code, then `" - "`, then its name. */
  lemma LevelValueShape(l: DifficultyLevel)
    ensures l.Value() == l.Code() + " - " + l.Name()
    ensures |l.Code()| == 2 && l.Code() in LevelCodes
  {
    match l
    case A2 => assert "A2" + " - " + "Elementary" == "A2 - Elementary";
    case B1 => assert "B1" + " - " + "Intermediate" == "B1 - Intermediate";
    case B2 => assert "B2" + " - " + "Upper Intermediate" == "B2 - Upper Intermediate";
    case C1 => assert "C1" + " - " + "Advanced" == "C1 - Advanced";
    case C2 => assert "C2" + " - " + "Proficiency" == "C2 - Proficiency";
  }

  /** Distinct levels have distinct values. */
  lemma LevelValueInjective(l: DifficultyLevel, m: DifficultyLevel)
    ensures l.Value() == m.Value() <==> l == m
  {
    LevelValueShape(l);
    LevelValueShape(m);
    if l.Value() == m.Value() {
      assert l.Value()[..2] == l.Code();
      assert m.Value()[..2] == m.Code();
    }
  }

  /** A level value contains exactly one of the five codes: its own. */
  lemma LevelContainsOnlyItsCode(l: DifficultyLevel, code: string)
    requires code in LevelCodes
    ensures Contains(l.Value(), code) <==> code == l.Code()
  {
    if code == l.Code() {
      LevelValueShape(l);
      var rest := " - " + l.Name();
      assert l.Value() == code + rest;
      assert (code + rest)[0..|code|] == code;
      assert OccursAt(l.Value(), code, 0);
    } else {
      OtherCodeAbsent(l, code);
    }
  }

  /** The codes other than a level's own are absent from its value, because
      one of their two characters never occurs in it. */
  lemma OtherCodeAbsent(l: DifficultyLevel, code: string)
    requires code in LevelCodes && code != l.Code()
    ensures !Contains(l.Value(), code)
  {
    var j :| 0 <= j < |LevelCodes| && LevelCodes[j] == code;
    var k: nat :=
      match l
      case A2 => 0
      case B1 => if j == 2 then 1 else 0
      case B2 => if j == 1 then 1 else 0
      case C1 => if j == 1 || j == 2 then 0 else 1
      case C2 => if j == 3 then 1 else 0;
    CodeCharAbsent(l, j, k);
    NotContainsMissingChar(l.Value(), code, k);
  }

  /** Characters of the other codes that never occur in a level's value. */
  function Avoided(l: DifficultyLevel): set<char> {
    match l
    case A2 => {'B', 'C'}
    case B1 => {'A', 'C', '2'}
    case B2 => {'A', 'C', '1'}
    case C1 => {'B', '2'}
    case C2 => {'A', 'B', '1'}
  }

  /** The avoided characters are indeed absent from the value. */
  lemma ValueAvoids(l: DifficultyLevel, c: char)
    requires c in Avoided(l)
    ensures c !in l.Value()
  {
    match l
    case A2 => assert c !in "A2 - Elementary";
    case B1 => assert c !in "B1 - Intermediate";
    case B2 => assert c !in "B2 - Upper Intermediate";
    case C1 => assert c !in "C1 - Advanced";
    case C2 => assert c !in "C2 - Proficiency";
  }

  /** The character at position `k` of the `j`-th code, chosen as above, is
      one the level's value avoids. */
  lemma CodeCharAbsent(l: DifficultyLevel, j: nat, k: nat)
    requires j < |LevelCodes| && LevelCodes[j] != l.Code()
    requires k == match l
      case A2 => 0
      case B1 => if j == 2 then 1 else 0
      case B2 => if j == 1 then 1 else 0
      case C1 => if j == 1 || j == 2 then 0 else 1
      case C2 => if j == 3 then 1 else 0
    ensures k < |LevelCodes[j]| && LevelCodes[j][k] !in l.Value()
  {
    assert LevelCodes[j][k] in Avoided(l);
    ValueAvoids(l, LevelCodes[j][k]);
  }

  /** The two speaker identities a dialogue line may carry. */
  datatype Speaker = SpeakerA | SpeakerB {
    /** The literal the JSON and the script use for the speaker. */
    function Label(): string {
      match this
      case SpeakerA => "Speaker A"
      case SpeakerB => "Speaker B"
    }
  }

  /** The speaker a label names, if it is one of the two literals. */
  function SpeakerOfLabel(literal: string): (r: Option<Speaker>)
    ensures r.Some? <==> literal in {"Speaker A", "Speaker B"}
    ensures r.Some? ==> r.value.Label() == literal
  {
    if literal == "Speaker A" then Some(SpeakerA)
    else if literal == "Speaker B" then Some(SpeakerB)
    else None
  }

  /** Each speaker's label is one of the two literals, and reading it back gives the speaker. */
  lemma SpeakerLabelRoundTrip(s: Speaker)
    ensures s.Label() in {"Speaker A", "Speaker B"}
    ensures SpeakerOfLabel(s.Label()) == Some(s)
  {
  }

  /** One utterance of the conversation. */
  datatype DialogueLine = DialogueLine(speaker: Speaker, text: string)

  /** An entry of the voice table: the preset's name and the text shown for it. */
  datatype VoiceOption = VoiceOption(name: string, caption: string)

  /** The selectable voices, in table order. */
  const AvailableVoices: seq<VoiceOption> := [
    VoiceOption("Puck", "Puck (Masculino - Suave)"),
    VoiceOption("Charon", "Charon (Masculino - Profundo)"),
    VoiceOption("Kore", "Kore (Femenino - Calma)"),
    VoiceOption("Fenrir", "Fenrir (Masculino - Intenso)"),
    VoiceOption("Zephyr", "Zephyr (Femenino - Brillante)")
  ]

  /** The `name` fields of the voice table. */
  function VoiceNames(): set<string> {
    set v | v in AvailableVoices :: v.name
  }

  /** A voice name: any `name` of the voice table, and nothing else. */
  type VoiceName = s: string | s in VoiceNames() witness "Kore"

  /** The table has five entries with pairwise-distinct names. */
  lemma VoiceNamesDistinct()
    ensures |AvailableVoices| == 5
    ensures forall i, j :: 0 <= i < j < |AvailableVoices| ==> AvailableVoices[i].name != AvailableVoices[j].name
  {
  }

  /** Every caption begins with its entry's name. */
  lemma VoiceCaptionsStartWithName()
    ensures forall i :: 0 <= i < |AvailableVoices| ==> AvailableVoices[i].name <= AvailableVoices[i].caption
  {
  }

  /** The voice names are exactly the five presets. */
  lemma VoiceNamesExactly()
    ensures VoiceNames() == {"Puck", "Charon", "Kore", "Fenrir", "Zephyr"}
  {
    var names := VoiceNames();
    var table := AvailableVoices;
    forall x | x in names ensures x in {"Puck", "Charon", "Kore", "Fenrir", "Zephyr"} {
      var v :| v in table && v.name == x;
      var i :| 0 <= i < |table| && table[i] == v;
      assert i == 0 || i == 1 || i == 2 || i == 3 || i == 4;
    }
    assert table[0] in table && table[1] in table && table[2] in table;
    assert table[3] in table && table[4] in table;
    assert table[0].name in names && table[1].name in names && table[2].name in names;
    assert table[3].name in names && table[4].name in names;
  }
}
