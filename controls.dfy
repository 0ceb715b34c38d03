/** The settings form (Components/Controls.tsx): the suggestion shown for
    each level, the short level label, the option lists of the three selects
    and when the generate button is disabled. */
module Controls {
  import opened Wrappers
  import opened Strings
  import opened Types

  // ----- level guides -----

  /** The grammar and vocabulary suggested for a level. */
  datatype LevelGuide = LevelGuide(grammar: string, vocabulary: string)

  const LevelGuides: map<DifficultyLevel, LevelGuide> := map[
    A2 := LevelGuide(
      "Past Simple, Present Continuous (future), Comparatives, 'Going to', Adverbs of frequency",
      "Daily routines, family, shopping, weather, transport, hobbies"),
    B1 := LevelGuide(
      "Present Perfect, First/Second Conditional, Passive Voice (simple), Used to, Relative clauses",
      "Travel, health, feelings, education, work, entertainment"),
    B2 := LevelGuide(
      "Third Conditional, Future Continuous, Reported Speech, Modals of Deduction, Passive with modals",
      "Environment, technology, social issues, media, personality traits, crime"),
    C1 := LevelGuide(
      "Inversion, Mixed Conditionals, Cleft Sentences, Participle Clauses, Wishes/Regrets",
      "Idioms, phrasal verbs, abstract nouns, academic vocabulary, nuance"),
    C2 := LevelGuide(
      "Subjunctive, Stylistic Inversion, Discourse Markers, Hedging, Fronting",
      "Nuanced collocations, register-specific lexis, sophisticated idioms, archaic forms")
  ]

  /** The table has an entry for every level and for nothing else. */
  lemma LevelGuidesTotal()
    ensures LevelGuides.Keys == {A2, B1, B2, C1, C2}
    ensures forall l: DifficultyLevel :: l in LevelGuides
    ensures |LevelGuides| == 5
  {
    var keys := LevelGuides.Keys;
    assert keys == {A2, B1, B2, C1, C2};
    forall l: DifficultyLevel ensures l in keys {
      match l
      case A2 => case B1 => case B2 => case C1 => case C2 =>
    }
    assert |keys| == |LevelGuides|;
    CardinalityOfLevels();
  }

  /** The five levels are distinct. */
  lemma CardinalityOfLevels()
    ensures |{A2, B1, B2, C1, C2}| == 5
  {
    var s: set<DifficultyLevel> := {};
    assert |s + {A2}| == 1;
    assert |s + {A2} + {B1}| == 2;
    assert |s + {A2} + {B1} + {B2}| == 3;
    assert |s + {A2} + {B1} + {B2} + {C1}| == 4;
    assert s + {A2} + {B1} + {B2} + {C1} + {C2} == {A2, B1, B2, C1, C2};
  }

  /** `LEVEL_GUIDES[difficulty]`: the suggestion for the selected level,
      defined for every level. */
  function CurrentGuide(level: DifficultyLevel): (g: LevelGuide)
    ensures level in LevelGuides && g == LevelGuides[level]
    ensures g in LevelGuides.Values
  {
    LevelGuidesTotal();
    LevelGuides[level]
  }

  // ----- the short level label -----

  /** `difficulty.split(' - ')[0]`, shown after "Sugerencia": the bare
      code of the level. */
  function ShortLabel(level: DifficultyLevel): (r: string)
    ensures r == level.Code()
    ensures r in LevelCodes
  {
    LevelValueShape(level);
    var code := level.Code();
    assert ' ' !in code by {
      assert code[0] != ' ' && code[1] != ' ';
    }
    SplitFirstOf(code, " - ", level.Name());
    SplitFirst(level.Value(), " - ")
  }

  // ----- the generate button -----

  /** The generate button is disabled while generating (the button's
      `isLoading || disabled`) or when the topic trims to nothing. */
  function GenerateDisabled(topic: string, isGenerating: bool): (disabled: bool)
    ensures disabled <==> isGenerating || AllWhitespace(topic)
  {
    isGenerating || Trim(topic) == ""
  }

  /** A topic with any character other than whitespace enables the button
      when no generation is running. */
  lemma GenerateEnabledByAnyText(topic: string, i: nat)
    requires i < |topic| && !IsWhitespace(topic[i])
    ensures !GenerateDisabled(topic, false)
    ensures GenerateDisabled(topic, true)
  {
  }

  // ----- select options -----

  /** An `<option>`: the value it selects and the text it shows. */
  datatype SelectOption = SelectOption(value: string, text: string)

  /** The level select: one option per level value, in declaration order,
      showing the value itself. */
  function LevelOptions(): (r: seq<SelectOption>)
    ensures |r| == |AllLevels|
    ensures forall i :: 0 <= i < |r| ==> r[i] == SelectOption(AllLevels[i].Value(), AllLevels[i].Value())
  {
    seq(|AllLevels|, i requires 0 <= i < |AllLevels| => SelectOption(AllLevels[i].Value(), AllLevels[i].Value()))
  }

  /** `e.target.value as DifficultyLevel`: the level a selected value names. */
  function LevelOfValue(value: string): (r: Option<DifficultyLevel>)
    ensures r.Some? ==> r.value.Value() == value
  {
    if value == A2.Value() then Some(A2)
    else if value == B1.Value() then Some(B1)
    else if value == B2.Value() then Some(B2)
    else if value == C1.Value() then Some(C1)
    else if value == C2.Value() then Some(C2)
    else None
  }

  /** Every level is offered exactly once, and choosing its option selects it. */
  lemma LevelOptionsExactlyOnce(level: DifficultyLevel)
    ensures exists i :: 0 <= i < |LevelOptions()| && LevelOptions()[i].value == level.Value()
    ensures forall i, j :: 0 <= i < j < |LevelOptions()| ==> LevelOptions()[i].value != LevelOptions()[j].value
    ensures LevelOfValue(level.Value()) == Some(level)
  {
    AllLevelsComplete();
    var r := LevelOptions();
    var i := match level case A2 => 0 case B1 => 1 case B2 => 2 case C1 => 3 case C2 => 4;
    assert r[i].value == level.Value();
    forall i, j | 0 <= i < j < |r| ensures r[i].value != r[j].value {
      LevelValueInjective(AllLevels[i], AllLevels[j]);
    }
    match level
    case A2 =>
    case B1 => LevelValueInjective(B1, A2);
    case B2 => LevelValueInjective(B2, A2); LevelValueInjective(B2, B1);
    case C1 => LevelValueInjective(C1, A2); LevelValueInjective(C1, B1); LevelValueInjective(C1, B2);
    case C2 =>
      LevelValueInjective(C2, A2); LevelValueInjective(C2, B1);
      LevelValueInjective(C2, B2); LevelValueInjective(C2, C1);
  }

  /** Each voice select: one option per table entry, in table order, selecting
      the name and showing the caption. */
  function VoiceOptions(): (r: seq<SelectOption>)
    ensures |r| == |AvailableVoices|
    ensures forall i :: 0 <= i < |r| ==> r[i] == SelectOption(AvailableVoices[i].name, AvailableVoices[i].caption)
  {
    seq(|AvailableVoices|, i requires 0 <= i < |AvailableVoices| =>
      SelectOption(AvailableVoices[i].name, AvailableVoices[i].caption))
  }

  /** The voice options select exactly the voice names, each once, and each
      option's text begins with the name it selects. */
  lemma VoiceOptionsExactly()
    ensures (set o | o in VoiceOptions() :: o.value) == VoiceNames()
    ensures forall i, j :: 0 <= i < j < |VoiceOptions()| ==> VoiceOptions()[i].value != VoiceOptions()[j].value
    ensures forall i :: 0 <= i < |VoiceOptions()| ==> VoiceOptions()[i].value <= VoiceOptions()[i].text
  {
    var r := VoiceOptions();
    VoiceNamesDistinct();
    VoiceCaptionsStartWithName();
    forall x | x in VoiceNames() ensures x in set o | o in r :: o.value {
      var v :| v in AvailableVoices && v.name == x;
      var i :| 0 <= i < |AvailableVoices| && AvailableVoices[i] == v;
      assert r[i] in r;
    }
    forall x | x in (set o | o in r :: o.value) ensures x in VoiceNames() {
      var o :| o in r && o.value == x;
      var i :| 0 <= i < |r| && r[i] == o;
      assert AvailableVoices[i] in AvailableVoices;
    }
  }
}
