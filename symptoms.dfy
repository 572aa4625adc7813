/**
 The emergency heuristic `checkForCriticalSymptoms`: a case-insensitive
 substring test over a fixed Russian vocabulary in three groups.
 */
module Symptoms {
  import opened Text
  import opened LetterCase

  /** "temperature" */
  const TemperatureWord: string := "температура"
  /** The numbers 40 to 45, matched as substrings, not as whole numbers. */
  const TemperatureTokens: seq<string> := ["40", "41", "42", "43", "44", "45"]
  /** shortness of breath, laboured breathing, hard to breathe */
  const BreathingPhrases: seq<string> := ["одышка", "затрудненное дыхание", "тяжело дышать"]
  /** severe pain, chest pain, acute pain */
  const PainPhrases: seq<string> := ["сильная боль", "боль в груди", "острая боль"]

  /** Temperature group, tested on an already lower-cased message. */
  predicate HighTemperature(lower: string) {
    Contains(lower, TemperatureWord) && exists t :: t in TemperatureTokens && Contains(lower, t)
  }

  /** Breathing group, tested on an already lower-cased message. */
  predicate BreathingDistress(lower: string) {
    exists p :: p in BreathingPhrases && Contains(lower, p)
  }

  /** Pain group, tested on an already lower-cased message. */
  predicate SeverePain(lower: string) {
    exists p :: p in PainPhrases && Contains(lower, p)
  }

  /**
   `checkForCriticalSymptoms(message)`: lower-case the message, then try the
   temperature, breathing and pain groups in turn; the flag starts false and
   is set to true by the first group that matches. The chain of `else if`
   branches is the same as a plain disjunction of the three groups.
   */
  function CheckForCriticalSymptoms(message: string): (emergency: bool)
    ensures emergency <==>
      HighTemperature(Lower(message)) || BreathingDistress(Lower(message)) || SeverePain(Lower(message))
  {
    var lowerMessage := Lower(message);
    var emergency := false;
    SomeContainedIff(lowerMessage, TemperatureTokens);
    if Contains(lowerMessage, TemperatureWord) && SomeContained(lowerMessage, TemperatureTokens) then
      true
    else if Contains(lowerMessage, "одышка")
      || Contains(lowerMessage, "затрудненное дыхание")
      || Contains(lowerMessage, "тяжело дышать") then
      true
    else if Contains(lowerMessage, "сильная боль")
      || Contains(lowerMessage, "боль в груди")
      || Contains(lowerMessage, "острая боль") then
      true
    else
      emergency
  }

  /** Every keyword of the vocabulary. */
  predicate IsKeyword(k: string) {
    k == TemperatureWord || k in TemperatureTokens || k in BreathingPhrases || k in PainPhrases
  }

  lemma TemperatureKeywordsAreLowerCase()
    ensures IsLowerCase(TemperatureWord)
    ensures forall t :: t in TemperatureTokens ==> IsLowerCase(t)
  {
  }

  lemma BreathingPhrasesAreLowerCase()
    ensures forall p :: p in BreathingPhrases ==> IsLowerCase(p)
  {
  }

  lemma PainPhrasesAreLowerCase()
    ensures forall p :: p in PainPhrases ==> IsLowerCase(p)
  {
  }

  /**
   Every keyword is already in lower case and is not empty, so lower-casing
   the message is all it takes to make the test case-insensitive.
   */
  lemma KeywordsAreLowerCase(k: string)
    requires IsKeyword(k)
    ensures Lower(k) == k && k != ""
  {
    TemperatureKeywordsAreLowerCase();
    BreathingPhrasesAreLowerCase();
    PainPhrasesAreLowerCase();
    LowerFixesLowerCase(k);
  }

  /** The result depends on the message only through its lower-case form. */
  lemma DetectionIgnoresCase(message: string)
    ensures CheckForCriticalSymptoms(Lower(message)) == CheckForCriticalSymptoms(message)
    ensures CheckForCriticalSymptoms(Upper(message)) == CheckForCriticalSymptoms(message)
  {
    LowerIdempotent(message);
    LowerOfUpper(message);
  }

  /**
   A breathing or pain phrase written in any mixture of capitals and small
   letters raises the flag wherever it occurs in the message.
   */
  lemma PhraseInAnyCaseTriggers(message: string, phrase: string)
    requires Contains(message, phrase)
    requires Lower(phrase) in BreathingPhrases || Lower(phrase) in PainPhrases
    ensures CheckForCriticalSymptoms(message)
  {
    ContainsLower(message, phrase);
  }

  /**
   The temperature word, written in any case, together with any of the
   numbers 40 to 45 raises the flag.
   */
  lemma TemperatureInAnyCaseTriggers(message: string, word: string, number: string)
    requires Contains(message, word) && Lower(word) == TemperatureWord
    requires Contains(message, number) && number in TemperatureTokens
    ensures CheckForCriticalSymptoms(message)
  {
    ContainsLower(message, word);
    ContainsLower(message, number);
    KeywordsAreLowerCase(number);
  }

  /**
   The temperature word without any of the substrings "40" to "45", and with
   no breathing or pain phrase, leaves the flag false.
   */
  lemma TemperatureWithoutNumberIsSafe(message: string)
    requires Contains(Lower(message), TemperatureWord)
    requires forall t :: t in TemperatureTokens ==> !Contains(Lower(message), t)
    requires !BreathingDistress(Lower(message)) && !SeverePain(Lower(message))
    ensures !CheckForCriticalSymptoms(message)
  {
  }

  /**
   A message with no digit `4` never matches the temperature group, whatever
   else it says.
   */
  lemma NoFourNoTemperature(message: string)
    requires '4' !in message
    ensures !HighTemperature(Lower(message))
  {
    NotInLower(message, '4');
    forall t | t in TemperatureTokens
      ensures !Contains(Lower(message), t)
    {
      assert '4' in t;
      if Contains(Lower(message), t) {
        ContainsChar(Lower(message), t, '4');
      }
    }
  }

  /**
   The numbers are matched as substrings: "140" and "4000" contain "40", so
   they trigger together with the temperature word.
   */
  lemma NumbersMatchAsSubstrings(p: string, q: string)
    ensures CheckForCriticalSymptoms(p + TemperatureWord + " 140" + q)
  {
    var word := TemperatureWord;
    var m := p + word + " 140" + q;
    ContainsSelf(word);
    ContainsExtend(p, word, " 140" + q, word);
    assert p + word + (" 140" + q) == m;
    ContainsSelf("40");
    ContainsExtend(p + word + " 1", "40", q, "40");
    assert p + word + " 1" + "40" + q == m;
    KeywordsAreLowerCase(word);
    TemperatureInAnyCaseTriggers(m, word, "40");
  }

  /** Likewise "4000" contains "40". */
  lemma LongNumberMatchesAsSubstring(p: string, q: string)
    ensures CheckForCriticalSymptoms(p + TemperatureWord + " 4000" + q)
  {
    var word := TemperatureWord;
    var m := p + word + " 4000" + q;
    ContainsSelf(word);
    ContainsExtend(p, word, " 4000" + q, word);
    assert p + word + (" 4000" + q) == m;
    ContainsSelf("40");
    ContainsExtend(p + word + " ", "40", "00" + q, "40");
    assert p + word + " " + "40" + ("00" + q) == m;
    KeywordsAreLowerCase(word);
    TemperatureInAnyCaseTriggers(m, word, "40");
  }

  /** A message that raises the flag still raises it with any text around it. */
  lemma DetectionMonotone(p: string, message: string, q: string)
    requires CheckForCriticalSymptoms(message)
    ensures CheckForCriticalSymptoms(p + message + q)
  {
    var l := Lower(message);
    var l' := Lower(p + message + q);
    LowerConcat(p + message, q);
    LowerConcat(p, message);
    assert l' == Lower(p) + l + Lower(q);
    forall k | Contains(l, k)
      ensures Contains(l', k)
    {
      ContainsExtend(Lower(p), l, Lower(q), k);
    }
  }

  /** The empty message raises no flag. */
  lemma EmptyMessageIsSafe()
    ensures !CheckForCriticalSymptoms("")
  {
    forall k | IsKeyword(k)
      ensures !Contains(Lower(""), k)
    {
      KeywordsAreLowerCase(k);
      ContainedInEmpty(k);
    }
  }

  /** A message whose lower-case form holds none of the keywords raises no flag. */
  lemma NoKeywordIsSafe(message: string)
    requires forall k :: IsKeyword(k) ==> !Contains(Lower(message), k)
    ensures !CheckForCriticalSymptoms(message)
  {
  }

  /** "temperature 41 and severe pain" matches both the temperature and the pain group. */
  lemma FeverAndPainExample(m: string)
    requires m == "температура 41 и сильная боль"
    ensures CheckForCriticalSymptoms(m)
  {
    var pain := PainPhrases[0];
    assert m == "температура 41 и " + pain + [];
    ContainsSelf(pain);
    ContainsExtend("температура 41 и ", pain, [], pain);
    KeywordsAreLowerCase(pain);
    PhraseInAnyCaseTriggers(m, pain);
  }

  /**
   Each keyword holds one of the letters `м`, `ж`, `ы`, `б` or the digit `4`,
   so a message whose lower-case form has none of them raises no flag.
   */
  lemma WithoutMarkerLettersIsSafe(message: string)
    requires forall c :: c in "мжыб4" ==> c !in Lower(message)
    ensures !CheckForCriticalSymptoms(message)
  {
    var l := Lower(message);
    forall k | IsKeyword(k)
      ensures !Contains(l, k)
    {
      var c :=
        if k == TemperatureWord then 'м'
        else if k in TemperatureTokens then '4'
        else if k in PainPhrases then 'б'
        else if k == BreathingPhrases[2] then 'ж'
        else 'ы';
      assert c in k && c in "мжыб4";
      if Contains(l, k) {
        ContainsChar(l, k, c);
      }
    }
  }

  /** "легкая усталость" has none of the letters every keyword needs one of. */
  lemma TirednessLacksMarkers(l: string)
    requires l == "легкая усталость"
    ensures forall c :: c in "мжыб4" ==> c !in l
  {
  }

  /** "slight tiredness", in any mixture of cases, holds none of the keywords. */
  lemma TirednessExample(m: string)
    requires Lower(m) == "легкая усталость"
    ensures !CheckForCriticalSymptoms(m)
  {
    TirednessLacksMarkers(Lower(m));
    WithoutMarkerLettersIsSafe(m);
  }
}
