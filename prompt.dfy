/**
 The prompt sent to the generation service: a fixed instruction that casts
 the model as a treating physician, a fixed separator, then the patient's
 message exactly as received.
 */
module Prompt {

  /** The physician instruction, three sentences joined as in the source. */
  const HealthContext: string :=
    "Вы опытный врач-терапевт. Ваша задача — помочь пациенту с рекомендациями по управлению симптомами. " +
    "Ответьте на основе предоставленной информации, избегайте отказов в рекомендациях и старайтесь предоставить полезные советы для лечения. " +
    "Если симптомы действительно критические, порекомендуйте обратиться за неотложной медицинской помощью."

  /** "Here is the information from the patient: ", with a leading space. */
  const PatientIntro: string := " Вот информация от пациента: "

  /**
   The template string `${healthContext} Вот информация от пациента: ${message}`:
   the preamble, the separator, and the message with no escaping,
   truncation or other change.
   */
  function FullMessage(message: string): (prompt: string)
    ensures |prompt| == |HealthContext| + |PatientIntro| + |message|
    ensures prompt[..|HealthContext|] == HealthContext
    ensures prompt[|HealthContext|..|HealthContext| + |PatientIntro|] == PatientIntro
    ensures prompt[|HealthContext| + |PatientIntro|..] == message
  {
    HealthContext + PatientIntro + message
  }

  /** Different messages give different prompts: the message can be read back. */
  lemma FullMessageInjective(a: string, b: string)
    requires FullMessage(a) == FullMessage(b)
    ensures a == b
  {
    var n := |HealthContext| + |PatientIntro|;
    assert a == FullMessage(a)[n..];
    assert b == FullMessage(b)[n..];
  }

  /** Any two prompts agree on everything before the message. */
  lemma SamePreamble(a: string, b: string)
    ensures FullMessage(a)[..|HealthContext| + |PatientIntro|] == FullMessage(b)[..|HealthContext| + |PatientIntro|]
  {
    var n := |HealthContext| + |PatientIntro|;
    assert FullMessage(a)[..n] == HealthContext + PatientIntro;
    assert FullMessage(b)[..n] == HealthContext + PatientIntro;
  }
}
