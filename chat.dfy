/**
 `processMessage` and the `/chat` handler's message defaulting. The call to
 the generation service is a function from prompt to outcome, supplied by
 the caller; the three outcomes are the three ways `processMessage` can
 leave its `try` block.
 */
module Chat {
  import opened Text
  import opened LetterCase
  import opened Symptoms
  import opened Prompt

  datatype Option<T> = None | Some(value: T)

  /**
   What the generation call gives back: text when the response has a
   callable `text` accessor, `BadShape` when the response, its `response`
   field or that field's `text` function is missing, `Threw` when the call
   raises.
   */
  datatype GenerationOutcome = Generated(text: string) | BadShape | Threw

  /** The JSON body `{ resp, emergency }`. */
  datatype ChatResult = ChatResult(resp: string, emergency: bool)

  /** "Sorry, an error occurred while processing your request." */
  const ErrorReply: string := "Извините, произошла ошибка при обработке вашего запроса."

  /** "Hello", used when the request carries no message. */
  const DefaultGreeting: string := "Здравствуйте"

  /**
   `processMessage(message)`: the emergency flag is computed from the message
   before the call, the composed prompt is sent, and the reply text is
   passed through on success; on a malformed response or an exception the
   reply is the fixed apology and the flag is kept.
   */
  function ProcessMessage(message: string, generate: string -> GenerationOutcome): (result: ChatResult)
    ensures result.emergency == CheckForCriticalSymptoms(message)
    ensures generate(FullMessage(message)).Generated? ==> result.resp == generate(FullMessage(message)).text
    ensures !generate(FullMessage(message)).Generated? ==> result.resp == ErrorReply
  {
    var emergency := CheckForCriticalSymptoms(message);
    var fullMessage := FullMessage(message);
    match generate(fullMessage)
    case Generated(assistantResponse) => ChatResult(assistantResponse, emergency)
    case BadShape => ChatResult(ErrorReply, emergency)
    case Threw => ChatResult(ErrorReply, emergency)
  }

  /** The flag does not depend on what the generation service does. */
  lemma EmergencyIndependentOfGeneration(message: string, g1: string -> GenerationOutcome, g2: string -> GenerationOutcome)
    ensures ProcessMessage(message, g1).emergency == ProcessMessage(message, g2).emergency
  {
  }

  /** A malformed response and a thrown error are indistinguishable to the client. */
  lemma FailuresLookAlike(message: string, g1: string -> GenerationOutcome, g2: string -> GenerationOutcome)
    requires g1(FullMessage(message)) == BadShape && g2(FullMessage(message)) == Threw
    ensures ProcessMessage(message, g1) == ProcessMessage(message, g2)
    ensures ProcessMessage(message, g1) == ChatResult(ErrorReply, CheckForCriticalSymptoms(message))
  {
  }

  /**
   The service sees only the composed prompt: two services that answer that
   prompt alike give the same result, whatever they do with other prompts.
   */
  lemma OnlyThePromptMatters(message: string, g1: string -> GenerationOutcome, g2: string -> GenerationOutcome)
    requires g1(FullMessage(message)) == g2(FullMessage(message))
    ensures ProcessMessage(message, g1) == ProcessMessage(message, g2)
  {
  }

  /**
   `req.query.ques || "Здравствуйте"`: a missing or empty query parameter
   is replaced by the greeting; any other value is used as it is.
   */
  function UserMessage(ques: Option<string>): (message: string)
    ensures message != ""
    ensures ques.Some? && ques.value != "" ==> message == ques.value
    ensures ques.None? || ques.value == "" ==> message == DefaultGreeting
  {
    match ques
    case Some(q) => if q != "" then q else DefaultGreeting
    case None => DefaultGreeting
  }

  /** The `/chat` route on its success path: default the message, then process it. */
  function HandleChat(ques: Option<string>, generate: string -> GenerationOutcome): (result: ChatResult)
    ensures result.emergency == CheckForCriticalSymptoms(UserMessage(ques))
    ensures generate(FullMessage(UserMessage(ques))).Generated? ==>
      result.resp == generate(FullMessage(UserMessage(ques))).text
    ensures !generate(FullMessage(UserMessage(ques))).Generated? ==> result.resp == ErrorReply
  {
    var userMessage := UserMessage(ques);
    ProcessMessage(userMessage, generate)
  }

  /**
   "Здравствуйте" has none of the letters every keyword needs one of, in
   either case.
   */
  lemma GreetingLacksMarkers(g: string)
    requires g == DefaultGreeting
    ensures forall c :: c in "мжыб4" ==> c !in g && UpperChar(c) !in g
  {
  }

  /** The greeting is not an emergency. */
  lemma GreetingIsNotEmergency()
    ensures !CheckForCriticalSymptoms(DefaultGreeting)
  {
    var g := DefaultGreeting;
    GreetingLacksMarkers(g);
    forall c | c in "мжыб4"
      ensures c !in Lower(g)
    {
      NotInLower(g, c);
    }
    WithoutMarkerLettersIsSafe(g);
  }

  /**
   With no message, the greeting is what is sent after the preamble, and the
   reply is never flagged as an emergency.
   */
  lemma MissingQuestionGreets(ques: Option<string>, generate: string -> GenerationOutcome)
    requires ques.None? || ques.value == ""
    ensures UserMessage(ques) == DefaultGreeting
    ensures !HandleChat(ques, generate).emergency
  {
    GreetingIsNotEmergency();
  }
}
