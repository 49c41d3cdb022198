/**
 * The `/generate-email` endpoint of the backend: the subject length check,
 * the two prompts sent to the hosted language models, the status check on
 * each model reply, and the cut of the generated text at its first
 * "Subject:" marker.
 */
module EmailGeneration {
  import opened Results
  import opened Http

  /** Longest subject the endpoint accepts, in characters. */
  const MaxSubjectLength: nat := 500
  const SubjectTooLongDetail: string :=
    "Subject text is too long. Please shorten it for optimal email generation."
  const DefaultTone: string := "neutral"
  /** The marker at which the generated email is cut. */
  const Marker: string := "Subject:"
  const TranslationLead: string := "convert this into English: "
  const ReformatLead: string := "Please reformat the following text as a "
  const ReformatMiddle: string := " tone English email: "
  const ModelErrorLead: string := "Hugging Face API error: "

  /** The request body `{subject, tone}`. */
  datatype EmailRequest = EmailRequest(subject: string, tone: string)

  /** The reply `{subject, tone, email_body}`. */
  datatype EmailResponse = EmailResponse(subject: string, tone: string, emailBody: string)

  /**
   * How a request fails: an `HTTPException` the endpoint raises, or the
   * `ValueError` that `str.index` raises when the marker is missing, which the
   * endpoint does not catch.
   */
  datatype GenerateError = Raised(http: HttpError) | SubstringNotFound

  /**
   * What a hosted model answers to one prompt: the HTTP status, the raw
   * response text, and the `generated_text` of its first result.
   */
  datatype ModelReply = ModelReply(statusCode: nat, text: string, generatedText: string)

  /** A hosted model endpoint, seen as what it answers to each prompt. */
  type Model = string -> ModelReply

  /** Builds the request body; `tone` falls back to "neutral" when the client omits it. */
  function ParseRequest(subject: string, tone: Option<string>): (r: EmailRequest)
    ensures r.subject == subject
    ensures tone.Some? ==> r.tone == tone.value
    ensures tone.None? ==> r.tone == "neutral"
  {
    EmailRequest(subject, if tone.Some? then tone.value else DefaultTone)
  }

  /** The length guard that runs before any model is called. */
  function CheckSubject(subject: string): (r: Result<(), HttpError>)
    ensures r.Success? <==> |subject| <= MaxSubjectLength
    ensures r.Failure? ==> r.error.status == 400 && r.error.detail == SubjectTooLongDetail
  {
    if |subject| > MaxSubjectLength then Failure(HttpError(BadRequest, SubjectTooLongDetail))
    else Success(())
  }

  // ---------------------------------------------------------------- prompts

  /** The prompt asking the translation model to turn `text` into English. */
  function TranslationPrompt(text: string): (p: string)
    ensures |p| == |TranslationLead| + |text|
    ensures p[..|TranslationLead|] == TranslationLead && p[|TranslationLead|..] == text
  {
    TranslationLead + text
  }

  /** Recovers the text from a translation prompt, or None if `p` is not one. */
  function TranslatedText(p: string): (r: Option<string>)
  {
    if |TranslationLead| <= |p| && p[..|TranslationLead|] == TranslationLead
    then Some(p[|TranslationLead|..]) else None
  }

  lemma TranslationPromptRoundTrip(text: string, p: string)
    ensures TranslatedText(TranslationPrompt(text)) == Some(text)
    ensures TranslatedText(p).Some? ==> TranslationPrompt(TranslatedText(p).value) == p
  {
  }

  /** The prompt asking the generation model to rewrite `text` in the given tone. */
  function ReformatPrompt(tone: string, text: string): (p: string)
    ensures |p| == |ReformatLead| + |tone| + |ReformatMiddle| + |text|
    ensures p[..|ReformatLead|] == ReformatLead
    ensures p[|ReformatLead|..|ReformatLead| + |tone|] == tone
    ensures p[|ReformatLead| + |tone|..|p| - |text|] == ReformatMiddle
    ensures p[|p| - |text|..] == text
  {
    ReformatLead + tone + ReformatMiddle + text
  }

  /**
   * The reformat prompt determines its parts: two prompts with tones of the
   * same length are equal only when tone and text are equal.
   */
  lemma ReformatPromptInjective(tone1: string, text1: string, tone2: string, text2: string)
    requires |tone1| == |tone2|
    ensures ReformatPrompt(tone1, text1) == ReformatPrompt(tone2, text2) <==> tone1 == tone2 && text1 == text2
  {
  }

  // ----------------------------------------------------------- model calls

  /**
   * One call to a hosted model: a 200 reply yields its generated text, any
   * other status is re-raised with the model's own status code.
   */
  function CallModel(model: Model, prompt: string): (r: Result<string, HttpError>)
    ensures r.Success? <==> model(prompt).statusCode == 200
    ensures r.Success? ==> r.value == model(prompt).generatedText
    ensures r.Failure? ==> r.error == HttpError(model(prompt).statusCode, ModelErrorLead + model(prompt).text)
  {
    var reply := model(prompt);
    if reply.statusCode == Ok then Success(reply.generatedText)
    else Failure(HttpError(reply.statusCode, ModelErrorLead + reply.text))
  }

  // ------------------------------------------------------ the marker search

  /** `pat` occurs in `s` starting at index `i`. */
  predicate OccursAt(s: string, pat: string, i: nat)
  {
    i + |pat| <= |s| && s[i..i + |pat|] == pat
  }

  /** `pat` occurs nowhere in `s` before index `k`. */
  predicate AbsentBefore(s: string, pat: string, k: nat)
  {
    forall j: nat :: j < k ==> !OccursAt(s, pat, j)
  }

  /** The first index at which `pat` occurs in `s`, as Python's `str.find`/`str.index` search. */
  function IndexOf(s: string, pat: string): (r: Option<nat>)
    ensures r.Some? ==> OccursAt(s, pat, r.value) && AbsentBefore(s, pat, r.value)
    ensures r.None? ==> AbsentBefore(s, pat, |s| + 1)
    decreases |s|
  {
    if OccursAt(s, pat, 0) then Some(0)
    else if s == [] then None
    else
      var rest := IndexOf(s[1..], pat);
      if rest.Some? then
        AbsentShift(s, pat, rest.value);
        ShiftOccurrence(s, pat);
        Some(rest.value + 1)
      else
        AbsentShift(s, pat, |s|);
        None
  }

  /** An occurrence in the tail of `s` is an occurrence in `s` one place further on. */
  lemma ShiftOccurrence(s: string, pat: string)
    requires s != []
    ensures forall j: nat :: OccursAt(s[1..], pat, j) <==> OccursAt(s, pat, j + 1)
  {
  }

  /** No occurrence at 0 and none in the tail before `k`: none in `s` before `k + 1`. */
  lemma AbsentShift(s: string, pat: string, k: nat)
    requires s != [] && !OccursAt(s, pat, 0) && AbsentBefore(s[1..], pat, k)
    ensures AbsentBefore(s, pat, k + 1)
  {
    ShiftOccurrence(s, pat);
    forall j: nat | j < k + 1 ensures !OccursAt(s, pat, j) {
      if j > 0 {
        assert !OccursAt(s[1..], pat, j - 1);
      }
    }
  }

  /**
   * Cuts the generated text at the first "Subject:" marker, or fails as
   * `str.index` does when the marker does not occur.
   */
  function TrimToSubject(generated: string): (r: Result<string, GenerateError>)
    ensures r.Failure? <==> AbsentBefore(generated, Marker, |generated| + 1)
    ensures r.Failure? ==> r.error == SubstringNotFound
    ensures r.Success? ==>
      var k := |generated| - |r.value|;
      && |Marker| <= |r.value| <= |generated|
      && r.value == generated[k..]
      && r.value[..|Marker|] == Marker
      && AbsentBefore(generated, Marker, k)
  {
    match IndexOf(generated, Marker)
    case None => Failure(SubstringNotFound)
    case Some(i) => Success(generated[i..])
  }

  /** A body already cut at its marker is left as it is by a second cut. */
  lemma TrimIdempotent(generated: string)
    requires TrimToSubject(generated).Success?
    ensures TrimToSubject(TrimToSubject(generated).value) == TrimToSubject(generated)
  {
  }

  /** Text before the first marker is dropped whatever it is. */
  lemma TrimDropsMarkerFreePrefix(prefix: string, rest: string)
    requires AbsentBefore(prefix + Marker, Marker, |prefix|)
    ensures TrimToSubject(prefix + Marker + rest) == Success(Marker + rest)
  {
    var s := prefix + Marker + rest;
    assert s[|prefix|..|prefix| + |Marker|] == Marker;
    assert OccursAt(s, Marker, |prefix|);
    forall j: nat | j < |prefix| ensures !OccursAt(s, Marker, j) {
      assert !OccursAt(prefix + Marker, Marker, j);
      assert s[j..j + |Marker|] == (prefix + Marker)[j..j + |Marker|];
    }
    var r := TrimToSubject(s);
    assert r.Success?;
    var k := |s| - |r.value|;
    assert OccursAt(s, Marker, k);
    assert k == |prefix|;
    assert s[|prefix|..] == Marker + rest;
  }

  // ------------------------------------------------------------ the endpoint

  /**
   * `generate_email`: check the subject, translate it, reformat the
   * translation in the requested tone, cut at the first marker, and echo the
   * request's subject and tone.
   */
  function GenerateEmail(request: EmailRequest, translator: Model, generator: Model)
    : (r: Result<EmailResponse, GenerateError>)
    ensures |request.subject| > MaxSubjectLength ==> r == Failure(Raised(HttpError(400, SubjectTooLongDetail)))
    ensures r.Success? ==>
      && |request.subject| <= MaxSubjectLength
      && r.value.subject == request.subject
      && r.value.tone == request.tone
      && translator(TranslationPrompt(request.subject)).statusCode == 200
      && (var english := translator(TranslationPrompt(request.subject)).generatedText;
          && generator(ReformatPrompt(request.tone, english)).statusCode == 200
          && TrimToSubject(generator(ReformatPrompt(request.tone, english)).generatedText)
             == Success(r.value.emailBody))
    ensures r == Failure(SubstringNotFound) ==> |request.subject| <= MaxSubjectLength
    ensures |request.subject| <= MaxSubjectLength && translator(TranslationPrompt(request.subject)).statusCode != 200 ==>
              r == Failure(Raised(CallModel(translator, TranslationPrompt(request.subject)).error))
    ensures |request.subject| <= MaxSubjectLength && translator(TranslationPrompt(request.subject)).statusCode == 200 ==>
              var english := translator(TranslationPrompt(request.subject)).generatedText;
              generator(ReformatPrompt(request.tone, english)).statusCode != 200 ==>
                r == Failure(Raised(CallModel(generator, ReformatPrompt(request.tone, english)).error))
    ensures |request.subject| <= MaxSubjectLength && translator(TranslationPrompt(request.subject)).statusCode == 200 ==>
              var english := translator(TranslationPrompt(request.subject)).generatedText;
              var reply := generator(ReformatPrompt(request.tone, english));
              reply.statusCode == 200 && TrimToSubject(reply.generatedText).Success? ==>
                r == Success(EmailResponse(request.subject, request.tone, TrimToSubject(reply.generatedText).value))
  {
    match CheckSubject(request.subject)
    case Failure(e) => Failure(Raised(e))
    case Success(_) =>
      match CallModel(translator, TranslationPrompt(request.subject))
      case Failure(e) => Failure(Raised(e))
      case Success(english) =>
        match CallModel(generator, ReformatPrompt(request.tone, english))
        case Failure(e) => Failure(Raised(e))
        case Success(generated) =>
          match TrimToSubject(generated)
          case Failure(e) => Failure(e)
          case Success(body) => Success(EmailResponse(request.subject, request.tone, body))
  }

  /**
   * A too-long subject is rejected whatever the models would answer: neither
   * model is consulted.
   */
  lemma LongSubjectIgnoresModels(request: EmailRequest, t1: Model, g1: Model, t2: Model, g2: Model)
    requires |request.subject| > MaxSubjectLength
    ensures GenerateEmail(request, t1, g1) == GenerateEmail(request, t2, g2)
  {
  }

  /**
   * When both models answer 200 and the generated text has no marker, the
   * request fails: an untrimmed body is never returned.
   */
  lemma MissingMarkerFails(request: EmailRequest, translator: Model, generator: Model)
    requires |request.subject| <= MaxSubjectLength
    requires translator(TranslationPrompt(request.subject)).statusCode == 200
    requires var english := translator(TranslationPrompt(request.subject)).generatedText;
             generator(ReformatPrompt(request.tone, english)).statusCode == 200
    ensures var english := translator(TranslationPrompt(request.subject)).generatedText;
            var generated := generator(ReformatPrompt(request.tone, english)).generatedText;
            (GenerateEmail(request, translator, generator) == Failure(SubstringNotFound)
             <==> AbsentBefore(generated, Marker, |generated| + 1))
  {
  }
}
