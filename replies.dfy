/** How one reply of the chat-completions endpoint is read: the refusal check
    against a fixed phrase list and the extraction of the text after the
    "Transcription:" marker. */
module Replies {
  import opened Strings

  /** The outcome of one API call: the message content it returned, or an
      exception with its message (a network error, a rejected request, or a
      missing content field that makes the checks below raise). */
  datatype Reply = Answer(content: string) | Failure(message: string)

  /** Phrases whose presence marks a reply as a refusal to transcribe. */
  const RefusalPatterns: seq<string> := [
    "I can't assist with that",
    "I'm sorry, I can't",
    "I'm unable to transcribe text from images",
    "unable to transcribe text from images",
    "consider using OCR",
    "Optical Character Recognition"
  ]

  /** The marker the prompts ask the model to begin its answer with. */
  const Marker: string := "Transcription:"

  /** Some refusal phrase occurs in the reply (case-sensitive substring match),
      the phrases tried in list order. */
  predicate IsRefusal(response: string)
  {
    AnyOccurs(response, RefusalPatterns)
  }

  /** `any(p in response for p in patterns)`. */
  predicate AnyOccurs(response: string, patterns: seq<string>)
  {
    patterns != [] && (Contains(response, patterns[0]) || AnyOccurs(response, patterns[1..]))
  }

  /** The phrase scan finds a phrase exactly when one of them occurs. */
  lemma {:induction false} AnyOccursIff(response: string, patterns: seq<string>)
    ensures AnyOccurs(response, patterns) <==>
      exists k :: 0 <= k < |patterns| && Contains(response, patterns[k])
  {
    if patterns != [] {
      AnyOccursIff(response, patterns[1..]);
      if exists k :: 0 <= k < |patterns| && Contains(response, patterns[k]) {
        var k :| 0 <= k < |patterns| && Contains(response, patterns[k]);
        if k > 0 {
          assert patterns[1..][k - 1] == patterns[k];
        }
      }
    }
  }

  /** The transcript carried by a reply: the text after the first marker, or
      the whole reply when there is none, stripped of surrounding whitespace. */
  function ExtractTranscript(response: string): (t: string)
    ensures IsStripped(t)
  {
    match IndexOf(response, Marker)
    case Some(i) => Strip(response[i + |Marker|..])
    case None => Strip(response)
  }

  /** The extraction splits at the FIRST occurrence of the marker and keeps the
      whole reply only when the marker is absent. */
  lemma ExtractAtFirstMarker(response: string, i: nat)
    requires OccursAt(response, Marker, i)
    requires forall j :: 0 <= j < i ==> !OccursAt(response, Marker, j)
    ensures ExtractTranscript(response) == Strip(response[i + |Marker|..])
  {
    IndexOfFirst(response, Marker, i);
  }

  lemma ExtractWithoutMarker(response: string)
    requires forall j :: 0 <= j <= |response| ==> !OccursAt(response, Marker, j)
    ensures ExtractTranscript(response) == Strip(response)
  {
  }

  /** How the retry loops read one reply. */
  datatype Verdict = Refused | Blank | Transcript(text: string) | Raised(message: string)

  /** A verdict that ends the current tier's retry loop before its last attempt. */
  predicate Decisive(v: Verdict)
  {
    v.Refused? || v.Transcript?
  }

  /** The checks each loop iteration makes, in the order it makes them:
      exception, refusal, marker extraction, empty-or-whitespace test. */
  function Classify(r: Reply): (v: Verdict)
    ensures v.Raised? <==> r.Failure?
    ensures v.Refused? <==> r.Answer? && IsRefusal(r.content)
    ensures v.Transcript? ==> v.text != [] && IsStripped(v.text)
  {
    match r
    case Failure(m) => Raised(m)
    case Answer(s) =>
      if IsRefusal(s) then Refused
      else
        var t := ExtractTranscript(s);
        if t == [] || AllSpace(t) then Blank else Transcript(t)
  }

  /** A reply that is not a refusal is blank exactly when the part of it that
      the extraction looks at is all whitespace; otherwise it is a transcript. */
  lemma BlankIff(s: string)
    requires !IsRefusal(s)
    ensures Classify(Answer(s)).Blank? <==>
      match IndexOf(s, Marker)
      case Some(i) => AllSpace(s[i + |Marker|..])
      case None => AllSpace(s)
    ensures !Classify(Answer(s)).Blank? ==> Classify(Answer(s)) == Transcript(ExtractTranscript(s))
  {
  }
}
