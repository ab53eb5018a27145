/** The per-page transcription protocol of `HandwritingOCR.transcribe_image` and
    `transcribe_image_fallback`: a primary retry loop that escalates to a
    fallback retry loop, each ending in a transcript or a bracketed sentinel.

    The API is an oracle: `primary[k]` is what the k-th call with the primary
    profile returns, `fallback[k]` the same for the fallback profile. */
module Transcription {
  import opened Wrappers
  import opened Strings
  import opened Replies

  /** `transcribe_image`'s default retry budget. */
  const DefaultMaxRetries: int := 3

  /** What a page's transcription ends as. Every case but `Transcribed` is
      returned to the caller as a bracketed sentinel string (see `Render`). */
  datatype PageResult =
    | Transcribed(text: string)
    | PrimaryError     // exceptions on every attempt up to the last primary one
    | PrimaryLoopEnd   // the primary loop ran no iteration at all
    | FallbackRefused  // the fallback profile refused too
    | FallbackEmpty    // the fallback stayed empty up to its last attempt
    | FallbackError    // the fallback raised on its last attempt
    | FallbackLoopEnd  // the fallback loop ran no iteration at all

  /** A page's result with the number of calls made with each profile. */
  datatype Run = Run(result: PageResult, primaryCalls: nat, fallbackCalls: nat)

  predicate IsFallbackResult(r: PageResult)
  {
    r.FallbackRefused? || r.FallbackEmpty? || r.FallbackError? || r.FallbackLoopEnd?
  }

  /** A sentinel: `body` in square brackets. */
  function Bracketed(body: string): (s: string)
    ensures |s| >= 2 && s[0] == '[' && s[|s| - 1] == ']'
  {
    "[" + body + "]"
  }

  /** The string `transcribe_image` returns for a result; `name` is the
      image's base name. */
  function Render(r: PageResult, name: string, maxRetries: int): (s: string)
    ensures r.Transcribed? ==> s == r.text
    ensures !r.Transcribed? ==> |s| >= 2 && s[0] == '[' && s[|s| - 1] == ']'
  {
    if r.Transcribed? then r.text else Bracketed(SentinelBody(r, name, maxRetries))
  }

  /** The text inside the brackets of each sentinel. */
  function SentinelBody(r: PageResult, name: string, maxRetries: int): string
    requires !r.Transcribed?
  {
    match r
    case PrimaryError =>
      "Error: Could not transcribe " + name + " after " + IntToString(maxRetries) + " attempts"
    case PrimaryLoopEnd =>
      "Error: Unexpected end of retry loop for " + name
    case FallbackRefused =>
      "Unable to transcribe: Content flagged by AI safety filters - " + name
    case FallbackEmpty =>
      "Empty: No text transcribed with fallback after " + IntToString(maxRetries) + " attempts - " + name
    case FallbackError =>
      "Error: Could not transcribe with fallback after " + IntToString(maxRetries) + " attempts - " + name
    case FallbackLoopEnd =>
      "Error: Unexpected end of fallback retry loop for " + name
  }

  /** How each reply of an oracle is read. */
  function Verdicts(replies: seq<Reply>): (vs: seq<Verdict>)
    ensures |vs| == |replies|
  {
    if replies == [] then [] else [Classify(replies[0])] + Verdicts(replies[1..])
  }

  /** The i-th verdict is the reading of the i-th reply. */
  lemma {:induction false} VerdictAt(replies: seq<Reply>, i: nat)
    requires i < |replies|
    ensures Verdicts(replies)[i] == Classify(replies[i])
  {
    if i > 0 {
      VerdictAt(replies[1..], i - 1);
    }
  }

  /** The fallback loop from attempt `attempt` on, over the verdicts of the
      fallback replies. */
  function FallbackTier(fallback: seq<Verdict>, maxRetries: int, attempt: nat): (run: Run)
    requires maxRetries < |fallback|
    requires attempt == 0 || attempt <= maxRetries
    ensures run.primaryCalls == 0
    ensures maxRetries >= 0 ==> attempt < run.fallbackCalls <= maxRetries + 1
    ensures maxRetries < 0 ==> run == Run(FallbackLoopEnd, 0, 0)
    ensures maxRetries >= 0 ==> !run.result.FallbackLoopEnd?
    ensures IsFallbackResult(run.result) || run.result.Transcribed?
    ensures run.result.Transcribed? ==> Transcript(run.result.text) in fallback
    ensures run.result.FallbackEmpty? || run.result.FallbackError? ==> run.fallbackCalls == maxRetries + 1
    decreases maxRetries + 1 - attempt
  {
    if attempt > maxRetries then Run(FallbackLoopEnd, 0, 0)
    else match fallback[attempt]
      case Refused => Run(FallbackRefused, 0, attempt + 1)
      case Transcript(t) => Run(Transcribed(t), 0, attempt + 1)
      case Blank =>
        if attempt < maxRetries then FallbackTier(fallback, maxRetries, attempt + 1)
        else Run(FallbackEmpty, 0, attempt + 1)
      case Raised(_) =>
        if attempt < maxRetries then FallbackTier(fallback, maxRetries, attempt + 1)
        else Run(FallbackError, 0, attempt + 1)
  }

  /** The whole fallback tier. */
  function FallbackRun(fallback: seq<Reply>, maxRetries: int): Run
    requires maxRetries < |fallback|
  {
    FallbackTier(Verdicts(fallback), maxRetries, 0)
  }

  /** Handing the page to the fallback tier after `primaryCalls` primary calls. */
  function Escalate(primaryCalls: nat, fb: Run): Run
  {
    Run(fb.result, primaryCalls, fb.fallbackCalls)
  }

  /** The primary loop from attempt `attempt` on, over the verdicts of the
      replies of each profile. */
  function PrimaryTier(primary: seq<Verdict>, fallback: seq<Verdict>, maxRetries: int, attempt: nat): (run: Run)
    requires maxRetries < |primary| && maxRetries < |fallback|
    requires attempt == 0 || attempt <= maxRetries
    ensures maxRetries >= 0 ==> attempt < run.primaryCalls <= maxRetries + 1
    ensures maxRetries >= 0 ==> run.fallbackCalls <= maxRetries + 1
    ensures maxRetries >= 0 ==> !run.result.PrimaryLoopEnd? && !run.result.FallbackLoopEnd?
    ensures maxRetries < 0 ==> run == Run(PrimaryLoopEnd, 0, 0)
    ensures run.result.PrimaryError? ==> run.primaryCalls == maxRetries + 1 && run.fallbackCalls == 0
    ensures IsFallbackResult(run.result) ==> run.fallbackCalls > 0
    ensures run.result.Transcribed? ==> Transcript(run.result.text) in primary + fallback
    decreases maxRetries + 1 - attempt
  {
    if attempt > maxRetries then Run(PrimaryLoopEnd, 0, 0)
    else match primary[attempt]
      case Refused => Escalate(attempt + 1, FallbackTier(fallback, maxRetries, 0))
      case Transcript(t) => Run(Transcribed(t), attempt + 1, 0)
      case Blank =>
        if attempt < maxRetries then PrimaryTier(primary, fallback, maxRetries, attempt + 1)
        else Escalate(attempt + 1, FallbackTier(fallback, maxRetries, 0))
      case Raised(_) =>
        if attempt < maxRetries then PrimaryTier(primary, fallback, maxRetries, attempt + 1)
        else Run(PrimaryError, attempt + 1, 0)
  }

  /** The whole protocol for one page. */
  function Transcribe(primary: seq<Reply>, fallback: seq<Reply>, maxRetries: int): Run
    requires maxRetries < |primary| && maxRetries < |fallback|
  {
    PrimaryTier(Verdicts(primary), Verdicts(fallback), maxRetries, 0)
  }

  // ---------------------------------------------------------------------
  // The protocol characterised by the first decisive reply of each tier.

  /** Attempts that neither refuse nor deliver a transcript only lead to the
      next attempt. */
  lemma {:induction false} PrimarySkip(primary: seq<Verdict>, fallback: seq<Verdict>, maxRetries: int, a: nat, k: nat)
    requires maxRetries < |primary| && maxRetries < |fallback|
    requires a <= k <= maxRetries
    requires forall j :: a <= j < k ==> !Decisive(primary[j])
    ensures PrimaryTier(primary, fallback, maxRetries, a) == PrimaryTier(primary, fallback, maxRetries, k)
    decreases k - a
  {
    if a < k {
      PrimaryStep(primary, fallback, maxRetries, a);
      PrimarySkip(primary, fallback, maxRetries, a + 1, k);
    }
  }

  lemma PrimaryStep(primary: seq<Verdict>, fallback: seq<Verdict>, maxRetries: int, a: nat)
    requires maxRetries < |primary| && maxRetries < |fallback|
    requires a < maxRetries && !Decisive(primary[a])
    ensures PrimaryTier(primary, fallback, maxRetries, a) == PrimaryTier(primary, fallback, maxRetries, a + 1)
  {
  }

  lemma {:induction false} FallbackSkip(fallback: seq<Verdict>, maxRetries: int, a: nat, k: nat)
    requires maxRetries < |fallback|
    requires a <= k <= maxRetries
    requires forall j :: a <= j < k ==> !Decisive(fallback[j])
    ensures FallbackTier(fallback, maxRetries, a) == FallbackTier(fallback, maxRetries, k)
    decreases k - a
  {
    if a < k {
      FallbackStep(fallback, maxRetries, a);
      FallbackSkip(fallback, maxRetries, a + 1, k);
    }
  }

  /** What one fallback attempt decides. */
  lemma FallbackAttempt(fallback: seq<Verdict>, maxRetries: int, a: nat)
    requires maxRetries < |fallback| && a <= maxRetries
    ensures fallback[a].Refused? ==> FallbackTier(fallback, maxRetries, a) == Run(FallbackRefused, 0, a + 1)
    ensures fallback[a].Transcript? ==>
      FallbackTier(fallback, maxRetries, a) == Run(Transcribed(fallback[a].text), 0, a + 1)
    ensures fallback[a].Blank? && a == maxRetries ==> FallbackTier(fallback, maxRetries, a) == Run(FallbackEmpty, 0, a + 1)
    ensures fallback[a].Raised? && a == maxRetries ==> FallbackTier(fallback, maxRetries, a) == Run(FallbackError, 0, a + 1)
  {
  }

  /** What one primary attempt decides. */
  lemma PrimaryAttempt(primary: seq<Verdict>, fallback: seq<Verdict>, maxRetries: int, a: nat)
    requires maxRetries < |primary| && maxRetries < |fallback| && a <= maxRetries
    ensures primary[a].Refused? || (primary[a].Blank? && a == maxRetries) ==>
      PrimaryTier(primary, fallback, maxRetries, a) == Escalate(a + 1, FallbackTier(fallback, maxRetries, 0))
    ensures primary[a].Transcript? ==>
      PrimaryTier(primary, fallback, maxRetries, a) == Run(Transcribed(primary[a].text), a + 1, 0)
    ensures primary[a].Raised? && a == maxRetries ==> PrimaryTier(primary, fallback, maxRetries, a) == Run(PrimaryError, a + 1, 0)
  {
  }

  lemma FallbackStep(fallback: seq<Verdict>, maxRetries: int, a: nat)
    requires maxRetries < |fallback|
    requires a < maxRetries && !Decisive(fallback[a])
    ensures FallbackTier(fallback, maxRetries, a) == FallbackTier(fallback, maxRetries, a + 1)
  {
  }

  /** The first primary reply that refuses or delivers a transcript decides the
      page: a transcript is returned after exactly k+1 primary calls; a refusal
      hands the page to the fallback tier at once, whatever the attempt number,
      with no further primary call. */
  lemma PrimaryDecidedAt(primary: seq<Reply>, fallback: seq<Reply>, maxRetries: int, k: nat)
    requires maxRetries < |primary| && maxRetries < |fallback|
    requires k <= maxRetries
    requires forall j :: 0 <= j < k ==> !Decisive(Classify(primary[j]))
    requires Decisive(Classify(primary[k]))
    ensures Transcribe(primary, fallback, maxRetries) ==
      match Classify(primary[k])
      case Transcript(t) => Run(Transcribed(t), k + 1, 0)
      case _ => Escalate(k + 1, FallbackRun(fallback, maxRetries))
  {
    var vs := Verdicts(primary);
    forall j | 0 <= j < k
      ensures !Decisive(vs[j])
    {
      VerdictAt(primary, j);
    }
    VerdictAt(primary, k);
    PrimarySkip(vs, Verdicts(fallback), maxRetries, 0, k);
    PrimaryAttempt(vs, Verdicts(fallback), maxRetries, k);
  }

  /** When no primary reply is decisive, all max_retries+1 primary calls are
      made and the LAST one decides: an empty transcript escalates to the
      fallback tier, an exception returns the primary error sentinel without
      calling the fallback. */
  lemma PrimaryExhausted(primary: seq<Reply>, fallback: seq<Reply>, maxRetries: int)
    requires maxRetries < |primary| && maxRetries < |fallback|
    requires 0 <= maxRetries
    requires forall j :: 0 <= j <= maxRetries ==> !Decisive(Classify(primary[j]))
    ensures Transcribe(primary, fallback, maxRetries) ==
      if primary[maxRetries].Failure? then Run(PrimaryError, maxRetries + 1, 0)
      else Escalate(maxRetries + 1, FallbackRun(fallback, maxRetries))
  {
    var vs := Verdicts(primary);
    forall j | 0 <= j < maxRetries
      ensures !Decisive(vs[j])
    {
      VerdictAt(primary, j);
    }
    VerdictAt(primary, maxRetries);
    PrimarySkip(vs, Verdicts(fallback), maxRetries, 0, maxRetries);
    PrimaryAttempt(vs, Verdicts(fallback), maxRetries, maxRetries);
  }

  /** In the fallback tier a refusal ends the page at once, with no retry. */
  lemma FallbackDecidedAt(fallback: seq<Reply>, maxRetries: int, k: nat)
    requires maxRetries < |fallback|
    requires k <= maxRetries
    requires forall j :: 0 <= j < k ==> !Decisive(Classify(fallback[j]))
    requires Decisive(Classify(fallback[k]))
    ensures FallbackRun(fallback, maxRetries) ==
      match Classify(fallback[k])
      case Transcript(t) => Run(Transcribed(t), 0, k + 1)
      case _ => Run(FallbackRefused, 0, k + 1)
  {
    var vs := Verdicts(fallback);
    forall j | 0 <= j < k
      ensures !Decisive(vs[j])
    {
      VerdictAt(fallback, j);
    }
    VerdictAt(fallback, k);
    FallbackSkip(vs, maxRetries, 0, k);
    FallbackAttempt(vs, maxRetries, k);
  }

  /** An exhausted fallback tier ends in the sentinel its LAST reply selects. */
  lemma FallbackExhausted(fallback: seq<Reply>, maxRetries: int)
    requires maxRetries < |fallback|
    requires 0 <= maxRetries
    requires forall j :: 0 <= j <= maxRetries ==> !Decisive(Classify(fallback[j]))
    ensures FallbackRun(fallback, maxRetries) ==
      if fallback[maxRetries].Failure? then Run(FallbackError, 0, maxRetries + 1)
      else Run(FallbackEmpty, 0, maxRetries + 1)
  {
    var vs := Verdicts(fallback);
    forall j | 0 <= j < maxRetries
      ensures !Decisive(vs[j])
    {
      VerdictAt(fallback, j);
    }
    VerdictAt(fallback, maxRetries);
    FallbackSkip(vs, maxRetries, 0, maxRetries);
    FallbackAttempt(vs, maxRetries, maxRetries);
  }

  /** What `transcribe_image` returns is either a transcript that is non-empty
      and carries no surrounding whitespace, or a bracketed sentinel; the
      "Unexpected end of retry loop" sentinels occur only for a negative
      budget. */
  lemma ReturnedText(primary: seq<Reply>, fallback: seq<Reply>, maxRetries: int, name: string)
    requires maxRetries < |primary| && maxRetries < |fallback|
    ensures var run := Transcribe(primary, fallback, maxRetries);
      var s := Render(run.result, name, maxRetries);
      && (run.result.Transcribed? ==> s != [] && IsStripped(s))
      && (!run.result.Transcribed? ==> s[0] == '[' && s[|s| - 1] == ']')
      && (run.result.PrimaryLoopEnd? || run.result.FallbackLoopEnd? <==> maxRetries < 0)
  {
    var run := Transcribe(primary, fallback, maxRetries);
    if run.result.Transcribed? {
      if Transcript(run.result.text) in Verdicts(primary) {
        TranscriptRead(primary, run.result.text);
      } else {
        TranscriptRead(fallback, run.result.text);
      }
    }
  }

  /** Every transcript verdict carries non-empty, stripped text. */
  lemma TranscriptRead(replies: seq<Reply>, t: string)
    requires Transcript(t) in Verdicts(replies)
    ensures t != [] && IsStripped(t)
  {
    var vs := Verdicts(replies);
    var i :| 0 <= i < |vs| && vs[i] == Transcript(t);
    VerdictAt(replies, i);
  }

  // ---------------------------------------------------------------------
  // The two loops as the source writes them.

  /** The checks one loop iteration makes on a reply, in the source's order:
      the exception, the refusal phrases, the marker, the empty test. */
  method ReadReply(reply: Reply) returns (verdict: Verdict)
    ensures verdict == Classify(reply)
  {
    if reply.Failure? {
      return Raised(reply.message);
    }
    var fullResponse := reply.content;
    if IsRefusal(fullResponse) {
      return Refused;
    }
    var transcription: string;
    var marker := IndexOf(fullResponse, Marker);
    if marker.Some? {
      transcription := Strip(fullResponse[marker.value + |Marker|..]);
    } else {
      transcription := Strip(fullResponse);
    }
    assert transcription == ExtractTranscript(fullResponse);
    if transcription == [] || AllSpace(transcription) {
      return Blank;
    }
    return Transcript(transcription);
  }

  /** `transcribe_image_fallback`: the result the fallback tier returns, with
      the number of fallback calls made. Each sentinel result stands for the
      string `Render` gives it. */
  method TranscribeImageFallback(fallback: seq<Reply>, maxRetries: int)
    returns (result: PageResult, calls: nat)
    requires maxRetries < |fallback|
    ensures Run(result, 0, calls) == FallbackRun(fallback, maxRetries)
    ensures calls <= if maxRetries < 0 then 0 else maxRetries + 1
  {
    ghost var verdicts := Verdicts(fallback);
    var attempt: nat := 0;
    while attempt <= maxRetries
      invariant attempt == 0 || attempt <= maxRetries
      invariant FallbackTier(verdicts, maxRetries, attempt) == FallbackRun(fallback, maxRetries)
      decreases maxRetries + 1 - attempt
    {
      var verdict := ReadReply(fallback[attempt]);
      VerdictAt(fallback, attempt);
      FallbackAttempt(verdicts, maxRetries, attempt);
      match verdict
      case Raised(_) =>
        if attempt < maxRetries {
          FallbackStep(verdicts, maxRetries, attempt);
          attempt := attempt + 1;
          continue;
        }
        return FallbackError, attempt + 1;
      case Refused =>
        return FallbackRefused, attempt + 1;
      case Blank =>
        if attempt < maxRetries {
          FallbackStep(verdicts, maxRetries, attempt);
          attempt := attempt + 1;
          continue;
        }
        return FallbackEmpty, attempt + 1;
      case Transcript(transcription) =>
        return Transcribed(transcription), attempt + 1;
    }
    return FallbackLoopEnd, 0;
  }

  /** `transcribe_image`: `encodeError` is the exception `encode_image` raised,
      if any; it is the only exception that leaves the method. Otherwise the
      result is the returned string, with the number of calls made with each
      profile. */
  method TranscribeImage(imagePath: string, encodeError: Option<string>,
                         primary: seq<Reply>, fallback: seq<Reply>, maxRetries: int)
    returns (text: Result<string, string>, primaryCalls: nat, fallbackCalls: nat)
    requires maxRetries < |primary| && maxRetries < |fallback|
    ensures encodeError.Some? ==> text == Err(encodeError.value) && primaryCalls == 0 && fallbackCalls == 0
    ensures encodeError.None? ==>
      var run := Transcribe(primary, fallback, maxRetries);
      && text == Ok(Render(run.result, BaseName(imagePath), maxRetries))
      && primaryCalls == run.primaryCalls && fallbackCalls == run.fallbackCalls
    ensures primaryCalls <= if maxRetries < 0 then 0 else maxRetries + 1
    ensures fallbackCalls <= if maxRetries < 0 then 0 else maxRetries + 1
  {
    if encodeError.Some? {
      return Err(encodeError.value), 0, 0;
    }
    var result := PrimaryLoopEnd;
    primaryCalls, fallbackCalls := 0, 0;
    ghost var verdicts := Verdicts(primary);
    var attempt: nat := 0;
    while attempt <= maxRetries
      invariant attempt == 0 || attempt <= maxRetries
      invariant PrimaryTier(verdicts, Verdicts(fallback), maxRetries, attempt) == Transcribe(primary, fallback, maxRetries)
      decreases maxRetries + 1 - attempt
    {
      var verdict := ReadReply(primary[attempt]);
      VerdictAt(primary, attempt);
      PrimaryAttempt(verdicts, Verdicts(fallback), maxRetries, attempt);
      match verdict
      case Raised(_) =>
        if attempt < maxRetries {
          PrimaryStep(verdicts, Verdicts(fallback), maxRetries, attempt);
          attempt := attempt + 1;
          continue;
        }
        result, primaryCalls := PrimaryError, attempt + 1;
        break;
      case Refused =>
        primaryCalls := attempt + 1;
        result, fallbackCalls := TranscribeImageFallback(fallback, maxRetries);
        break;
      case Blank =>
        if attempt < maxRetries {
          PrimaryStep(verdicts, Verdicts(fallback), maxRetries, attempt);
          attempt := attempt + 1;
          continue;
        }
        primaryCalls := attempt + 1;
        result, fallbackCalls := TranscribeImageFallback(fallback, maxRetries);
        break;
      case Transcript(transcription) =>
        result, primaryCalls := Transcribed(transcription), attempt + 1;
        break;
    }
    assert Run(result, primaryCalls, fallbackCalls) == Transcribe(primary, fallback, maxRetries);
    text := Ok(Render(result, BaseName(imagePath), maxRetries));
  }
}
