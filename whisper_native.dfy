/**
 * The native speech-recognition boundary, as an abstract engine. Its state is
 * the process-wide context handle; here, the path of the model the live
 * context was built from, or `None` for a null handle. Whether building a
 * context from a file succeeds, and what inference produces, are inputs.
 */
module WhisperNative {
  import opened Util

  /** What `whisper_full` did in one call: failed, or produced these segment texts. */
  datatype Inference = InferenceFailed | Segments(texts: seq<string>)

  function Concat(texts: seq<string>): string {
    if texts == [] then "" else Concat(texts[..|texts| - 1]) + texts[|texts| - 1]
  }

  /** `transcribeAudio`: "" with no context or on failure, else the segments joined in order. */
  function TranscriptText(context: Option<string>, inference: Inference): (text: string)
    ensures context.None? || inference.InferenceFailed? ==> text == ""
  {
    if context.None? then ""
    else match inference
      case InferenceFailed => ""
      case Segments(texts) => Concat(texts)
  }

  /** The transcript is empty exactly when there is no context, inference failed, or every segment is empty. */
  lemma {:induction false} TranscriptEmptyIff(context: Option<string>, inference: Inference)
    ensures TranscriptText(context, inference) == "" <==>
      context.None? || inference.InferenceFailed? || forall i :: 0 <= i < |inference.texts| ==> inference.texts[i] == ""
  {
    if context.Some? && inference.Segments? {
      ConcatEmptyIff(inference.texts);
    }
  }

  lemma {:induction false} ConcatEmptyIff(texts: seq<string>)
    ensures Concat(texts) == "" <==> forall i :: 0 <= i < |texts| ==> texts[i] == ""
    decreases |texts|
  {
    if texts != [] {
      ConcatEmptyIff(texts[..|texts| - 1]);
      assert forall i :: 0 <= i < |texts| - 1 ==> texts[..|texts| - 1][i] == texts[i];
    }
  }

  class WhisperEngine {
    /** `g_whisper_context`. */
    var context: Option<string>
    /** Native contexts constructed and not yet freed. */
    ghost var liveContexts: nat

    ghost predicate Valid()
      reads this
    {
      context.Some? ==> liveContexts >= 1
    }

    constructor ()
      ensures Valid() && context.None? && liveContexts == 0
    {
      context := None;
      liveContexts := 0;
    }

    /**
     * `initializeWhisper`: the handle is overwritten with the new context,
     * or with null when building it fails; a context already held is not
     * freed first.
     */
    method InitializeWhisper(modelPath: string, loads: bool) returns (ok: bool)
      requires Valid()
      modifies this
      ensures Valid()
      ensures ok == loads
      ensures context == if loads then Some(modelPath) else None
      ensures liveContexts == old(liveContexts) + if loads then 1 else 0
    {
      if loads {
        context := Some(modelPath);
        liveContexts := liveContexts + 1;
      } else {
        context := None;
      }
      ok := loads;
    }

    /** `transcribeAudio`; the samples and rate go to the native side, which is not modelled. */
    function TranscribeAudio(audio: seq<real>, sampleRate: int, inference: Inference): (text: string)
      reads this
      ensures text == "" <==>
        context.None? || inference.InferenceFailed? || forall i :: 0 <= i < |inference.texts| ==> inference.texts[i] == ""
    {
      TranscriptEmptyIff(context, inference);
      TranscriptText(context, inference)
    }

    /** `cleanup`: free the context if there is one and null the handle; idempotent. */
    method Cleanup()
      requires Valid()
      modifies this
      ensures Valid()
      ensures context.None?
      ensures liveContexts == old(liveContexts) - if old(context).Some? then 1 else 0
    {
      if context.Some? {
        context := None;
        liveContexts := liveContexts - 1;
      }
    }

    /** `isInitialized`: the handle is not null, so a context is live. */
    function IsInitialized(): (b: bool)
      reads this
      ensures b <==> context.Some?
      ensures Valid() && b ==> liveContexts >= 1
    {
      context.Some?
    }
  }
}
