/** The records of the capture and transcription flow: a saved capture and one transcription. */
module AudioRecordings {

  /** A capture in the recordings list; `dateCreated` is the `Date` as epoch milliseconds. */
  datatype AudioRecording = AudioRecording(
    id: string,
    fileName: string,
    filePath: string,
    duration: int,          // milliseconds
    dateCreated: int,
    transcription: string := "",
    isTranscribed: bool := false
  )

  /**
   * One successful transcription. The declaration has three fields; the
   * service builds it with a fourth, `modelUsed`, which is kept here.
   */
  datatype TranscriptionResult = TranscriptionResult(
    text: string,
    confidence: real,
    processingTime: int,    // milliseconds
    modelUsed: string
  )
}
