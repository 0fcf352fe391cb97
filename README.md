# Medicaid voice notes: a verified model of the recording and transcription core

Medicaid is an Android app. It records voice notes, keeps them in a JSON list
with per-recording transcript files, plays them back, and transcribes them on
the device with the whisper.cpp speech engine. The engine loads a model binary
that the app downloads from a fixed catalog. This project models that core in
Dafny:

- **the audio reader** (`AudioProcessor`): it drops the 44-byte header and reads
  the rest as little-endian 16-bit PCM, each sample divided by 32768. Its two
  metadata probes fall back to 16000 Hz and to 0 ms.
- **the model catalog** (`WhisperModels`): eight entries, and lookup by name.
- **the model store** (`ModelDownload`): a streamed download that records
  progress per model, existence and path tests, deletion, and storage
  accounting.
- **the native engine** (`WhisperNative`): one process-wide context handle.
- **the selected-model preference** (`WhisperPreferences`).
- **the transcription service** (`Transcription`): resolve the model, download
  it if needed, load it, transcribe a file, switch models, clean up.
- **the recordings repository** (`RecordingRepository`): list, find, save,
  update, delete, transcript files, and unique file names.
- **the playback and capture services** (`Playback`, `Capture`): their flags,
  ids, positions and start times.
- **the clock formatters** of the recording list and the recording screen
  (`RecordingItem`, `AudioRecordingScreen`).

Supporting modules:

- `Util`: `Option`, which stands for Kotlin's `T?`.
- `Decimal`: the JVM's truncating `/` and `%`, `%d`/`%0Nd` formatting, and
  `toInt`/`toLong` parsing.
- `KotlinText`: `String.trim()`.
- `AudioRecordings`: the record types.

Everything outside the program becomes an input parameter. This covers:

- the file system: file contents, and the set or map of existing files with
  their lengths;
- the HTTP transfer (`Transfer`);
- the metadata retriever (`Metadata`);
- native model loading (`loads`) and inference (`Inference`);
- the platform player and recorder (`prepares`, `deviceOk`, `stopOk`);
- the clock, UUIDs and dates.

The services that update fields in place are classes. Each has `modifies`
clauses and the source's fields. Their methods are specified against pure
transition functions (`AfterPause`, `AfterStart`, `DownloadUpdates`, …), and
lemmas then prove the properties of those functions. Ghost state records what
the source does not expose:

- every progress record written;
- the HTTP calls made;
- the native contexts and platform recorders built and not yet freed.

Where the source and its documentation differ, the model follows the source:

- A file of exactly 44 bytes (a header with no audio) is rejected, because the
  size test is `buffer.size <= headerSize`.
- `TranscriptionResult` is declared with three fields, but the service builds
  it with a fourth, `modelUsed`. The model keeps the four.

In one place the model follows the intended behaviour instead of the written
code: `getSelectedModel` is modelled as "the stored name, or `base`". As
written, it calls `collect { it }` on the preference store's data flow.
`collect` returns `Unit` and never completes on that flow, so the function
would neither return the stored string nor type-check as `String`.

## Model

| member | source | states |
|---|---|---|
| Decimal.TDiv | app/src/main/java/com/example/medicaid/ui/RecordingItem.kt:469-470 | the JVM quotient: magnitude `|a| / b`, sign of the dividend (rounds toward zero) |
| Decimal.TMod | app/src/main/java/com/example/medicaid/ui/RecordingItem.kt:471 | the JVM remainder: magnitude `|a| % b`, sign of the dividend, strictly inside (-b, b) |
| Decimal.TDivModIdentity | app/src/main/java/com/example/medicaid/ui/RecordingItem.kt:469-471 | quotient times divisor plus remainder gives back the dividend |
| Decimal.NatDigits | app/src/main/java/com/example/medicaid/ui/RecordingItem.kt:479 | `%d` digits: at least one, all ASCII digits, no leading zero, one digit exactly below 10 |
| Decimal.FormatInt | app/src/main/java/com/example/medicaid/ui/RecordingItem.kt:472 | `%0Nd` output is at least N characters and never empty |
| Decimal.ParseInteger | app/src/main/java/com/example/medicaid/data/AudioProcessor.kt:104 | a parsed value lies in the target type's range and comes from non-empty text |
| Decimal.ToInt | app/src/main/java/com/example/medicaid/data/AudioProcessor.kt:120 | `String.toInt` accepts only values in the 32-bit range |
| Decimal.ToLong | app/src/main/java/com/example/medicaid/data/AudioProcessor.kt:104 | `String.toLong` accepts only values in the 64-bit range |
| Decimal.NatDigitsRoundTrip | app/src/main/java/com/example/medicaid/ui/RecordingItem.kt:479 | the decimal digits written for n read back as n |
| Decimal.LeadingZerosIgnored | app/src/main/java/com/example/medicaid/ui/RecordingItem.kt:472 | zeros in front of digits do not change the value they denote |
| Decimal.FormatIntShape | app/src/main/java/com/example/medicaid/ui/RecordingItem.kt:472 | the formatted text is the sign, then zero padding up to the width, then the digits of the magnitude |
| Decimal.FormatIntValue | app/src/main/java/com/example/medicaid/ui/RecordingItem.kt:472 | the digits after the sign denote the magnitude |
| Decimal.ParseFormatRoundTrip | app/src/main/java/com/example/medicaid/data/AudioProcessor.kt:120 | parsing the `%d` text of an in-range value gives the value back |
| Decimal.ParsePaddedRoundTrip | app/src/main/java/com/example/medicaid/ui/RecordingItem.kt:472 | parsing the zero-padded text of an in-range value gives the value back |
| Decimal.TwoDigitWidth | app/src/main/java/com/example/medicaid/ui/RecordingItem.kt:472 | a value below 100 is written by `%02d` as exactly two characters |
| Decimal.FormatIntInjective | app/src/main/java/com/example/medicaid/data/AudioRecordingRepository.kt:120 | different values are formatted as different texts |
| KotlinText.TrimStartSpec | app/src/main/java/com/example/medicaid/data/WhisperTranscriptionService.kt:98 | trimming the start keeps a suffix, drops only whitespace, and stops at a non-whitespace character |
| KotlinText.TrimEndSpec | app/src/main/java/com/example/medicaid/data/WhisperTranscriptionService.kt:98 | trimming the end keeps a prefix, drops only whitespace, and stops at a non-whitespace character |
| KotlinText.Trim | app/src/main/java/com/example/medicaid/data/WhisperTranscriptionService.kt:98 | the trimmed text is no longer than the input, and neither of its ends is whitespace |
| KotlinText.TrimIsSlice | app/src/main/java/com/example/medicaid/data/WhisperTranscriptionService.kt:98 | `trim()` is a contiguous slice with only whitespace around it, starting and ending with non-whitespace |
| KotlinText.TrimEmptyIffBlank | app/src/main/java/com/example/medicaid/data/WhisperTranscriptionService.kt:98 | the trimmed text is empty exactly when the input is all whitespace |
| KotlinText.TrimIdempotent | app/src/main/java/com/example/medicaid/data/WhisperTranscriptionService.kt:98 | trimming twice equals trimming once |
| AudioProcessor.Normalize | app/src/main/java/com/example/medicaid/data/AudioProcessor.kt:82 | a sample divided by 32768 lies in [-1, 1), and equals -1 only for -32768 |
| AudioProcessor.PcmSamples | app/src/main/java/com/example/medicaid/data/AudioProcessor.kt:73-84 | the data section yields one sample per whole byte pair |
| AudioProcessor.DecodeWav | app/src/main/java/com/example/medicaid/data/AudioProcessor.kt:66-75 | no result exactly when the file is at most 44 bytes; otherwise (size - 44) / 2 samples |
| AudioProcessor.PcmSamplesAt | app/src/main/java/com/example/medicaid/data/AudioProcessor.kt:77-84 | sample i is the little-endian signed pair at data offsets 2i and 2i+1, normalized |
| AudioProcessor.ReadWavFile | app/src/main/java/com/example/medicaid/data/AudioProcessor.kt:58-93 | the buffer filled by the sample loop equals the reference decoding of the file |
| AudioProcessor.ConvertAudioForWhisper | app/src/main/java/com/example/medicaid/data/AudioProcessor.kt:29-52 | a missing or unreadable file gives null; otherwise the reader's result |
| AudioProcessor.DecodeWavSampleAt | app/src/main/java/com/example/medicaid/data/AudioProcessor.kt:66-84 | sample i comes from file offsets 44 + 2i and 45 + 2i |
| AudioProcessor.DecodeWavRange | app/src/main/java/com/example/medicaid/data/AudioProcessor.kt:80-84 | every sample lies in [-1, 1), and -1 appears only for the bytes 0x00, 0x80 |
| AudioProcessor.HeaderIgnored | app/src/main/java/com/example/medicaid/data/AudioProcessor.kt:66-77 | the 44 header bytes never affect the result, because the RIFF/WAVE header is not checked |
| AudioProcessor.PcmSamplesDropsOddByte | app/src/main/java/com/example/medicaid/data/AudioProcessor.kt:74 | a byte after the last whole pair is not decoded |
| AudioProcessor.TrailingByteIgnored | app/src/main/java/com/example/medicaid/data/AudioProcessor.kt:74 | appending one odd byte to a decodable file does not change its samples |
| AudioProcessor.Int16BytesRoundTrip | app/src/main/java/com/example/medicaid/data/AudioProcessor.kt:78-82 | a 16-bit sample stored low byte first reads back as itself |
| AudioProcessor.BytesInt16RoundTrip | app/src/main/java/com/example/medicaid/data/AudioProcessor.kt:78-82 | a byte pair read as a sample and stored again gives the same pair |
| AudioProcessor.EncodePcm | app/src/main/java/com/example/medicaid/data/AudioProcessor.kt:23 | the PCM data for n samples is 2n bytes |
| AudioProcessor.NormalizeAll | app/src/main/java/com/example/medicaid/data/AudioProcessor.kt:81-84 | each output is the corresponding sample divided by 32768 |
| AudioProcessor.PcmRoundTrip | app/src/main/java/com/example/medicaid/data/AudioProcessor.kt:77-84 | decoding encoded samples gives the samples divided by 32768 |
| AudioProcessor.WavRoundTrip | app/src/main/java/com/example/medicaid/data/AudioProcessor.kt:66-87 | any header plus encoded samples decodes to those samples; the header alone is rejected |
| AudioProcessor.GetAudioSampleRate | app/src/main/java/com/example/medicaid/data/AudioProcessor.kt:114-125 | the parsed rate when the key is present and parses as Int; otherwise 16000 |
| AudioProcessor.GetAudioDuration | app/src/main/java/com/example/medicaid/data/AudioProcessor.kt:98-109 | the parsed duration when the key is present and parses as Long; otherwise 0 |
| AudioProcessor.SampleRateReadsReportedValue | app/src/main/java/com/example/medicaid/data/AudioProcessor.kt:118-120 | a rate the retriever reports as decimal text is the rate returned |
| WhisperModels.Names | app/src/main/java/com/example/medicaid/data/WhisperModel.kt:17-82 | the names of the entries, position by position |
| WhisperModels.IndexOfName | app/src/main/java/com/example/medicaid/data/WhisperTranscriptionService.kt:29 | the first position with that name, or -1 exactly when no entry has it |
| WhisperModels.Find | app/src/main/java/com/example/medicaid/data/WhisperTranscriptionService.kt:29 | none exactly when no entry has the name; otherwise the first entry with it |
| WhisperModels.CatalogNames | app/src/main/java/com/example/medicaid/data/WhisperModel.kt:17-82 | the catalog lists the eight variants in order: tiny, tiny.en, base, base.en, small, small.en, medium, medium.en |
| WhisperModels.TinyFacts | app/src/main/java/com/example/medicaid/data/WhisperModel.kt:18-25 | tiny's file is `ggml-tiny.bin` at the common URL prefix |
| WhisperModels.TinyEnFacts | app/src/main/java/com/example/medicaid/data/WhisperModel.kt:26-33 | tiny.en's file and URL follow the same naming |
| WhisperModels.BaseFacts | app/src/main/java/com/example/medicaid/data/WhisperModel.kt:34-41 | base's file and URL follow the same naming |
| WhisperModels.BaseEnFacts | app/src/main/java/com/example/medicaid/data/WhisperModel.kt:42-49 | base.en's file and URL follow the same naming |
| WhisperModels.SmallFacts | app/src/main/java/com/example/medicaid/data/WhisperModel.kt:50-57 | small's file and URL follow the same naming |
| WhisperModels.SmallEnFacts | app/src/main/java/com/example/medicaid/data/WhisperModel.kt:58-65 | small.en's file and URL follow the same naming |
| WhisperModels.MediumFacts | app/src/main/java/com/example/medicaid/data/WhisperModel.kt:66-73 | medium's file and URL follow the same naming |
| WhisperModels.MediumEnFacts | app/src/main/java/com/example/medicaid/data/WhisperModel.kt:74-81 | medium.en's file and URL follow the same naming |
| WhisperModels.EntryFacts | app/src/main/java/com/example/medicaid/data/WhisperModel.kt:17-82 | entry i is well named and its name has the listed length and first letter |
| WhisperModels.CatalogNaming | app/src/main/java/com/example/medicaid/data/WhisperModel.kt:17-82 | every entry's file is `ggml-<name>.bin`, downloaded from the common prefix plus that file name |
| WhisperModels.CatalogNamesDistinct | app/src/main/java/com/example/medicaid/data/WhisperModel.kt:17-82 | no two entries share a name |
| WhisperModels.FileNameInjective | app/src/main/java/com/example/medicaid/data/WhisperModel.kt:17-82 | two names give the same `ggml-<name>.bin` only when they are equal |
| WhisperModels.CatalogFileNamesDistinct | app/src/main/java/com/example/medicaid/data/WhisperModel.kt:17-82 | no two entries share a file, so downloads of different models never overwrite each other |
| WhisperModels.CatalogDefaults | app/src/main/java/com/example/medicaid/data/WhisperModel.kt:13-14 | every catalog record starts not downloaded, with progress 0 |
| WhisperModels.EnglishVariantsMatchSize | app/src/main/java/com/example/medicaid/data/WhisperModel.kt:17-82 | each `.en` variant follows its multilingual sibling and has the same size |
| WhisperModels.BaseIsInCatalog | app/src/main/java/com/example/medicaid/data/WhisperTranscriptionService.kt:30 | the fallback lookup of "base" always finds the Base entry |
| WhisperModels.FindCatalogEntry | app/src/main/java/com/example/medicaid/data/WhisperTranscriptionService.kt:116 | a lookup by any catalog name finds exactly that entry |
| WhisperModels.IndexOfFirstOccurrence | app/src/main/java/com/example/medicaid/data/WhisperTranscriptionService.kt:29 | the lookup stops at an entry whose name no earlier entry has |
| WhisperModels.FindUnique | app/src/main/java/com/example/medicaid/data/WhisperTranscriptionService.kt:29 | with distinct names, a lookup by an entry's name returns that entry |
| ModelDownload.StreamUpdates | app/src/main/java/com/example/medicaid/data/WhisperModelDownloadService.kt:76-85 | the read loop writes one progress record per chunk |
| ModelDownload.DownloadUpdates | app/src/main/java/com/example/medicaid/data/WhisperModelDownloadService.kt:38-99 | every download writes at least one progress record |
| ModelDownload.DownloadedModels | app/src/main/java/com/example/medicaid/data/WhisperModelDownloadService.kt:124-126 | exactly the given entries whose file exists and is non-empty, in their order, each once: the selection at strictly increasing positions, which are exactly the downloaded ones |
| ModelDownload.SelectionExtends | app/src/main/java/com/example/medicaid/data/WhisperModelDownloadService.kt:125 | the ordered selection of all but the last entry extends by the last entry exactly when it is downloaded |
| ModelDownload.WhisperModelDownloadService.UpdateProgress | app/src/main/java/com/example/medicaid/data/WhisperModelDownloadService.kt:139-155 | the model's record is replaced by the new one and every other record stays |
| ModelDownload.WhisperModelDownloadService.DownloadModel | app/src/main/java/com/example/medicaid/data/WhisperModelDownloadService.kt:38-99 | result, files, full progress log, latest record and network calls match the reference download for the transfer |
| ModelDownload.WhisperModelDownloadService.WriteBody | app/src/main/java/com/example/medicaid/data/WhisperModelDownloadService.kt:69-85 | the file holds the sum of the chunks, and one record per chunk is written with the running byte count |
| ModelDownload.WhisperModelDownloadService.DeleteModel | app/src/main/java/com/example/medicaid/data/WhisperModelDownloadService.kt:111-122 | absent file: true and no change; otherwise the delete's result, and on success the file is removed and NotDownloaded recorded |
| ModelDownload.WhisperModelDownloadService.IsModelDownloaded | app/src/main/java/com/example/medicaid/data/WhisperModelDownloadService.kt:101-104 | true exactly when the file exists and is non-empty; a downloaded model has a path |
| ModelDownload.WhisperModelDownloadService.GetModelPath | app/src/main/java/com/example/medicaid/data/WhisperModelDownloadService.kt:106-109 | a path exactly when the file exists, and it is the file in the models directory |
| ModelDownload.WhisperModelDownloadService.GetDownloadedModels | app/src/main/java/com/example/medicaid/data/WhisperModelDownloadService.kt:124-126 | exactly the catalog entries that `isModelDownloaded` accepts, in catalog order, each once |
| ModelDownload.WhisperModelDownloadService.GetTotalStorageUsed | app/src/main/java/com/example/medicaid/data/WhisperModelDownloadService.kt:128-137 | the loop's total equals the sum of the catalog's existing file lengths |
| ModelDownload.StreamUpdatesExtend | app/src/main/java/com/example/medicaid/data/WhisperModelDownloadService.kt:76-85 | one more chunk adds one record for the bytes read so far |
| ModelDownload.StreamUpdatesAt | app/src/main/java/com/example/medicaid/data/WhisperModelDownloadService.kt:80-84 | the k-th record carries the first k+1 chunks' bytes and their fraction of the total |
| ModelDownload.PresentFileShortCircuits | app/src/main/java/com/example/medicaid/data/WhisperModelDownloadService.kt:42-46 | an existing file succeeds at once: one Downloaded record of the catalog size, no change to the files |
| ModelDownload.RefusedUpdates | app/src/main/java/com/example/medicaid/data/WhisperModelDownloadService.kt:55-67 | a thrown call, a non-2xx response or a null body writes the start record, then Error |
| ModelDownload.StreamedUpdates | app/src/main/java/com/example/medicaid/data/WhisperModelDownloadService.kt:69-98 | an opened body writes the start record, one record per chunk, then Downloaded or Error |
| ModelDownload.FirstRecordIsStart | app/src/main/java/com/example/medicaid/data/WhisperModelDownloadService.kt:49 | before the request, Downloading with 0 bytes is recorded |
| ModelDownload.FailureRecordsError | app/src/main/java/com/example/medicaid/data/WhisperModelDownloadService.kt:57-67 | every failure ends with an Error record; the file keeps what was written |
| ModelDownload.CompletionRecordsDownloaded | app/src/main/java/com/example/medicaid/data/WhisperModelDownloadService.kt:87-93 | a completed download ends with Downloaded at the content length, and the file holds every chunk |
| ModelDownload.SumPrefixIncreases | app/src/main/java/com/example/medicaid/data/WhisperModelDownloadService.kt:80 | the running byte count strictly increases with every chunk |
| ModelDownload.StreamProgressIncreases | app/src/main/java/com/example/medicaid/data/WhisperModelDownloadService.kt:80-84 | in the loop the bytes strictly increase from record to record; the fraction is bytes/total, or 0 when the total is unknown |
| ModelDownload.PartialFileCountsAsDownloaded | app/src/main/java/com/example/medicaid/data/WhisperModelDownloadService.kt:94-104 | a stream that fails after delivering data reports failure, yet leaves a file `isModelDownloaded` accepts |
| ModelDownload.EmptyFileHasPathButIsNotDownloaded | app/src/main/java/com/example/medicaid/data/WhisperModelDownloadService.kt:101-109 | an empty file is not downloaded, yet it has a path and makes a download succeed |
| ModelDownload.DownloadedHasPath | app/src/main/java/com/example/medicaid/data/WhisperModelDownloadService.kt:101-109 | a downloaded model always has its path |
| ModelDownload.StorageIsSumOverDownloaded | app/src/main/java/com/example/medicaid/data/WhisperModelDownloadService.kt:124-137 | the storage total equals the total over `getDownloadedModels` |
| ModelDownload.NoStorageIffNoneDownloaded | app/src/main/java/com/example/medicaid/data/WhisperModelDownloadService.kt:124-137 | no storage is used exactly when no model is downloaded |
| WhisperNative.TranscriptText | app/src/main/cpp/whisper-jni.cpp:37-84 | the transcript is "" when there is no context or inference fails |
| WhisperNative.TranscriptEmptyIff | app/src/main/cpp/whisper-jni.cpp:37-84 | the transcript is empty exactly when there is no context, inference fails, or every segment is empty |
| WhisperNative.ConcatEmptyIff | app/src/main/cpp/whisper-jni.cpp:74-80 | the joined segments are empty exactly when every segment is |
| WhisperNative.WhisperEngine.InitializeWhisper | app/src/main/cpp/whisper-jni.cpp:14-35 | the handle becomes the new context or null; an old context is not freed, so the live count grows |
| WhisperNative.WhisperEngine.TranscribeAudio | app/src/main/cpp/whisper-jni.cpp:37-84 | the text is empty exactly when there is no context, inference fails, or every segment is empty |
| WhisperNative.WhisperEngine.Cleanup | app/src/main/cpp/whisper-jni.cpp:86-93 | the handle is null afterwards, and a held context is freed |
| WhisperNative.WhisperEngine.IsInitialized | app/src/main/cpp/whisper-jni.cpp:95-98 | true exactly when the handle is not null, and then a context is live |
| WhisperPreferences.WhisperPreferencesManager.GetSelectedModel | app/src/main/java/com/example/medicaid/data/WhisperPreferencesManager.kt:31-35 | the stored name, or "base" when none was written |
| WhisperPreferences.WhisperPreferencesManager.SetSelectedModel | app/src/main/java/com/example/medicaid/data/WhisperPreferencesManager.kt:25-29 | a later read gives the name written |
| Transcription.ResolveModel | app/src/main/java/com/example/medicaid/data/WhisperTranscriptionService.kt:28-30 | always a catalog entry: the one the preference names, else Base |
| Transcription.ResolveCatalogName | app/src/main/java/com/example/medicaid/data/WhisperTranscriptionService.kt:28-30 | every catalog name resolves to its own entry |
| Transcription.PathPresentAfterEnsure | app/src/main/java/com/example/medicaid/data/WhisperTranscriptionService.kt:33-47 | once the download step succeeds the model has a path, so the null-path failure cannot happen |
| Transcription.WhisperTranscriptionService.InitializeWhisper | app/src/main/java/com/example/medicaid/data/WhisperTranscriptionService.kt:23-65 | downloads only a model that is not downloaded, with the download's files, progress log and latest progress record; succeeds exactly when the model is present and loads; the flags are set only on success |
| Transcription.WhisperTranscriptionService.TranscribeAudioFile | app/src/main/java/com/example/medicaid/data/WhisperTranscriptionService.kt:67-112 | null unless initialized, decodable and non-empty; otherwise the trimmed text, confidence 0.95, elapsed time, model name |
| Transcription.WhisperTranscriptionService.SwitchModel | app/src/main/java/com/example/medicaid/data/WhisperTranscriptionService.kt:114-147 | an unknown or not-downloaded model fails with no effect; otherwise cleanup, store the preference, and reload that model, with no download and the store's files, log and progress unchanged |
| Transcription.WhisperTranscriptionService.Cleanup | app/src/main/java/com/example/medicaid/data/WhisperTranscriptionService.kt:153-162 | the service and the engine end uninitialized, and the context is freed |
| Transcription.WhisperTranscriptionService.IsReady | app/src/main/java/com/example/medicaid/data/WhisperTranscriptionService.kt:164 | true exactly when the service is initialized and the engine holds a context; then a model is current |
| Transcription.WhisperTranscriptionService.GetCurrentModel | app/src/main/java/com/example/medicaid/data/WhisperTranscriptionService.kt:149 | in a valid state, a catalog entry exactly while the service is initialized |
| Transcription.ReadyHasModel | app/src/main/java/com/example/medicaid/data/WhisperTranscriptionService.kt:164 | a ready service has a catalog model and a live engine context |
| RecordingRepository.ListIn | app/src/main/java/com/example/medicaid/data/AudioRecordingRepository.kt:28-40 | a missing or unparsable file reads as the empty list |
| RecordingRepository.IndexOfId | app/src/main/java/com/example/medicaid/data/AudioRecordingRepository.kt:59 | the first position with that id, or -1 exactly when no entry has it |
| RecordingRepository.FindById | app/src/main/java/com/example/medicaid/data/AudioRecordingRepository.kt:42-44 | none exactly when no entry has the id; otherwise the first entry with it, the one at `indexOfFirst` |
| RecordingRepository.RemoveAllById | app/src/main/java/com/example/medicaid/data/AudioRecordingRepository.kt:90 | exactly the entries with another id remain, and never more entries than before |
| RecordingRepository.AudioRecordingRepository.GetAllRecordings | app/src/main/java/com/example/medicaid/data/AudioRecordingRepository.kt:28-40 | before the first write the list is empty |
| RecordingRepository.AudioRecordingRepository.GetRecordingById | app/src/main/java/com/example/medicaid/data/AudioRecordingRepository.kt:42-44 | none exactly when no stored recording has the id; otherwise the first stored recording with it |
| RecordingRepository.AudioRecordingRepository.SaveRecording | app/src/main/java/com/example/medicaid/data/AudioRecordingRepository.kt:46-55 | the list gains the recording at its end; a transcript file is written only for a non-empty transcript |
| RecordingRepository.AudioRecordingRepository.UpdateRecording | app/src/main/java/com/example/medicaid/data/AudioRecordingRepository.kt:57-70 | the first entry with the id is replaced; an absent id writes nothing |
| RecordingRepository.AudioRecordingRepository.DeleteRecording | app/src/main/java/com/example/medicaid/data/AudioRecordingRepository.kt:72-93 | the first match's audio file and the transcript leave the file sets when their `delete()` succeeds, and stay when it fails (the result is ignored); in either case every entry with the id is dropped from the list, in order |
| RecordingRepository.AudioRecordingRepository.GetTranscriptFromFile | app/src/main/java/com/example/medicaid/data/AudioRecordingRepository.kt:105-112 | the transcript file's text, or none exactly when there is no such file |
| RecordingRepository.AudioRecordingRepository.CreateUniqueAudioFile | app/src/main/java/com/example/medicaid/data/AudioRecordingRepository.kt:118-122 | a file `recording_<timestamp>.<ext>` in the audio directory |
| RecordingRepository.SaveAppends | app/src/main/java/com/example/medicaid/data/AudioRecordingRepository.kt:48-50 | saving adds one entry at the end and keeps everything before it |
| RecordingRepository.SaveThenFind | app/src/main/java/com/example/medicaid/data/AudioRecordingRepository.kt:46-55 | no duplicate check: a lookup finds the older entry when the id was already saved, and the new one otherwise |
| RecordingRepository.IndexAppend | app/src/main/java/com/example/medicaid/data/AudioRecordingRepository.kt:48-50 | appending moves no first occurrence, and an id new to the list is found at the end |
| RecordingRepository.UpdateThenFind | app/src/main/java/com/example/medicaid/data/AudioRecordingRepository.kt:57-70 | after an update the id finds the new record, other ids find what they did, and the length stays |
| RecordingRepository.IndexAfterUpdate | app/src/main/java/com/example/medicaid/data/AudioRecordingRepository.kt:59-62 | replacing the first occurrence moves no first occurrence |
| RecordingRepository.DeleteRemovesId | app/src/main/java/com/example/medicaid/data/AudioRecordingRepository.kt:90 | after a delete no entry has the id, and exactly the entries with that id are gone |
| RecordingRepository.FindByIdUnfold | app/src/main/java/com/example/medicaid/data/AudioRecordingRepository.kt:43 | a lookup checks the head, then the rest |
| RecordingRepository.DeleteKeepsOthers | app/src/main/java/com/example/medicaid/data/AudioRecordingRepository.kt:90 | a delete leaves the lookup of every other id as it was |
| RecordingRepository.RemoveAllDistributes | app/src/main/java/com/example/medicaid/data/AudioRecordingRepository.kt:90 | `removeAll` on a concatenation is `removeAll` on each part, in order: with RemoveAllSingleton this fixes the survivors and their order |
| RecordingRepository.RemoveAllSingleton | app/src/main/java/com/example/medicaid/data/AudioRecordingRepository.kt:90 | a single entry is dropped exactly when it has the id |
| RecordingRepository.DeleteAbsentIsIdentity | app/src/main/java/com/example/medicaid/data/AudioRecordingRepository.kt:72-93 | deleting an absent id leaves the list unchanged |
| RecordingRepository.UniqueName | app/src/main/java/com/example/medicaid/data/AudioRecordingRepository.kt:120 | a unique name splits back into the prefix `recording_`, the timestamp digits, and `.` plus the extension |
| RecordingRepository.UniqueNamesPerTimestamp | app/src/main/java/com/example/medicaid/data/AudioRecordingRepository.kt:118-122 | files made at different instants with one extension have different names |
| Playback.AudioPlaybackService.PlayAudio | app/src/main/java/com/example/medicaid/data/AudioPlaybackService.kt:22-87 | succeeds exactly when the file exists and the player prepares; the state is that of a fresh start, or idle |
| Playback.AudioPlaybackService.PausePlayback | app/src/main/java/com/example/medicaid/data/AudioPlaybackService.kt:89-103 | a playing player is paused and its position saved; otherwise nothing changes |
| Playback.AudioPlaybackService.ResumePlayback | app/src/main/java/com/example/medicaid/data/AudioPlaybackService.kt:105-119 | when paused, seek to the saved position and play; otherwise nothing changes |
| Playback.AudioPlaybackService.StopPlayback | app/src/main/java/com/example/medicaid/data/AudioPlaybackService.kt:121-134 | the service ends idle |
| Playback.AudioPlaybackService.SeekTo | app/src/main/java/com/example/medicaid/data/AudioPlaybackService.kt:136-146 | with a player, both the player and the saved position move |
| Playback.AudioPlaybackService.GetCurrentPosition | app/src/main/java/com/example/medicaid/data/AudioPlaybackService.kt:148-155 | the player's position, or 0 without a player |
| Playback.AudioPlaybackService.GetDuration | app/src/main/java/com/example/medicaid/data/AudioPlaybackService.kt:157-164 | the player's duration, or 0 without a player |
| Playback.AudioPlaybackService.IsPlaying | app/src/main/java/com/example/medicaid/data/AudioPlaybackService.kt:166 | in a consistent state, the flag says whether the player is playing |
| Playback.AudioPlaybackService.IsPaused | app/src/main/java/com/example/medicaid/data/AudioPlaybackService.kt:168 | in a consistent state, a paused service holds a player and is not playing |
| Playback.AudioPlaybackService.GetCurrentlyPlayingId | app/src/main/java/com/example/medicaid/data/AudioPlaybackService.kt:170 | in a consistent state, an id is recorded exactly while there is a player |
| Playback.AudioPlaybackService.Cleanup | app/src/main/java/com/example/medicaid/data/AudioPlaybackService.kt:172-183 | every field is reset |
| Playback.AudioPlaybackService.Release | app/src/main/java/com/example/medicaid/data/AudioPlaybackService.kt:185-187 | every field is reset |
| Playback.TransitionsKeepConsistent | app/src/main/java/com/example/medicaid/data/AudioPlaybackService.kt:12-16 | every operation keeps the fields consistent; playing and paused are never both set |
| Playback.PauseThenResume | app/src/main/java/com/example/medicaid/data/AudioPlaybackService.kt:89-119 | pausing, then resuming, plays on from the position the pause read |
| Playback.PauseResumeIdempotent | app/src/main/java/com/example/medicaid/data/AudioPlaybackService.kt:89-119 | a second pause or a second resume changes nothing |
| Playback.SeekMovesPosition | app/src/main/java/com/example/medicaid/data/AudioPlaybackService.kt:136-155 | with a player, the reported position is the one sought; without one, a seek is ignored |
| Playback.FailedPlayIsIdle | app/src/main/java/com/example/medicaid/data/AudioPlaybackService.kt:30-86 | a missing file or a player that does not prepare leaves the service idle; otherwise it plays from 0 |
| Capture.AudioRecordingService.StartRecording | app/src/main/java/com/example/medicaid/data/AudioRecordingService.kt:23-60 | an m4a file named from the clock; on success recording from now; on failure reset, with the failed recorder leaked |
| Capture.AudioRecordingService.StopRecording | app/src/main/java/com/example/medicaid/data/AudioRecordingService.kt:62-95 | the record of the capture, or null without a recorder or on a failed stop; reset unless there was nothing to stop |
| Capture.AudioRecordingService.CancelRecording | app/src/main/java/com/example/medicaid/data/AudioRecordingService.kt:97-122 | the file leaves the set when the stop succeeds and its `delete()` succeeds, and stays otherwise (the delete's result is ignored, and the call still returns true); the state ends reset |
| Capture.AudioRecordingService.GetRecordingDuration | app/src/main/java/com/example/medicaid/data/AudioRecordingService.kt:124-130 | the elapsed time since the start, or 0 when not started |
| Capture.AudioRecordingService.IsRecording | app/src/main/java/com/example/medicaid/data/AudioRecordingService.kt:132-134 | true exactly when a recorder exists and a start time is set |
| Capture.AudioRecordingService.Cleanup | app/src/main/java/com/example/medicaid/data/AudioRecordingService.kt:136-141 | the recorder is released and every field reset |
| Capture.AudioRecordingService.Release | app/src/main/java/com/example/medicaid/data/AudioRecordingService.kt:143-145 | the recorder is released and every field reset |
| Capture.StartThenStop | app/src/main/java/com/example/medicaid/data/AudioRecordingService.kt:23-95 | a started, then stopped capture yields an untranscribed record of that file lasting stop - start, and resets |
| Capture.StartedCaptureIsRecording | app/src/main/java/com/example/medicaid/data/AudioRecordingService.kt:124-134 | a started capture is recording exactly when the clock read positive; its duration is the elapsed time |
| Capture.StopReturnsRecordIff | app/src/main/java/com/example/medicaid/data/AudioRecordingService.kt:62-95 | a stop returns a record exactly when a recorder exists and stops cleanly |
| Capture.CaptureFileIsM4a | app/src/main/java/com/example/medicaid/data/AudioRecordingService.kt:28 | capture files are `recording_<timestamp>.m4a` in the audio directory |
| RecordingItem.FormatDuration | app/src/main/java/com/example/medicaid/ui/RecordingItem.kt:468-473 | the duration text has at least five characters |
| RecordingItem.FormatPlaybackTime | app/src/main/java/com/example/medicaid/ui/RecordingItem.kt:475-480 | the playback text has at least four characters |
| RecordingItem.ReadClock | app/src/main/java/com/example/medicaid/ui/RecordingItem.kt:468-480 | a readable clock text has a colon three characters from the end |
| RecordingItem.ClockFieldsMeaning | app/src/main/java/com/example/medicaid/ui/RecordingItem.kt:469-471 | for a non-negative duration, seconds are 0..59, and minutes times 60 plus seconds give the whole seconds |
| RecordingItem.ClockFieldsNegative | app/src/main/java/com/example/medicaid/ui/RecordingItem.kt:469-471 | for a negative duration both fields round toward zero and take the input's sign |
| RecordingItem.SubSecondIgnored | app/src/main/java/com/example/medicaid/ui/RecordingItem.kt:468-480 | all instants within one whole second format identically |
| RecordingItem.DurationReadsBack | app/src/main/java/com/example/medicaid/ui/RecordingItem.kt:468-473 | the duration text reads back as its minutes and seconds; below 100 minutes it is five characters |
| RecordingItem.PlaybackTimeReadsBack | app/src/main/java/com/example/medicaid/ui/RecordingItem.kt:475-480 | the playback text reads back as its minutes and seconds; below 10 minutes it is four characters |
| RecordingItem.PaddingIsTheOnlyDifference | app/src/main/java/com/example/medicaid/ui/RecordingItem.kt:468-480 | under ten minutes the two formats differ only by the minutes' leading zero |
| AudioRecordingScreen.FormatDuration | app/src/main/java/com/example/medicaid/ui/AudioRecordingScreen.kt:232-237 | the screen's timer text equals the list item's duration text for every input |

## Left out

- Logging, coroutine dispatchers and `withContext` are left out: they do not affect results.
- Concurrency is left out. The services are modelled as used by one caller at a time.
- Listener callbacks are left out: the player's completion and error listeners, and the recorder's info and error listeners.
- Playback position advancing with time is not modelled. The player's position changes only by seek, pause and start.
- Float rounding is not modelled. Progress fractions, the normalized samples and the transcription confidence `0.95f` are reals. A `Float` division is exact for the samples and rounded for the progress. `0.95f` is not exactly 0.95 as a Float.
- The Gson encoding of the recordings list is not modelled. Null fields from a hand-edited file are not modelled either.
- The model does not capture that `dateCreated` loses its milliseconds in the recordings file. A plain `Gson()` writes `java.util.Date` with the default `DateFormat`, which keeps whole seconds only, and the capture service stamps the date with `Date()`. Everywhere else the model reads back a written list unchanged: `GetAllRecordings`, `SaveThenFind` and `UpdateThenFind` hold for every field except the sub-second part of `dateCreated`.
- I/O errors on writes are not modelled (`writeText`, `sink.emit`, `mkdirs`). The catch blocks that only log are left out.
- Reads are not modelled at byte level: `FileInputStream.read` fills the whole buffer, and `file.length().toInt()` does not truncate.
- The AAC content of capture files is not modelled. The reader decodes whatever bytes it gets as PCM, and so does the model.
- Digits outside ASCII and locale-dependent formatting are not modelled.
- The native engine's internals are not part of this model: model loading, the inference parameters (greedy sampling, language "en", 4 threads) and the sample-rate argument. The rate is computed and passed, but it does not affect the modelled result.
- `getAudioDirectory`, `getTranscriptsDirectory` and `getModelDownloadService` are left out: they only return a field.
- The `selectedModel` flow of the preferences is left out; only the one-shot read and the write are modelled.
- The UI (screens, the view model, the model selection dialog) is not part of this model, apart from the two clock formatters.
- ModelDownload.WhisperModelDownloadService.DownloadModel: the three early failures (the call throws, a non-2xx status, a null body) are one branch, because their effects are identical.
- ModelDownload.WhisperModelDownloadService.DownloadModel: a stream failure is modelled only after whole chunks, not in the middle of a chunk's write.
- WhisperPreferences.WhisperPreferencesManager.GetSelectedModel: modelled as returning the stored value or "base". The written code calls `collect { it }` on the store's data flow. That returns `Unit` and suspends for ever, so as written the function neither returns the stored string nor type-checks as `String`.
- Capture.AudioRecordingService.StartRecording: a failed start does not record that the platform may already have created the output file.
