/**
 * The model catalog: the fixed, ordered table of speech-model variants, the
 * four download states, and the per-model progress record.
 */
module WhisperModels {
  import opened Util

  /** A catalog entry; a new record is not downloaded and has progress 0. */
  datatype WhisperModel = WhisperModel(
    name: string,
    displayName: string,
    size: int,            // bytes
    downloadUrl: string,
    fileName: string,
    description: string,
    isDownloaded: bool := false,
    downloadProgress: real := 0.0
  )

  datatype ModelDownloadStatus = NotDownloaded | Downloading | Downloaded | Error

  /** The latest progress of one model; `progress` is the Float fraction, as a real. */
  datatype ModelDownloadProgress = ModelDownloadProgress(
    modelName: string,
    progress: real,
    bytesDownloaded: int,
    totalBytes: int,
    status: ModelDownloadStatus
  )

  const UrlPrefix: string := "https://huggingface.co/ggerganov/whisper.cpp/resolve/main/"

  const Tiny: WhisperModel := WhisperModel("tiny", "Tiny", 39_000_000,
    "https://huggingface.co/ggerganov/whisper.cpp/resolve/main/ggml-tiny.bin",
    "ggml-tiny.bin", "Fastest model, lower accuracy")
  const TinyEn: WhisperModel := WhisperModel("tiny.en", "Tiny (English)", 39_000_000,
    "https://huggingface.co/ggerganov/whisper.cpp/resolve/main/ggml-tiny.en.bin",
    "ggml-tiny.en.bin", "Fastest model, English only")
  const Base: WhisperModel := WhisperModel("base", "Base", 142_000_000,
    "https://huggingface.co/ggerganov/whisper.cpp/resolve/main/ggml-base.bin",
    "ggml-base.bin", "Good balance of speed and accuracy")
  const BaseEn: WhisperModel := WhisperModel("base.en", "Base (English)", 142_000_000,
    "https://huggingface.co/ggerganov/whisper.cpp/resolve/main/ggml-base.en.bin",
    "ggml-base.en.bin", "Good balance, English only")
  const Small: WhisperModel := WhisperModel("small", "Small", 466_000_000,
    "https://huggingface.co/ggerganov/whisper.cpp/resolve/main/ggml-small.bin",
    "ggml-small.bin", "Better accuracy, slower processing")
  const SmallEn: WhisperModel := WhisperModel("small.en", "Small (English)", 466_000_000,
    "https://huggingface.co/ggerganov/whisper.cpp/resolve/main/ggml-small.en.bin",
    "ggml-small.en.bin", "Better accuracy, English only")
  const Medium: WhisperModel := WhisperModel("medium", "Medium", 1_500_000_000,
    "https://huggingface.co/ggerganov/whisper.cpp/resolve/main/ggml-medium.bin",
    "ggml-medium.bin", "High accuracy, slower processing")
  const MediumEn: WhisperModel := WhisperModel("medium.en", "Medium (English)", 1_500_000_000,
    "https://huggingface.co/ggerganov/whisper.cpp/resolve/main/ggml-medium.en.bin",
    "ggml-medium.en.bin", "High accuracy, English only")

  /** `WhisperModel.availableModels`. */
  const AvailableModels: seq<WhisperModel> := [Tiny, TinyEn, Base, BaseEn, Small, SmallEn, Medium, MediumEn]

  function Names(models: seq<WhisperModel>): (r: seq<string>)
    ensures |r| == |models|
    ensures forall i :: 0 <= i < |models| ==> r[i] == models[i].name
  {
    if models == [] then [] else [models[0].name] + Names(models[1..])
  }

  /** `indexOfFirst { it.name == name }`: the position of the first entry with that name, or -1. */
  function IndexOfName(models: seq<WhisperModel>, name: string): (r: int)
    ensures -1 <= r < |models|
    ensures r == -1 <==> forall i :: 0 <= i < |models| ==> models[i].name != name
    ensures r >= 0 ==> models[r].name == name && forall j :: 0 <= j < r ==> models[j].name != name
  {
    if models == [] then -1
    else if models[0].name == name then 0
    else
      var k := IndexOfName(models[1..], name);
      if k == -1 then -1 else k + 1
  }

  /** `availableModels.find { it.name == name }`: the first entry with that name. */
  function Find(models: seq<WhisperModel>, name: string): (r: Option<WhisperModel>)
    ensures r.None? <==> forall m :: m in models ==> m.name != name
    ensures r.Some? ==> r.value == models[IndexOfName(models, name)] && r.value.name == name
  {
    var i := IndexOfName(models, name);
    if i == -1 then None else Some(models[i])
  }

  /** No two entries share a name. */
  predicate NamesDistinct(models: seq<WhisperModel>) {
    forall i, j :: 0 <= i < j < |models| ==> models[i].name != models[j].name
  }

  /** No two entries share a file name. */
  predicate FileNamesDistinct(models: seq<WhisperModel>) {
    forall i, j :: 0 <= i < j < |models| ==> models[i].fileName != models[j].fileName
  }

  /** The catalog lists exactly these eight variants, in this order. */
  lemma CatalogNames()
    ensures Names(AvailableModels)
         == ["tiny", "tiny.en", "base", "base.en", "small", "small.en", "medium", "medium.en"]
  {
  }

  /** The file name and URL regularity of one entry. */
  predicate WellNamed(m: WhisperModel) {
    m.fileName == "ggml-" + m.name + ".bin" && m.downloadUrl == UrlPrefix + m.fileName
  }

  /** Per entry: the naming regularity, and the length and first letter of the name. */
  lemma TinyFacts() ensures WellNamed(Tiny) && |Tiny.name| == 4 && Tiny.name[0] == 't' { }
  lemma TinyEnFacts() ensures WellNamed(TinyEn) && |TinyEn.name| == 7 && TinyEn.name[0] == 't' { }
  lemma BaseFacts() ensures WellNamed(Base) && |Base.name| == 4 && Base.name[0] == 'b' { }
  lemma BaseEnFacts() ensures WellNamed(BaseEn) && |BaseEn.name| == 7 && BaseEn.name[0] == 'b' { }
  lemma SmallFacts() ensures WellNamed(Small) && |Small.name| == 5 && Small.name[0] == 's' { }
  lemma SmallEnFacts() ensures WellNamed(SmallEn) && |SmallEn.name| == 8 && SmallEn.name[0] == 's' { }
  lemma MediumFacts() ensures WellNamed(Medium) && |Medium.name| == 6 && Medium.name[0] == 'm' { }
  lemma MediumEnFacts() ensures WellNamed(MediumEn) && |MediumEn.name| == 9 && MediumEn.name[0] == 'm' { }

  /** A name's length and first letter, which tell catalog names apart. */
  function NameKey(s: string): int {
    if s == [] then 0 else |s| * 0x1_0000 + s[0] as int
  }

  /** `NameKey` of each catalog name, in catalog order; pairwise distinct. */
  const NameKeys: seq<int> := [
    4 * 0x1_0000 + 't' as int, 7 * 0x1_0000 + 't' as int, 4 * 0x1_0000 + 'b' as int, 7 * 0x1_0000 + 'b' as int,
    5 * 0x1_0000 + 's' as int, 8 * 0x1_0000 + 's' as int, 6 * 0x1_0000 + 'm' as int, 9 * 0x1_0000 + 'm' as int
  ]

  lemma EntryFacts(i: nat)
    requires i < |AvailableModels|
    ensures WellNamed(AvailableModels[i])
    ensures NameKey(AvailableModels[i].name) == NameKeys[i]
  {
    if i == 0 { assert AvailableModels[i] == Tiny; TinyFacts(); }
    else if i == 1 { assert AvailableModels[i] == TinyEn; TinyEnFacts(); }
    else if i == 2 { assert AvailableModels[i] == Base; BaseFacts(); }
    else if i == 3 { assert AvailableModels[i] == BaseEn; BaseEnFacts(); }
    else if i == 4 { assert AvailableModels[i] == Small; SmallFacts(); }
    else if i == 5 { assert AvailableModels[i] == SmallEn; SmallEnFacts(); }
    else if i == 6 { assert AvailableModels[i] == Medium; MediumFacts(); }
    else { assert AvailableModels[i] == MediumEn; MediumEnFacts(); }
  }

  /** In every entry: file `ggml-<name>.bin`, URL the common prefix plus that file name. */
  lemma CatalogNaming()
    ensures forall i :: 0 <= i < |AvailableModels| ==> WellNamed(AvailableModels[i])
  {
    forall i | 0 <= i < |AvailableModels| {
      EntryFacts(i);
    }
  }

  /** Entry names are pairwise distinct: no two agree on both length and first letter. */
  lemma CatalogNamesDistinct()
    ensures NamesDistinct(AvailableModels)
  {
    var ms := AvailableModels;
    assert forall i, j :: 0 <= i < j < |NameKeys| ==> NameKeys[i] != NameKeys[j];
    forall i, j | 0 <= i < j < |ms|
      ensures ms[i].name != ms[j].name
    {
      EntryFacts(i);
      EntryFacts(j);
      assert NameKeys[i] != NameKeys[j];
    }
  }

  /** `ggml-<a>.bin` and `ggml-<b>.bin` coincide only when a and b do. */
  lemma FileNameInjective(a: string, b: string)
    requires "ggml-" + a + ".bin" == "ggml-" + b + ".bin"
    ensures a == b
  {
    var fa, fb := "ggml-" + a + ".bin", "ggml-" + b + ".bin";
    assert fa[5..|fa| - 4] == a;
    assert fb[5..|fb| - 4] == b;
  }

  /** File names are pairwise distinct, because names are and the naming is injective. */
  lemma CatalogFileNamesDistinct()
    ensures FileNamesDistinct(AvailableModels)
  {
    CatalogNaming();
    CatalogNamesDistinct();
    var ms := AvailableModels;
    forall i, j | 0 <= i < j < |ms|
      ensures ms[i].fileName != ms[j].fileName
    {
      if ms[i].fileName == ms[j].fileName {
        FileNameInjective(ms[i].name, ms[j].name);
      }
    }
  }

  /** Every catalog record is in its default state: not downloaded, progress 0. */
  lemma CatalogDefaults()
    ensures forall m :: m in AvailableModels ==> !m.isDownloaded && m.downloadProgress == 0.0
  {
  }

  /** Each English-only variant directly follows its multilingual sibling and has its size. */
  lemma EnglishVariantsMatchSize()
    ensures |AvailableModels| % 2 == 0
    ensures forall k :: 0 <= k < |AvailableModels| / 2 ==>
      AvailableModels[2 * k + 1].name == AvailableModels[2 * k].name + ".en"
      && AvailableModels[2 * k + 1].size == AvailableModels[2 * k].size
  {
  }

  /** The default entry "base" exists, so the fallback lookup always succeeds. */
  lemma BaseIsInCatalog()
    ensures Find(AvailableModels, "base").Some?
    ensures Find(AvailableModels, "base").value == Base
  {
  }

  /** A lookup by any catalog name finds an entry, and that entry is the one with that name. */
  lemma FindCatalogEntry(i: nat)
    requires i < |AvailableModels|
    ensures Find(AvailableModels, AvailableModels[i].name) == Some(AvailableModels[i])
  {
    CatalogNamesDistinct();
    FindUnique(AvailableModels, i);
  }

  /** An entry whose name no earlier entry carries is the one the lookup by that name stops at. */
  lemma IndexOfFirstOccurrence(models: seq<WhisperModel>, i: nat)
    requires i < |models|
    requires forall j :: 0 <= j < i ==> models[j].name != models[i].name
    ensures IndexOfName(models, models[i].name) == i
  {
  }

  /** With distinct names, the lookup by an entry's name finds that entry. */
  lemma FindUnique(models: seq<WhisperModel>, i: nat)
    requires i < |models| && NamesDistinct(models)
    ensures Find(models, models[i].name) == Some(models[i])
  {
    IndexOfFirstOccurrence(models, i);
  }
}
