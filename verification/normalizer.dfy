/** The message normalizer of the file handler (index.js, lines 79-92): from an
    inbound Telegram message it picks the one attachment that will be relayed and
    the name it will be stored under. */
module Normalizer {
  import opened Wrappers
  import opened JsValues

  /** A document, video or audio attachment: Telegram's file id and the optional
      original file name. */
  datatype Media = Media(fileId: string, fileName: Option<string>)

  /** One size of a photo; Telegram lists the sizes of a photo smallest first. */
  datatype PhotoSize = PhotoSize(fileId: string)

  /** The four message fields the handler looks at; each may be absent. An empty
      photo list is still present (an empty array is truthy in JavaScript). */
  datatype Message = Message(
    document: Option<Media>,
    photo: Option<seq<PhotoSize>>,
    video: Option<Media>,
    audio: Option<Media>)

  datatype Kind = Document | Photo | Video | Audio

  /** What the normalizer produces.
      - `Found`: the file id to download and the file name, which for a document
        may be `undefined`;
      - `EmptyPhotoList`: the photo branch read `file_id` of `undefined`, which
        throws and ends in the handler's generic error reply;
      - `Unsupported`: none of the four fields is present, so the handler answers
        "unsupported file type" and nothing is downloaded or uploaded. */
  datatype Normalized =
    | Found(kind: Kind, fileId: string, filename: Option<string>)
    | EmptyPhotoList
    | Unsupported

  /** The order in which the handler tests the fields: lower rank is tested first. */
  function Rank(k: Kind): nat {
    match k
    case Document => 0
    case Photo => 1
    case Video => 2
    case Audio => 3
  }

  /** Whether the field of kind `k` is present in `m`. */
  predicate Has(m: Message, k: Kind) {
    match k
    case Document => m.document.Some?
    case Photo => m.photo.Some?
    case Video => m.video.Some?
    case Audio => m.audio.Some?
  }

  /** The name the handler synthesises for a photo, and for a video or audio that
      arrives without a usable name. A document never gets one: its name is taken
      as given, even when undefined. */
  function SynthesizedName(k: Kind, fileId: string): (r: string)
    requires k != Document
    // a six-character kind tag, the file id, and a four-character extension
    ensures |r| == |fileId| + 10
    ensures r[6..|r| - 4] == fileId
  {
    match k
    case Photo => "photo_" + fileId + ".jpg"
    case Video => "video_" + fileId + ".mp4"
    case Audio => "audio_" + fileId + ".mp3"
  }

  /** Synthesised names never collide: the name determines both the kind and the
      file id it was made from. */
  lemma SynthesizedNameInjective(k: Kind, fileId: string, k': Kind, fileId': string)
    requires k != Document && k' != Document
    requires SynthesizedName(k, fileId) == SynthesizedName(k', fileId')
    ensures k == k' && fileId == fileId'
  {
  }

  /** Normalize the inbound message: the first present field in the order
      document, photo, video, audio decides the file id and the file name. */
  function Normalize(m: Message): (r: Normalized)
    // "unsupported" exactly when no field is present
    ensures r.Unsupported? <==> forall k :: !Has(m, k)
    // the chosen field is present and every field tested before it is absent
    ensures r.Found? ==> Has(m, r.kind) && forall k :: Rank(k) < Rank(r.kind) ==> !Has(m, k)
    // the photo branch fails exactly on an empty list that no document shadows
    ensures r.EmptyPhotoList? <==> m.document.None? && m.photo == Some([])
    // only a document can leave the name undefined or empty
    ensures r.Found? && r.kind != Document ==> Truthy(r.filename)
  {
    if m.document.Some? then
      assert Has(m, Document);
      Found(Document, m.document.value.fileId, m.document.value.fileName)
    else if m.photo.Some? then
      assert Has(m, Photo);
      var photos := m.photo.value;
      if |photos| == 0 then EmptyPhotoList
      else
        var fileId := photos[|photos| - 1].fileId;
        Found(Photo, fileId, Some(SynthesizedName(Photo, fileId)))
    else if m.video.Some? then
      assert Has(m, Video);
      var fileId := m.video.value.fileId;
      Found(Video, fileId, Some(OrElse(m.video.value.fileName, SynthesizedName(Video, fileId))))
    else if m.audio.Some? then
      assert Has(m, Audio);
      var fileId := m.audio.value.fileId;
      Found(Audio, fileId, Some(OrElse(m.audio.value.fileName, SynthesizedName(Audio, fileId))))
    else
      Unsupported
  }

  /** The attachment of kind `k`, when that field is a document, video or audio. */
  function MediaOf(m: Message, k: Kind): Option<Media> {
    match k
    case Document => m.document
    case Photo => None
    case Video => m.video
    case Audio => m.audio
  }

  /** A document is relayed under its own id and its `file_name` verbatim, with no
      synthesised fallback, whatever else the message carries. */
  lemma DocumentTakenVerbatim(m: Message)
    requires m.document.Some?
    ensures Normalize(m) == Found(Document, m.document.value.fileId, m.document.value.fileName)
  {
  }

  /** Only the chosen field and those tested before it matter: two messages that
      agree on them normalise alike, so e.g. a video next to a document is ignored. */
  lemma LaterFieldsIgnored(m: Message, m': Message)
    requires Normalize(m).Found?
    requires forall k :: Rank(k) <= Rank(Normalize(m).kind) ==> (Has(m, k) <==> Has(m', k))
    requires forall k :: Rank(k) <= Rank(Normalize(m).kind) ==> MediaOf(m, k) == MediaOf(m', k)
    requires Normalize(m).kind == Photo ==> m'.photo == m.photo
    ensures Normalize(m') == Normalize(m)
  {
    var k := Normalize(m).kind;
    assert Rank(Document) <= Rank(k);
    assert MediaOf(m, Document) == MediaOf(m', Document);
    if k == Video || k == Audio {
      assert Rank(Photo) < Rank(k) && Rank(Video) <= Rank(k);
      assert Has(m, Photo) == Has(m', Photo);
      assert MediaOf(m, Video) == MediaOf(m', Video);
      if k == Audio {
        assert MediaOf(m, Audio) == MediaOf(m', Audio);
      }
    }
  }

  /** A photo is relayed as its last (largest) size, named "photo_<fileId>.jpg". */
  lemma PhotoUsesLastSize(m: Message)
    requires m.document.None? && m.photo.Some? && |m.photo.value| > 0
    ensures Normalize(m).Found? && Normalize(m).kind == Photo
    ensures Normalize(m).fileId == m.photo.value[|m.photo.value| - 1].fileId
    ensures Normalize(m).filename == Some("photo_" + Normalize(m).fileId + ".jpg")
  {
  }

  /** A video or audio keeps a non-empty provided name; an absent or empty one is
      replaced by "video_<fileId>.mp4" or "audio_<fileId>.mp3". */
  lemma MediaNameOrFallback(m: Message)
    requires Normalize(m).Found? && Normalize(m).kind in {Video, Audio}
    ensures var r := Normalize(m);
            var given := MediaOf(m, r.kind).value;
            && r.fileId == given.fileId
            && (Truthy(given.fileName) ==> r.filename == given.fileName)
            && (!Truthy(given.fileName) ==>
                  r.filename == Some((if r.kind == Video then "video_" else "audio_")
                                     + r.fileId + (if r.kind == Video then ".mp4" else ".mp3")))
  {
  }
}
