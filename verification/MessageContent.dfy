/**
 Typed message content on its way from a request through the service and the content column and back
 to a response. JSON documents are modelled as named fields with typed values.
 */
module MessageContent {
  import opened Wrappers

  type Int32 = x: int | -0x8000_0000 <= x < 0x8000_0000
  type Int64 = x: int | -0x8000_0000_0000_0000 <= x < 0x8000_0000_0000_0000
  type Bytes = seq<int>

  // ---------- wire types ----------

  datatype ProtoType =
    | UNSPECIFIED | TEXT | IMAGE | VIDEO | VIDEO_NOTE | VOICE | AUDIO | FILE | STICKER | VIDEO_STICKER | EVENT

  datatype SendContent =
    | NoContent
    | SendText(text: string)
    | SendMedia(fileId: string, mimeType: string, fileSize: Int64, width: Int32, height: Int32,
                thumbnailId: Option<string>, durationSec: Option<Int32>)
    | SendFile(fileId: string, mimeType: string, fileSize: Int64, fileName: string, durationSec: Option<Int32>)
    | SendVoice(fileId: string, mimeType: string, fileSize: Int64, duration: Int32, waveform: Option<Bytes>)
    | SendVideoNote(fileId: string, mimeType: string, fileSize: Int64, duration: Int32, width: Int32, height: Int32,
                    thumbnailId: Option<string>)
    | SendSticker(fileId: string, mimeType: string, emoji: Option<string>, setName: Option<string>)
    | SendAudio(fileId: string, mimeType: string, fileSize: Int64, fileName: string, durationSec: Option<Int32>)

  datatype ProtoContent =
    | PNone
    | PText(text: string)
    | PMedia(fileId: string, mimeType: string, fileSize: Int64, width: Int32, height: Int32,
             thumbnailId: Option<string>, durationSec: Option<Int32>)
    | PFile(fileId: string, mimeType: string, fileSize: Int64, fileName: string, durationSec: Option<Int32>)
    | PVoice(fileId: string, mimeType: string, fileSize: Int64, duration: Int32, waveform: Option<Bytes>)
    | PVideoNote(fileId: string, mimeType: string, fileSize: Int64, duration: Int32, width: Int32, height: Int32,
                 thumbnailId: Option<string>)
    | PSticker(fileId: string, mimeType: string, emoji: Option<string>, setName: Option<string>)
    | PEvent(text: string)

  // ---------- service and repository types ----------

  datatype MessageType = Text | Image | Video | VideoNote | Voice | Audio | File | Sticker | VideoSticker | Event

  datatype Content =
    | TextContent(text: string)
    | MediaContent(fileId: string, mimeType: string, fileSize: Int64, width: Int32, height: Int32,
                   thumbnailId: Option<string>, durationSec: Option<Int32>)
    | FileContent(fileId: string, mimeType: string, fileSize: Int64, fileName: string, durationSec: Option<Int32>)
    | VoiceContent(fileId: string, mimeType: string, fileSize: Int64, duration: Int32, waveform: Option<Bytes>)
    | VideoNoteContent(fileId: string, mimeType: string, fileSize: Int64, duration: Int32, width: Int32, height: Int32,
                       thumbnailId: Option<string>)
    | StickerContent(fileId: string, mimeType: string, emoji: Option<string>, setName: Option<string>)
    | EventContent(text: string)

  datatype RepoContent =
    | RText(text: string)
    | RMedia(fileId: string, mimeType: string, fileSize: Int64, width: Int32, height: Int32,
             thumbnailId: Option<string>, durationSec: Option<Int32>)
    | RFile(fileId: string, mimeType: string, fileSize: Int64, fileName: string, durationSec: Option<Int32>)
    | RVoice(fileId: string, mimeType: string, fileSize: Int64, duration: Int32, waveform: Option<Bytes>)
    | RVideoNote(fileId: string, mimeType: string, fileSize: Int64, duration: Int32, width: Int32, height: Int32,
                 thumbnailId: Option<string>)
    | RSticker(fileId: string, mimeType: string, emoji: Option<string>, setName: Option<string>)
    | REvent(text: string)

  function ToRepoContent(c: Content): RepoContent {
    match c
    case TextContent(text) => RText(text)
    case MediaContent(id, mime, size, w, h, thumb, dur) => RMedia(id, mime, size, w, h, thumb, dur)
    case FileContent(id, mime, size, name, dur) => RFile(id, mime, size, name, dur)
    case VoiceContent(id, mime, size, dur, wave) => RVoice(id, mime, size, dur, wave)
    case VideoNoteContent(id, mime, size, dur, w, h, thumb) => RVideoNote(id, mime, size, dur, w, h, thumb)
    case StickerContent(id, mime, emoji, setName) => RSticker(id, mime, emoji, setName)
    case EventContent(text) => REvent(text)
  }

  function ToContent(c: RepoContent): Content {
    match c
    case RText(text) => TextContent(text)
    case RMedia(id, mime, size, w, h, thumb, dur) => MediaContent(id, mime, size, w, h, thumb, dur)
    case RFile(id, mime, size, name, dur) => FileContent(id, mime, size, name, dur)
    case RVoice(id, mime, size, dur, wave) => VoiceContent(id, mime, size, dur, wave)
    case RVideoNote(id, mime, size, dur, w, h, thumb) => VideoNoteContent(id, mime, size, dur, w, h, thumb)
    case RSticker(id, mime, emoji, setName) => StickerContent(id, mime, emoji, setName)
    case REvent(text) => EventContent(text)
  }

  // ---------- the content column ----------

  datatype Field =
    | FText | FFileID | FMimeType | FFileSize | FFileName | FWidth | FHeight | FThumbnailID | FDurationSec
    | FWaveform | FEmoji | FSetName

  datatype Value = JNull | JString(s: string) | JNumber(n: int) | JBase64(b: Bytes)

  type Document = map<Field, Value>

  function OptString(o: Option<string>): Value {
    if o.Some? then JString(o.value) else JNull
  }

  function OptNumber(o: Option<Int32>): Value {
    if o.Some? then JNumber(o.value) else JNull
  }

  /** json.Marshal of the content struct: every field under its Go name, nil pointers and slices as null. */
  function Marshal(c: RepoContent): Document {
    match c
    case RText(text) => map[FText := JString(text)]
    case RMedia(id, mime, size, w, h, thumb, dur) =>
      map[FFileID := JString(id), FMimeType := JString(mime), FFileSize := JNumber(size), FWidth := JNumber(w),
          FHeight := JNumber(h), FThumbnailID := OptString(thumb), FDurationSec := OptNumber(dur)]
    case RFile(id, mime, size, name, dur) =>
      map[FFileID := JString(id), FMimeType := JString(mime), FFileSize := JNumber(size), FFileName := JString(name),
          FDurationSec := OptNumber(dur)]
    case RVoice(id, mime, size, dur, wave) =>
      map[FFileID := JString(id), FMimeType := JString(mime), FFileSize := JNumber(size), FDurationSec := JNumber(dur),
          FWaveform := if wave.Some? then JBase64(wave.value) else JNull]
    case RVideoNote(id, mime, size, dur, w, h, thumb) =>
      map[FFileID := JString(id), FMimeType := JString(mime), FFileSize := JNumber(size), FDurationSec := JNumber(dur),
          FWidth := JNumber(w), FHeight := JNumber(h), FThumbnailID := OptString(thumb)]
    case RSticker(id, mime, emoji, setName) =>
      map[FFileID := JString(id), FMimeType := JString(mime), FEmoji := OptString(emoji),
          FSetName := OptString(setName)]
    case REvent(text) => map[FText := JString(text)]
  }

  datatype DecodeError = TypeMismatch | OutOfRange

  /** json.Unmarshal of one field: an absent or null field leaves the zero value. */
  function FieldOf(d: Document, f: Field): Value {
    if f in d then d[f] else JNull
  }

  function GetOptString(d: Document, f: Field): Result<Option<string>, DecodeError> {
    match FieldOf(d, f)
    case JNull => Ok(None)
    case JString(s) => Ok(Some(s))
    case _ => Err(TypeMismatch)
  }

  function GetString(d: Document, f: Field): Result<string, DecodeError> {
    var o :- GetOptString(d, f);
    Ok(if o.Some? then o.value else "")
  }

  function GetOptInt32(d: Document, f: Field): Result<Option<Int32>, DecodeError> {
    match FieldOf(d, f)
    case JNull => Ok(None)
    case JNumber(n) => if -0x8000_0000 <= n < 0x8000_0000 then Ok(Some(n as Int32)) else Err(OutOfRange)
    case _ => Err(TypeMismatch)
  }

  function GetInt32(d: Document, f: Field): Result<Int32, DecodeError> {
    var o :- GetOptInt32(d, f);
    Ok(if o.Some? then o.value else 0)
  }

  function GetInt64(d: Document, f: Field): Result<Int64, DecodeError> {
    match FieldOf(d, f)
    case JNull => Ok(0)
    case JNumber(n) => if -0x8000_0000_0000_0000 <= n < 0x8000_0000_0000_0000 then Ok(n as Int64) else Err(OutOfRange)
    case _ => Err(TypeMismatch)
  }

  function GetBytes(d: Document, f: Field): Result<Option<Bytes>, DecodeError> {
    match FieldOf(d, f)
    case JNull => Ok(None)
    case JBase64(b) => Ok(Some(b))
    case _ => Err(TypeMismatch)
  }

  function DecodeText(d: Document): (r: Result<RepoContent, DecodeError>)
    ensures r.Ok? ==> r.value.RText?
  {
    var text :- GetString(d, FText);
    Ok(RText(text))
  }

  function DecodeMedia(d: Document): (r: Result<RepoContent, DecodeError>)
    ensures r.Ok? ==> r.value.RMedia?
  {
    var id :- GetString(d, FFileID);
    var mime :- GetString(d, FMimeType);
    var size :- GetInt64(d, FFileSize);
    var w :- GetInt32(d, FWidth);
    var h :- GetInt32(d, FHeight);
    var thumb :- GetOptString(d, FThumbnailID);
    var dur :- GetOptInt32(d, FDurationSec);
    Ok(RMedia(id, mime, size, w, h, thumb, dur))
  }

  function DecodeFile(d: Document): (r: Result<RepoContent, DecodeError>)
    ensures r.Ok? ==> r.value.RFile?
  {
    var id :- GetString(d, FFileID);
    var mime :- GetString(d, FMimeType);
    var size :- GetInt64(d, FFileSize);
    var name :- GetString(d, FFileName);
    var dur :- GetOptInt32(d, FDurationSec);
    Ok(RFile(id, mime, size, name, dur))
  }

  function DecodeVoice(d: Document): (r: Result<RepoContent, DecodeError>)
    ensures r.Ok? ==> r.value.RVoice?
  {
    var id :- GetString(d, FFileID);
    var mime :- GetString(d, FMimeType);
    var size :- GetInt64(d, FFileSize);
    var dur :- GetInt32(d, FDurationSec);
    var wave :- GetBytes(d, FWaveform);
    Ok(RVoice(id, mime, size, dur, wave))
  }

  function DecodeVideoNote(d: Document): (r: Result<RepoContent, DecodeError>)
    ensures r.Ok? ==> r.value.RVideoNote?
  {
    var id :- GetString(d, FFileID);
    var mime :- GetString(d, FMimeType);
    var size :- GetInt64(d, FFileSize);
    var dur :- GetInt32(d, FDurationSec);
    var w :- GetInt32(d, FWidth);
    var h :- GetInt32(d, FHeight);
    var thumb :- GetOptString(d, FThumbnailID);
    Ok(RVideoNote(id, mime, size, dur, w, h, thumb))
  }

  function DecodeSticker(d: Document): (r: Result<RepoContent, DecodeError>)
    ensures r.Ok? ==> r.value.RSticker?
  {
    var id :- GetString(d, FFileID);
    var mime :- GetString(d, FMimeType);
    var emoji :- GetOptString(d, FEmoji);
    var setName :- GetOptString(d, FSetName);
    Ok(RSticker(id, mime, emoji, setName))
  }

  function DecodeEvent(d: Document): (r: Result<RepoContent, DecodeError>)
    ensures r.Ok? ==> r.value.REvent?
  {
    var text :- GetString(d, FText);
    Ok(REvent(text))
  }

  /** unmarshalContent: the message type alone selects the struct to decode into. */
  function Unmarshal(t: MessageType, d: Document): Result<RepoContent, DecodeError> {
    match t
    case Text => DecodeText(d)
    case Image => DecodeMedia(d)
    case Video => DecodeMedia(d)
    case File => DecodeFile(d)
    case Audio => DecodeFile(d)
    case Voice => DecodeVoice(d)
    case VideoNote => DecodeVideoNote(d)
    case Sticker => DecodeSticker(d)
    case VideoSticker => DecodeSticker(d)
    case Event => DecodeEvent(d)
  }

  /** The message type whose decoder reads this kind of content. */
  predicate Selects(t: MessageType, c: RepoContent) {
    match c
    case RText(_) => t.Text?
    case RMedia(_, _, _, _, _, _, _) => t.Image? || t.Video?
    case RFile(_, _, _, _, _) => t.File? || t.Audio?
    case RVoice(_, _, _, _, _) => t.Voice?
    case RVideoNote(_, _, _, _, _, _, _) => t.VideoNote?
    case RSticker(_, _, _, _) => t.Sticker? || t.VideoSticker?
    case REvent(_) => t.Event?
  }

  lemma OwnDecoderReads(c: RepoContent)
    ensures c.RText? ==> DecodeText(Marshal(c)) == Ok(c)
    ensures c.RMedia? ==> DecodeMedia(Marshal(c)) == Ok(c)
    ensures c.RFile? ==> DecodeFile(Marshal(c)) == Ok(c)
    ensures c.RVoice? ==> DecodeVoice(Marshal(c)) == Ok(c)
    ensures c.RVideoNote? ==> DecodeVideoNote(Marshal(c)) == Ok(c)
    ensures c.RSticker? ==> DecodeSticker(Marshal(c)) == Ok(c)
    ensures c.REvent? ==> DecodeEvent(Marshal(c)) == Ok(c)
  {
  }

  /** Reading back gives the stored content exactly if the type selects the content's own decoder. */
  lemma DecodesExactlyIfSelected(t: MessageType, c: RepoContent)
    ensures Unmarshal(t, Marshal(c)) == Ok(c) <==> Selects(t, c)
  {
    OwnDecoderReads(c);
  }

  /** Every field of the document has the one JSON type that all structs with that field agree on. */
  predicate WellTyped(d: Document) {
    && GetOptString(d, FText).Ok? && GetOptString(d, FFileID).Ok? && GetOptString(d, FMimeType).Ok?
    && GetOptString(d, FFileName).Ok? && GetOptString(d, FThumbnailID).Ok? && GetOptString(d, FEmoji).Ok?
    && GetOptString(d, FSetName).Ok? && GetInt64(d, FFileSize).Ok? && GetOptInt32(d, FWidth).Ok?
    && GetOptInt32(d, FHeight).Ok? && GetOptInt32(d, FDurationSec).Ok? && GetBytes(d, FWaveform).Ok?
  }

  lemma WrittenDocumentsAreWellTyped(c: RepoContent)
    ensures WellTyped(Marshal(c))
  {
  }

  /** Whatever the type, a document that Marshal wrote never fails to decode. */
  lemma WrittenDocumentsDecode(t: MessageType, c: RepoContent)
    ensures Unmarshal(t, Marshal(c)).Ok?
  {
    WrittenDocumentsAreWellTyped(c);
    WellTypedDocumentsDecode(t, Marshal(c));
  }

  lemma WellTypedDocumentsDecode(t: MessageType, d: Document)
    requires WellTyped(d)
    ensures Unmarshal(t, d).Ok?
  {
  }

  // ---------- requests ----------

  function FromProtoType(t: ProtoType): Option<MessageType> {
    match t
    case UNSPECIFIED => None
    case TEXT => Some(Text)
    case IMAGE => Some(Image)
    case VIDEO => Some(Video)
    case VIDEO_NOTE => Some(VideoNote)
    case VOICE => Some(Voice)
    case AUDIO => Some(Audio)
    case FILE => Some(File)
    case STICKER => Some(Sticker)
    case VIDEO_STICKER => Some(VideoSticker)
    case EVENT => Some(Event)
  }

  function ToProtoType(t: MessageType): ProtoType {
    match t
    case Text => TEXT
    case Image => IMAGE
    case Video => VIDEO
    case VideoNote => VIDEO_NOTE
    case Voice => VOICE
    case Audio => AUDIO
    case File => FILE
    case Sticker => STICKER
    case VideoSticker => VIDEO_STICKER
    case Event => EVENT
  }

  datatype InvalidArgument = InvalidArgument

  /** The type switch of the SendMessage handler. */
  function Translate(t: ProtoType, c: SendContent): Result<(MessageType, Content), InvalidArgument> {
    match c
    case NoContent => Err(InvalidArgument)
    case SendText(text) => if t != TEXT then Err(InvalidArgument) else Ok((Text, TextContent(text)))
    case SendMedia(id, mime, size, w, h, thumb, dur) =>
      var msgType := FromProtoType(t);
      if msgType != Some(Image) && msgType != Some(Video) then Err(InvalidArgument)
      else Ok((msgType.value, MediaContent(id, mime, size, w, h, thumb, dur)))
    case SendFile(id, mime, size, name, dur) =>
      if t != FILE then Err(InvalidArgument) else Ok((File, FileContent(id, mime, size, name, dur)))
    case SendVoice(id, mime, size, dur, wave) =>
      if t != VOICE then Err(InvalidArgument) else Ok((Voice, VoiceContent(id, mime, size, dur, wave)))
    case SendVideoNote(id, mime, size, dur, w, h, thumb) =>
      if t != VIDEO_NOTE then Err(InvalidArgument)
      else Ok((VideoNote, VideoNoteContent(id, mime, size, dur, w, h, thumb)))
    case SendSticker(id, mime, emoji, setName) =>
      if t != STICKER then Err(InvalidArgument) else Ok((Sticker, StickerContent(id, mime, emoji, setName)))
    case SendAudio(id, mime, size, name, dur) =>
      if t != AUDIO then Err(InvalidArgument) else Ok((Audio, FileContent(id, mime, size, name, dur)))
  }

  /** The kinds of content a type may be sent with. */
  predicate Acceptable(t: ProtoType, c: SendContent) {
    match t
    case TEXT => c.SendText?
    case IMAGE => c.SendMedia?
    case VIDEO => c.SendMedia?
    case VIDEO_NOTE => c.SendVideoNote?
    case VOICE => c.SendVoice?
    case AUDIO => c.SendAudio?
    case FILE => c.SendFile?
    case STICKER => c.SendSticker?
    case _ => false
  }

  /** A request is accepted exactly for these pairs, so never for VIDEO_STICKER or EVENT. */
  lemma AcceptedExactlyIfAcceptable(t: ProtoType, c: SendContent)
    ensures Translate(t, c).Ok? <==> Acceptable(t, c)
  {
  }

  // ---------- responses ----------

  function ToProtoContent(c: Content): ProtoContent {
    match c
    case TextContent(text) => PText(text)
    case MediaContent(id, mime, size, w, h, thumb, dur) => PMedia(id, mime, size, w, h, thumb, dur)
    case FileContent(id, mime, size, name, dur) => PFile(id, mime, size, name, dur)
    case VoiceContent(id, mime, size, dur, wave) => PVoice(id, mime, size, dur, wave)
    case VideoNoteContent(id, mime, size, dur, w, h, thumb) => PVideoNote(id, mime, size, dur, w, h, thumb)
    case StickerContent(id, mime, emoji, setName) => PSticker(id, mime, emoji, setName)
    case EventContent(text) => PEvent(text)
  }

  /** The part of messageToProto that depends on type, content and deletion. */
  function Render(t: MessageType, c: Content, deleted: bool): (ProtoType, ProtoContent) {
    (ToProtoType(t), if deleted then PNone else ToProtoContent(c))
  }

  /** What the sender should get to see again: audio comes back as a file. */
  function Echo(c: SendContent): ProtoContent {
    match c
    case NoContent => PNone
    case SendText(text) => PText(text)
    case SendMedia(id, mime, size, w, h, thumb, dur) => PMedia(id, mime, size, w, h, thumb, dur)
    case SendFile(id, mime, size, name, dur) => PFile(id, mime, size, name, dur)
    case SendVoice(id, mime, size, dur, wave) => PVoice(id, mime, size, dur, wave)
    case SendVideoNote(id, mime, size, dur, w, h, thumb) => PVideoNote(id, mime, size, dur, w, h, thumb)
    case SendSticker(id, mime, emoji, setName) => PSticker(id, mime, emoji, setName)
    case SendAudio(id, mime, size, name, dur) => PFile(id, mime, size, name, dur)
  }

  /** An accepted request stores a document that its own type decodes. */
  lemma AcceptedContentIsSelected(t: ProtoType, c: SendContent)
    requires Translate(t, c).Ok?
    ensures var (msgType, content) := Translate(t, c).value; Selects(msgType, ToRepoContent(content))
  {
  }

  /** From request to column to response: the type and every content field survive. */
  lemma ContentSurvives(t: ProtoType, c: SendContent)
    requires Translate(t, c).Ok?
    ensures var (msgType, content) := Translate(t, c).value;
            var stored := Unmarshal(msgType, Marshal(ToRepoContent(content)));
            && stored.Ok?
            && Render(msgType, ToContent(stored.value), false) == (t, Echo(c))
            && Render(msgType, ToContent(stored.value), true) == (t, PNone)
  {
    var (msgType, content) := Translate(t, c).value;
    AcceptedContentIsSelected(t, c);
    DecodesExactlyIfSelected(msgType, ToRepoContent(content));
  }

  // ---------- reply previews ----------

  datatype Preview = Preview(text: Option<string>, fileName: Option<string>, mimeType: Option<string>)

  const NOTHING := Preview(None, None, None)

  /** The content part of buildReplyPreview for the replied-to row. */
  function BuildPreview(t: MessageType, d: Document, deleted: bool): Preview {
    if deleted then NOTHING
    else
      match Unmarshal(t, d)
      case Err(_) => NOTHING
      case Ok(c) =>
        match c
        case RText(text) => Preview(Some(text), None, None)
        case RFile(_, mime, _, name, _) => Preview(None, Some(name), Some(mime))
        case REvent(text) => Preview(Some(text), None, None)
        case _ => Preview(None, None, Some(c.mimeType))
  }

  /** A preview shows what the request said, in the shortened form; of a deleted message it shows nothing. */
  lemma PreviewShowsTheRequest(t: ProtoType, c: SendContent, deleted: bool)
    requires Translate(t, c).Ok?
    ensures var (msgType, content) := Translate(t, c).value;
            BuildPreview(msgType, Marshal(ToRepoContent(content)), deleted) ==
            if deleted then NOTHING
            else if c.SendText? then Preview(Some(c.text), None, None)
            else Preview(None, if c.SendFile? || c.SendAudio? then Some(c.fileName) else None, Some(c.mimeType))
  {
    var (msgType, content) := Translate(t, c).value;
    AcceptedContentIsSelected(t, c);
    DecodesExactlyIfSelected(msgType, ToRepoContent(content));
  }
}
