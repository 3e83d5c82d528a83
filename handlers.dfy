/** The dispatcher: the detected MIME type picks the handler, and the `with_*_file`
    wrappers open the file with the matching library, build the handler over it and
    run the caller's block, whose result they return. */
module FileHandlers {
  import opened Common
  import Id3v2
  import Xiph
  import Mp4
  import Matroska

  /** The handler (and library) a MIME type selects. */
  datatype Handler = FlacXiph | MkvTools | Mp3Id3v2 | Mp4Items | OggXiph

  /** How each library sees the file. A write through one handler changes only that
      handler's view. */
  datatype XiphView = XiphView(valid: bool, comment: Option<Xiph.FieldMap>)
  datatype MediaFile = MediaFile(
    flac: XiphView,
    ogg: XiphView,
    mpeg: Option<seq<Id3v2.Frame>>,
    mp4: Option<Mp4.ItemMap>,
    mkv: Matroska.Extraction)

  /** The outcomes of the foreign calls a handler makes: TagLib creating a frame and
      saving, mkvextract running, mkvpropedit applying the tags. */
  datatype Oracles = Oracles(frameOk: bool, saveOk: bool, extractOk: bool, applyOk: bool)

  /** The block the caller passes: `handler.read` or `handler.write(value)`. */
  datatype Block = ReadBlock | WriteBlock(value: Option<string>)

  /** What the block returns. */
  datatype Outcome = ReadValue(value: Option<string>) | WriteResult(ok: bool)

  /** The `case media_type` of `with_file_tag`. */
  function Dispatch(mime: string): (r: Option<Handler>)
    ensures r == Some(FlacXiph) <==> mime == "audio/flac" || mime == "audio/x-flac"
    ensures r == Some(MkvTools) <==> mime == "video/webm" || mime == "video/x-matroska"
    ensures r == Some(Mp3Id3v2) <==> mime == "audio/mpeg"
    ensures r == Some(Mp4Items) <==> mime == "application/mp4" || mime == "audio/mp4" || mime == "video/mp4"
    ensures r == Some(OggXiph) <==> mime == "audio/ogg" || mime == "audio/vorbis"
  {
    if mime == "audio/flac" || mime == "audio/x-flac" then Some(FlacXiph)
    else if mime == "video/webm" || mime == "video/x-matroska" then Some(MkvTools)
    else if mime == "audio/mpeg" then Some(Mp3Id3v2)
    else if mime == "application/mp4" || mime == "audio/mp4" || mime == "video/mp4" then Some(Mp4Items)
    else if mime == "audio/ogg" || mime == "audio/vorbis" then Some(OggXiph)
    else None
  }

  /** Exactly ten MIME types are supported; every other one is unsupported. */
  lemma DispatchSupported(mime: string)
    ensures Dispatch(mime).Some? <==>
              mime in ["audio/flac", "audio/x-flac", "video/webm", "video/x-matroska", "audio/mpeg",
                       "application/mp4", "audio/mp4", "video/mp4", "audio/ogg", "audio/vorbis"]
  {
  }

  /** What `handler.read` returns for the file (the MKV handler is built over an
      existing file, so it is valid). */
  function HandlerRead(h: Handler, f: MediaFile, o: Oracles): Option<string>
  {
    match h
    case FlacXiph => if f.flac.comment.Some? then Xiph.FirstValue(f.flac.comment.value) else None
    case OggXiph => if f.ogg.comment.Some? then Xiph.FirstValue(f.ogg.comment.value) else None
    case Mp3Id3v2 => if f.mpeg.Some? then Id3v2.PlaytagText(f.mpeg.value) else None
    case Mp4Items => if f.mp4.Some? then Mp4.FirstString(f.mp4.value) else None
    case MkvTools => if o.extractOk then Matroska.ReadExtraction(f.mkv) else None
  }

  /** What `handler.write(value)` returns, and the file afterwards. */
  function HandlerWrite(h: Handler, f: MediaFile, value: Option<string>, o: Oracles): (r: (bool, MediaFile))
    ensures !r.0 ==> r.1 == f
  {
    match h
    case FlacXiph =>
      (Xiph.WriteSucceeds(Xiph.FlacFile, f.flac.valid, o.saveOk),
       f.(flac := f.flac.(comment := Xiph.StoredAfterWrite(Xiph.FlacFile, f.flac.valid, f.flac.comment, value, o.saveOk))))
    case OggXiph =>
      (Xiph.WriteSucceeds(Xiph.OggVorbisFile, f.ogg.valid, o.saveOk),
       f.(ogg := f.ogg.(comment := Xiph.StoredAfterWrite(Xiph.OggVorbisFile, f.ogg.valid, f.ogg.comment, value, o.saveOk))))
    case Mp3Id3v2 =>
      (Id3v2.WriteSucceeds(f.mpeg, value, o.frameOk, o.saveOk),
       f.(mpeg := Id3v2.StoredAfterWrite(f.mpeg, value, o.frameOk, o.saveOk)))
    case Mp4Items =>
      (Mp4.WriteSucceeds(f.mp4, o.saveOk), f.(mp4 := Mp4.StoredAfterWrite(f.mp4, value, o.saveOk)))
    case MkvTools =>
      var (ok, tags) := Matroska.WriteOutcome(f.mkv, value, o.extractOk, o.applyOk);
      (ok, f.(mkv := tags))
  }

  /** Running a block on a handler: its result, and the file afterwards. */
  function RunBlock(h: Handler, f: MediaFile, block: Block, o: Oracles): (Outcome, MediaFile)
  {
    match block
    case ReadBlock => (ReadValue(HandlerRead(h, f, o)), f)
    case WriteBlock(value) =>
      var (ok, after) := HandlerWrite(h, f, value, o);
      (WriteResult(ok), after)
  }

  /** A write through one handler leaves every other library's view of the file alone. */
  lemma WriteTouchesOneView(h: Handler, f: MediaFile, value: Option<string>, o: Oracles)
    ensures var after := HandlerWrite(h, f, value, o).1;
            (h != FlacXiph ==> after.flac == f.flac) && (h != OggXiph ==> after.ogg == f.ogg)
            && (h != Mp3Id3v2 ==> after.mpeg == f.mpeg) && (h != Mp4Items ==> after.mp4 == f.mp4)
            && (h != MkvTools ==> after.mkv == f.mkv)
            && after.flac.valid == f.flac.valid && after.ogg.valid == f.ogg.valid
  {
  }

  /** `with_flac_file` and `with_ogg_file`: open the file with TagLib as FLAC or Ogg
      Vorbis, build a Xiph handler over it and run the block. */
  method WithXiphFile(kind: Xiph.FileKind, view: XiphView, block: Block, saveOk: bool) returns (outcome: Outcome, after: XiphView)
    requires kind != Xiph.OtherFile
    ensures block.ReadBlock? ==>
              outcome == ReadValue(if view.comment.Some? then Xiph.FirstValue(view.comment.value) else None) && after == view
    ensures block.WriteBlock? ==>
              outcome == WriteResult(Xiph.WriteSucceeds(kind, view.valid, saveOk))
              && after == view.(comment := Xiph.StoredAfterWrite(kind, view.valid, view.comment, block.value, saveOk))
  {
    var file := new Xiph.XiphFile.Open(kind, view.valid, view.comment);
    var handler := new Xiph.XiphTag(file);
    match block {
    case ReadBlock =>
      var value := handler.Read();
      outcome := ReadValue(value);
    case WriteBlock(value) =>
      var ok := handler.Write(value, saveOk);
      outcome := WriteResult(ok);
    }
    after := view.(comment := file.stored);
  }

  /** `with_mkv_file`: build the MKV handler from the (existing) path and run the block. */
  method WithMkvFile(tags: Matroska.Extraction, block: Block, o: Oracles) returns (outcome: Outcome, after: Matroska.Extraction)
    ensures block.ReadBlock? ==>
              outcome == ReadValue(if o.extractOk then Matroska.ReadExtraction(tags) else None) && after == tags
    ensures block.WriteBlock? ==>
              var r := Matroska.WriteOutcome(tags, block.value, o.extractOk, o.applyOk);
              outcome == WriteResult(r.0) && after == r.1
  {
    var file := new Matroska.MatroskaFile(tags);
    var handler := new Matroska.MKVTag(file, true);
    match block {
    case ReadBlock =>
      var value := handler.Read(o.extractOk);
      outcome := ReadValue(value);
    case WriteBlock(value) =>
      var ok := handler.Write(value, o.extractOk, o.applyOk);
      outcome := WriteResult(ok);
    }
    after := file.tags;
  }

  /** `with_mp3_file`: open the file with TagLib as MPEG, build the ID3v2 handler and
      run the block. */
  method WithMp3File(disk: Option<seq<Id3v2.Frame>>, block: Block, o: Oracles) returns (outcome: Outcome, after: Option<seq<Id3v2.Frame>>)
    ensures block.ReadBlock? ==>
              outcome == ReadValue(if disk.Some? then Id3v2.PlaytagText(disk.value) else None) && after == disk
    ensures block.WriteBlock? ==>
              outcome == WriteResult(Id3v2.WriteSucceeds(disk, block.value, o.frameOk, o.saveOk))
              && after == Id3v2.StoredAfterWrite(disk, block.value, o.frameOk, o.saveOk)
  {
    var file := new Id3v2.MpegFile.Open(disk);
    var handler := new Id3v2.ID3v2Tag(file);
    match block {
    case ReadBlock =>
      var value := handler.Read();
      outcome := ReadValue(value);
    case WriteBlock(value) =>
      var ok := handler.Write(value, o.frameOk, o.saveOk);
      outcome := WriteResult(ok);
    }
    after := file.stored;
  }

  /** `with_mp4_file`: open the file with TagLib as MP4, build the MP4 handler and run
      the block. */
  method WithMp4File(disk: Option<Mp4.ItemMap>, block: Block, saveOk: bool) returns (outcome: Outcome, after: Option<Mp4.ItemMap>)
    ensures block.ReadBlock? ==>
              outcome == ReadValue(if disk.Some? then Mp4.FirstString(disk.value) else None) && after == disk
    ensures block.WriteBlock? ==>
              outcome == WriteResult(Mp4.WriteSucceeds(disk, saveOk))
              && after == Mp4.StoredAfterWrite(disk, block.value, saveOk)
  {
    var file := new Mp4.Mp4File.Open(disk);
    var handler := new Mp4.MP4Tag(file);
    match block {
    case ReadBlock =>
      var value := handler.Read();
      outcome := ReadValue(value);
    case WriteBlock(value) =>
      var ok := handler.Write(value, saveOk);
      outcome := WriteResult(ok);
    }
    after := file.stored;
  }

  /** `with_file_tag`: an unsupported MIME type returns nil without running the block;
      a supported one returns the block's result from the matching handler. */
  method WithFileTag(mime: string, f: MediaFile, block: Block, o: Oracles) returns (outcome: Option<Outcome>, after: MediaFile)
    ensures Dispatch(mime).None? ==> outcome.None? && after == f
    ensures Dispatch(mime).Some? ==> outcome.Some? && (outcome.value, after) == RunBlock(Dispatch(mime).value, f, block, o)
  {
    match Dispatch(mime)
    case None =>
      return None, f;
    case Some(FlacXiph) =>
      var result, view := WithXiphFile(Xiph.FlacFile, f.flac, block, o.saveOk);
      return Some(result), f.(flac := view);
    case Some(OggXiph) =>
      var result, view := WithXiphFile(Xiph.OggVorbisFile, f.ogg, block, o.saveOk);
      return Some(result), f.(ogg := view);
    case Some(MkvTools) =>
      var result, tags := WithMkvFile(f.mkv, block, o);
      return Some(result), f.(mkv := tags);
    case Some(Mp3Id3v2) =>
      var result, disk := WithMp3File(f.mpeg, block, o);
      return Some(result), f.(mpeg := disk);
    case Some(Mp4Items) =>
      var result, disk := WithMp4File(f.mp4, block, o.saveOk);
      return Some(result), f.(mp4 := disk);
  }
}
