/** The `Tag` facade: check that the file exists, dispatch on its MIME type and
    return what the handler's `read` or `write` gave, through the locals the block
    assigns. */
module Tag {
  import opened Common
  import Xiph
  import Id3v2
  import Mp4
  import Matroska
  import opened FileHandlers

  /** What `Tag.read` returns for an existing file. */
  function ReadResult(mime: string, f: MediaFile, o: Oracles): Option<string>
  {
    match Dispatch(mime)
    case None => None
    case Some(h) => HandlerRead(h, f, o)
  }

  /** `Tag.read`: nil for a missing file (nothing is dispatched); otherwise the
      handler's value, or nil when the format is unsupported or nothing was found. */
  method Read(fileExists: bool, mime: string, f: MediaFile, o: Oracles) returns (value: Option<string>)
    ensures !fileExists ==> value.None?
    ensures fileExists ==> value == ReadResult(mime, f, o)
    ensures fileExists && Dispatch(mime).None? ==> value.None?
  {
    if !fileExists {
      return None;
    }
    var tagValue: Option<string> := None;
    var outcome, _ := WithFileTag(mime, f, ReadBlock, o);
    if outcome.Some? {
      tagValue := outcome.value.value;
    }
    if tagValue.None? {
      return None;
    }
    return tagValue;
  }

  /** `Tag.write`: false for a missing file or an unsupported format (the block never
      runs, so `success` keeps its initial false); otherwise exactly the handler's
      result. The file changes only through the handler. */
  method Write(fileExists: bool, mime: string, f: MediaFile, value: Option<string>, o: Oracles)
    returns (success: bool, after: MediaFile)
    ensures !fileExists || Dispatch(mime).None? ==> !success && after == f
    ensures fileExists && Dispatch(mime).Some? ==> (success, after) == HandlerWrite(Dispatch(mime).value, f, value, o)
  {
    if !fileExists {
      return false, f;
    }
    success := false;
    var outcome;
    outcome, after := WithFileTag(mime, f, WriteBlock(value), o);
    if outcome.Some? {
      success := outcome.value.ok;
    }
  }

  /** The handler finds a stored empty value: the first `PLAYTAG` value (Xiph), the
      text of the first PLAYTAG frame (ID3v2) or the first string of the PLAYTAG item
      (MP4) is empty. */
  ghost predicate StoresEmpty(h: Handler, f: MediaFile)
  {
    match h
    case FlacXiph => f.flac.comment.Some? && PLAYTAG in f.flac.comment.value
                     && |f.flac.comment.value[PLAYTAG]| > 0 && f.flac.comment.value[PLAYTAG][0] == ""
    case OggXiph => f.ogg.comment.Some? && PLAYTAG in f.ogg.comment.value
                    && |f.ogg.comment.value[PLAYTAG]| > 0 && f.ogg.comment.value[PLAYTAG][0] == ""
    case Mp3Id3v2 =>
      f.mpeg.Some? && exists i :: 0 <= i < |f.mpeg.value| && Id3v2.IsPlaytagFrame(f.mpeg.value[i])
                                  && f.mpeg.value[i].text == ""
                                  && forall j :: 0 <= j < i ==> !Id3v2.IsPlaytagFrame(f.mpeg.value[j])
    case Mp4Items => f.mp4.Some? && Mp4.PLAYTAG_ITEM in f.mp4.value
                     && |f.mp4.value[Mp4.PLAYTAG_ITEM]| > 0 && f.mp4.value[Mp4.PLAYTAG_ITEM][0] == ""
    case MkvTools => false
  }

  /** Only nil means "not found": for the TagLib handlers, `Tag.read` returns `""`
      exactly when the stored value it finds is empty. The Matroska handler skips an
      empty `String`, so there a read never returns `""`. */
  lemma EmptyStringIsReturned(mime: string, f: MediaFile, o: Oracles)
    requires Dispatch(mime).Some?
    ensures Dispatch(mime).value != MkvTools ==> (ReadResult(mime, f, o) == Some("") <==> StoresEmpty(Dispatch(mime).value, f))
    ensures Dispatch(mime).value == MkvTools ==> ReadResult(mime, f, o) != Some("")
  {
    if Dispatch(mime).value == Mp3Id3v2 && f.mpeg.Some? {
      var frames := f.mpeg.value;
      if StoresEmpty(Mp3Id3v2, f) {
        var i :| 0 <= i < |frames| && Id3v2.IsPlaytagFrame(frames[i]) && frames[i].text == ""
                 && forall j :: 0 <= j < i ==> !Id3v2.IsPlaytagFrame(frames[j]);
        var r := Id3v2.PlaytagText(frames);
        assert r.Some?;
        var i' :| 0 <= i' < |frames| && Id3v2.IsPlaytagFrame(frames[i']) && frames[i'].text == r.value
                  && forall j :: 0 <= j < i' ==> !Id3v2.IsPlaytagFrame(frames[j]);
        assert i' == i;
      }
    }
  }

  /** Every library call succeeds. */
  predicate AllSucceed(o: Oracles)
  {
    o.frameOk && o.saveOk && o.extractOk && o.applyOk
  }

  /** The file is in a state its handler can write: TagLib calls it valid or finds a
      tag in it, or (Matroska) it has no tags, an empty `Tags` document, or the
      document earlier writes leave. */
  ghost predicate Writable(h: Handler, f: MediaFile)
  {
    match h
    case FlacXiph => f.flac.valid
    case OggXiph => f.ogg.valid
    case Mp3Id3v2 => f.mpeg.Some?
    case Mp4Items => f.mp4.Some?
    case MkvTools =>
      f.mkv.BlankOutput? || f.mkv == Matroska.XmlOutput(Matroska.EmptyTags)
      || exists u :: f.mkv == Matroska.XmlOutput(Matroska.Canonical(u))
  }

  /** Across every format: when the libraries succeed, writing a non-blank value
      succeeds, a read then returns exactly that value, and the file stays writable. */
  lemma WriteThenRead(mime: string, f: MediaFile, value: string, o: Oracles)
    requires Dispatch(mime).Some? && Writable(Dispatch(mime).value, f) && AllSucceed(o)
    requires !StripsToEmpty(value)
    ensures var (ok, after) := HandlerWrite(Dispatch(mime).value, f, Some(value), o);
            ok && ReadResult(mime, after, o) == Some(value) && Writable(Dispatch(mime).value, after)
  {
    var h := Dispatch(mime).value;
    match h
    case Mp3Id3v2 =>
      Id3v2.WriteFramesPlaytag(f.mpeg.value, Some(value));
    case MkvTools =>
      assert value != "";
      if f.mkv.BlankOutput? || f.mkv == Matroska.XmlOutput(Matroska.EmptyTags) {
        Matroska.WriteIntoEmptyTags(value);
      } else {
        var u :| f.mkv == Matroska.XmlOutput(Matroska.Canonical(u));
        Matroska.WriteOverCanonical(u, value);
      }
      Matroska.ReadCanonical(value);
    case _ =>
  }

  /** Across every format: when the libraries succeed, clearing succeeds, a read then
      returns nil, and the file stays writable. */
  lemma ClearThenRead(mime: string, f: MediaFile, o: Oracles)
    requires Dispatch(mime).Some? && Writable(Dispatch(mime).value, f) && AllSucceed(o)
    ensures var (ok, after) := HandlerWrite(Dispatch(mime).value, f, None, o);
            ok && ReadResult(mime, after, o).None? && Writable(Dispatch(mime).value, after)
  {
    var h := Dispatch(mime).value;
    match h
    case Mp3Id3v2 =>
      Id3v2.WriteFramesPlaytag(f.mpeg.value, None);
    case MkvTools =>
      if f.mkv.XmlOutput? {
        var root := f.mkv.doc.root.value;
        assert Matroska.Named(Matroska.TAGS)(root);
        assert Matroska.FirstInDocument(f.mkv.doc, Matroska.TAGS) == Some([]);
        if f.mkv == Matroska.XmlOutput(Matroska.EmptyTags) {
          assert Matroska.ClearDocument(root, []) == root;
          Matroska.ClearCanonical("");
        } else {
          var u :| f.mkv == Matroska.XmlOutput(Matroska.Canonical(u));
          Matroska.ClearCanonical(u);
        }
      }
    case _ =>
  }
}
