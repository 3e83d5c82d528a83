/** The Vorbis-comment handler of FLAC and Ogg Vorbis files: the playtag is the
    first value of the `PLAYTAG` field of the comment (section 5.2.2 of the Vorbis I
    specification). TagLib upper-cases field names when it parses a comment, so the
    field map is keyed by upper-case names and the constant is upper case. */
module Xiph {
  import opened Common

  /** The comment's field multimap: field name to its list of values. */
  type FieldMap = map<string, seq<string>>

  /** The TagLib class the handler was built over (`is_a?` in `get_comment_tag`). */
  datatype FileKind = FlacFile | OggVorbisFile | OtherFile

  /** What `read` finds in a comment: the first value of the PLAYTAG list, nothing
      when the field is absent or its list is empty. */
  function FirstValue(fields: FieldMap): (r: Option<string>)
    ensures r.Some? <==> PLAYTAG in fields && |fields[PLAYTAG]| > 0
    ensures r.Some? ==> r.value == fields[PLAYTAG][0]
  {
    if PLAYTAG in fields && |fields[PLAYTAG]| > 0 then Some(fields[PLAYTAG][0]) else None
  }

  /** The comment after a write: a blank value drops the PLAYTAG field (if it is
      there), any other value makes its list exactly `[value]`. */
  function WriteFields(fields: FieldMap, value: Option<string>): (r: FieldMap)
    ensures Blank(value) ==> PLAYTAG !in r
    ensures !Blank(value) ==> PLAYTAG in r && r[PLAYTAG] == [value.value]
    ensures forall k :: k != PLAYTAG ==> (k in r <==> k in fields)
    ensures forall k :: k in r && k != PLAYTAG ==> r[k] == fields[k]
  {
    if Blank(value) then
      (if PLAYTAG in fields then fields - {PLAYTAG} else fields)
    else fields[PLAYTAG := [value.value]]
  }

  /** Reading back what was written returns the value; a blank write reads as nil. */
  lemma ReadAfterWrite(fields: FieldMap, value: Option<string>)
    ensures FirstValue(WriteFields(fields, value)) == if Blank(value) then None else value
  {
  }

  /** The latest write decides the comment: writing twice is writing once, so the
      PLAYTAG list never grows past one value. */
  lemma WriteFieldsReplaces(fields: FieldMap, first: Option<string>, second: Option<string>)
    ensures WriteFields(WriteFields(fields, first), second) == WriteFields(fields, second)
  {
    var once := WriteFields(fields, second);
    var twice := WriteFields(WriteFields(fields, first), second);
    assert twice.Keys == once.Keys;
  }

  /** A blank write over a comment without the field changes nothing. */
  lemma ClearWithoutFieldIsNoOp(fields: FieldMap, value: Option<string>)
    requires Blank(value) && PLAYTAG !in fields
    ensures WriteFields(fields, value) == fields
  {
  }

  /** A TagLib FLAC or Ogg Vorbis file held open: whether TagLib calls it valid, its
      Xiph comment in memory (None when it has none), and the comment on disk. */
  class XiphFile {
    const kind: FileKind
    const valid: bool
    var comment: Option<FieldMap>
    var stored: Option<FieldMap>

    constructor Open(kind: FileKind, valid: bool, disk: Option<FieldMap>)
      ensures this.kind == kind && this.valid == valid
      ensures comment == disk && stored == disk
    {
      this.kind := kind;
      this.valid := valid;
      comment := disk;
      stored := disk;
    }

    /** `@file.save`, succeeding as the oracle `ok` says. */
    method Save(ok: bool) returns (saved: bool)
      modifies this
      ensures saved == ok && comment == old(comment)
      ensures stored == if ok then comment else old(stored)
    {
      saved := ok;
      if ok {
        stored := comment;
      }
    }
  }

  class XiphTag {
    const file: XiphFile

    constructor (file: XiphFile)
      ensures this.file == file
    {
      this.file := file;
    }

    /** `get_comment_tag(create)`: the comment of a FLAC or Ogg Vorbis file, created
        empty when asked to and missing; nothing for any other kind of file. */
    method GetCommentTag(create: bool) returns (present: bool)
      modifies file
      ensures file.stored == old(file.stored)
      ensures present == (file.kind != OtherFile && (old(file.comment).Some? || create))
      ensures file.comment == if file.kind != OtherFile && old(file.comment).None? && create
                              then Some(map[]) else old(file.comment)
    {
      if file.kind == OtherFile {
        return false;
      }
      if file.comment.None? && create {
        file.comment := Some(map[]);
      }
      present := file.comment.Some?;
    }

    /** `read`: nil without a comment, otherwise the first PLAYTAG value. */
    method Read() returns (value: Option<string>)
      ensures file.kind == OtherFile || file.comment.None? ==> value.None?
      ensures file.kind != OtherFile && file.comment.Some? ==> value == FirstValue(file.comment.value)
    {
      if file.kind == OtherFile || file.comment.None? {
        return None;
      }
      var fields := file.comment.value;
      if PLAYTAG in fields {
        var valueList := fields[PLAYTAG];
        if |valueList| == 0 {
          return None;
        }
        return Some(valueList[0]);
      }
      return None;
    }

    /** `write`: false for an invalid file or one with no comment to create; otherwise
        remove or replace the PLAYTAG field and return the save result. */
    method Write(value: Option<string>, saveOk: bool) returns (ok: bool)
      modifies file
      ensures !file.valid || file.kind == OtherFile ==> !ok && file.comment == old(file.comment)
      ensures file.valid && file.kind != OtherFile ==>
                file.comment == Some(WriteFields(if old(file.comment).Some? then old(file.comment).value else map[], value))
      ensures ok == (file.valid && file.kind != OtherFile && saveOk)
      ensures file.stored == if ok then file.comment else old(file.stored)
    {
      if !file.valid {
        return false;
      }
      var present := GetCommentTag(true);
      if !present {
        return false;
      }
      var fields := file.comment.value;
      if Blank(value) {
        if PLAYTAG in fields {
          file.comment := Some(fields - {PLAYTAG});
        }
      } else {
        file.comment := Some(fields[PLAYTAG := [value.value]]);
      }
      ok := file.Save(saveOk);
    }

    /** `clear`: false for an invalid file, otherwise exactly `write(nil)`. */
    method Clear(saveOk: bool) returns (ok: bool)
      modifies file
      ensures !file.valid || file.kind == OtherFile ==> !ok && file.comment == old(file.comment)
      ensures file.valid && file.kind != OtherFile ==>
                file.comment == Some(WriteFields(if old(file.comment).Some? then old(file.comment).value else map[], None))
      ensures ok == (file.valid && file.kind != OtherFile && saveOk)
      ensures file.stored == if ok then file.comment else old(file.stored)
    {
      if !file.valid {
        return false;
      }
      ok := Write(None, saveOk);
    }
  }

  /** The comment a write starts from: the existing one, or a fresh empty one. */
  function CommentOrEmpty(comment: Option<FieldMap>): FieldMap
  {
    if comment.Some? then comment.value else map[]
  }

  /** Whether `write` on a freshly opened file of this kind returns true. */
  function WriteSucceeds(kind: FileKind, valid: bool, saveOk: bool): bool
  {
    valid && kind != OtherFile && saveOk
  }

  /** The comment stored on disk after that `write`. */
  function StoredAfterWrite(kind: FileKind, valid: bool, disk: Option<FieldMap>, value: Option<string>, saveOk: bool): (r: Option<FieldMap>)
    ensures !WriteSucceeds(kind, valid, saveOk) ==> r == disk
    ensures WriteSucceeds(kind, valid, saveOk) ==> r.Some? && FirstValue(r.value) == (if Blank(value) then None else value)
  {
    if WriteSucceeds(kind, valid, saveOk) then Some(WriteFields(CommentOrEmpty(disk), value)) else disk
  }
}
