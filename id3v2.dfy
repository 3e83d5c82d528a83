/** The ID3v2 handler of MP3 files: the playtag is the text of a user-defined text
    frame (`TXXX`, section 4.2.6 of the ID3v2.4.0 frames document) whose description
    is `PLAYTAG`. */
module Id3v2 {
  import opened Common

  const TXXX: string := "TXXX"

  /** One frame of the tag. Frames other than `TXXX` carry their own id; their
      description and text play no part in this handler. */
  datatype Frame = Frame(id: string, description: string, text: string)

  predicate IsPlaytagFrame(f: Frame)
  {
    f.id == TXXX && f.description == PLAYTAG
  }

  /** The frame a non-blank write adds. */
  function PlaytagFrame(text: string): (f: Frame)
    ensures IsPlaytagFrame(f) && f.text == text
  {
    Frame(TXXX, PLAYTAG, text)
  }

  /** What `read` finds: the text of the first PLAYTAG frame, or nothing. */
  function PlaytagText(frames: seq<Frame>): (r: Option<string>)
    ensures r.None? <==> forall i :: 0 <= i < |frames| ==> !IsPlaytagFrame(frames[i])
    ensures r.Some? ==> exists i :: 0 <= i < |frames| && IsPlaytagFrame(frames[i]) && frames[i].text == r.value
                                     && forall j :: 0 <= j < i ==> !IsPlaytagFrame(frames[j])
  {
    if frames == [] then None
    else if IsPlaytagFrame(frames[0]) then Some(frames[0].text)
    else
      var r := PlaytagText(frames[1..]);
      assert forall i :: 1 <= i < |frames| ==> frames[i] == frames[1..][i - 1];
      r
  }

  /** How many PLAYTAG frames a frame list holds. */
  function PlaytagCount(frames: seq<Frame>): nat
  {
    if frames == [] then 0
    else (if IsPlaytagFrame(frames[0]) then 1 else 0) + PlaytagCount(frames[1..])
  }

  /** The PLAYTAG frames of a list, in order: what `remove_playtag_frames` collects. */
  function PlaytagFrames(frames: seq<Frame>): seq<Frame>
  {
    if frames == [] then []
    else (if IsPlaytagFrame(frames[0]) then [frames[0]] else []) + PlaytagFrames(frames[1..])
  }

  /** The frame list once every PLAYTAG frame is gone; every other frame stays, in order. */
  function WithoutPlaytag(frames: seq<Frame>): (r: seq<Frame>)
    ensures PlaytagCount(r) == 0
    ensures |r| == |frames| - PlaytagCount(frames)
  {
    if frames == [] then []
    else
      var rest := WithoutPlaytag(frames[1..]);
      if IsPlaytagFrame(frames[0]) then rest
      else
        assert ([frames[0]] + rest)[1..] == rest;
        [frames[0]] + rest
  }

  /** Removing the PLAYTAG frames leaves every other frame exactly as often as before. */
  lemma {:induction false} WithoutPlaytagKeepsOthers(frames: seq<Frame>, f: Frame)
    ensures multiset(WithoutPlaytag(frames))[f] == if IsPlaytagFrame(f) then 0 else multiset(frames)[f]
  {
    if frames != [] {
      WithoutPlaytagKeepsOthers(frames[1..], f);
      assert frames == [frames[0]] + frames[1..];
    }
  }

  /** The frame list a write leaves in memory: the PLAYTAG frames removed and, for a
      non-blank value, one new PLAYTAG frame at the end. */
  function WriteFrames(frames: seq<Frame>, value: Option<string>): seq<Frame>
  {
    WithoutPlaytag(frames) + (if Blank(value) then [] else [PlaytagFrame(value.value)])
  }

  lemma {:induction false} PlaytagCountAppend(a: seq<Frame>, b: seq<Frame>)
    ensures PlaytagCount(a + b) == PlaytagCount(a) + PlaytagCount(b)
  {
    if a == [] {
      assert a + b == b;
    } else {
      assert (a + b)[0] == a[0];
      assert (a + b)[1..] == a[1..] + b;
      PlaytagCountAppend(a[1..], b);
    }
  }

  lemma {:induction false} PlaytagTextAppend(a: seq<Frame>, b: seq<Frame>)
    requires PlaytagCount(a) == 0
    ensures PlaytagText(a + b) == PlaytagText(b)
  {
    if a == [] {
      assert a + b == b;
    } else {
      assert (a + b)[0] == a[0];
      assert (a + b)[1..] == a[1..] + b;
      PlaytagTextAppend(a[1..], b);
    }
  }

  /** After a non-blank write exactly one PLAYTAG frame exists and `read` returns the
      written text; after a blank write none exists and `read` returns nil. */
  lemma WriteFramesPlaytag(frames: seq<Frame>, value: Option<string>)
    ensures PlaytagCount(WriteFrames(frames, value)) == if Blank(value) then 0 else 1
    ensures PlaytagText(WriteFrames(frames, value)) == if Blank(value) then None else value
  {
    var kept := WithoutPlaytag(frames);
    var added: seq<Frame> := if Blank(value) then [] else [PlaytagFrame(value.value)];
    PlaytagCountAppend(kept, added);
    PlaytagTextAppend(kept, added);
    if !Blank(value) {
      assert added[1..] == [];
    }
  }

  lemma {:induction false} WithoutPlaytagIdempotent(frames: seq<Frame>)
    ensures WithoutPlaytag(WithoutPlaytag(frames)) == WithoutPlaytag(frames)
  {
    if frames != [] {
      WithoutPlaytagIdempotent(frames[1..]);
      var rest := WithoutPlaytag(frames[1..]);
      if !IsPlaytagFrame(frames[0]) {
        assert ([frames[0]] + rest)[1..] == rest;
      }
    }
  }

  lemma {:induction false} WithoutPlaytagAppend(a: seq<Frame>, b: seq<Frame>)
    ensures WithoutPlaytag(a + b) == WithoutPlaytag(a) + WithoutPlaytag(b)
  {
    if a == [] {
      assert a + b == b;
    } else {
      assert (a + b)[0] == a[0];
      assert (a + b)[1..] == a[1..] + b;
      WithoutPlaytagAppend(a[1..], b);
    }
  }

  /** A write replaces rather than appends: writing `v` over any earlier write leaves
      the same frames as writing `v` once, so repeated writes never accumulate frames. */
  lemma WriteFramesReplaces(frames: seq<Frame>, first: Option<string>, second: Option<string>)
    ensures WriteFrames(WriteFrames(frames, first), second) == WriteFrames(frames, second)
  {
    var added: seq<Frame> := if Blank(first) then [] else [PlaytagFrame(first.value)];
    WithoutPlaytagAppend(WithoutPlaytag(frames), added);
    WithoutPlaytagIdempotent(frames);
    if !Blank(first) {
      assert WithoutPlaytag(added) == [] by {
        assert added[1..] == [];
      }
    }
  }

  /** `frames` with its first `k` PLAYTAG frames removed: the state between two
      `remove_frame` calls. */
  function DropPlaytag(frames: seq<Frame>, k: nat): seq<Frame>
  {
    if k == 0 || frames == [] then frames
    else if IsPlaytagFrame(frames[0]) then DropPlaytag(frames[1..], k - 1)
    else [frames[0]] + DropPlaytag(frames[1..], k)
  }

  /** TagLib's `remove_frame`: the first frame equal to `f` leaves the list. */
  function RemoveFrame(frames: seq<Frame>, f: Frame): seq<Frame>
  {
    if frames == [] then []
    else if frames[0] == f then frames[1..]
    else [frames[0]] + RemoveFrame(frames[1..], f)
  }

  /** Removing the `k`-th collected PLAYTAG frame from the list that already lost the
      first `k` removes exactly the next one. */
  lemma {:induction false} RemoveNextPlaytag(frames: seq<Frame>, k: nat)
    requires k < |PlaytagFrames(frames)|
    ensures RemoveFrame(DropPlaytag(frames, k), PlaytagFrames(frames)[k]) == DropPlaytag(frames, k + 1)
  {
    var f := frames[0];
    var rest := frames[1..];
    if IsPlaytagFrame(f) {
      assert PlaytagFrames(frames) == [f] + PlaytagFrames(rest);
      if k > 0 {
        RemoveNextPlaytag(rest, k - 1);
      }
    } else {
      assert PlaytagFrames(frames) == PlaytagFrames(rest);
      RemoveNextPlaytag(rest, k);
      var target := PlaytagFrames(frames)[k];
      assert IsPlaytagFrame(target) by { PlaytagFramesArePlaytag(frames); }
      assert DropPlaytag(frames, k) == [f] + DropPlaytag(rest, k);
      assert ([f] + DropPlaytag(rest, k))[1..] == DropPlaytag(rest, k);
    }
  }

  lemma {:induction false} PlaytagFramesArePlaytag(frames: seq<Frame>)
    ensures forall i :: 0 <= i < |PlaytagFrames(frames)| ==> IsPlaytagFrame(PlaytagFrames(frames)[i])
  {
    if frames != [] {
      PlaytagFramesArePlaytag(frames[1..]);
    }
  }

  /** Once all collected frames are removed, what is left is the list without PLAYTAG frames. */
  lemma {:induction false} DropAllPlaytag(frames: seq<Frame>)
    ensures DropPlaytag(frames, |PlaytagFrames(frames)|) == WithoutPlaytag(frames)
  {
    if frames != [] {
      DropAllPlaytag(frames[1..]);
    }
  }

  /** An MP3 file as TagLib holds it open: the ID3v2 tag in memory (None when the
      file has none) and the tag last stored on disk. */
  class MpegFile {
    var id3v2: Option<seq<Frame>>
    var stored: Option<seq<Frame>>

    constructor Open(disk: Option<seq<Frame>>)
      ensures id3v2 == disk && stored == disk
    {
      id3v2 := disk;
      stored := disk;
    }

    /** `@file.save`; whether it succeeds is decided by the oracle `ok`. */
    method Save(ok: bool) returns (saved: bool)
      modifies this
      ensures saved == ok && id3v2 == old(id3v2)
      ensures stored == if ok then id3v2 else old(stored)
    {
      saved := ok;
      if ok {
        stored := id3v2;
      }
    }
  }

  class ID3v2Tag {
    const file: MpegFile

    constructor (file: MpegFile)
      ensures this.file == file
    {
      this.file := file;
    }

    /** `read`: nil without an ID3v2 tag, else the text of the first PLAYTAG frame. */
    method Read() returns (value: Option<string>)
      ensures file.id3v2.None? ==> value.None?
      ensures file.id3v2.Some? ==> value == PlaytagText(file.id3v2.value)
    {
      if file.id3v2.None? {
        return None;
      }
      var frames := file.id3v2.value;
      var i := 0;
      while i < |frames|
        invariant 0 <= i <= |frames|
        invariant PlaytagText(frames[i..]) == PlaytagText(frames)
      {
        assert frames[i..][1..] == frames[i + 1..];
        if IsPlaytagFrame(frames[i]) {
          return Some(frames[i].text);
        }
        i := i + 1;
      }
      return None;
    }

    /** `remove_playtag_frames`: collect the PLAYTAG frames, then remove each. */
    method RemovePlaytagFrames()
      modifies file
      ensures file.stored == old(file.stored)
      ensures file.id3v2 == if old(file.id3v2).None? then None else Some(WithoutPlaytag(old(file.id3v2).value))
    {
      if file.id3v2.None? {
        return;
      }
      var frameList := file.id3v2.value;
      var framesToRemove: seq<Frame> := [];
      var i := 0;
      while i < |frameList|
        invariant 0 <= i <= |frameList|
        invariant framesToRemove + PlaytagFrames(frameList[i..]) == PlaytagFrames(frameList)
      {
        assert frameList[i..][1..] == frameList[i + 1..];
        if IsPlaytagFrame(frameList[i]) {
          framesToRemove := framesToRemove + [frameList[i]];
        }
        i := i + 1;
      }
      assert frameList[i..] == [];
      var j := 0;
      while j < |framesToRemove|
        invariant 0 <= j <= |framesToRemove|
        invariant file.id3v2 == Some(DropPlaytag(frameList, j))
        invariant file.stored == old(file.stored)
      {
        RemoveNextPlaytag(frameList, j);
        file.id3v2 := Some(RemoveFrame(file.id3v2.value, framesToRemove[j]));
        j := j + 1;
      }
      DropAllPlaytag(frameList);
    }

    /** `write`: false without an ID3v2 tag; otherwise remove every PLAYTAG frame, add
        one for a non-blank value (a failure creating it yields false, unsaved), then
        return what `save` returns. */
    method Write(value: Option<string>, frameOk: bool, saveOk: bool) returns (ok: bool)
      modifies file
      ensures old(file.id3v2).None? ==> !ok && file.id3v2 == old(file.id3v2)
      ensures old(file.id3v2).Some? ==>
                file.id3v2 == Some(if Blank(value) || frameOk then WriteFrames(old(file.id3v2).value, value)
                                   else WithoutPlaytag(old(file.id3v2).value))
      ensures ok == (old(file.id3v2).Some? && (Blank(value) || frameOk) && saveOk)
      ensures file.stored == if ok then file.id3v2 else old(file.stored)
    {
      if file.id3v2.None? {
        return false;
      }
      RemovePlaytagFrames();
      if !Blank(value) {
        if !frameOk {
          return false;
        }
        file.id3v2 := Some(file.id3v2.value + [PlaytagFrame(value.value)]);
      } else {
        assert file.id3v2.value + [] == file.id3v2.value;
      }
      ok := file.Save(saveOk);
    }
  }

  /** Whether `write` on a freshly opened file whose stored tag is `disk` returns true. */
  function WriteSucceeds(disk: Option<seq<Frame>>, value: Option<string>, frameOk: bool, saveOk: bool): bool
  {
    disk.Some? && (Blank(value) || frameOk) && saveOk
  }

  /** The tag stored on disk after that `write`: the new frame list when it succeeded,
      the old tag otherwise. */
  function StoredAfterWrite(disk: Option<seq<Frame>>, value: Option<string>, frameOk: bool, saveOk: bool): (r: Option<seq<Frame>>)
    ensures !WriteSucceeds(disk, value, frameOk, saveOk) ==> r == disk
  {
    if WriteSucceeds(disk, value, frameOk, saveOk) then Some(WriteFrames(disk.value, value)) else disk
  }
}
