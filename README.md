# playtag, modelled in Dafny

playtag stores one free-text "playtag" (for example `v1; t=10-20; vol=+3dB`) in a
media file's own metadata, and launches VLC with options derived from it. This
project models the part that does the work:

- the four tag handlers, one per metadata family:
  - Xiph comments (FLAC, Ogg Vorbis): field `PLAYTAG`;
  - ID3v2 (MP3): `TXXX` frames described `PLAYTAG`;
  - MP4: the freeform item `----:com.apple.iTunes:PlayTag`;
  - Matroska/WebM: the tags XML that mkvextract prints and mkvpropedit applies;
- the MIME dispatcher and the `with_*_file` wrappers;
- the `Tag.read` / `Tag.write` facade;
- the VLC launcher, which turns a playtag's options into a command line.

Modules follow the source files:

| module | file | what it holds |
|---|---|---|
| `Common` | `common.dfy` | `Option`; Ruby's `nil`-or-`strip.empty?` test (`Blank`) |
| `Xiph` | `xiph.dfy` | the field map; `XiphFile` (a TagLib FLAC/Ogg file) and the `XiphTag` handler |
| `Id3v2` | `id3v2.dfy` | the frame list; `MpegFile` and the `ID3v2Tag` handler |
| `Mp4` | `mp4.dfy` | the item map; `Mp4File` and the `MP4Tag` handler |
| `Xml` | `xml.dfy` | the XML tree the Matroska handler edits: paths, document-order search, replacement |
| `Matroska` | `matroska.dfy` | read, write and clear of the tags document; `MatroskaFile` (mkvextract/mkvpropedit) and the `MKVTag` handler |
| `FileHandlers` | `handlers.dfy` | MIME dispatch and the per-library wrappers |
| `Tag` | `tag.dfy` | `Tag.read`, `Tag.write`, and the cross-format write-then-read properties |
| `Vlc` | `vlc.dfy` | regex matching of the options, flag derivation, the command, `VLC.play` |

The model has two layers:

- Handlers whose methods update a TagLib file object in place are classes.
  - The file object has two fields: the tag in memory, and `stored`, which is
    what is on disk.
  - `Save(ok)` copies memory to disk when the library reports success.
  - The effect of every method is tied to a pure function of the old state, such
    as `Xiph.WriteFields`, `Id3v2.WriteFrames` or `Matroska.WriteOutcome`.
  - The properties (read after write, overwrite, idempotence, nothing else
    changes) are lemmas about those functions.
- Calls into code that is not modelled become parameters. Each such parameter
  reports the outcome of one foreign call:
  - TagLib: creating a frame, saving;
  - mkvextract raising;
  - mkvpropedit failing;
  - the file-existence check;
  - VLC lookup;
  - the MIME sniffer's answer;
  - `Tag.parse_tag_to_options` and `Tag.parse_time`.

Two behaviours of the source are modelled as written:

- The Matroska writer looks for the `String` element to fill with a
  document-wide `//String` search, not a search inside the PLAYTAG `Simple`.
  - In a document whose first `String` belongs to another tag, a write
    overwrites that other tag's value and leaves the new PLAYTAG `Simple`
    without a `String`.
  - A read then finds nothing (`WriteOverwritesForeignString`,
    `OverwrittenDocumentReadsNil`).
  - When a PLAYTAG `Tag` holding a `String` comes after a foreign one, the write
    returns true, overwrites the foreign value, and leaves the old playtag in
    place.
  - Documents that playtag itself wrote do not have this problem
    (`WriteIntoEmptyTags`, `WriteOverCanonical`).
- `Tag.read` returns a stored empty string as it is. Only `nil` means "not found".

## Model

| member | source | states |
|---|---|---|
| Common.StripLeading | lib/playtag/tag/xiph_tag.rb:61 | `lstrip`: the result is a suffix of the text, begins with a character `strip` keeps, and everything removed is NUL or whitespace |
| Common.StripTrailing | lib/playtag/tag/xiph_tag.rb:61 | `rstrip`: the result is a prefix of the text, ends with a character `strip` keeps, and everything removed is NUL or whitespace |
| Common.BlankIsStripEmpty | lib/playtag/tag/xiph_tag.rb:61 | for every string, the blankness test holds exactly when `Strip` (leading, then trailing) leaves the empty string: it is `strip.empty?` |
| Common.BlankExamples | lib/playtag/tag/xiph_tag.rb:61 | `nil`, `""` and whitespace-only values count as blank (a clear); a real playtag does not |
| Xiph.FirstValue | lib/playtag/tag/xiph_tag.rb:23-38 | a value is found iff `PLAYTAG` is a key with a non-empty value list, and it is the first value of that list |
| Xiph.WriteFields | lib/playtag/tag/xiph_tag.rb:61-72 | a blank value removes `PLAYTAG`; any other value makes it the single value of `PLAYTAG`; every other field keeps its key and values |
| Xiph.ReadAfterWrite | lib/playtag/tag/xiph_tag.rb:17-72 | reading after a write gives the written value, or nil after a blank write |
| Xiph.WriteFieldsReplaces | lib/playtag/tag/xiph_tag.rb:61-72 | a second write wipes out the first: writing twice equals writing the second value once |
| Xiph.ClearWithoutFieldIsNoOp | lib/playtag/tag/xiph_tag.rb:63-67 | clearing a comment that has no `PLAYTAG` field leaves it unchanged |
| Xiph.XiphFile.Open | lib/playtag/tag/file_handlers.rb:47 | an opened file's comment in memory is what is on disk |
| Xiph.XiphFile.Save | lib/playtag/tag/xiph_tag.rb:75 | saving reports the library's result and puts the comment on disk only when it succeeds |
| Xiph.XiphTag.constructor | lib/playtag/tag/file_handlers.rb:48 | the handler wraps the file it is given |
| Xiph.XiphTag.GetCommentTag | lib/playtag/tag/xiph_tag.rb:107-118 | FLAC and Ogg files give their comment, created empty when asked to create and absent; other file kinds give none; nothing reaches the disk |
| Xiph.XiphTag.Read | lib/playtag/tag/xiph_tag.rb:17-42 | nil without a comment or for another file kind, otherwise the first `PLAYTAG` value |
| Xiph.XiphTag.Write | lib/playtag/tag/xiph_tag.rb:47-85 | an invalid file is refused untouched; otherwise the comment (created if absent) becomes `WriteFields` of it, and the result is exactly whether the save succeeded, which alone puts it on disk |
| Xiph.XiphTag.Clear | lib/playtag/tag/xiph_tag.rb:89-100 | the validity check, then the same effect as a blank write |
| Xiph.StoredAfterWrite | lib/playtag/tag/xiph_tag.rb:47-85 | a failed write leaves the disk alone; a successful one leaves a comment that reads back the written value (nil if blank) |
| Id3v2.PlaytagFrame | lib/playtag/tag/id3v2_tag.rb:52-54 | the new frame is a `TXXX` frame described `PLAYTAG` carrying the value |
| Id3v2.PlaytagText | lib/playtag/tag/id3v2_tag.rb:14-35 | nil iff no frame is a PLAYTAG `TXXX` frame; otherwise the text of the first such frame |
| Id3v2.WithoutPlaytag | lib/playtag/tag/id3v2_tag.rb:73-95 | no PLAYTAG frame is left, and exactly the PLAYTAG frames are gone |
| Id3v2.WithoutPlaytagKeepsOthers | lib/playtag/tag/id3v2_tag.rb:84-92 | every other frame keeps its multiplicity; PLAYTAG frames are dropped |
| Id3v2.WithoutPlaytagIdempotent | lib/playtag/tag/id3v2_tag.rb:73-95 | removing PLAYTAG frames twice is removing them once |
| Id3v2.WriteFramesPlaytag | lib/playtag/tag/id3v2_tag.rb:40-68 | after a write there is exactly one PLAYTAG frame, holding the value, or none after a blank write |
| Id3v2.WriteFramesReplaces | lib/playtag/tag/id3v2_tag.rb:40-68 | writing twice equals writing the second value once |
| Id3v2.MpegFile.Open | lib/playtag/tag/file_handlers.rb:67 | an opened file's ID3v2 tag in memory is what is on disk |
| Id3v2.MpegFile.Save | lib/playtag/tag/id3v2_tag.rb:64 | saving reports the library's result and puts the tag on disk only when it succeeds |
| Id3v2.ID3v2Tag.constructor | lib/playtag/tag/file_handlers.rb:68 | the handler wraps the file it is given |
| Id3v2.ID3v2Tag.Read | lib/playtag/tag/id3v2_tag.rb:14-35 | nil without an ID3v2 tag, else the first PLAYTAG frame's text |
| Id3v2.ID3v2Tag.RemovePlaytagFrames | lib/playtag/tag/id3v2_tag.rb:73-95 | the collect-then-remove loops leave exactly `WithoutPlaytag` of the frame list, and touch nothing on disk |
| Id3v2.ID3v2Tag.Write | lib/playtag/tag/id3v2_tag.rb:40-68 | no tag: false, unchanged; otherwise the old PLAYTAG frames are removed, the new frame added unless the value is blank, and a failed frame creation returns false with the frames already removed in memory; the result is the save's |
| Id3v2.StoredAfterWrite | lib/playtag/tag/id3v2_tag.rb:40-68 | a failed write leaves the disk alone |
| Mp4.FirstString | lib/playtag/tag/mp4_tag.rb:18-28 | a value is found iff the PLAYTAG item exists with a non-empty string list, and it is the list's first string |
| Mp4.WriteItems | lib/playtag/tag/mp4_tag.rb:60-71 | a blank value erases the item; any other value makes it the item's single string; all other items are unchanged |
| Mp4.ReadAfterWrite | lib/playtag/tag/mp4_tag.rb:13-71 | reading after a write gives the written value, or nil after a blank write |
| Mp4.WriteItemsReplaces | lib/playtag/tag/mp4_tag.rb:60-71 | writing twice equals writing the second value once |
| Mp4.Mp4File.Open | lib/playtag/tag/file_handlers.rb:78 | an opened file's tag in memory is what is on disk |
| Mp4.Mp4File.Save | lib/playtag/tag/mp4_tag.rb:100 | saving reports the library's result and puts the tag on disk only when it succeeds |
| Mp4.MP4Tag.constructor | lib/playtag/tag/file_handlers.rb:79 | the handler wraps the file it is given |
| Mp4.MP4Tag.Read | lib/playtag/tag/mp4_tag.rb:13-49 | nil without a tag, else `FirstString` of its items |
| Mp4.MP4Tag.Write | lib/playtag/tag/mp4_tag.rb:54-110 | no tag: false, unchanged; otherwise the items become `WriteItems` of them and the result is the save's |
| Mp4.StoredAfterWrite | lib/playtag/tag/mp4_tag.rb:54-110 | a failed write leaves the disk alone; a successful one reads back the written value (nil if blank) |
| Xml.ChildIndex | lib/playtag/tag/mkv_tag.rb:52 | `at_xpath('./Name')`: nil iff no child element has the name; otherwise the first such child |
| Xml.FindFirstSound | lib/playtag/tag/mkv_tag.rb:162 | `at_xpath('//name')`: the path found is valid, satisfies the test, and no node before it in document order does; nothing found means no node does |
| Xml.Replace | lib/playtag/tag/mkv_tag.rb:165 | replacing the node at a path puts the new node there and keeps the root's name and child count |
| Xml.ReplaceElsewhere | lib/playtag/tag/mkv_tag.rb:165 | an in-place edit at one path leaves every node on an unrelated path unchanged |
| Xml.AppendChild | lib/playtag/tag/mkv_tag.rb:165 | `add_child`: the element gains the new node as its last child |
| Xml.SetContent | lib/playtag/tag/mkv_tag.rb:125 | `content=`: the element's children become a single text node |
| Xml.RemoveChild | lib/playtag/tag/mkv_tag.rb:105 | `remove`: exactly the one child is gone, the others keep their order |
| Matroska.FirstInDocument | lib/playtag/tag/mkv_tag.rb:101 | `//Tags`: a found path names a `Tags` element; none found means no element in the document has that name |
| Matroska.SimpleString | lib/playtag/tag/mkv_tag.rb:58-63 | a PLAYTAG `Simple`'s value is the non-empty text of its `String`; an empty text counts as not found |
| Matroska.ReadTakesFirstPlaytagSimple | lib/playtag/tag/mkv_tag.rb:48-63 | the read returns the value of the first PLAYTAG `Simple` in document order |
| Matroska.ReadWithoutPlaytagSimple | lib/playtag/tag/mkv_tag.rb:48-67 | with no PLAYTAG `Simple` anywhere, the read gives nil |
| Matroska.WithoutPlaytagTags | lib/playtag/tag/mkv_tag.rb:104-106 | no PLAYTAG `Tag` is left and exactly the PLAYTAG ones are gone |
| Matroska.WithoutPlaytagTagsKeepsOthers | lib/playtag/tag/mkv_tag.rb:104-106 | every other child of `Tags` keeps its multiplicity |
| Matroska.PlaytagTagIndex | lib/playtag/tag/mkv_tag.rb:175 | the `find` over `./Tag` with `is_playtag_tag_elt` locates a PLAYTAG `Tag` iff one exists |
| Matroska.NewPlaytagTagIsPlaytag | lib/playtag/tag/mkv_tag.rb:178-187 | the `Tag` built for a missing playtag passes `is_playtag_tag_elt` |
| Matroska.PlaytagTagIn | lib/playtag/tag/mkv_tag.rb:173-191 | an existing PLAYTAG `Tag` is reused untouched; otherwise one is appended to `Tags` and nothing else changes; afterwards exactly one exists if none did, and the count is unchanged otherwise |
| Matroska.GetOrCreateElt | lib/playtag/tag/mkv_tag.rb:161-168 | an element found anywhere in the document is used as it is; otherwise a new one is appended to the parent, which is impossible for a document that already has a root |
| Matroska.SimpleIndexOf | lib/playtag/tag/mkv_tag.rb:124 | a PLAYTAG `Tag` has a `Simple` child for `./Simple` to find |
| Matroska.ClearDocument | lib/playtag/tag/mkv_tag.rb:101-106 | the first `Tags` element loses exactly its PLAYTAG `Tag` children and keeps its name |
| Matroska.RemovePlaytagTags | lib/playtag/tag/mkv_tag.rb:104-106 | the loop removing PLAYTAG `Tag`s one by one produces exactly `ClearDocument` |
| Matroska.WriteOutcome | lib/playtag/tag/mkv_tag.rb:77-137 | a failed write changes nothing in the file |
| Matroska.WriteIntoEmptyTags | lib/playtag/tag/mkv_tag.rb:115-128 | writing into a file without tags builds `Tags/Tag/Simple(Name=PLAYTAG, String=value)` |
| Matroska.WriteOverCanonical | lib/playtag/tag/mkv_tag.rb:115-128 | writing over that document replaces the value and nothing else |
| Matroska.ReadCanonical | lib/playtag/tag/mkv_tag.rb:27-72 | that document reads back its value (nil if it is empty) |
| Matroska.ClearCanonical | lib/playtag/tag/mkv_tag.rb:87-113 | clearing that document leaves an empty `Tags`, which reads as nil |
| Matroska.WriteOverwritesForeignString | lib/playtag/tag/mkv_tag.rb:122-128 | in a document holding only a `TITLE` tag, the write fills the `TITLE`'s `String` and appends a PLAYTAG `Tag` without one |
| Matroska.OverwrittenDocumentReadsNil | lib/playtag/tag/mkv_tag.rb:48-67 | that document then reads as nil |
| Matroska.MatroskaFile.constructor | lib/playtag/tag/mkv_tag.rb:17-23 | the file holds the tags mkvextract will print |
| Matroska.MatroskaFile.Extract | lib/playtag/tag/mkv_tag.rb:35 | mkvextract prints the file's tags, or raises |
| Matroska.MatroskaFile.ApplyTags | lib/playtag/tag/mkv_tag.rb:196-212 | mkvpropedit replaces the file's tags with the document only when it succeeds, and reports its success |
| Matroska.MKVTag.constructor | lib/playtag/tag/mkv_tag.rb:17-23 | the handler is valid exactly when the file exists |
| Matroska.MKVTag.Read | lib/playtag/tag/mkv_tag.rb:27-72 | nil for an invalid file or a failed extraction, else what the extracted document reads as |
| Matroska.MKVTag.WriteToFile | lib/playtag/tag/mkv_tag.rb:196-212 | the result is mkvpropedit's, and the file's tags change only on success |
| Matroska.MKVTag.Write | lib/playtag/tag/mkv_tag.rb:77-137 | an invalid file is refused untouched; otherwise the result and the new tags are `WriteOutcome` of the old ones |
| Matroska.MKVTag.Clear | lib/playtag/tag/mkv_tag.rb:141-144 | clearing is a write of nil |
| FileHandlers.Dispatch | lib/playtag/tag/file_handlers.rb:25-39 | each handler is chosen for exactly its listed MIME types |
| FileHandlers.DispatchSupported | lib/playtag/tag/file_handlers.rb:25-39 | exactly ten MIME types are supported |
| FileHandlers.HandlerWrite | lib/playtag/tag/file_handlers.rb:21-93 | a failed write leaves the file as it was |
| FileHandlers.WriteTouchesOneView | lib/playtag/tag/file_handlers.rb:21-93 | a write through one handler leaves every other library's view of the file unchanged |
| FileHandlers.WithXiphFile | lib/playtag/tag/file_handlers.rb:46-51 | opening as FLAC or Ogg and running the block gives the handler's read value, or its write result and the new comment on disk |
| FileHandlers.WithMkvFile | lib/playtag/tag/file_handlers.rb:57-60 | the block's result on the MKV handler, and the file's tags afterwards |
| FileHandlers.WithMp3File | lib/playtag/tag/file_handlers.rb:66-71 | the block's result on the ID3v2 handler, and the tag on disk afterwards |
| FileHandlers.WithMp4File | lib/playtag/tag/file_handlers.rb:77-82 | the block's result on the MP4 handler, and the tag on disk afterwards |
| FileHandlers.WithFileTag | lib/playtag/tag/file_handlers.rb:21-40 | an unsupported MIME type gives nil without running the block or touching the file; a supported one gives the block's result from the matching handler |
| Tag.Read | lib/playtag/tag.rb:15-32 | nil for a missing file or an unsupported format; otherwise the handler's read value |
| Tag.Write | lib/playtag/tag.rb:38-50 | false and an untouched file for a missing file or an unsupported format; otherwise exactly the handler's result and effect |
| Tag.EmptyStringIsReturned | lib/playtag/tag.rb:26-31 | for the Xiph, ID3v2 and MP4 handlers, `Tag.read` returns `""` exactly when the first stored value it finds is empty (only nil means "not found"); for Matroska it never returns `""`, because an empty `String` is skipped (`mkv_tag.rb:59`) |
| Tag.WriteThenRead | lib/playtag/tag.rb:38-50 | in every format, when the libraries succeed, a non-blank write succeeds, reads back exactly, and leaves the file writable |
| Tag.ClearThenRead | lib/playtag/tag.rb:38-50 | in every format, when the libraries succeed, a clear succeeds, then reads nil, and leaves the file writable |
| Vlc.Truncate | lib/playtag/vlc.rb:65 | `to_i` on a float truncates toward zero |
| Vlc.DigitsEnd | lib/playtag/vlc.rb:35 | greedy `\d+`: the run of digits from a position, ending before a non-digit |
| Vlc.DecimalAt | lib/playtag/vlc.rb:63 | `[+-]?\d+(?:\.\d+)?` matched at a position: a well-formed decimal that ends within the text |
| Vlc.DecimalAtSpans | lib/playtag/vlc.rb:63 | the captured decimal is exactly the text the match spans |
| Vlc.DecimalAtFinds | lib/playtag/vlc.rb:63 | where the text holds an optional sign, digits and an optional `.digits` ending before a digit or dot, that is the match |
| Vlc.GainAt | lib/playtag/vlc.rb:35 | `([+-]?\d+(?:\.\d+)?)\s*dB` matched at a position gives a well-formed decimal |
| Vlc.SpacesEndSpans | lib/playtag/vlc.rb:35 | `\s*` skips only `\s` characters |
| Vlc.GainAtSpans | lib/playtag/vlc.rb:35 | whatever `GainAt` captures is a match at that position: the decimal's own text, then only `\s`, then `dB` |
| Vlc.GainAtFinds | lib/playtag/vlc.rb:35 | a decimal followed by spaces and `dB` is matched, with that decimal captured (with `GainAtSpans`, a match is found exactly when the text has that form) |
| Vlc.FirstGain | lib/playtag/vlc.rb:35 | `=~` finds the leftmost position where the gain pattern matches, and none iff there is none |
| Vlc.FirstDecimal | lib/playtag/vlc.rb:63 | `=~` finds the leftmost position where the decimal pattern matches, and none iff there is none |
| Vlc.TimeTextHasNoDash | lib/playtag/vlc.rb:43 | a text matching the time pattern contains no dash, so a range splits at its only dash |
| Vlc.DashIndex | lib/playtag/vlc.rb:47 | the first dash at or after a position, or none iff there is none |
| Vlc.ParseRangeStartStop | lib/playtag/vlc.rb:47 | the range is start-stop iff the text is two time texts joined by a dash |
| Vlc.ParseRangeStartOnly | lib/playtag/vlc.rb:53 | the range is start-only iff the text is a time text, optionally followed by a dash |
| Vlc.ParseRangeStopOnly | lib/playtag/vlc.rb:56 | the range is stop-only iff the text is a dash followed by a time text |
| Vlc.ParseRangeNoRange | lib/playtag/vlc.rb:46-59 | no `when` branch matches iff the text is not a time and no dash in it splits it into any of the three shapes |
| Vlc.TimeFlagsStartStop | lib/playtag/vlc.rb:47-52 | `a-b` gives the start flag of `parse_time(a)` then the stop flag of `parse_time(b)` |
| Vlc.TimeFlagsStartOnly | lib/playtag/vlc.rb:53-55 | `a` or `a-` gives only the start flag of `parse_time(a)` |
| Vlc.TimeFlagsStopOnly | lib/playtag/vlc.rb:56-58 | `-b` gives only the stop flag of `parse_time(b)` |
| Vlc.TimeFlagsNoMatch | lib/playtag/vlc.rb:46-59 | any other text gives no timing flag |
| Vlc.TimeFlagValues | lib/playtag/vlc.rb:51-52 | a bound gives a flag exactly when `parse_time` returned a value, and the flag carries that value truncated toward zero (`to_i`) |
| Vlc.TimeFlags | lib/playtag/vlc.rb:46-59 | the time flags are in order, start before stop (the flags of each shape are in the `TimeFlags…` lemmas) |
| Vlc.GainFlags | lib/playtag/vlc.rb:35-38 | at most one gain flag |
| Vlc.GainFlagsPresent | lib/playtag/vlc.rb:35-38 | a gain flag is added iff `vol` is set and the gain pattern matches somewhere in it |
| Vlc.GainFlagsLeftmost | lib/playtag/vlc.rb:35-38 | the gain is the leftmost match's decibels divided by 20 |
| Vlc.TimeOptionFlags | lib/playtag/vlc.rb:41-60 | the time flags are in order, start before stop |
| Vlc.DesyncFlags | lib/playtag/vlc.rb:63-66 | at most one desync flag |
| Vlc.DesyncFlagsPresent | lib/playtag/vlc.rb:63-66 | a desync flag is added iff `av-delay` is set and a decimal occurs in it |
| Vlc.DesyncFlagsLeftmost | lib/playtag/vlc.rb:63-66 | the delay is the leftmost decimal in seconds, times 1000, truncated toward zero |
| Vlc.AspectFlags | lib/playtag/vlc.rb:69 | an aspect-ratio flag carrying the option's value iff the option is set |
| Vlc.MirrorFlags | lib/playtag/vlc.rb:72 | at most one flag, present iff `mirror` is set, and it is the horizontal flip |
| Vlc.RankExcludes | lib/playtag/vlc.rb:34-72 | a flag of a kind outside a run's ranks is not in the run |
| Vlc.DerivedFlagsMirror | lib/playtag/vlc.rb:72 | the horizontal flip is in the whole derived flag list iff `mirror` is set |
| Vlc.DerivedFlagsAspect | lib/playtag/vlc.rb:69 | an aspect ratio is in the whole derived flag list iff `aspect-ratio` is set, and it is that option's value |
| Vlc.Passthroughs | lib/playtag/vlc.rb:28 | the caller's VLC arguments are passed on one for one, in order |
| Vlc.DerivedFlagsOrdered | lib/playtag/vlc.rb:34-72 | the derived flags come in the fixed order gain, start, stop, desync, aspect, mirror |
| Vlc.TagFlagsOrdered | lib/playtag/vlc.rb:31-73 | no tag or an empty tag adds no flag; otherwise the flags are in the fixed order |
| Vlc.CommandShape | lib/playtag/vlc.rb:25-28 | the command is the executable, then the caller's arguments, then the flags, then the file, and nothing else |
| Vlc.AppendGainFlag | lib/playtag/vlc.rb:35-38 | the loop-free `<<` appends exactly the gain flags |
| Vlc.AppendDesyncFlag | lib/playtag/vlc.rb:63-66 | appends exactly the desync flags |
| Vlc.AppendTimeFlags | lib/playtag/vlc.rb:41-60 | the `case` appends exactly the time flags |
| Vlc.AppendDerivedFlags | lib/playtag/vlc.rb:34-72 | the five steps append exactly the derived flags |
| Vlc.Play | lib/playtag/vlc.rb:9-80 | nothing is launched when the file or the VLC executable is missing; otherwise the command launched is the executable, the caller's arguments, the tag's flags and the file |

## Left out

- Logging, the command-line interface, the editor and the handlers' common base
  class. They do not affect any value a handler reads or writes.
- MIME sniffing by Marcel, including `File.open` raising on an unreadable file.
  The MIME type is an input.
- TagLib, Nokogiri, mkvextract, mkvpropedit and `Tempfile` are not modelled. The
  outcome of each call into them is a boolean parameter. The XML text round trip
  (`to_xml`, then parsing) is taken to be exact.
- Library exceptions are modelled only for frame creation in the ID3v2 handler
  and for mkvextract in the Matroska handler. The other in-memory library calls
  are assumed not to raise. These are `remove_fields` and `add_field` (Xiph),
  `erase`, `Item.new` and `[]=` (MP4), `remove_frame` (ID3v2), and the reads.
  Each of them raising would make `write` return false, or `read` return nil,
  through the handler's `rescue`.
- The MP4 `item_map` fallback for old TagLib versions (`mp4_tag.rb:31-42`, `73-93`)
  is not modelled. The model assumes a TagLib that has `item_list_map`. With it,
  the fallback read can only add a nil result.
- `Tag.detect_media_type` and `Tag.debug?` are not modelled.
- `find_vlc_executable` is not modelled, because it probes the system with
  `which`. Its answer is the `vlcExe` parameter.
- `Vlc.Play` reports whether it launched and with which command. It does not
  model `system`'s return value.
- `Vlc.Play` takes `Tag.read`'s answer as its `tag` parameter.
  `Tag.parse_tag_to_options` and `Tag.parse_time` are not part of this model;
  they are function parameters.
- The options are a map from names to strings. A non-string option value is not
  modelled.
- Floating point is not modelled. `to_f`, the division by 20.0 and the
  multiplication by 1000 are exact real arithmetic. `Arg` keeps the numbers, so
  their formatting on the command line is not modelled.
- The regex anchors `^` and `$` are modelled as the start and end of the text. A
  time option containing a newline, where Ruby's line anchors differ, is not
  modelled.
- Nokogiri nodes have identity. A document is modelled as a value tree, and a
  node is named by its path, so aliasing between node handles is not modelled.
- Vlc.SpacesEnd: its contract states only the bounds of the position. The
  whitespace run it skips is characterised by the lemma `SpacesEndOf`.
- Vlc.DecimalAt: its contract states that the match is well formed and where it
  ends. What it spans is in `DecimalAtSpans` and `DecimalAtFinds`.
- Matroska.MatroskaFile.ApplyTags: after mkvpropedit succeeds, the next
  mkvextract is assumed to print exactly the applied document. This is an
  assumption about mkvtoolnix's round trip through the binary file. The
  Matroska cases of Tag.WriteThenRead and Tag.ClearThenRead, and the file
  staying writable after a write, rest on it.
- Xiph.FieldMap: keys are not required to be upper case. TagLib stores field
  names in upper case, so the model admits comments TagLib cannot produce. Such
  comments change no result, since only the `PLAYTAG` key is read or written.
- Vlc.TimeFlags and Vlc.TimeOptionFlags: their contracts state only the order.
  The flags each shape of `t` yields are in `TimeFlagsStartStop`,
  `TimeFlagsStartOnly`, `TimeFlagsStopOnly`, `TimeFlagsNoMatch` and
  `TimeFlagValues`.
- Vlc.GainFlags and Vlc.DesyncFlags: their contracts state only the count and
  the position. When each is present and what it carries is in the
  `…Present` and `…Leftmost` lemmas.
- Matroska.WriteOutcome, FileHandlers.HandlerWrite, Id3v2.StoredAfterWrite:
  their contracts state only that a failed write changes nothing. What a
  successful write produces is in `Tag.WriteThenRead`, `Tag.ClearThenRead` and
  the per-format lemmas.
