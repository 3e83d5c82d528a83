/** The Matroska/WebM handler. TagLib cannot edit these files, so the handler asks
    mkvextract for the file's tags as an XML document (the `Tags` element of section
    5.1.8 of RFC 9559, one `Tag` per target, each holding `Simple` name/value pairs),
    edits that document and hands it back to mkvpropedit. The playtag is the `String`
    of a `Simple` whose `Name` is `PLAYTAG`. */
module Matroska {
  import opened Common
  import opened Xml

  const TAGS: string := "Tags"
  const TAG: string := "Tag"
  const SIMPLE: string := "Simple"
  const NAME: string := "Name"
  const STRING: string := "String"

  /** A parsed XML document: its root element, if the text held one. */
  datatype Document = Document(root: Option<Node>)

  /** What `mkvextract tags` prints for a file: nothing but whitespace (a file
      without tags), or an XML document as Nokogiri parses it. */
  datatype Extraction = BlankOutput | XmlOutput(doc: Document)

  /** The `<Tags></Tags>` document a write starts from when the extraction is blank. */
  const EmptyTags: Document := Document(Some(Element(TAGS, [])))

  function Named(name: string): Node -> bool
  {
    (n: Node) => IsElementNamed(n, name)
  }

  /** `doc.at_xpath('//name')`: the first element of that name anywhere in the document. */
  function FirstInDocument(doc: Document, name: string): (r: Option<Path>)
    ensures r.Some? ==> doc.root.Some? && ValidPath(doc.root.value, r.value)
                        && IsElementNamed(At(doc.root.value, r.value), name)
    ensures r.None? && doc.root.Some? ==>
              forall q :: ValidPath(doc.root.value, q) ==> !IsElementNamed(At(doc.root.value, q), name)
  {
    if doc.root.None? then None
    else
      FindFirstSound(doc.root.value, Named(name));
      FindFirst(doc.root.value, Named(name))
  }

  /** A `Simple` element whose first `Name` child has the text `PLAYTAG`. */
  predicate IsPlaytagSimple(n: Node)
  {
    IsElementNamed(n, SIMPLE) && ChildIndex(n, NAME).Some? && TextOf(n.children[ChildIndex(n, NAME).value]) == PLAYTAG
  }

  /** `is_playtag_tag_elt` applied to a `./Tag` element: some `Simple` child of it is
      a PLAYTAG one. */
  predicate IsPlaytagTag(n: Node)
  {
    IsElementNamed(n, TAG) && exists i :: 0 <= i < |n.children| && IsPlaytagSimple(n.children[i])
  }

  /** The value a PLAYTAG `Simple` holds: the text of its first `String` child when
      there is one and the text is not empty. */
  function SimpleString(simple: Node): (r: Option<string>)
    requires simple.Element?
    ensures r.Some? ==> r.value != ""
  {
    match ChildIndex(simple, STRING)
    case None => None
    case Some(i) =>
      var text := TextOf(simple.children[i]);
      if text == "" then None else Some(text)
  }

  /** What `read` finds in a parsed document: the value of the first PLAYTAG
      `Simple` in document order. */
  function ReadDocument(doc: Document): Option<string>
  {
    if doc.root.None? then None
    else match FindFirst(doc.root.value, IsPlaytagSimple)
      case None => None
      case Some(p) =>
        FindFirstSound(doc.root.value, IsPlaytagSimple);
        SimpleString(At(doc.root.value, p))
  }

  /** What `read` returns for an extraction. */
  function ReadExtraction(tags: Extraction): Option<string>
  {
    if tags.BlankOutput? then None else ReadDocument(tags.doc)
  }

  /** Document order is total: of two different nodes one comes first. */
  lemma {:induction false} BeforeTotal(p: Path, q: Path)
    requires p != q
    ensures Before(p, q) || Before(q, p)
    decreases |p|
  {
    if p != [] && q != [] && p[0] == q[0] {
      assert p[1..] != q[1..];
      BeforeTotal(p[1..], q[1..]);
    }
  }

  /** `read` answers from the first PLAYTAG `Simple` in document order and from no
      other: if that one has no usable `String`, later PLAYTAG `Simple`s are not
      consulted. */
  lemma ReadTakesFirstPlaytagSimple(doc: Document, p: Path)
    requires doc.root.Some? && ValidPath(doc.root.value, p) && IsPlaytagSimple(At(doc.root.value, p))
    requires forall q :: ValidPath(doc.root.value, q) && Before(q, p) ==> !IsPlaytagSimple(At(doc.root.value, q))
    ensures ReadDocument(doc) == SimpleString(At(doc.root.value, p))
  {
    var root := doc.root.value;
    FindFirstSound(root, IsPlaytagSimple);
    var found := FindFirst(root, IsPlaytagSimple).value;
    if found != p {
      BeforeTotal(found, p);
    }
  }

  /** A document with no PLAYTAG `Simple` anywhere reads as nil. */
  lemma ReadWithoutPlaytagSimple(doc: Document)
    requires doc.root.Some?
    requires forall q :: ValidPath(doc.root.value, q) ==> !IsPlaytagSimple(At(doc.root.value, q))
    ensures ReadDocument(doc).None?
  {
    FindFirstSound(doc.root.value, IsPlaytagSimple);
  }

  /** The children of a `Tags` element once every PLAYTAG `Tag` is removed; the
      others stay, in order. */
  function WithoutPlaytagTags(cs: seq<Node>): (r: seq<Node>)
    ensures forall i :: 0 <= i < |r| ==> !IsPlaytagTag(r[i])
    ensures |r| == |cs| - PlaytagTagCount(cs)
  {
    if cs == [] then []
    else
      var rest := WithoutPlaytagTags(cs[..|cs| - 1]);
      rest + (if IsPlaytagTag(cs[|cs| - 1]) then [] else [cs[|cs| - 1]])
  }

  /** How many PLAYTAG `Tag` elements a list of children holds. */
  function PlaytagTagCount(cs: seq<Node>): nat
  {
    if cs == [] then 0
    else PlaytagTagCount(cs[..|cs| - 1]) + (if IsPlaytagTag(cs[|cs| - 1]) then 1 else 0)
  }

  lemma {:induction false} PlaytagTagCountZero(cs: seq<Node>)
    ensures PlaytagTagCount(cs) == 0 <==> forall i :: 0 <= i < |cs| ==> !IsPlaytagTag(cs[i])
  {
    if cs != [] {
      PlaytagTagCountZero(cs[..|cs| - 1]);
      assert forall i :: 0 <= i < |cs| - 1 ==> cs[..|cs| - 1][i] == cs[i];
    }
  }

  /** Removing the PLAYTAG `Tag`s keeps every other child exactly as often as before. */
  lemma {:induction false} WithoutPlaytagTagsKeepsOthers(cs: seq<Node>, c: Node)
    ensures multiset(WithoutPlaytagTags(cs))[c] == if IsPlaytagTag(c) then 0 else multiset(cs)[c]
  {
    if cs != [] {
      WithoutPlaytagTagsKeepsOthers(cs[..|cs| - 1], c);
      assert cs == cs[..|cs| - 1] + [cs[|cs| - 1]];
    }
  }

  /** The first `Tag` child that is a PLAYTAG one (`tags.xpath('./Tag').find`). */
  function PlaytagTagIndex(tags: Node, i: nat): (r: Option<nat>)
    requires tags.Element? && i <= |tags.children|
    ensures r.None? <==> forall j :: i <= j < |tags.children| ==> !IsPlaytagTag(tags.children[j])
    ensures r.Some? ==> i <= r.value < |tags.children| && IsPlaytagTag(tags.children[r.value])
    decreases |tags.children| - i
  {
    if i == |tags.children| then None
    else if IsPlaytagTag(tags.children[i]) then Some(i)
    else PlaytagTagIndex(tags, i + 1)
  }

  /** The `Tag` that `with_get_or_create_playtag_tag_elt` appends when there is none:
      `Tag > Simple > Name` with the text `PLAYTAG`. */
  const NewPlaytagTag: Node := Element(TAG, [Element(SIMPLE, [Element(NAME, [Text(PLAYTAG)])])])

  lemma NewPlaytagTagIsPlaytag()
    ensures IsPlaytagTag(NewPlaytagTag)
  {
    var name := Element(NAME, [Text(PLAYTAG)]);
    assert TextOf(name) == PLAYTAG by {
      assert ChildrenText(name, 1) == "";
      assert ChildrenText(name, 0) == PLAYTAG + "";
    }
    assert IsPlaytagSimple(NewPlaytagTag.children[0]);
  }

  /** The path to the child `k` of the node at `p`. */
  lemma {:induction false} ChildPath(n: Node, p: Path, k: nat)
    requires ValidPath(n, p) && At(n, p).Element? && k < |At(n, p).children|
    ensures ValidPath(n, p + [k]) && At(n, p + [k]) == At(n, p).children[k]
    decreases |p|
  {
    if p == [] {
      assert p + [k] == [k];
      StepUp(n, k, []);
    } else {
      StepDown(n, p);
      ChildPath(n.children[p[0]], p[1..], k);
      assert (p + [k])[0] == p[0] && (p + [k])[1..] == p[1..] + [k];
    }
  }

  /** Replacing a node twice keeps only the second replacement. */
  lemma {:induction false} ReplaceTwice(n: Node, p: Path, a: Node, b: Node)
    requires ValidPath(n, p)
    ensures Replace(Replace(n, p, a), p, b) == Replace(n, p, b)
    decreases |p|
  {
    if p != [] {
      ReplaceTwice(n.children[p[0]], p[1..], a, b);
    }
  }

  /** Replacing a node by itself changes nothing. */
  lemma {:induction false} ReplaceSame(n: Node, p: Path)
    requires ValidPath(n, p)
    ensures Replace(n, p, At(n, p)) == n
    decreases |p|
  {
    if p != [] {
      ReplaceSame(n.children[p[0]], p[1..]);
    }
  }

  /** `with_get_or_create_playtag_tag_elt` on the element at `t`: reuse its first
      PLAYTAG `Tag` child, or append a new one. Returns the tree and the index of the
      `Tag`. Only the children of `t` can change, and only by one appended `Tag`, so
      repeated writes never make a second PLAYTAG `Tag`. */
  function PlaytagTagIn(root: Node, t: Path): (r: (Node, nat))
    requires ValidPath(root, t) && At(root, t).Element?
    ensures ValidPath(r.0, t) && At(r.0, t).Element? && At(r.0, t).name == At(root, t).name
    ensures r.0 == Replace(root, t, At(r.0, t))
    ensures r.1 < |At(r.0, t).children| && IsPlaytagTag(At(r.0, t).children[r.1])
    ensures PlaytagTagIndex(At(root, t), 0).Some? ==>
              r.0 == root && r.1 == PlaytagTagIndex(At(root, t), 0).value
    ensures PlaytagTagIndex(At(root, t), 0).None? ==>
              At(r.0, t).children == At(root, t).children + [NewPlaytagTag] && r.1 == |At(root, t).children|
    ensures PlaytagTagCount(At(r.0, t).children) == if PlaytagTagCount(At(root, t).children) == 0 then 1
                                                      else PlaytagTagCount(At(root, t).children)
  {
    var tags := At(root, t);
    PlaytagTagCountZero(tags.children);
    match PlaytagTagIndex(tags, 0)
    case Some(i) =>
      ReplaceSame(root, t);
      (root, i)
    case None =>
      NewPlaytagTagIsPlaytag();
      var cs := tags.children + [NewPlaytagTag];
      assert cs[..|cs| - 1] == tags.children;
      var r := AppendChild(root, t, NewPlaytagTag);
      ReplaceTwice(root, t, Element(tags.name, cs), Element(tags.name, cs));
      (r, |tags.children|)
  }

  /** Where `with_get_or_create_elt` may attach a new element: the document itself
      (it becomes the root) or an element of it. */
  datatype Parent = DocumentNode | ElementAt(path: Path)

  /** `with_get_or_create_elt(parent, name)`: the first element called `name`
      ANYWHERE in the document (the search is `//name`, not `./name`), or a new empty
      one appended to `parent` when there is none. Appending a second root to a
      document raises, which is `None`. */
  function GetOrCreateElt(doc: Document, parent: Parent, name: string): (r: Option<(Document, Path)>)
    requires parent.ElementAt? ==>
               doc.root.Some? && ValidPath(doc.root.value, parent.path) && At(doc.root.value, parent.path).Element?
    ensures r.None? <==> parent.DocumentNode? && doc.root.Some? && FirstInDocument(doc, name).None?
    ensures r.Some? ==> r.value.0.root.Some? && ValidPath(r.value.0.root.value, r.value.1)
                        && IsElementNamed(At(r.value.0.root.value, r.value.1), name)
    ensures FirstInDocument(doc, name).Some? ==> r == Some((doc, FirstInDocument(doc, name).value))
    ensures FirstInDocument(doc, name).None? && parent.ElementAt? ==>
              var root := doc.root.value;
              var e := At(root, parent.path);
              r.value.0 == Document(Some(Replace(root, parent.path, Element(e.name, e.children + [Element(name, [])]))))
              && r.value.1 == parent.path + [|e.children|]
  {
    match FirstInDocument(doc, name)
    case Some(p) => Some((doc, p))
    case None =>
      match parent
      case DocumentNode =>
        if doc.root.Some? then None
        else Some((Document(Some(Element(name, []))), []))
      case ElementAt(pp) =>
        var root := doc.root.value;
        var e := At(root, pp);
        var root' := AppendChild(root, pp, Element(name, []));
        ChildPath(root', pp, |e.children|);
        Some((Document(Some(root')), pp + [|e.children|]))
  }

  /** The document a non-blank `write(value)` hands to mkvpropedit, or `None` when
      Nokogiri raises: get or create `Tags`, get or create the PLAYTAG `Tag`, take
      that `Tag`'s first `Simple`, get or create a `String` (document-wide search),
      and set its content. */
  function WriteDocument(doc: Document, value: string): Option<Document>
  {
    match GetOrCreateElt(doc, DocumentNode, TAGS)
    case None => None
    case Some((doc1, t)) =>
      var (root2, i) := PlaytagTagIn(doc1.root.value, t);
      var tagPath := t + [i];
      ChildPath(root2, t, i);
      var tag := At(root2, tagPath);
      var simplePath := tagPath + [SimpleIndexOf(tag)];
      ChildPath(root2, tagPath, SimpleIndexOf(tag));
      var (doc3, stringPath) := GetOrCreateElt(Document(Some(root2)), ElementAt(simplePath), STRING).value;
      Some(Document(Some(SetContent(doc3.root.value, stringPath, value))))
  }

  /** `tag.at_xpath('./Simple')` on a PLAYTAG `Tag`: it has a `Simple` child. */
  function SimpleIndexOf(tag: Node): (i: nat)
    requires IsPlaytagTag(tag)
    ensures i < |tag.children| && IsElementNamed(tag.children[i], SIMPLE)
  {
    assert !forall j :: 0 <= j < |tag.children| ==> !IsElementNamed(tag.children[j], SIMPLE);
    ChildIndex(tag, SIMPLE).value
  }

  /** The document a blank write hands to mkvpropedit: the first `Tags` element
      (at `t`) without its PLAYTAG `Tag` children; nothing else changes. */
  function ClearDocument(root: Node, t: Path): (r: Node)
    requires ValidPath(root, t) && At(root, t).Element?
    ensures ValidPath(r, t) && At(r, t).Element? && At(r, t).name == At(root, t).name
    ensures At(r, t).children == WithoutPlaytagTags(At(root, t).children)
    ensures PlaytagTagCount(At(r, t).children) == 0
  {
    var tags := At(root, t);
    var r := Replace(root, t, Element(tags.name, WithoutPlaytagTags(tags.children)));
    PlaytagTagCountZero(At(r, t).children);
    r
  }

  /** The complete effect of `write(value)` on a valid file whose tags extract as
      `tags`: its result and the tags the file holds afterwards. `extractOk` is false
      when running mkvextract raises; `applyOk` is mkvpropedit's success. */
  function WriteOutcome(tags: Extraction, value: Option<string>, extractOk: bool, applyOk: bool): (r: (bool, Extraction))
    ensures !r.0 ==> r.1 == tags
  {
    if !extractOk then (false, tags)
    else if Blank(value) then
      match tags
      case BlankOutput => (true, tags)
      case XmlOutput(doc) =>
        match FirstInDocument(doc, TAGS)
        case None => (true, tags)
        case Some(t) =>
          var cleared := Document(Some(ClearDocument(doc.root.value, t)));
          (applyOk, if applyOk then XmlOutput(cleared) else tags)
    else
      var doc := if tags.BlankOutput? then EmptyTags else tags.doc;
      match WriteDocument(doc, value.value)
      case None => (false, tags)
      case Some(written) => (applyOk, if applyOk then XmlOutput(written) else tags)
  }

  /** The canonical document one write leaves in a file that had no tags. */
  function Canonical(value: string): Document
  {
    Document(Some(Element(TAGS, [SimpleTag(PLAYTAG, value)])))
  }

  /** A `Tag` holding one `Simple` whose `Name` is `name` and whose `String` is `value`. */
  function SimpleTag(name: string, value: string): Node
  {
    Element(TAG, [Element(SIMPLE, [Element(NAME, [Text(name)]), Element(STRING, [Text(value)])])])
  }

  /** In `Tags` whose first `Tag` is such a `Tag`, the document-wide `String` search
      stops at its `String`. */
  lemma StringSearchInSimpleTag(name: string, value: string, rest: seq<Node>)
    ensures FindFirst(Element(TAGS, [SimpleTag(name, value)] + rest), Named(STRING)) == Some([0, 0, 1])
  {
    var f := Named(STRING);
    var nameElt := Element(NAME, [Text(name)]);
    var tag := SimpleTag(name, value);
    var simple := tag.children[0];
    var root := Element(TAGS, [tag] + rest);
    assert FindFirst(Text(name), f).None?;
    assert FindInChildren(nameElt, 1, f).None?;
    assert FindInChildren(nameElt, 0, f).None?;
    assert FindFirst(nameElt, f).None?;
    assert FindFirst(simple.children[1], f) == Some([]);
    assert [1] + [] == [1] && [0] + [1] == [0, 1] && [0] + [0, 1] == [0, 0, 1];
    assert FindInChildren(simple, 1, f) == Some([1]);
    assert FindInChildren(simple, 0, f) == Some([1]);
    assert FindFirst(simple, f) == Some([1]);
    assert FindInChildren(tag, 0, f) == Some([0, 1]);
    assert FindFirst(tag, f) == Some([0, 1]);
    assert root.children[0] == tag;
    assert FindInChildren(root, 0, f) == Some([0, 0, 1]);
  }

  /** Setting that `String`'s content changes only the value of that `Tag`. */
  lemma ReplaceSimpleTagString(name: string, previous: string, value: string, rest: seq<Node>)
    ensures Replace(Element(TAGS, [SimpleTag(name, previous)] + rest), [0, 0, 1], Element(STRING, [Text(value)]))
            == Element(TAGS, [SimpleTag(name, value)] + rest)
  {
    var newString := Element(STRING, [Text(value)]);
    var tag := SimpleTag(name, previous);
    var tag' := SimpleTag(name, value);
    assert Replace(tag.children[0], [1], newString) == tag'.children[0];
    assert Replace(tag, [0, 1], newString) == tag';
    assert ([SimpleTag(name, previous)] + rest)[0 := tag'] == [tag'] + rest;
  }

  /** The `Name` element of a PLAYTAG `Simple`. */
  const PlaytagName: Node := Element(NAME, [Text(PLAYTAG)])

  lemma TextOfSingle(name: string, s: string)
    ensures TextOf(Element(name, [Text(s)])) == s
  {
    var e := Element(name, [Text(s)]);
    assert ChildrenText(e, 1) == "";
    assert ChildrenText(e, 0) == s + "";
  }

  /** A `Simple` holding the PLAYTAG `Name` first is a PLAYTAG `Simple`, and its value
      is that of its first `String`. */
  lemma PlaytagSimpleWith(rest: seq<Node>)
    ensures IsPlaytagSimple(Element(SIMPLE, [PlaytagName] + rest))
  {
    TextOfSingle(NAME, PLAYTAG);
    assert ChildIndex(Element(SIMPLE, [PlaytagName] + rest), NAME) == Some(0);
  }

  /** The search for `String` finds nothing in a tree that was given no `String`:
      the `Tags > Tag > Simple > Name` skeleton a first write builds. */
  lemma NoStringInSkeleton()
    ensures FindFirst(Element(TAGS, [NewPlaytagTag]), Named(STRING)).None?
  {
    var f := Named(STRING);
    assert FindFirst(Text(PLAYTAG), f).None?;
    assert FindInChildren(PlaytagName, 1, f).None?;
    assert FindInChildren(PlaytagName, 0, f).None?;
    assert FindFirst(PlaytagName, f).None?;
    var simple := NewPlaytagTag.children[0];
    assert FindInChildren(simple, 1, f).None?;
    assert FindInChildren(simple, 0, f).None?;
    assert FindFirst(simple, f).None?;
    assert FindInChildren(NewPlaytagTag, 1, f).None?;
    assert FindInChildren(NewPlaytagTag, 0, f).None?;
    assert FindFirst(NewPlaytagTag, f).None?;
    var root := Element(TAGS, [NewPlaytagTag]);
    assert FindInChildren(root, 1, f).None?;
    assert FindInChildren(root, 0, f).None?;
  }

  /** In a fresh PLAYTAG `Tag`, `String` is created under its `Simple`, after `Name`. */
  lemma StringIntoSkeleton()
    ensures GetOrCreateElt(Document(Some(Element(TAGS, [NewPlaytagTag]))), ElementAt([0, 0]), STRING)
            == Some((Document(Some(Element(TAGS, [Element(TAG, [Element(SIMPLE, [PlaytagName, Element(STRING, [])])])]))), [0, 0, 1]))
  {
    var root2 := Element(TAGS, [NewPlaytagTag]);
    NoStringInSkeleton();
    assert ValidPath(root2, [0, 0]) && At(root2, [0, 0]) == NewPlaytagTag.children[0];
    var simple3 := Element(SIMPLE, [PlaytagName, Element(STRING, [])]);
    assert NewPlaytagTag.children[0].children + [Element(STRING, [])] == simple3.children;
    assert FirstInDocument(Document(Some(root2)), STRING).None?;
    assert Replace(NewPlaytagTag, [0], simple3) == Element(TAG, [simple3]);
    assert Replace(root2, [0, 0], simple3) == Element(TAGS, [Element(TAG, [simple3])]);
    assert [0, 0] + [|NewPlaytagTag.children[0].children|] == [0, 0, 1];
  }

  /** Setting the content of that `String` gives the canonical document. */
  lemma SetSkeletonString(value: string)
    ensures SetContent(Element(TAGS, [Element(TAG, [Element(SIMPLE, [PlaytagName, Element(STRING, [])])])]), [0, 0, 1], value)
            == Canonical(value).root.value
  {
    var simple3 := Element(SIMPLE, [PlaytagName, Element(STRING, [])]);
    var tag3 := Element(TAG, [simple3]);
    var str := Element(STRING, [Text(value)]);
    var expected := Canonical(value).root.value;
    assert Replace(simple3, [1], str) == expected.children[0].children[0];
    assert Replace(tag3, [0, 1], str) == expected.children[0];
    assert Replace(Element(TAGS, [tag3]), [0, 0, 1], str) == expected;
  }

  /** In an empty `Tags` document, `Tags` is the root and a fresh PLAYTAG `Tag` is
      appended to it. */
  lemma EmptyTagsGetsPlaytagTag()
    ensures GetOrCreateElt(EmptyTags, DocumentNode, TAGS) == Some((EmptyTags, []))
    ensures PlaytagTagIn(EmptyTags.root.value, []) == (Element(TAGS, [NewPlaytagTag]), 0)
  {
    var root0 := EmptyTags.root.value;
    assert Named(TAGS)(root0);
    assert FindFirst(root0, Named(TAGS)) == Some([]);
    assert PlaytagTagIndex(root0, 0).None?;
    assert [] + [NewPlaytagTag] == [NewPlaytagTag];
  }

  lemma SkeletonSimple()
    ensures ValidPath(Element(TAGS, [NewPlaytagTag]), [0]) && At(Element(TAGS, [NewPlaytagTag]), [0]) == NewPlaytagTag
    ensures IsPlaytagTag(NewPlaytagTag) && SimpleIndexOf(NewPlaytagTag) == 0
  {
    NewPlaytagTagIsPlaytag();
    assert ChildIndex(NewPlaytagTag, SIMPLE) == Some(0);
  }

  /** The first write to a file without tags produces the canonical document. */
  lemma WriteIntoEmptyTags(value: string)
    ensures WriteDocument(EmptyTags, value) == Some(Canonical(value))
  {
    assert [] + [0] == [0] && [0] + [0] == [0, 0];
    EmptyTagsGetsPlaytagTag();
    SkeletonSimple();
    StringIntoSkeleton();
    SetSkeletonString(value);
  }

  /** A later write over the canonical document replaces the value in place: still
      one `Tag`, one `Simple`, one `String`. */
  lemma WriteOverCanonical(previous: string, value: string)
    ensures WriteDocument(Canonical(previous), value) == Some(Canonical(value))
  {
    var root := Canonical(previous).root.value;
    var tag := root.children[0];
    var simple := tag.children[0];
    var str := simple.children[1];
    assert Named(TAGS)(root);
    assert FindFirst(root, Named(TAGS)) == Some([]);
    PlaytagSimpleWith([str]);
    assert [PlaytagName] + [str] == simple.children;
    assert IsPlaytagTag(tag);
    assert PlaytagTagIndex(root, 0) == Some(0);
    assert PlaytagTagIn(root, []) == (root, 0);
    assert At(root, [] + [0]) == tag;
    assert ChildIndex(tag, SIMPLE) == Some(0);
    assert root == Element(TAGS, [SimpleTag(PLAYTAG, previous)] + []);
    StringSearchInSimpleTag(PLAYTAG, previous, []);
    assert FirstInDocument(Canonical(previous), STRING) == Some([0, 0, 1]);
    assert [] + [0] + [0] == [0, 0];
    assert SimpleIndexOf(tag) == 0;
    assert GetOrCreateElt(Document(Some(root)), ElementAt([0, 0]), STRING) == Some((Canonical(previous), [0, 0, 1]));
    assert At(root, [0, 0, 1]) == str;
    assert SetContent(root, [0, 0, 1], value) == Replace(root, [0, 0, 1], Element(STRING, [Text(value)]));
    ReplaceSimpleTagString(PLAYTAG, previous, value, []);
    assert [SimpleTag(PLAYTAG, value)] + [] == [SimpleTag(PLAYTAG, value)];
  }

  /** The canonical document reads back its value (nil for the empty string, which
      `read` treats as no value). */
  lemma ReadCanonical(value: string)
    ensures ReadDocument(Canonical(value)) == if value == "" then None else Some(value)
  {
    var root := Canonical(value).root.value;
    var simple := root.children[0].children[0];
    PlaytagSimpleWith([Element(STRING, [Text(value)])]);
    assert [PlaytagName] + [Element(STRING, [Text(value)])] == simple.children;
    assert FindFirst(simple, IsPlaytagSimple) == Some([]);
    var tag := root.children[0];
    assert !IsPlaytagSimple(tag) && !IsPlaytagSimple(root);
    assert FindInChildren(tag, 0, IsPlaytagSimple) == Some([0] + []);
    assert [0] + [] == [0] && [0] + [0] == [0, 0];
    assert FindFirst(tag, IsPlaytagSimple) == Some([0]);
    assert FindInChildren(root, 0, IsPlaytagSimple) == Some([0] + [0]);
    assert FindFirst(root, IsPlaytagSimple) == Some([0, 0]);
    assert At(root, [0, 0]) == simple;
    assert ChildIndexFrom(simple, STRING, 1) == Some(1);
    assert ChildIndex(simple, STRING) == Some(1);
    TextOfSingle(STRING, value);
  }

  /** Clearing the canonical document leaves an empty `Tags`, which reads as nil. */
  lemma ClearCanonical(value: string)
    ensures ClearDocument(Canonical(value).root.value, []) == Element(TAGS, [])
    ensures ReadDocument(Document(Some(Element(TAGS, [])))).None?
  {
    var tag := Canonical(value).root.value.children[0];
    var simple := tag.children[0];
    PlaytagSimpleWith([simple.children[1]]);
    assert [PlaytagName] + [simple.children[1]] == simple.children;
    assert IsPlaytagTag(tag);
    assert [tag][..0] == [];
    assert WithoutPlaytagTags([tag]) == [];
    assert FindInChildren(Element(TAGS, []), 0, IsPlaytagSimple).None?;
  }

  /** A `Tag` that holds a TITLE `Simple` with a `String`. */
  function TitleTag(title: string): Node
  {
    SimpleTag("TITLE", title)
  }

  /** As written, the `String` lookup searches the whole document: when another
      `Simple` (here a TITLE) already holds a `String`, a write overwrites that one
      and the new PLAYTAG `Simple` gets no `String`. */
  lemma WriteOverwritesForeignString(title: string, value: string)
    ensures WriteDocument(Document(Some(Element(TAGS, [TitleTag(title)]))), value)
         == Some(Document(Some(Element(TAGS, [TitleTag(value), NewPlaytagTag]))))
  {
    var tag := TitleTag(title);
    var simple := tag.children[0];
    var root := Element(TAGS, [tag]);
    assert Named(TAGS)(root);
    assert FindFirst(root, Named(TAGS)) == Some([]);
    // the existing `Tag` is not a PLAYTAG one
    TextOfSingle(NAME, "TITLE");
    assert ChildIndex(simple, NAME) == Some(0);
    assert !IsPlaytagSimple(simple);
    assert !IsPlaytagTag(tag);
    assert PlaytagTagIndex(root, 1).None?;
    assert PlaytagTagIndex(root, 0).None?;
    var root2 := Element(TAGS, [tag, NewPlaytagTag]);
    assert [tag] + [NewPlaytagTag] == root2.children;
    assert PlaytagTagIn(root, []) == (root2, 1);
    assert At(root2, [] + [1]) == NewPlaytagTag;
    assert ChildIndex(NewPlaytagTag, SIMPLE) == Some(0);
    assert ValidPath(root2, [1, 0]) && At(root2, [1, 0]) == NewPlaytagTag.children[0];
    // the document-wide `String` search stops in the TITLE `Simple`
    StringSearchInSimpleTag("TITLE", title, [NewPlaytagTag]);
    ReplaceSimpleTagString("TITLE", title, value, [NewPlaytagTag]);
    assert [TitleTag(value)] + [NewPlaytagTag] == [TitleTag(value), NewPlaytagTag];
  }

  /** The document that write leaves reads as nil: its first PLAYTAG `Simple` is the
      new one, which has no `String`. */
  lemma OverwrittenDocumentReadsNil(value: string)
    ensures ReadDocument(Document(Some(Element(TAGS, [TitleTag(value), NewPlaytagTag])))).None?
  {
    var titleName := Element(NAME, [Text("TITLE")]);
    var newString := Element(STRING, [Text(value)]);
    var tag' := TitleTag(value);
    var simple' := tag'.children[0];
    var after := Element(TAGS, [tag', NewPlaytagTag]);
    var g := IsPlaytagSimple;
    TextOfSingle(NAME, "TITLE");
    assert ChildIndex(simple', NAME) == Some(0);
    assert !IsPlaytagSimple(simple');
    assert FindFirst(Text("TITLE"), g).None?;
    assert FindInChildren(titleName, 1, g).None?;
    assert FindInChildren(titleName, 0, g).None?;
    assert FindFirst(titleName, g).None?;
    assert FindFirst(Text(value), g).None?;
    assert FindInChildren(newString, 1, g).None?;
    assert FindInChildren(newString, 0, g).None?;
    assert FindFirst(newString, g).None?;
    assert FindInChildren(simple', 2, g).None?;
    assert FindInChildren(simple', 1, g).None?;
    assert FindInChildren(simple', 0, g).None?;
    assert FindFirst(simple', g).None?;
    assert FindInChildren(tag', 1, g).None?;
    assert FindInChildren(tag', 0, g).None?;
    assert FindFirst(tag', g).None?;
    var playtagSimple := NewPlaytagTag.children[0];
    PlaytagSimpleWith([]);
    assert [PlaytagName] + [] == playtagSimple.children;
    assert FindFirst(playtagSimple, g) == Some([]);
    assert [0] + [] == [0] && [1] + [0] == [1, 0];
    assert FindInChildren(NewPlaytagTag, 0, g) == Some([0]);
    assert FindFirst(NewPlaytagTag, g) == Some([0]);
    assert FindInChildren(after, 1, g) == Some([1, 0]);
    assert FindInChildren(after, 0, g) == Some([1, 0]);
    assert FindFirst(after, g) == Some([1, 0]);
    assert At(after, [1, 0]) == playtagSimple;
    assert ChildIndexFrom(playtagSimple, STRING, 1).None?;
    assert ChildIndex(playtagSimple, STRING).None?;
  }

  /** A Matroska file as the mkvtoolnix tools see it: the tags mkvextract prints. */
  class MatroskaFile {
    var tags: Extraction

    constructor (tags: Extraction)
      ensures this.tags == tags
    {
      this.tags := tags;
    }

    /** `Open3.capture2('mkvextract', 'tags', path)`; `None` when running it raises. */
    method Extract(ok: bool) returns (output: Option<Extraction>)
      ensures output == if ok then Some(tags) else None
    {
      output := if ok then Some(tags) else None;
    }

    /** `mkvpropedit path --tags all:tmp.xml`: on success the file's tags become `doc`. */
    method ApplyTags(doc: Document, ok: bool) returns (applied: bool)
      modifies this
      ensures applied == ok
      ensures tags == if ok then XmlOutput(doc) else old(tags)
    {
      applied := ok;
      if ok {
        tags := XmlOutput(doc);
      }
    }
  }

  /** One step of the removal loop: the children after `i` steps, then either the
      PLAYTAG `Tag` at `kept` leaves or the kept prefix grows by one. */
  lemma RemovalStep(snapshot: seq<Node>, i: nat, kept: nat)
    requires i < |snapshot| && kept == |WithoutPlaytagTags(snapshot[..i])|
    ensures var cur := WithoutPlaytagTags(snapshot[..i]) + snapshot[i..];
            kept < |cur| && cur[kept] == snapshot[i]
            && (IsPlaytagTag(snapshot[i]) ==>
                  cur[..kept] + cur[kept + 1..] == WithoutPlaytagTags(snapshot[..i + 1]) + snapshot[i + 1..])
            && (!IsPlaytagTag(snapshot[i]) ==>
                  cur == WithoutPlaytagTags(snapshot[..i + 1]) + snapshot[i + 1..]
                  && kept + 1 == |WithoutPlaytagTags(snapshot[..i + 1])|)
            && (IsPlaytagTag(snapshot[i]) ==> kept == |WithoutPlaytagTags(snapshot[..i + 1])|)
  {
    var pre := WithoutPlaytagTags(snapshot[..i]);
    var x := snapshot[i];
    var post := snapshot[i + 1..];
    WithoutPlaytagTagsSnoc(snapshot, i);
    assert snapshot[i..] == [x] + post;
    var cur := pre + ([x] + post);
    assert cur[kept] == x;
    if IsPlaytagTag(x) {
      assert cur[..kept] == pre;
      assert cur[kept + 1..] == post;
    } else {
      assert cur == (pre + [x]) + post;
    }
  }

  /** Extending the children by one extends what is kept by that child, unless it is
      a PLAYTAG `Tag`. */
  lemma WithoutPlaytagTagsSnoc(cs: seq<Node>, i: nat)
    requires i < |cs|
    ensures WithoutPlaytagTags(cs[..i + 1]) == WithoutPlaytagTags(cs[..i]) + (if IsPlaytagTag(cs[i]) then [] else [cs[i]])
  {
    assert cs[..i + 1][..i] == cs[..i];
    assert cs[..i + 1][i] == cs[i];
  }

  /** The removal loop's invariant after `i` of the `Tag`s in `snapshot`: `kept` of
      them stayed, and the `Tags` element at `t` holds the kept ones and the rest. */
  ghost predicate RemovalInvariant(root: Node, t: Path, name: string, snapshot: seq<Node>, i: nat, kept: nat, r: Node)
    requires ValidPath(root, t)
  {
    i <= |snapshot| && kept == |WithoutPlaytagTags(snapshot[..i])|
    && r == Replace(root, t, Element(name, WithoutPlaytagTags(snapshot[..i]) + snapshot[i..]))
  }

  /** The removal loop's invariant survives one step. */
  lemma RemovalPreserves(root: Node, t: Path, name: string, snapshot: seq<Node>, i: nat, kept: nat, r: Node)
    requires ValidPath(root, t) && i < |snapshot| && RemovalInvariant(root, t, name, snapshot, i, kept, r)
    ensures ValidPath(r, t) && At(r, t).Element? && kept < |At(r, t).children|
    ensures IsPlaytagTag(snapshot[i]) ==> RemovalInvariant(root, t, name, snapshot, i + 1, kept, RemoveChild(r, t, kept))
    ensures !IsPlaytagTag(snapshot[i]) ==> RemovalInvariant(root, t, name, snapshot, i + 1, kept + 1, r)
  {
    var cur := WithoutPlaytagTags(snapshot[..i]) + snapshot[i..];
    RemovalStep(snapshot, i, kept);
    if IsPlaytagTag(snapshot[i]) {
      ReplaceTwice(root, t, Element(name, cur), Element(name, cur[..kept] + cur[kept + 1..]));
    }
  }

  /** `tags_element.xpath('./Tag').each { |tag| tag.remove if is_playtag_tag_elt(tag) }`
      on the `Tags` element at `t`: the loop removes exactly the PLAYTAG `Tag`s. */
  method RemovePlaytagTags(root: Node, t: Path) returns (r: Node)
    requires ValidPath(root, t) && At(root, t).Element?
    ensures r == ClearDocument(root, t)
  {
    var tags := At(root, t);
    var snapshot := tags.children;
    ReplaceSame(root, t);
    assert snapshot[..0] == [] && snapshot[0..] == snapshot;
    assert tags == Element(tags.name, [] + snapshot);
    r := root;
    var i := 0;
    var kept := 0;
    while i < |snapshot|
      invariant RemovalInvariant(root, t, tags.name, snapshot, i, kept, r)
    {
      RemovalPreserves(root, t, tags.name, snapshot, i, kept, r);
      if IsPlaytagTag(snapshot[i]) {
        r := RemoveChild(r, t, kept);
      } else {
        kept := kept + 1;
      }
      i := i + 1;
    }
    assert snapshot[..i] == snapshot && snapshot[i..] == [];
    assert WithoutPlaytagTags(snapshot) + [] == WithoutPlaytagTags(tags.children);
  }

  class MKVTag {
    const file: MatroskaFile
    /** `@valid`: whether the file existed when the handler was built. */
    const valid: bool

    constructor (file: MatroskaFile, fileExists: bool)
      ensures this.file == file && valid == fileExists
    {
      this.file := file;
      valid := fileExists;
    }

    /** `read`: nil for an invalid handler, a failing extraction or a blank one;
        otherwise the value of the first PLAYTAG `Simple` in document order. */
    method Read(extractOk: bool) returns (value: Option<string>)
      ensures value == if valid && extractOk then ReadExtraction(file.tags) else None
    {
      if !valid {
        return None;
      }
      var output := file.Extract(extractOk);
      if output.None? {
        return None;
      }
      if output.value.BlankOutput? {
        return None;
      }
      var doc := output.value.doc;
      if doc.root.None? {
        return None;
      }
      var playtagElement := FindFirst(doc.root.value, IsPlaytagSimple);
      if playtagElement.Some? {
        FindFirstSound(doc.root.value, IsPlaytagSimple);
        var simple := At(doc.root.value, playtagElement.value);
        var stringElement := ChildIndex(simple, STRING);
        if stringElement.Some? && TextOf(simple.children[stringElement.value]) != "" {
          return Some(TextOf(simple.children[stringElement.value]));
        }
      }
      return None;
    }

    /** `write_to_file`: hand the document to mkvpropedit and return its success. */
    method WriteToFile(doc: Document, applyOk: bool) returns (ok: bool)
      modifies file
      ensures ok == applyOk
      ensures file.tags == if applyOk then XmlOutput(doc) else old(file.tags)
    {
      ok := file.ApplyTags(doc, applyOk);
    }

    /** `write`: false for an invalid handler; otherwise the outcome `WriteOutcome`
        describes, reached by the source's own sequence of steps. */
    method Write(value: Option<string>, extractOk: bool, applyOk: bool) returns (ok: bool)
      modifies file
      ensures !valid ==> !ok && file.tags == old(file.tags)
      ensures valid ==> (ok, file.tags) == WriteOutcome(old(file.tags), value, extractOk, applyOk)
    {
      if !valid {
        return false;
      }
      var output := file.Extract(extractOk);
      if output.None? {
        return false;
      }
      if Blank(value) {
        if output.value.BlankOutput? {
          return true;
        }
        var doc := output.value.doc;
        var tagsElement := FirstInDocument(doc, TAGS);
        if tagsElement.None? {
          return true;
        }
        var root := RemovePlaytagTags(doc.root.value, tagsElement.value);
        ok := WriteToFile(Document(Some(root)), applyOk);
      } else {
        var doc := if output.value.BlankOutput? then EmptyTags else output.value.doc;
        var tags := GetOrCreateElt(doc, DocumentNode, TAGS);
        if tags.None? {
          return false;
        }
        var (doc1, t) := tags.value;
        var (root2, i) := PlaytagTagIn(doc1.root.value, t);
        ChildPath(root2, t, i);
        var tag := At(root2, t + [i]);
        var simplePath := t + [i] + [SimpleIndexOf(tag)];
        ChildPath(root2, t + [i], SimpleIndexOf(tag));
        var str := GetOrCreateElt(Document(Some(root2)), ElementAt(simplePath), STRING);
        var (doc3, stringPath) := str.value;
        var written := Document(Some(SetContent(doc3.root.value, stringPath, value.value)));
        ok := WriteToFile(written, applyOk);
      }
    }

    /** `clear`: exactly `write(nil)`. */
    method Clear(extractOk: bool, applyOk: bool) returns (ok: bool)
      modifies file
      ensures !valid ==> !ok && file.tags == old(file.tags)
      ensures valid ==> (ok, file.tags) == WriteOutcome(old(file.tags), None, extractOk, applyOk)
    {
      ok := Write(None, extractOk, applyOk);
    }
  }
}
