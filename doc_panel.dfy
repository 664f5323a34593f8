/** The documentation card and the documentation editor dialog: the card's preview
    and tag chips, the dialog's fields, and the tag text it edits and parses. */
module DocPanel {
  import opened Types
  import opened Seqs
  import opened Text

  predicate NonEmpty(s: string)
  {
    s != ""
  }

  /** The tags typed into the dialog: split on commas, each piece trimmed, empty pieces
      dropped. Order and duplicates are kept. */
  function ParseTags(text: string): (r: seq<string>)
    ensures forall i :: 0 <= i < |r| ==> r[i] != "" && IsTrimmed(r[i]) && ',' !in r[i]
    ensures |r| <= |Split(text, ',')|
  {
    var pieces := Split(text, ',');
    var trimmed := Map(pieces, Trim);
    var r := Filter(trimmed, NonEmpty);
    forall i | 0 <= i < |r| ensures ',' !in r[i] {
      var j :| 0 <= j < |trimmed| && trimmed[j] == r[i];
      TrimIsInside(pieces[j]);
    }
    r
  }

  /** A trimmed string is a slice of the original, so it holds no new characters. */
  lemma TrimIsInside(s: string)
    ensures forall c :: c in Trim(s) ==> c in s
  {
    var t := TrimStart(s);
    assert forall c :: c in TrimEnd(t) ==> c in t;
    assert forall c :: c in t ==> c in s;
  }

  /** How the dialog shows an entry's tags: joined with `, `. */
  function JoinTags(tags: seq<string>): string
  {
    Join(tags, ", ")
  }

  /** Tags that survive a join and a parse unchanged. */
  predicate PlainTags(tags: seq<string>)
  {
    forall i :: 0 <= i < |tags| ==> tags[i] != "" && IsTrimmed(tags[i]) && ',' !in tags[i]
  }

  /** Showing an entry's tags and saving them back gives the same tags, when each is
      non-empty, trimmed and free of commas. */
  lemma TagsRoundTrip(tags: seq<string>)
    requires PlainTags(tags)
    ensures ParseTags(JoinTags(tags)) == tags
  {
    var pieces := Split(JoinTags(tags), ',');
    if tags == [] {
      assert JoinTags(tags) == "";
      assert pieces == [""];
      assert Map(pieces, Trim) == [""];
    } else {
      TrimPieces(tags, pieces);
      FilterAll(tags, NonEmpty);
    }
  }

  /** The pieces of the joined text, trimmed, are the tags again. */
  lemma TrimPieces(tags: seq<string>, pieces: seq<string>)
    requires tags != [] && PlainTags(tags)
    requires pieces == Split(JoinTags(tags), ',')
    ensures Map(pieces, Trim) == tags
  {
    JoinedPieces(tags);
    var front := [tags[0]];
    var back := Prefixed(" ", tags[1..]);
    assert pieces == front + back;
    forall i | 0 <= i < |tags| ensures Trim(pieces[i]) == tags[i] {
      if i == 0 {
        assert pieces[0] == tags[0];
        TrimTrimmed(tags[0]);
      } else {
        assert pieces[i] == back[i - 1];
        PieceTrims(tags[1..], i - 1);
      }
    }
  }

  /** A tag after the first comes back from its piece once the space is trimmed. */
  lemma PieceTrims(rest: seq<string>, k: nat)
    requires k < |rest| && IsTrimmed(rest[k])
    ensures Trim(Prefixed(" ", rest)[k]) == rest[k]
  {
    assert Prefixed(" ", rest)[k] == " " + rest[k];
    TrimLeadingSpace(" ", rest[k]);
  }

  /** Splitting the joined text on commas leaves a space in front of every tag but the
      first. */
  lemma JoinedPieces(tags: seq<string>)
    requires tags != [] && PlainTags(tags)
    ensures Split(JoinTags(tags), ',') == [tags[0]] + Prefixed(" ", tags[1..])
  {
    assert ", " == [','] + " ";
    SplitJoin("", tags, " ", ',');
    assert "" + Join(tags, ", ") == Join(tags, ", ");
    assert "" + tags[0] == tags[0];
  }

  /** Whatever the dialog saves is already plain, so it survives the next edit. */
  lemma ParsedTagsArePlain(text: string)
    ensures PlainTags(ParseTags(text))
    ensures ParseTags(JoinTags(ParseTags(text))) == ParseTags(text)
  {
    TagsRoundTrip(ParseTags(text));
  }

  /** The card's preview: the first 120 characters of the content, then `...`. */
  function Preview(content: string): (r: string)
    ensures |r| == (if |content| < 120 then |content| else 120) + 3
    ensures r[..|r| - 3] == content[..|r| - 3] && r[|r| - 3..] == "..."
  {
    Prefix(content, 120) + "..."
  }

  /** The tag chips on a card: at most the first three tags. */
  function Chips(tags: seq<string>): (r: seq<string>)
    ensures |r| == (if |tags| < 3 then |tags| else 3)
    ensures r == tags[..|r|]
  {
    if |tags| <= 3 then tags else tags[..3]
  }

  /** The `+n more` note: present exactly when there are more than three tags, and then
      counting the tags without a chip. */
  function MoreCount(tags: seq<string>): (r: Option<nat>)
    ensures r.Some? <==> |tags| > 3
    ensures r.Some? ==> |Chips(tags)| + r.value == |tags|
  {
    if |tags| > 3 then Some(|tags| - 3) else None
  }

  /** What `handleSave` passes to `onSave`: nothing unless both title and content are set. */
  function Submitted(title: string, category: DocCategory, content: string, tags: string, isPinned: bool): (r: Option<DocData>)
    ensures r.Some? <==> title != "" && content != ""
    ensures r.Some? ==> r.value.title == title && r.value.content == content && r.value.category == category
    ensures r.Some? ==> r.value.tags == ParseTags(tags) && r.value.isPinned == isPinned
  {
    if title != "" && content != "" then Some(DocData(title, category, content, ParseTags(tags), isPinned)) else None
  }

  /** Opening an entry and saving it without edits gives the entry's own fields back. */
  lemma EditUnchangedRoundTrip(d: Documentation)
    requires d.title != "" && d.content != "" && PlainTags(d.tags)
    ensures Submitted(d.title, d.category, d.content, JoinTags(d.tags), d.isPinned)
            == Some(DocData(d.title, d.category, d.content, d.tags, d.isPinned))
  {
    TagsRoundTrip(d.tags);
  }

  /** The editor dialog's fields. */
  class DocModal {
    var title: string
    var category: DocCategory
    var content: string
    var tags: string
    var isPinned: bool

    /** The fields copy the entry being edited, or are blank for a new one. */
    constructor(doc: Option<Documentation>)
      ensures doc.Some? ==> title == doc.value.title && category == doc.value.category
                            && content == doc.value.content && tags == JoinTags(doc.value.tags)
                            && isPinned == doc.value.isPinned
      ensures doc.None? ==> title == "" && category == General && content == "" && tags == "" && !isPinned
    {
      new;
      Open(doc);
    }

    /** The effect that runs when the dialog opens or its entry changes. */
    method Open(doc: Option<Documentation>)
      modifies this
      ensures doc.Some? ==> title == doc.value.title && category == doc.value.category
                            && content == doc.value.content && tags == JoinTags(doc.value.tags)
                            && isPinned == doc.value.isPinned
      ensures doc.None? ==> title == "" && category == General && content == "" && tags == "" && !isPinned
    {
      if doc.Some? {
        title, category, content := doc.value.title, doc.value.category, doc.value.content;
        tags, isPinned := JoinTags(doc.value.tags), doc.value.isPinned;
      } else {
        title, category, content, tags, isPinned := "", General, "", "", false;
      }
    }

    /** `handleSave`: `saved` is what reaches `onSave`, and `closed` says whether
        `onClose` follows; with an empty title or content neither happens. */
    method Save() returns (saved: Option<DocData>, closed: bool)
      ensures saved == Submitted(title, category, content, tags, isPinned)
      ensures closed <==> saved.Some?
    {
      saved := Submitted(title, category, content, tags, isPinned);
      closed := saved.Some?;
    }
  }
}
