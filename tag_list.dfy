/**
 * The tag chips of the task and note cards (`components/TaskCard.tsx`,
 * `components/NoteCard.tsx`): the `tags` column is one comma-separated text,
 * and a card shows its pieces trimmed, dropping the empty ones.
 */
module TagList {
  import opened Wrappers
  import opened Text
  import opened Listing

  predicate NonEmpty(t: string) {
    t != ""
  }

  /** What a card can show as one tag: non-empty, trimmed, without a comma. */
  predicate CleanTag(t: string) {
    t != "" && Trim(t) == t && ',' !in t
  }

  /** `tags ? tags.split(',').map(tag => tag.trim()).filter(tag => tag) : []` */
  function ParseTags(tags: Option<string>): (r: seq<string>)
    ensures tags.None? || tags == Some("") ==> r == []
    ensures forall t :: t in r ==> CleanTag(t)
    ensures tags.Some? ==> |r| <= Count(tags.value, ',') + 1
  {
    if tags.None? || tags.value == "" then []
    else
      PiecesClean(tags.value);
      Pieces(tags.value)
  }

  /** Every piece is a clean tag, and there are no more pieces than commas plus one. */
  lemma PiecesClean(text: string)
    ensures forall t :: t in Pieces(text) ==> CleanTag(t)
    ensures |Pieces(text)| <= Count(text, ',') + 1
  {
    var pieces := Split(text, ',');
    var trimmed := Map(pieces, Trim);
    SplitPiecesWithoutSep(text, ',');
    forall i | 0 <= i < |trimmed| ensures Trim(trimmed[i]) == trimmed[i] && ',' !in trimmed[i] {
      assert pieces[i] in pieces;
      TrimmedPieceClean(pieces[i]);
    }
    NonEmptyClean(trimmed);
    SplitLength(text, ',');
  }

  /** Of trimmed texts without commas, the non-empty ones are clean tags. */
  lemma NonEmptyClean(trimmed: seq<string>)
    requires forall i :: 0 <= i < |trimmed| ==> Trim(trimmed[i]) == trimmed[i] && ',' !in trimmed[i]
    ensures forall t :: t in Filter(trimmed, NonEmpty) ==> CleanTag(t)
  {
    forall t | t in Filter(trimmed, NonEmpty) ensures CleanTag(t) {
      assert t in trimmed;
      var i :| 0 <= i < |trimmed| && trimmed[i] == t;
    }
  }

  /** A piece without a comma, trimmed, is trimmed and without a comma. */
  lemma TrimmedPieceClean(piece: string)
    requires ',' !in piece
    ensures Trim(Trim(piece)) == Trim(piece) && ',' !in Trim(piece)
  {
    TrimIdempotent(piece);
    TrimWithin(piece);
  }

  /** Trimming only cuts characters off: a character of the result was in the text. */
  lemma TrimWithin(s: string)
    ensures forall c :: c in Trim(s) ==> c in s
  {
    var k :| OccursAt(s, Trim(s), k);
    forall c | c in Trim(s) ensures c in s {
      var i :| 0 <= i < |Trim(s)| && Trim(s)[i] == c;
      assert s[k + i] == c;
    }
  }

  /** The pieces of a text, trimmed, with the empty ones dropped (the body for a non-empty text). */
  function Pieces(t: string): seq<string> {
    Filter(Map(Split(t, ','), Trim), NonEmpty)
  }

  lemma ParseTagsPieces(t: string)
    ensures ParseTags(Some(t)) == Pieces(t)
  {
    if t == "" {
      assert Split(t, ',') == [""];
      assert Map([""], Trim) == [Trim("")];
      FilterSingleton(Trim(""), NonEmpty);
    }
  }

  /**
   * Tags keep their left-to-right order: the tags of two texts joined by a
   * comma are the tags of the first followed by the tags of the second.
   */
  lemma TagsOfJoined(a: string, b: string)
    ensures ParseTags(Some(a + [','] + b)) == ParseTags(Some(a)) + ParseTags(Some(b))
  {
    ParseTagsPieces(a);
    ParseTagsPieces(b);
    ParseTagsPieces(a + [','] + b);
    SplitAppend(a, b, ',');
    MapAppend(Split(a, ','), Split(b, ','), Trim);
    FilterAppend(Map(Split(a, ','), Trim), Map(Split(b, ','), Trim), NonEmpty);
  }

  /** A single clean tag reads back as itself. */
  lemma SingleTag(t: string)
    requires CleanTag(t)
    ensures ParseTags(Some(t)) == [t]
  {
    ParseTagsPieces(t);
    SplitWithoutSep(t, ',');
    assert Map([t], Trim) == [t];
    FilterSingleton(t, NonEmpty);
  }

  /** The first of several clean tags, written before a comma and the rest, becomes the first tag. */
  lemma TagBeforeComma(ts: seq<string>)
    requires |ts| > 1
    requires forall t :: t in ts ==> CleanTag(t)
    ensures forall t :: t in ts[1..] ==> CleanTag(t)
    ensures ParseTags(Some(Join(ts, ','))) == [ts[0]] + ParseTags(Some(Join(ts[1..], ',')))
  {
    assert ts[0] in ts;
    assert forall t :: t in ts[1..] ==> t in ts;
    SingleTag(ts[0]);
    TagsOfJoined(ts[0], Join(ts[1..], ','));
  }

  /** A tag list written out with commas reads back as the same list. */
  lemma {:induction false} TagsRoundTrip(ts: seq<string>)
    requires forall t :: t in ts ==> CleanTag(t)
    ensures ParseTags(Some(Join(ts, ','))) == ts
  {
    if |ts| == 1 {
      assert ts[0] in ts;
      SingleTag(ts[0]);
    } else if |ts| > 1 {
      TagBeforeComma(ts);
      TagsRoundTrip(ts[1..]);
      assert ts == [ts[0]] + ts[1..];
    }
  }
}
