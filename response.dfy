/**
 * The parsing chain at the end of `ask_claude`: the text blocks of the
 * model's reply are concatenated, the result is split on `','`, every piece
 * is trimmed, and pieces equal to the sentinel `"none"` are dropped.
 * Nothing else is dropped: an empty piece survives as `""`.
 */
module Response {
  import opened Strings

  /** A block of the model's reply; only text blocks carry text. */
  datatype ContentBlock = TextBlock(text: string) | OtherBlock

  /** The word the model answers with when no label applies. */
  const Sentinel: string := "none"

  function BlockText(block: ContentBlock): string {
    match block
    case TextBlock(t) => t
    case OtherBlock => ""
  }

  /** The reply's text: every block's text, joined with no separator. */
  function ResponseText(content: seq<ContentBlock>): string {
    if content == [] then "" else BlockText(content[0]) + ResponseText(content[1..])
  }

  /** Trims every piece and drops the pieces that trim to the sentinel. */
  function ParsePieces(pieces: seq<string>): seq<string> {
    if pieces == [] then [] else PieceLabel(pieces[0]) + ParsePieces(pieces[1..])
  }

  /** What one piece contributes: its trimmed text, unless that is the sentinel. */
  function PieceLabel(piece: string): seq<string> {
    var t := Trim(piece);
    if t == Sentinel then [] else [t]
  }

  /** Every label is the trimmed text of one of the pieces. */
  lemma {:induction false} ParsePiecesFrom(pieces: seq<string>, l: string)
    requires l in ParsePieces(pieces)
    ensures exists p :: p in pieces && Trim(p) == l
  {
    if l !in PieceLabel(pieces[0]) {
      ParsePiecesFrom(pieces[1..], l);
      var p :| p in pieces[1..] && Trim(p) == l;
      assert p in pieces;
    }
  }

  /** At most one label per piece, and never the sentinel. */
  lemma {:induction false} ParsePiecesBounds(pieces: seq<string>)
    ensures |ParsePieces(pieces)| <= |pieces|
    ensures Sentinel !in ParsePieces(pieces)
  {
    if pieces != [] {
      ParsePiecesBounds(pieces[1..]);
    }
  }

  /** The labels suggested by a reply text. */
  function ParseText(text: string): seq<string> {
    ParsePieces(Split(text, ','))
  }

  /** At most one label per comma-separated piece, and never the sentinel. */
  lemma ParseTextBounds(text: string)
    ensures |ParseText(text)| <= Count(text, ',') + 1
    ensures Sentinel !in ParseText(text)
  {
    ParsePiecesBounds(Split(text, ','));
    SplitCount(text, ',');
  }

  /** No label has surrounding whitespace or contains a comma. */
  lemma ParseTextLabels(text: string)
    ensures forall l :: l in ParseText(text) ==> IsTrimmed(l) && ',' !in l
  {
    var pieces := Split(text, ',');
    JoinSplit(text, ',');
    forall l | l in ParsePieces(pieces) ensures IsTrimmed(l) && ',' !in l {
      ParsePiecesFrom(pieces, l);
      var p :| p in pieces && Trim(p) == l;
      TrimInside(p, ',');
    }
  }

  /** The labels `ask_claude` returns for a reply. */
  function ParseLabels(content: seq<ContentBlock>): seq<string> {
    ParseText(ResponseText(content))
  }

  /** Trims every piece, dropping nothing: the reference for what `ParsePieces` keeps. */
  function TrimAll(pieces: seq<string>): (trimmed: seq<string>)
    ensures |trimmed| == |pieces|
    ensures forall k :: 0 <= k < |pieces| ==> trimmed[k] == Trim(pieces[k])
  {
    if pieces == [] then [] else [Trim(pieces[0])] + TrimAll(pieces[1..])
  }

  /** Parsing commutes with concatenation of the pieces: relative order is kept. */
  lemma {:induction false} ParsePiecesAppend(a: seq<string>, b: seq<string>)
    ensures ParsePieces(a + b) == ParsePieces(a) + ParsePieces(b)
  {
    if a == [] {
      assert a + b == b;
    } else {
      assert (a + b)[1..] == a[1..] + b;
      ParsePiecesAppend(a[1..], b);
    }
  }

  /**
   * Only the sentinel is dropped: every other trimmed piece occurs in the
   * result exactly as often as among the trimmed pieces, duplicates included.
   */
  lemma {:induction false} ParsePiecesCounts(pieces: seq<string>)
    ensures forall l :: l != Sentinel ==> multiset(ParsePieces(pieces))[l] == multiset(TrimAll(pieces))[l]
  {
    if pieces != [] {
      ParsePiecesCounts(pieces[1..]);
    }
  }

  /** The result is empty exactly when every piece trims to the sentinel. */
  lemma {:induction false} ParsePiecesEmpty(pieces: seq<string>)
    ensures ParsePieces(pieces) == [] <==> forall p :: p in pieces ==> Trim(p) == Sentinel
  {
    if pieces != [] {
      ParsePiecesEmpty(pieces[1..]);
      assert forall p :: p in pieces ==> p == pieces[0] || p in pieces[1..];
    }
  }

  /** A reply holding two texts around a comma parses to the labels of each, in order. */
  lemma ParseConcat(a: string, b: string)
    ensures ParseText(a + [','] + b) == ParseText(a) + ParseText(b)
  {
    SplitAppend(a, b, ',');
    ParsePiecesAppend(Split(a, ','), Split(b, ','));
  }

  /** A comma-free reply is one piece: its trimmed text, or nothing for the sentinel. */
  lemma ParseOnePiece(text: string)
    requires ',' !in text
    ensures ParseText(text) == if Trim(text) == Sentinel then [] else [Trim(text)]
  {
    SplitWithoutSep(text, ',');
    assert ParseText(text) == PieceLabel(text) + ParsePieces([]);
  }

  /** Joining comma-free pieces with commas and parsing trims and filters those pieces. */
  lemma ParseJoined(pieces: seq<string>)
    requires |pieces| >= 1
    requires forall p :: p in pieces ==> ',' !in p
    ensures ParseText(Join(pieces, ",")) == ParsePieces(pieces)
  {
    SplitJoin(pieces, ',');
  }

  /** A reply with no labels is one whose every piece trims to the sentinel. */
  lemma ParseEmpty(text: string)
    ensures ParseText(text) == [] <==> forall p :: p in Split(text, ',') ==> Trim(p) == Sentinel
  {
    ParsePiecesEmpty(Split(text, ','));
  }

  /**
   * An empty or blank reply is not "no labels": it parses to one empty
   * label, so the issue goes on to confirmation and labelling.
   */
  lemma ParseBlank(text: string)
    requires AllWhitespace(text)
    ensures ParseText(text) == [""]
  {
    assert ',' !in text by {
      assert !IsWhitespace(',');
    }
    ParseOnePiece(text);
    TrimBlank(text);
  }

  /**
   * A blank piece between two commas is kept as an empty label: the parser
   * does not drop empty pieces.
   */
  lemma ParseKeepsBlankPiece(a: string, blank: string, b: string)
    requires AllWhitespace(blank)
    ensures ParseText(a + [','] + blank + [','] + b) == ParseText(a) + [""] + ParseText(b)
  {
    var tail := blank + [','] + b;
    assert a + [','] + blank + [','] + b == a + [','] + tail;
    ParseConcat(a, tail);
    ParseConcat(blank, b);
    ParseBlank(blank);
  }

  /** A single label, without padding or commas, parses to itself. */
  lemma ParseSingleLabel(name: string)
    requires IsTrimmed(name) && ',' !in name && name != Sentinel
    ensures ParseText(name) == [name]
  {
    TrimSurrounded([], name, []);
    assert [] + name + [] == name;
    ParseOnePiece(name);
  }

  /** The sentinel with any surrounding whitespace is dropped. */
  lemma ParseSentinel(lead: string, trail: string)
    requires AllWhitespace(lead) && AllWhitespace(trail)
    ensures ParseText(lead + Sentinel + trail) == []
  {
    assert IsTrimmed(Sentinel);
    TrimSurrounded(lead, Sentinel, trail);
    var t := lead + Sentinel + trail;
    forall k | 0 <= k < |t| ensures t[k] != ',' {
      assert !IsWhitespace(',');
      if k < |lead| {
        assert t[k] == lead[k];
      } else if k < |lead| + |Sentinel| {
        assert t[k] == Sentinel[k - |lead|];
      } else {
        assert t[k] == trail[k - |lead| - |Sentinel|];
      }
    }
    ParseOnePiece(t);
  }

  /** The reply text of a concatenation of block lists is the concatenation of their texts. */
  lemma {:induction false} ResponseTextAppend(a: seq<ContentBlock>, b: seq<ContentBlock>)
    ensures ResponseText(a + b) == ResponseText(a) + ResponseText(b)
  {
    if a == [] {
      assert a + b == b;
    } else {
      assert (a + b)[1..] == a[1..] + b;
      ResponseTextAppend(a[1..], b);
    }
  }

  /** A block that is not text contributes nothing, wherever it stands. */
  lemma ResponseTextSkipsOther(a: seq<ContentBlock>, b: seq<ContentBlock>)
    ensures ResponseText(a + [OtherBlock] + b) == ResponseText(a + b)
  {
    assert a + [OtherBlock] + b == a + ([OtherBlock] + b);
    ResponseTextAppend(a, [OtherBlock] + b);
    assert ([OtherBlock] + b)[1..] == b;
    ResponseTextAppend(a, b);
  }
}
