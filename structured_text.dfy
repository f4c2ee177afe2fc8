/**
 * The host document as the completion context sees it.
 *
 * A structured document is its text plus a flat sequence of document regions.
 * Each document region holds text regions whose starts are relative to the
 * document region. A text region is one of three things:
 * - a container, holding further text regions relative to its own start;
 * - a Twig script region, holding the Twig tokens relative to its start;
 * - anything else (host markup).
 * The lookups here stand for the host document's own lookups
 * (`getRegionAtCharacterOffset`, `getLastRegion`, the script region's
 * `getTwigToken`). The model gives each of them the behaviour its name states.
 */
module StructuredText {

  import opened Wrappers

  /** Why a query has no answer: a context field still null, no token to return, or an offset out of range. */
  datatype Fault = NoContext | NoToken | BadLocation

  /** The token types the navigator tells apart. */
  datatype TokenType = Whitespace | Comment | ConstantEncapsedString | OtherToken

  /**
   * A token of a Twig script region. `start` is relative to the region.
   * `length` includes trailing whitespace and `textLength` does not.
   */
  datatype Token = Token(tokenType: TokenType, start: int, length: int, textLength: int) {
    function End(): int { start + length }
    function TextEnd(): int { start + textLength }
  }

  datatype TextRegion =
    | TwigScript(start: int, length: int, tokens: seq<Token>)
    | Container(start: int, length: int, regions: seq<TextRegion>)
    | Markup(start: int, length: int)

  type ScriptRegion = r: TextRegion | r.TwigScript? witness TwigScript(0, 0, [])

  /** Text regions positioned at an absolute start offset: a document region or a container. */
  datatype Collection = Collection(startOffset: int, regions: seq<TextRegion>)

  datatype DocumentRegion = DocumentRegion(start: int, end: int, regions: seq<TextRegion>)

  datatype StructuredDocument = StructuredDocument(text: string, regions: seq<DocumentRegion>)

  /** A document region seen as a collection of its text regions. */
  function AsCollection(sd: DocumentRegion): (c: Collection)
    ensures c.startOffset == sd.start && c.regions == sd.regions
  {
    Collection(sd.start, sd.regions)
  }

  /** A container found in `parent`, seen as a collection: its start becomes absolute. */
  function ContainerCollection(parent: Collection, c: TextRegion): (r: Collection)
    requires c.Container?
    ensures r.startOffset == parent.startOffset + c.start && r.regions == c.regions
  {
    Collection(parent.startOffset + c.start, c.regions)
  }

  /** The text region covers absolute offset `o` in a collection that starts at `base`. */
  predicate Covers(base: int, r: TextRegion, o: int) {
    base + r.start <= o < base + r.start + r.length
  }

  /** `getRegionAtCharacterOffset` of a region collection: the first text region that covers `o`. */
  function RegionAt(coll: Collection, o: int): (r: Option<TextRegion>)
    ensures r.Some? ==> r.value in coll.regions && Covers(coll.startOffset, r.value, o)
    ensures r.None? <==> forall x :: x in coll.regions ==> !Covers(coll.startOffset, x, o)
  {
    FirstCovering(coll.startOffset, coll.regions, o)
  }

  function FirstCovering(base: int, regions: seq<TextRegion>, o: int): (r: Option<TextRegion>)
    ensures r.Some? ==> r.value in regions && Covers(base, r.value, o)
    ensures r.None? <==> forall x :: x in regions ==> !Covers(base, x, o)
  {
    if |regions| == 0 then None
    else if Covers(base, regions[0], o) then Some(regions[0])
    else
      var r := FirstCovering(base, regions[1..], o);
      assert forall x :: x in regions ==> x == regions[0] || x in regions[1..];
      r
  }

  /** `getLastRegion`: the last text region of the collection, if there is one. */
  function LastRegion(coll: Collection): (r: Option<TextRegion>)
    ensures r.None? <==> |coll.regions| == 0
    ensures r.Some? ==> r.value == coll.regions[|coll.regions| - 1]
  {
    if |coll.regions| == 0 then None else Some(coll.regions[|coll.regions| - 1])
  }

  /** `getRegionAtCharacterOffset` of the document: the first document region that covers `o`. */
  function DocumentRegionAt(doc: StructuredDocument, o: int): (r: Option<DocumentRegion>)
    ensures r.Some? ==> r.value in doc.regions && r.value.start <= o < r.value.end
    ensures r.None? <==> forall sd :: sd in doc.regions ==> !(sd.start <= o < sd.end)
  {
    FirstDocumentRegion(doc.regions, o)
  }

  function FirstDocumentRegion(regions: seq<DocumentRegion>, o: int): (r: Option<DocumentRegion>)
    ensures r.Some? ==> r.value in regions && r.value.start <= o < r.value.end
    ensures r.None? <==> forall sd :: sd in regions ==> !(sd.start <= o < sd.end)
  {
    if |regions| == 0 then None
    else if regions[0].start <= o < regions[0].end then Some(regions[0])
    else
      var r := FirstDocumentRegion(regions[1..], o);
      assert forall x :: x in regions ==> x == regions[0] || x in regions[1..];
      r
  }

  /** `document.get(start, length)`, or a bad location when the range leaves the text. */
  function DocumentGet(doc: StructuredDocument, start: int, length: int): (r: Result<string, Fault>)
    ensures r.Success? <==> 0 <= start && 0 <= length && start + length <= |doc.text|
    ensures r.Success? ==> |r.value| == length && r.value == doc.text[start..start + length]
    ensures r.Failure? ==> r.error == BadLocation
  {
    if 0 <= start && 0 <= length && start + length <= |doc.text| then Success(doc.text[start..start + length])
    else Failure(BadLocation)
  }

  // ---------------------------------------------------------------------------
  // Tokens of a Twig script region

  /**
   * The tokens tile the region from local offset 0. Each token is non-empty and
   * starts where the previous one ends, and its text lies inside it.
   */
  predicate Tiled(tokens: seq<Token>) {
    (forall i :: 0 <= i < |tokens| ==> 0 < tokens[i].length && 0 <= tokens[i].textLength <= tokens[i].length)
    && (|tokens| > 0 ==> tokens[0].start == 0)
    && (forall i :: 0 < i < |tokens| ==> tokens[i].start == tokens[i - 1].End())
  }

  /** The local offset where the last token ends, 0 without tokens. */
  function TokensEnd(tokens: seq<Token>): int {
    if |tokens| == 0 then 0 else tokens[|tokens| - 1].End()
  }

  /** A script region whose tokens tile exactly its length. */
  predicate ScriptWellFormed(s: ScriptRegion) {
    Tiled(s.tokens) && s.length == TokensEnd(s.tokens)
  }

  /** Every Twig script region inside `r`, at any depth, is well formed. */
  predicate RegionWellFormed(r: TextRegion) {
    match r
    case TwigScript(_, _, _) => ScriptWellFormed(r)
    case Container(_, _, regions) => forall x :: x in regions ==> RegionWellFormed(x)
    case Markup(_, _) => true
  }

  predicate CollectionWellFormed(coll: Collection) {
    forall x :: x in coll.regions ==> RegionWellFormed(x)
  }

  predicate DocumentWellFormed(doc: StructuredDocument) {
    forall sd :: sd in doc.regions ==> CollectionWellFormed(AsCollection(sd))
  }

  /** Tiled tokens are ordered: an earlier token ends no later than a later one starts. */
  lemma {:induction false} TokensOrdered(tokens: seq<Token>, i: int, j: int)
    requires Tiled(tokens) && 0 <= i < j < |tokens|
    ensures tokens[i].End() <= tokens[j].start
    decreases j
  {
    if i < j - 1 {
      TokensOrdered(tokens, i, j - 1);
    }
  }

  /** The index of the token at local offset `local`, scanning from index `i`. */
  function IndexFrom(tokens: seq<Token>, local: int, i: nat): (r: nat)
    requires Tiled(tokens) && i < |tokens|
    requires tokens[i].start <= local <= TokensEnd(tokens)
    ensures i <= r < |tokens|
    ensures tokens[r].start <= local
    ensures local < tokens[r].End() || (r == |tokens| - 1 && local == tokens[r].End())
    decreases |tokens| - i
  {
    if local < tokens[i].End() || i == |tokens| - 1 then i
    else IndexFrom(tokens, local, i + 1)
  }

  /**
   * The script region's `getTwigToken(local)`, as an index. There is no token
   * in an empty region. An offset outside `[0, end of the last token]` is a bad
   * location. The end of the last token still finds the last token.
   */
  function TokenIndexAt(tokens: seq<Token>, local: int): (r: Result<nat, Fault>)
    requires Tiled(tokens)
    ensures r.Failure? <==> |tokens| == 0 || local < 0 || local > TokensEnd(tokens)
    ensures r.Failure? ==> r.error == (if |tokens| == 0 then NoToken else BadLocation)
    ensures r.Success? ==>
      && r.value < |tokens| && tokens[r.value].start <= local
      && (local < tokens[r.value].End() || (r.value == |tokens| - 1 && local == tokens[r.value].End()))
  {
    if |tokens| == 0 then Failure(NoToken)
    else if local < 0 || local > TokensEnd(tokens) then Failure(BadLocation)
    else Success(IndexFrom(tokens, local, 0))
  }

  /** A local offset inside token `j` finds token `j`, and no other. */
  lemma {:induction false} TokenIndexUnique(tokens: seq<Token>, local: int, j: nat)
    requires Tiled(tokens) && j < |tokens|
    requires tokens[j].start <= local < tokens[j].End()
    ensures TokenIndexAt(tokens, local) == Success(j)
  {
    if j > 0 {
      TokensOrdered(tokens, 0, j);
    }
    if j < |tokens| - 1 {
      TokensOrdered(tokens, j, |tokens| - 1);
    }
    var r := TokenIndexAt(tokens, local);
    if r.value < j {
      TokensOrdered(tokens, r.value, j);
    } else if r.value > j {
      TokensOrdered(tokens, j, r.value);
    }
  }

  /** The next index the navigator moves to: the following token, or the last one again. */
  function Step(tokens: seq<Token>, i: nat): (r: nat)
    requires i < |tokens|
    ensures r < |tokens|
  {
    if i + 1 < |tokens| then i + 1 else i
  }

  /** Looking up the end of token `i` finds the token after it, or token `i` itself when it is the last. */
  lemma {:induction false} TokenAtEnd(tokens: seq<Token>, i: nat)
    requires Tiled(tokens) && i < |tokens|
    ensures TokenIndexAt(tokens, tokens[i].End()) == Success(Step(tokens, i))
  {
    if i + 1 < |tokens| {
      TokenIndexUnique(tokens, tokens[i].End(), i + 1);
    } else {
      if i > 0 {
        TokensOrdered(tokens, 0, i);
      }
      var r := TokenIndexAt(tokens, tokens[i].End());
      if r.value < i {
        TokensOrdered(tokens, r.value, i);
      }
    }
  }

  /** Whitespace and comment tokens, which the next-token search passes over. */
  predicate Skipped(t: Token) {
    t.tokenType == Whitespace || t.tokenType == Comment
  }

  /**
   * Starting at token `j`, the first token that is neither whitespace nor a
   * comment, or the last token when every token from `j` on is skipped.
   */
  function NextFrom(tokens: seq<Token>, j: nat): (r: nat)
    requires j < |tokens|
    ensures j <= r < |tokens|
    decreases |tokens| - j
  {
    if !Skipped(tokens[j]) || j == |tokens| - 1 then j
    else NextFrom(tokens, j + 1)
  }

  /**
   * `NextFrom` as a property: every token it passes over is skipped, and it
   * stops at a token that is not, or at the last token.
   */
  lemma {:induction false} NextFromFinds(tokens: seq<Token>, j: nat)
    requires j < |tokens|
    ensures var r := NextFrom(tokens, j);
      && (!Skipped(tokens[r]) || r == |tokens| - 1)
      && (forall k :: j <= k < r ==> Skipped(tokens[k]))
    decreases |tokens| - j
  {
    if Skipped(tokens[j]) && j < |tokens| - 1 {
      NextFromFinds(tokens, j + 1);
    }
  }

  /**
   * The next significant token after token `i`: the search always moves at
   * least one token first, except from the last token.
   */
  function NextSignificant(tokens: seq<Token>, i: nat): (r: nat)
    requires i < |tokens|
    ensures r < |tokens|
  {
    NextFrom(tokens, Step(tokens, i))
  }

  /**
   * `NextSignificant` as a property. The result lies after `i`, unless `i` is
   * the last token. Every token strictly between is whitespace or a comment.
   * The result itself is neither, unless it is the last token.
   */
  lemma {:induction false} NextSignificantSkipsOnlyNoise(tokens: seq<Token>, i: nat)
    requires i < |tokens|
    ensures var r := NextSignificant(tokens, i);
      (i < r || (i == r && r == |tokens| - 1))
      && (forall k :: i < k < r ==> Skipped(tokens[k]))
      && (!Skipped(tokens[r]) || r == |tokens| - 1)
  {
    NextFromFinds(tokens, Step(tokens, i));
  }

  /** `k` rounds of `NextSignificant` from token `i`. */
  function IterateNext(tokens: seq<Token>, i: nat, k: nat): (r: nat)
    requires i < |tokens|
    ensures r < |tokens|
  {
    if k == 0 then i else NextSignificant(tokens, IterateNext(tokens, i, k - 1))
  }

  /** More rounds never move backwards. */
  lemma {:induction false} IterateNextMonotone(tokens: seq<Token>, i: nat, k: nat)
    requires i < |tokens|
    ensures i <= IterateNext(tokens, i, k)
    ensures IterateNext(tokens, i, k) <= IterateNext(tokens, i, k + 1)
  {
    if k > 0 {
      IterateNextMonotone(tokens, i, k - 1);
    }
  }

  /** The first round can be taken apart from the rest: `k + 1` rounds from `i` are `k` rounds from the token after `i`. */
  lemma {:induction false} IterateNextShift(tokens: seq<Token>, i: nat, k: nat)
    requires i < |tokens|
    ensures IterateNext(tokens, NextSignificant(tokens, i), k) == IterateNext(tokens, i, k + 1)
  {
    if k > 0 {
      IterateNextShift(tokens, i, k - 1);
    }
  }
}
