/**
 * The completion context. It resolves the Twig script region under the cursor,
 * then answers token, offset and character queries from it.
 *
 * `isValid` resolves in three steps:
 * 1. it scans backwards from the offset for a document region;
 * 2. it descends at most one container level;
 * 3. it keeps the text region only if it is a Twig script region.
 * The queries turn absolute document offsets into offsets local to that script
 * region: they subtract the collection's start offset and the region's start.
 * They answer from the region's tokens.
 */
module TwigCompletion {

  import opened Wrappers
  import opened StructuredText

  /** The source module and completion requestor that `isValid` stores; the model keeps them as opaque handles. */
  datatype Handle = Handle(id: nat)

  /** The outcome of `determineDocument`: a document, `null`, or an exception (which `isValid` catches). */
  datatype DocumentLookup = Found(doc: StructuredDocument) | NotFound | Raised

  /**
   * The document region at the largest probe offset in `[0, o]` at which one is
   * found. `None` when every probe fails, or when `o < 0`.
   */
  function LastRegionAtOrBefore(doc: StructuredDocument, o: int): (r: Option<DocumentRegion>)
    ensures r.Some? ==> r.value in doc.regions
    decreases if o < 0 then 0 else o + 1
  {
    if o < 0 then None
    else if DocumentRegionAt(doc, o).Some? then DocumentRegionAt(doc, o)
    else LastRegionAtOrBefore(doc, o - 1)
  }

  /**
   * The backward scan as a search. When it finds a region, `probe` is the
   * offset where it was found: every larger probe up to `o` found nothing.
   * When it finds none, no probe in `[0, o]` finds a region.
   */
  lemma {:induction false} LastRegionAtOrBeforeFinds(doc: StructuredDocument, o: int) returns (probe: int)
    ensures var r := LastRegionAtOrBefore(doc, o);
      && (r.Some? ==>
            && 0 <= probe <= o && DocumentRegionAt(doc, probe) == r
            && forall q :: probe < q <= o ==> DocumentRegionAt(doc, q).None?)
      && (r.None? <==> forall p :: 0 <= p <= o ==> DocumentRegionAt(doc, p).None?)
    decreases if o < 0 then 0 else o + 1
  {
    if o < 0 {
      probe := o;
    } else if DocumentRegionAt(doc, o).Some? {
      probe := o;
    } else {
      probe := LastRegionAtOrBeforeFinds(doc, o - 1);
      var r := LastRegionAtOrBefore(doc, o);
      if r.None? {
        assert forall p :: 0 <= p <= o ==> DocumentRegionAt(doc, p).None? by {
          forall p | 0 <= p <= o
            ensures DocumentRegionAt(doc, p).None?
          {
            if p < o {
              assert 0 <= p <= o - 1;
            }
          }
        }
      }
    }
  }

  /** The script region a text region is, if it is one. */
  function TwigRegionOf(textRegion: Option<TextRegion>): (r: Option<ScriptRegion>)
    ensures r.Some? <==> textRegion.Some? && textRegion.value.TwigScript?
    ensures r.Some? ==> r.value == textRegion.value
  {
    if textRegion.Some? && textRegion.value.TwigScript? then Some(textRegion.value) else None
  }

  /**
   * What `isValid` resolves for document `doc` and `offset`: the region
   * collection and the Twig script region, or nothing.
   */
  function Locate(doc: StructuredDocument, offset: int): Option<(Collection, ScriptRegion)> {
    var sd := LastRegionAtOrBefore(doc, offset);
    if sd.None? then None
    else
      var coll := TwigCompletionContext.DetermineRegionCollection(doc, sd.value, offset);
      var twig := TwigRegionOf(TwigCompletionContext.DetermineTextRegion(doc, coll, offset));
      if twig.None? then None else Some((coll, twig.value))
  }

  /**
   * What a successful resolution guarantees:
   * - the collection is the document region's own, or a container directly
   *   inside it (at most one level down);
   * - away from the end of the document, the script region covers the offset;
   * - at the end of the document, the script region is the collection's last region;
   * - in a well-formed document, the script region's tokens tile it.
   */
  lemma {:induction false} LocateFindsCoveringRegion(doc: StructuredDocument, offset: int)
    requires Locate(doc, offset).Some?
    ensures var (coll, s) := Locate(doc, offset).value;
      var sd := LastRegionAtOrBefore(doc, offset).value;
      && (coll == AsCollection(sd) || exists c :: c in sd.regions && c.Container? && coll == ContainerCollection(AsCollection(sd), c))
      && s in coll.regions
      && (offset != |doc.text| ==> Covers(coll.startOffset, s, offset))
      && (offset == |doc.text| ==> s == coll.regions[|coll.regions| - 1])
      && (DocumentWellFormed(doc) ==> ScriptWellFormed(s))
  {
    var sd := LastRegionAtOrBefore(doc, offset).value;
    var coll := TwigCompletionContext.DetermineRegionCollection(doc, sd, offset);
    var s := Locate(doc, offset).value.1;
    if DocumentWellFormed(doc) {
      assert CollectionWellFormed(AsCollection(sd));
      assert RegionWellFormed(s);
    }
  }

  /**
   * `getTwigToken(o)` on a resolved collection and script region, as the index
   * of the token. It looks up local offset `o - collectionStart - regionStart - 1`,
   * the character just before `o`. The token found covers that character
   * (or it is the last token and the character is at its end). An empty region
   * has no token, and a character outside the region is a bad location.
   */
  function TokenIndexIn(coll: Collection, s: ScriptRegion, o: int): (r: Result<nat, Fault>)
    requires ScriptWellFormed(s)
    ensures r.Success? ==> r.value < |s.tokens|
    ensures r.Success? ==>
      var base := coll.startOffset + s.start;
      var t := s.tokens[r.value];
      && base + t.start <= o - 1
      && (o - 1 < base + t.End() || (r.value == |s.tokens| - 1 && o - 1 == base + t.End()))
    ensures r == Failure(NoToken) <==> |s.tokens| == 0
    ensures r == Failure(BadLocation) <==>
      |s.tokens| > 0 && !(coll.startOffset + s.start <= o - 1 <= coll.startOffset + s.start + s.length)
  {
    TokenIndexAt(s.tokens, o - coll.startOffset - s.start - 1)
  }

  /**
   * Converting the end of token `k` to an absolute offset and looking the
   * token up again finds token `k`: the lookup reads the character before the
   * offset, which is the token's own last character.
   */
  lemma {:induction false} TokenEndRoundTrip(coll: Collection, s: ScriptRegion, k: nat)
    requires ScriptWellFormed(s) && k < |s.tokens|
    ensures TokenIndexIn(coll, s, coll.startOffset + s.start + s.tokens[k].End()) == Success(k)
  {
    TokenIndexUnique(s.tokens, s.tokens[k].End() - 1, k);
  }

  class TwigCompletionContext {
    var document: Option<StructuredDocument>
    var sourceModule: Option<Handle>
    var requestor: Option<Handle>
    var offset: int
    var structuredDocumentRegion: Option<DocumentRegion>
    var regionCollection: Option<Collection>
    var twigScriptRegion: Option<ScriptRegion>

    /** The resolved script region, when there is one, has tokens that tile it. */
    predicate Valid()
      reads this
    {
      twigScriptRegion.Some? ==> ScriptWellFormed(twigScriptRegion.value)
    }

    constructor ()
      ensures document.None? && sourceModule.None? && requestor.None? && offset == 0
      ensures structuredDocumentRegion.None? && regionCollection.None? && twigScriptRegion.None?
      ensures Valid()
    {
      document := None;
      sourceModule := None;
      requestor := None;
      offset := 0;
      structuredDocumentRegion := None;
      regionCollection := None;
      twigScriptRegion := None;
    }

    /**
     * `isValid`. It stores the request, then resolves the document, the
     * document region, the region collection and the Twig script region, each
     * only if the one before was found. A field after the first one missing
     * keeps its old value. An exception from `determineDocument` is caught and
     * gives `false`.
     */
    method IsValid(sourceModule: Handle, offset: int, requestor: Handle, lookup: DocumentLookup) returns (valid: bool)
      requires Valid()
      requires lookup.Found? ==> DocumentWellFormed(lookup.doc)
      modifies this
      ensures Valid()
      ensures this.sourceModule == Some(sourceModule) && this.requestor == Some(requestor) && this.offset == offset
      ensures valid <==> lookup.Found? && Locate(lookup.doc, offset).Some?
      ensures valid ==>
        && regionCollection == Some(Locate(lookup.doc, offset).value.0)
        && twigScriptRegion == Some(Locate(lookup.doc, offset).value.1)
      ensures lookup.Raised? ==> document == old(document)
      ensures !lookup.Raised? ==> document == (if lookup.Found? then Some(lookup.doc) else None)
      ensures lookup.Found? ==> structuredDocumentRegion == LastRegionAtOrBefore(lookup.doc, offset)
      ensures !lookup.Found? ==> structuredDocumentRegion == old(structuredDocumentRegion)
      ensures !(lookup.Found? && structuredDocumentRegion.Some?) ==>
        && regionCollection == old(regionCollection)
        && twigScriptRegion == old(twigScriptRegion)
      ensures lookup.Found? && structuredDocumentRegion.Some? ==>
        && regionCollection == Some(DetermineRegionCollection(lookup.doc, structuredDocumentRegion.value, offset))
        && twigScriptRegion == TwigRegionOf(DetermineTextRegion(lookup.doc, regionCollection.value, offset))
    {
      this.requestor := Some(requestor);
      this.sourceModule := Some(sourceModule);
      this.offset := offset;
      valid := false;
      if lookup.Raised? {
        return;
      }
      document := if lookup.Found? then Some(lookup.doc) else None;
      if document.Some? {
        var doc := document.value;
        ghost var probes;
        structuredDocumentRegion, probes := DetermineStructuredDocumentRegion(doc, offset);
        if structuredDocumentRegion.Some? {
          regionCollection := Some(DetermineRegionCollection(doc, structuredDocumentRegion.value, offset));
          if regionCollection.Some? {
            var twig := DetermineTwigRegion(doc, regionCollection.value, offset);
            twigScriptRegion := twig;
            if twigScriptRegion.Some? {
              valid := true;
            }
          }
          if twigScriptRegion.Some? && DocumentWellFormed(doc) {
            LocateFindsCoveringRegion(doc, offset);
          }
        }
      }
    }

    /**
     * `determineTwigRegion`. It stores the text region at `offset` in the
     * field when that region is a Twig script region, and null otherwise. It
     * returns the same value.
     */
    method DetermineTwigRegion(doc: StructuredDocument, coll: Collection, offset: int) returns (r: Option<ScriptRegion>)
      requires CollectionWellFormed(coll)
      modifies this
      ensures Valid()
      ensures twigScriptRegion == r
      ensures r.Some? <==> DetermineTextRegion(doc, coll, offset).Some? && DetermineTextRegion(doc, coll, offset).value.TwigScript?
      ensures r.Some? ==> r.value == DetermineTextRegion(doc, coll, offset).value
      ensures document == old(document) && this.offset == old(this.offset) && sourceModule == old(sourceModule)
        && requestor == old(requestor) && structuredDocumentRegion == old(structuredDocumentRegion)
        && regionCollection == old(regionCollection)
    {
      var textRegion := DetermineTextRegion(doc, coll, offset);
      twigScriptRegion := None;
      if textRegion.Some? && textRegion.value.TwigScript? {
        twigScriptRegion := Some(textRegion.value);
      }
      r := twigScriptRegion;
    }

    /**
     * `determineStructuredDocumentRegion`. It probes `offset`, `offset - 1`,
     * … down to 0, and stops at the first probe that finds a document region.
     * Ghost `probes` counts the lookups: at most `offset + 1`, and none when
     * `offset < 0`.
     */
    static method DetermineStructuredDocumentRegion(doc: StructuredDocument, offset: int)
      returns (sdRegion: Option<DocumentRegion>, ghost probes: nat)
      ensures sdRegion == LastRegionAtOrBefore(doc, offset)
      ensures probes <= if offset < 0 then 0 else offset + 1
    {
      sdRegion := None;
      probes := 0;
      var lastOffset := offset;
      while sdRegion.None? && lastOffset >= 0
        invariant sdRegion.None? ==> LastRegionAtOrBefore(doc, lastOffset) == LastRegionAtOrBefore(doc, offset)
        invariant sdRegion.Some? ==> sdRegion == LastRegionAtOrBefore(doc, offset)
        invariant lastOffset <= offset && probes == offset - lastOffset
        invariant if offset < 0 then lastOffset == offset else lastOffset >= -1
        decreases lastOffset + 1
      {
        sdRegion := DocumentRegionAt(doc, lastOffset);
        lastOffset := lastOffset - 1;
        probes := probes + 1;
      }
    }

    /**
     * `determineRegionCollection`. It is the text region at `offset` when that
     * region is a container, and the document region itself otherwise.
     */
    static function DetermineRegionCollection(doc: StructuredDocument, sd: DocumentRegion, offset: int): (c: Collection)
      ensures c == AsCollection(sd) || exists x :: x in sd.regions && x.Container? && c == ContainerCollection(AsCollection(sd), x)
      ensures var tr := DetermineTextRegion(doc, AsCollection(sd), offset);
        tr.Some? && tr.value.Container? ==> c == ContainerCollection(AsCollection(sd), tr.value)
      ensures var tr := DetermineTextRegion(doc, AsCollection(sd), offset);
        !(tr.Some? && tr.value.Container?) ==> c == AsCollection(sd)
      ensures CollectionWellFormed(AsCollection(sd)) ==> CollectionWellFormed(c)
    {
      var textRegion := DetermineTextRegion(doc, AsCollection(sd), offset);
      if textRegion.Some? && textRegion.value.Container? then
        assert RegionWellFormed(textRegion.value) ==> CollectionWellFormed(ContainerCollection(AsCollection(sd), textRegion.value));
        ContainerCollection(AsCollection(sd), textRegion.value)
      else AsCollection(sd)
    }

    /**
     * `determineTextRegion`. At the end of the document it is the
     * collection's last region. Elsewhere it is the region covering `offset`.
     */
    static function DetermineTextRegion(doc: StructuredDocument, coll: Collection, offset: int): (r: Option<TextRegion>)
      ensures r.Some? ==> r.value in coll.regions
      ensures offset == |doc.text| ==> (r.None? <==> |coll.regions| == 0)
      ensures offset == |doc.text| && r.Some? ==> r.value == coll.regions[|coll.regions| - 1]
      ensures offset != |doc.text| ==> (r.None? <==> forall x :: x in coll.regions ==> !Covers(coll.startOffset, x, offset))
      ensures offset != |doc.text| && r.Some? ==> Covers(coll.startOffset, r.value, offset)
    {
      if offset == |doc.text| then LastRegion(coll) else RegionAt(coll, offset)
    }

    /** Region-local offset 0 of the script region, as an absolute document offset. */
    function Base(): int
      reads this
      requires regionCollection.Some? && twigScriptRegion.Some?
    {
      regionCollection.value.startOffset + twigScriptRegion.value.start
    }

    /**
     * `getTwigToken(o)`, as the index of the token. It fails with no context
     * while the region is unresolved.
     */
    function TwigTokenIndex(o: int): (r: Result<nat, Fault>)
      reads this
      requires Valid()
      ensures (regionCollection.None? || twigScriptRegion.None?) ==> r == Failure(NoContext)
      ensures regionCollection.Some? && twigScriptRegion.Some? ==> r == TokenIndexIn(regionCollection.value, twigScriptRegion.value, o)
    {
      if regionCollection.None? || twigScriptRegion.None? then Failure(NoContext)
      else TokenIndexIn(regionCollection.value, twigScriptRegion.value, o)
    }

    /** `getTwigToken(o)`: the token of the script region under the character before `o`. */
    function TwigToken(o: int): (r: Result<Token, Fault>)
      reads this
      requires Valid()
      ensures r.Failure? <==> TwigTokenIndex(o).Failure?
      ensures r.Failure? ==> r.error == TwigTokenIndex(o).error
      ensures r.Success? ==> r.value in twigScriptRegion.value.tokens
    {
      var i :- TwigTokenIndex(o);
      Success(twigScriptRegion.value.tokens[i])
    }

    /**
     * `getPrefixEnd`. It is the absolute end of the text of the token at the
     * cursor. For a quoted string it is one less, which is before the closing quote.
     */
    function PrefixEnd(): (r: Result<int, Fault>)
      reads this
      requires Valid()
      ensures r.Failure? <==> TwigToken(offset).Failure?
      ensures r.Failure? ==> r.error == TwigToken(offset).error
      ensures r.Success? ==>
        var t := TwigToken(offset).value;
        r.value == Base() + t.TextEnd() - (if t.tokenType == ConstantEncapsedString then 1 else 0)
      ensures r.Success? ==>
        var t := TwigToken(offset).value;
        Base() + t.start <= r.value + 1 && r.value <= Base() + t.End()
        && (r.value == Base() + t.TextEnd() - 1 <==> t.tokenType == ConstantEncapsedString)
    {
      var t :- TwigToken(offset);
      var endOffset := regionCollection.value.startOffset + twigScriptRegion.value.start + t.TextEnd();
      if t.tokenType == ConstantEncapsedString then Success(endOffset - 1) else Success(endOffset)
    }

    /**
     * The do-while loop shared by `getNextTwigToken()` and
     * `getNextTwigToken(int)`. From token `i` it looks up the token at that
     * token's end, again and again. It stops at a token that is neither
     * whitespace nor a comment, or at a token that ends at the end of the region.
     */
    method AdvanceToken(tok: Token, ghost i: nat) returns (next: Token)
      requires Valid() && twigScriptRegion.Some?
      requires i < |twigScriptRegion.value.tokens| && tok == twigScriptRegion.value.tokens[i]
      ensures next == twigScriptRegion.value.tokens[NextSignificant(twigScriptRegion.value.tokens, i)]
    {
      var s := twigScriptRegion.value;
      TokenAtEnd(s.tokens, i);
      var found := TokenIndexAt(s.tokens, tok.End());
      ghost var j := found.value;
      next := s.tokens[found.value];
      while Skipped(next) && next.End() < s.length
        invariant j < |s.tokens| && next == s.tokens[j]
        invariant NextFrom(s.tokens, j) == NextSignificant(s.tokens, i)
        decreases |s.tokens| - j
      {
        TokenAtEnd(s.tokens, j);
        found := TokenIndexAt(s.tokens, next.End());
        j := found.value;
        next := s.tokens[found.value];
      }
      if j < |s.tokens| - 1 {
        TokensOrdered(s.tokens, j, |s.tokens| - 1);
      }
    }

    /**
     * The token at absolute offset `o`, then the do-while search past it: the
     * body shared by `getNextTwigToken()` and each round of
     * `getNextTwigToken(times)`. Ghost `j` is the index of the token found.
     */
    method NextTwigTokenAt(o: int) returns (r: Result<Token, Fault>, ghost j: nat)
      requires Valid()
      ensures r.Failure? <==> TwigTokenIndex(o).Failure?
      ensures r.Failure? ==> r.error == TwigTokenIndex(o).error
      ensures r.Success? ==>
        && j == NextSignificant(twigScriptRegion.value.tokens, TwigTokenIndex(o).value)
        && r.value == twigScriptRegion.value.tokens[j]
    {
      var found := TwigTokenIndex(o);
      if found.Failure? {
        return Failure(found.error), 0;
      }
      var twigToken := AdvanceToken(twigScriptRegion.value.tokens[found.value], found.value);
      r, j := Success(twigToken), NextSignificant(twigScriptRegion.value.tokens, found.value);
    }

    /**
     * A later round of `getNextTwigToken(times)`: started at the end of token
     * `k`, the lookup finds token `k` again and cannot fail.
     */
    method NextTwigTokenAfter(o: int, ghost k: nat) returns (next: Token, ghost j: nat)
      requires Valid() && regionCollection.Some? && twigScriptRegion.Some?
      requires k < |twigScriptRegion.value.tokens| && o == Base() + twigScriptRegion.value.tokens[k].End()
      ensures next == twigScriptRegion.value.tokens[NextSignificant(twigScriptRegion.value.tokens, k)]
      ensures j == NextSignificant(twigScriptRegion.value.tokens, k)
    {
      TokenEndRoundTrip(regionCollection.value, twigScriptRegion.value, k);
      var r;
      r, j := NextTwigTokenAt(o);
      next := r.value;
    }

    /** `getNextTwigToken()`: the next significant token after the token at the cursor. */
    method NextTwigToken() returns (r: Result<Token, Fault>)
      requires Valid()
      ensures r.Failure? <==> TwigTokenIndex(offset).Failure?
      ensures r.Failure? ==> r.error == TwigTokenIndex(offset).error
      ensures r.Success? ==> r.value == twigScriptRegion.value.tokens[NextSignificant(twigScriptRegion.value.tokens, TwigTokenIndex(offset).value)]
    {
      ghost var j;
      r, j := NextTwigTokenAt(offset);
    }

    /**
     * `getNextTwigToken(times)`: `times` rounds of the search, each starting
     * from the end of the token the previous round found. Nothing is searched
     * when `times <= 0`.
     */
    method NextTwigTokenTimes(times: int) returns (r: Result<Option<Token>, Fault>)
      requires Valid()
      ensures times <= 0 ==> r == Success(None)
      ensures times > 0 ==> (r.Failure? <==> TwigTokenIndex(offset).Failure?)
      ensures times > 0 && r.Failure? ==> r.error == TwigTokenIndex(offset).error
      ensures times > 0 && r.Success? ==>
        r.value == Some(twigScriptRegion.value.tokens[IterateNext(twigScriptRegion.value.tokens, TwigTokenIndex(offset).value, times)])
    {
      if times <= 0 {
        return Success(None);
      }
      // The first round may fail; every later round starts at the end of a
      // token the previous round found, so its lookup always succeeds.
      var next;
      ghost var k: nat;
      next, k := NextTwigTokenAt(offset);
      if next.Failure? {
        return Failure(next.error);
      }
      ghost var first := TwigTokenIndex(offset).value;
      var twigToken;
      ghost var last;
      twigToken, last := LaterRounds(next.value, k, times - 1);
      IterateNextShift(twigScriptRegion.value.tokens, first, times - 1);
      r := Success(Some(twigToken));
    }

    /**
     * The loop of `getNextTwigToken(times)` after its first round: `rounds`
     * more rounds, each starting at the absolute end of the token the previous
     * round found.
     */
    method LaterRounds(found: Token, ghost k0: nat, rounds: nat) returns (twigToken: Token, ghost k: nat)
      requires Valid() && regionCollection.Some? && twigScriptRegion.Some?
      requires k0 < |twigScriptRegion.value.tokens| && found == twigScriptRegion.value.tokens[k0]
      ensures twigToken == twigScriptRegion.value.tokens[IterateNext(twigScriptRegion.value.tokens, k0, rounds)]
      ensures k == IterateNext(twigScriptRegion.value.tokens, k0, rounds)
    {
      var coll := regionCollection.value;
      var s := twigScriptRegion.value;
      twigToken, k := found, k0;
      var o := coll.startOffset + s.start + twigToken.End();
      var t := rounds;
      while t > 0
        invariant 0 <= t <= rounds
        invariant k < |s.tokens| && k == IterateNext(s.tokens, k0, rounds - t)
        invariant twigToken == s.tokens[k] && o == coll.startOffset + s.start + twigToken.End()
      {
        ghost var done := rounds - t;
        t := t - 1;
        twigToken, k := NextTwigTokenAfter(o, k);
        assert k == IterateNext(s.tokens, k0, done + 1);
        o := coll.startOffset + s.start + twigToken.End();
      }
    }

    /** The document text of token `t` of the script region, read at its absolute start with its text length. */
    function TokenText(t: Token): (r: Result<string, Fault>)
      reads this
      requires regionCollection.Some? && twigScriptRegion.Some?
      ensures document.None? ==> r == Failure(NoContext)
      ensures r.Success? ==>
        && document.Some? && 0 <= Base() + t.start && 0 <= t.textLength && Base() + t.TextEnd() <= |document.value.text|
        && r.value == document.value.text[Base() + t.start..Base() + t.TextEnd()]
    {
      if document.None? then Failure(NoContext)
      else DocumentGet(document.value, regionCollection.value.startOffset + twigScriptRegion.value.start + t.start, t.textLength)
    }

    /** `getNextWord()`: the document text of the next significant token. */
    method NextWord() returns (r: Result<string, Fault>)
      requires Valid()
      ensures TwigTokenIndex(offset).Failure? ==> r == Failure(TwigTokenIndex(offset).error)
      ensures TwigTokenIndex(offset).Success? ==>
        r == TokenText(twigScriptRegion.value.tokens[NextSignificant(twigScriptRegion.value.tokens, TwigTokenIndex(offset).value)])
    {
      var next := NextTwigToken();
      if next.Failure? {
        return Failure(next.error);
      }
      var nextToken := next.value;
      if document.None? {
        return Failure(NoContext);
      }
      r := DocumentGet(document.value, regionCollection.value.startOffset + twigScriptRegion.value.start + nextToken.start, nextToken.textLength);
    }

    /** `getNextWord(times)`: the document text of the token `getNextTwigToken(times)` finds. */
    method NextWordTimes(times: int) returns (r: Result<string, Fault>)
      requires Valid()
      ensures times <= 0 ==> r == Failure(NoToken)
      ensures times > 0 && TwigTokenIndex(offset).Failure? ==> r == Failure(TwigTokenIndex(offset).error)
      ensures times > 0 && TwigTokenIndex(offset).Success? ==>
        r == TokenText(twigScriptRegion.value.tokens[IterateNext(twigScriptRegion.value.tokens, TwigTokenIndex(offset).value, times)])
    {
      var next := NextTwigTokenTimes(times);
      if next.Failure? {
        return Failure(next.error);
      }
      if next.value.None? {
        return Failure(NoToken);
      }
      var nextToken := next.value.value;
      if document.None? {
        return Failure(NoContext);
      }
      r := DocumentGet(document.value, regionCollection.value.startOffset + twigScriptRegion.value.start + nextToken.start, nextToken.textLength);
    }

    /**
     * `getNextChar`: the character at the cursor. At the end of the document
     * it is a space, so that no offset past the text is read.
     */
    function NextChar(): (r: Result<char, Fault>)
      reads this
      ensures document.None? ==> r == Failure(NoContext)
      ensures document.Some? ==> (r.Success? <==> 0 <= offset <= |document.value.text|)
      ensures r.Success? && offset == |document.value.text| ==> r.value == ' '
      ensures r.Success? && offset < |document.value.text| ==> r.value == document.value.text[offset]
      ensures r.Failure? && document.Some? ==> r.error == BadLocation
    {
      if document.None? then Failure(NoContext)
      else if |document.value.text| == offset then Success(' ')
      else if 0 <= offset < |document.value.text| then Success(document.value.text[offset])
      else Failure(BadLocation)
    }
  }
}
