/** What the JSON reader refuses: which error it is, and at which place. */
module JsonErrors {
  import opened Codec
  import opened JsonText
  import opened JsonGrammar
  import opened JsonLexemes
  import opened JsonLayout
  import opened Wrappers

  // ---- Strings.

  /** The error of a string that goes on at q with a line end or with an escape that is not one. */
  predicate StringFails(t: Text, q: nat, e: Error, at: nat)
    requires q < |t|
  {
    || ((t[q] == 0 || t[q] == 10 || t[q] == 13) && e == MissingEndQuote && at == q + 1)
    || (t[q] == '\\' as int && q + 1 < |t| && t[q + 1] == 0 && e == IncompleteEscape && at == q + 2)
    || (t[q] == '\\' as int && q + 2 < |t| && t[q + 1] == 'u' as int && e == InvalidUnicodeEscape
        && BadDigit(t, q + 2, 4, at))
  }

  /** The first of n characters that is no hexadecimal digit is the one before at. */
  predicate BadDigit(t: Text, p: nat, n: nat, at: nat)
    decreases n
  {
    n > 0 && p < |t| && if IsHex(t[p]) then BadDigit(t, p + 1, n - 1, at) else at == p + 1
  }

  lemma {:induction false} BadDigitRead(t: Text, p: nat, n: nat, u: nat, at: nat)
    requires n <= 4 && u < [65536, 4096, 256, 16, 1][n] && BadDigit(t, p, n, at)
    ensures ScanHex(t, p, n, u) == Err(InvalidUnicodeEscape, at)
    decreases n
  {
    if IsHex(t[p]) {
      assert 16 * u + HexValue(t[p]) < [65536, 4096, 256, 16, 1][n - 1];
      BadDigitRead(t, p + 1, n - 1, 16 * u + HexValue(t[p]), at);
    }
  }

  lemma FailsAt(t: Text, q: nat, acc: bytes, e: Error, at: nat)
    requires q < |t| && StringFails(t, q, e, at)
    ensures ScanString(t, q, acc) == Err(e, at)
  {
    if t[q] == '\\' as int && t[q + 1] == 'u' as int {
      BadDigitRead(t, q + 2, 4, 0, at);
    }
  }

  /** However many good pieces stand in front of it, such a place is the error of the string. */
  lemma {:induction false} StringError(t: Text, p: nat, ps: seq<Piece>, acc: bytes, e: Error, at: nat)
    requires WellPieces(ps) && At(t, p, PiecesText(ps)) && p + |PiecesText(ps)| < |t|
    requires StringFails(t, p + |PiecesText(ps)|, e, at)
    ensures p < |t| && ScanString(t, p, acc) == Err(e, at)
    decreases |ps|
  {
    hide At, PieceText, PieceValue, WellPiece, StringFails, ScanString;
    if ps == [] {
      FailsAt(t, p, acc, e, at);
    } else {
      assert WellPieces(ps[1..]);
      AtSplit(t, p, PieceText(ps[0]), PiecesText(ps[1..]));
      PieceRead(t, p, ps[0], acc);
      StringError(t, p + |PieceText(ps[0])|, ps[1..], acc + PieceValue(ps[0]), e, at);
    }
  }

  // ---- Values that are not containers.

  /** What starts like a value and is none: a word that is not one of the three, or any other character. */
  predicate NoValue(t: Text, p: nat)
    requires p < |t|
  {
    if t[p] == 'n' as int then !At(t, p, LexemeText(NullWord))
    else if t[p] == 't' as int then !At(t, p, LexemeText(BoolWord(true)))
    else if t[p] == 'f' as int then !At(t, p, LexemeText(BoolWord(false)))
    else !StartsScalar(t[p]) && !Opens(t[p])
  }

  /** A value that is none is refused where it starts, and the error of a string or a number is the error of the value.
      */
  lemma ScalarError(t: Text, p: nat)
    requires p < |t| && !Opens(t[p])
    ensures NoValue(t, p) ==> Scalar(t, p) == Err(UnrecognizedCharacter, p)
    ensures t[p] == '"' as int && ScanString(t, p + 1, []).Err? ==>
              Scalar(t, p) == Err(ScanString(t, p + 1, []).error, ScanString(t, p + 1, []).pos)
    ensures (Digit(t[p]) || t[p] == '-' as int || t[p] == '.' as int) && ScanNumber(t, p).Err? ==>
              Scalar(t, p) == Err(ScanNumber(t, p).error, ScanNumber(t, p).pos)
  {
    hide At, ScanString, ScanNumber, Letters;
    WordRead(t, p, NULL_TEXT);
    WordRead(t, p, TRUE_TEXT);
    WordRead(t, p, FALSE_TEXT);
  }

  // ---- Containers.

  /** Where a key is expected there must be a quote, and behind the key a colon. */
  lemma KeyError(t: Text, p: nat)
    requires p < |t|
    ensures t[p] != '"' as int ==> Key(t, p, true) == Err(ExpectedKey, p)
    ensures t[p] == '"' as int ==>
              var k := ScanString(t, p + 1, []);
              && (k.Err? ==> Key(t, p, true) == Err(k.error, k.pos))
              && (k.Ok? ==>
                    var r := SkipWhite(t, k.pos);
                    && (r == |t| ==> Key(t, p, true) == Overrun)
                    && (r < |t| && t[r] != ':' as int ==> Key(t, p, true) == Err(MissingColon, r)))
  {
    hide ScanString, SkipWhite;
  }

  /** Behind an opening character there must be no comma; behind a value there must be a comma or the end, and what is
      found instead is another error behind a container. Text that ends in between is run over. */
  lemma RestError(t: Text, isObject: bool, elems: seq<Elem<bytes>>, prev: Prev, p: nat)
    requires p < |t|
    ensures var q, o := SkipWhite(t, p), Rest(t, isObject, elems, prev, p);
            && (q == |t| ==> o == Overrun)
            && (q < |t| && prev == First && t[q] == ',' as int ==> o == Err(UnexpectedComma, q))
            && (q < |t| && t[q] != ',' as int && t[q] != (if isObject then '}' as int else ']' as int) ==>
                  && (prev == AfterScalar ==> o == Err(ExpectedCommaOrEnd, q))
                  && (prev == AfterNode ==> o == Err(UnexpectedCharacter, q + 1)))
  {
    hide SkipWhite, Element;
  }

  /** The error of a key, of a value or of an inner container is the error of the container; so is running over the
      end. */
  lemma ElementError(t: Text, isObject: bool, elems: seq<Elem<bytes>>, p: nat)
    requires p < |t|
    ensures var o, k := Element(t, isObject, elems, p), Key(t, p, isObject);
            && (k.Err? ==> o == Err(k.error, k.pos)) && (k.Overrun? ==> o == Overrun)
            && (k.Ok? && Opens(t[k.pos]) ==>
                  var r := Rest(t, t[k.pos] == '{' as int, [], First, k.pos + 1);
                  (r.Err? ==> o == Err(r.error, r.pos)) && (r.Overrun? ==> o == Overrun))
            && (k.Ok? && !Opens(t[k.pos]) && Scalar(t, k.pos).Err? ==>
                  o == Err(Scalar(t, k.pos).error, Scalar(t, k.pos).pos))
  {
    hide Key, Rest, Scalar;
  }

  // ---- Documents.

  /** A text with nothing but whitespace, a text that starts with something other than a container, an error inside the
      container, and a text that goes on behind it. */
  lemma DocumentError(t: Text, before: bytes, last: bool)
    requires Outside(before, last) && At(t, 0, before) && |before| < |t|
    ensures last && t[|before|] == 0 ==> ParseDocument(t) == Err(NothingToDeserialize, |before|)
    ensures !last && Stops(t, |before|) && t[|before|] != '{' as int && t[|before|] != '[' as int ==>
              ParseDocument(t) == Err(RootNotContainer, |before|)
    ensures !last && (t[|before|] == '{' as int || t[|before|] == '[' as int) ==>
              var o := Rest(t, t[|before|] == '{' as int, [], First, |before| + 1);
              && (o.Err? ==> ParseDocument(t) == Err(o.error, o.pos))
              && (o.Overrun? ==> ParseDocument(t) == Overrun)
              && (o.Ok? && t[SkipOutside(t, o.pos)] != 0 ==>
                    ParseDocument(t) == Err(DataAfterDocument, SkipOutside(t, o.pos)))
  {
    hide At, Outside, Rest, SkipOutside;
    if last && t[|before|] == 0 {
      OutsideOver(t, 0, before, true);
    }
    if !last && Stops(t, |before|) {
      OutsideOver(t, 0, before, false);
    }
  }
}
