/**
 * Pure helpers of the operator console: MIME inference from a file name,
 * blob-id list normalisation, the ConfirmDuplicate id fallbacks and keys, and
 * how a dispatch response is shown.
 */
module Console {
  import opened Wrappers
  import opened Text
  import opened JsValues
  import opened Envelope
  import CorrelationKeys

  // ---------------------------------------------------------------------------
  // inferMimeType
  // ---------------------------------------------------------------------------

  const OctetStream: string := "application/octet-stream"

  /** The suffix checks on an already trimmed, lower-cased name, first match wins. */
  function MimeOfNormalized(normalized: string): (r: string)
    ensures r in {"application/pdf", "image/png", "image/jpeg", "image/tiff", OctetStream}
    ensures r == OctetStream <==> forall e :: MimeOfExtension(e).Some? ==> !EndsWith(normalized, e)
  {
    if EndsWith(normalized, ".pdf") then "application/pdf"
    else if EndsWith(normalized, ".png") then "image/png"
    else if EndsWith(normalized, ".jpg") || EndsWith(normalized, ".jpeg") then "image/jpeg"
    else if EndsWith(normalized, ".tif") || EndsWith(normalized, ".tiff") then "image/tiff"
    else OctetStream
  }

  /** `inferMimeType`: trim, lower-case, then match the suffix. */
  function InferMimeType(fileName: string): (r: string)
    ensures r in {"application/pdf", "image/png", "image/jpeg", "image/tiff", OctetStream}
    ensures r == OctetStream <==>
              forall e :: MimeOfExtension(e).Some? ==> !EndsWith(ToLowerAscii(JsTrim(fileName)), e)
  {
    MimeOfNormalized(ToLowerAscii(JsTrim(fileName)))
  }


  /** Reference table: each recognised extension and its MIME type. */
  function MimeOfExtension(ext: string): Option<string> {
    if ext == ".pdf" then Some("application/pdf")
    else if ext == ".png" then Some("image/png")
    else if ext == ".jpg" || ext == ".jpeg" then Some("image/jpeg")
    else if ext == ".tif" || ext == ".tiff" then Some("image/tiff")
    else None
  }

  /** A name that ends in `a` does not end in `b` when `a`'s tail of `b`'s length differs from `b`. */
  lemma SuffixExcludes(n: string, a: string, b: string)
    requires EndsWith(n, a) && |b| <= |a| && a[|a| - |b|..] != b
    ensures !EndsWith(n, b)
  {
    assert n[|n| - |b|..] == a[|a| - |b|..];
  }

  /** A name ending in a recognised (lower-case) extension gets that extension's type. */
  lemma NormalizedSuffixDecides(n: string, lext: string)
    requires MimeOfExtension(lext).Some? && EndsWith(n, lext)
    ensures MimeOfNormalized(n) == MimeOfExtension(lext).value
  {
    if lext == ".png" {
      SuffixExcludes(n, lext, ".pdf");
    } else if lext == ".jpg" {
      SuffixExcludes(n, lext, ".pdf");
      SuffixExcludes(n, lext, ".png");
    } else if lext == ".jpeg" {
      SuffixExcludes(n, lext, ".pdf");
      SuffixExcludes(n, lext, ".png");
    } else if lext == ".tif" || lext == ".tiff" {
      TiffSuffixDecides(n, lext);
    }
  }

  lemma TiffSuffixDecides(n: string, lext: string)
    requires (lext == ".tif" || lext == ".tiff") && EndsWith(n, lext)
    ensures MimeOfNormalized(n) == "image/tiff"
  {
    SuffixExcludes(n, lext, ".pdf");
    SuffixExcludes(n, lext, ".png");
    SuffixExcludes(n, lext, ".jpg");
    if lext == ".tiff" {
      SuffixExcludes(n, lext, ".jpeg");
    }
  }

  lemma RecognisedLowerShape(lext: string)
    requires MimeOfExtension(lext).Some?
    ensures |lext| >= 4 && lext[0] == '.' && 'a' <= lext[|lext| - 1] <= 'z'
  {
  }

  lemma LetterIsNotWhitespace(c: char)
    requires 'a' <= LowerChar(c) <= 'z'
    ensures !IsJsWhitespace(c)
  {
  }

  lemma RecognisedExtensionShape(ext: string)
    requires MimeOfExtension(ToLowerAscii(ext)).Some?
    ensures |ext| >= 4 && ext[0] == '.' && !IsJsWhitespace(ext[|ext| - 1])
  {
    var lext := ToLowerAscii(ext);
    RecognisedLowerShape(lext);
    var first, last := ext[0], ext[|ext| - 1];
    assert LowerChar(first) == '.';
    assert 'a' <= LowerChar(last) <= 'z';
    LetterIsNotWhitespace(last);
  }

  /**
   * A recognised extension decides the type whatever the stem, the letter
   * case of the extension, or whitespace in front of the name.
   */
  lemma ExtensionDecidesMime(stem: string, ext: string)
    requires MimeOfExtension(ToLowerAscii(ext)).Some?
    ensures InferMimeType(stem + ext) == MimeOfExtension(ToLowerAscii(ext)).value
  {
    RecognisedExtensionShape(ext);
    TrimKeepsSolidSuffix(stem, ext, IsJsWhitespace);
    LowerKeepsSuffix(JsTrim(stem + ext), ext);
    NormalizedSuffixDecides(ToLowerAscii(JsTrim(stem + ext)), ToLowerAscii(ext));
  }

  // ---------------------------------------------------------------------------
  // normalizeBlobIds
  // ---------------------------------------------------------------------------

  const DefaultBlobId: string := "blob-default"

  /** `map((s) => s.trim())`. */
  function TrimAll(segments: seq<string>): (r: seq<string>)
    ensures |r| == |segments|
    ensures forall k :: 0 <= k < |r| ==> r[k] == JsTrim(segments[k]) && Unpadded(r[k], IsJsWhitespace)
  {
    if |segments| == 0 then []
    else
      TrimIdempotent(segments[0], IsJsWhitespace);
      UnpaddedIff(JsTrim(segments[0]), IsJsWhitespace);
      [JsTrim(segments[0])] + TrimAll(segments[1..])
  }

  /** `filter((s) => s.length > 0)`. */
  function DropEmpty(xs: seq<string>): (r: seq<string>)
    ensures |r| <= |xs|
    ensures forall x :: x in r <==> x in xs && x != ""
  {
    if |xs| == 0 then []
    else (if xs[0] != "" then [xs[0]] else []) + DropEmpty(xs[1..])
  }

  /** Every non-blank segment is kept as often as it occurs, and no blank one is. */
  lemma {:induction false} DropEmptyCounts(xs: seq<string>)
    ensures multiset(DropEmpty(xs)) == multiset(xs)["" := 0]
  {
    if |xs| > 0 {
      assert xs == [xs[0]] + xs[1..];
      DropEmptyCounts(xs[1..]);
    }
  }

  /**
   * Filtering distributes over concatenation, so the kept segments stay in
   * input order: together with the multiset clause this pins `DropEmpty`
   * down to the order-preserving filter.
   */
  lemma {:induction false} DropEmptyAppend(a: seq<string>, b: seq<string>)
    ensures DropEmpty(a + b) == DropEmpty(a) + DropEmpty(b)
  {
    if |a| > 0 {
      assert (a + b)[1..] == a[1..] + b;
      DropEmptyAppend(a[1..], b);
    } else {
      assert a + b == b;
    }
  }

  /** `map` distributes over concatenation. */
  lemma {:induction false} TrimAllAppend(a: seq<string>, b: seq<string>)
    ensures TrimAll(a + b) == TrimAll(a) + TrimAll(b)
  {
    if |a| > 0 {
      assert (a + b)[1..] == a[1..] + b;
      TrimAllAppend(a[1..], b);
    } else {
      assert a + b == b;
    }
  }

  lemma KeptSegmentsAreClean(segments: seq<string>)
    ensures var t := TrimAll(segments);
            var parsed := DropEmpty(t);
            && (forall i :: 0 <= i < |parsed| ==> parsed[i] != "" && Unpadded(parsed[i], IsJsWhitespace))
            && (|parsed| == 0 <==> forall x :: x in t ==> x == "")
  {
    var t := TrimAll(segments);
    var parsed := DropEmpty(t);
    forall i | 0 <= i < |parsed| ensures parsed[i] != "" && Unpadded(parsed[i], IsJsWhitespace) {
      assert parsed[i] in parsed;
      var k :| 0 <= k < |t| && t[k] == parsed[i];
    }
    if |parsed| > 0 {
      assert parsed[0] in parsed;
    } else {
      forall x | x in t ensures x == "" {
        assert x != "" ==> x in parsed;
      }
    }
  }

  /** Trim the segments, drop blanks, fall back to the default id. */
  function NormalizeSegments(segments: seq<string>): (r: seq<string>)
    ensures |r| >= 1
    ensures forall i :: 0 <= i < |r| ==> r[i] != "" && Unpadded(r[i], IsJsWhitespace)
    ensures var t := TrimAll(segments);
            if exists x :: x in t && x != "" then (forall x :: x in r <==> x in t && x != "")
            else r == [DefaultBlobId]
  {
    var parsed := DropEmpty(TrimAll(segments));
    KeptSegmentsAreClean(segments);
    if |parsed| == 0 then [DefaultBlobId]
    else
      parsed
  }

  /** When some segment holds an id, each non-blank trimmed segment is kept exactly as often as it occurs. */
  lemma NormalizeSegmentsCounts(segments: seq<string>)
    ensures (exists x :: x in TrimAll(segments) && x != "") ==>
              multiset(NormalizeSegments(segments)) == multiset(TrimAll(segments))["" := 0]
  {
    DropEmptyCounts(TrimAll(segments));
  }

  /**
   * The kept ids come out in input order: segments that each hold a
   * non-blank id normalise to the concatenation of their results.
   */
  lemma NormalizeSegmentsAppend(a: seq<string>, b: seq<string>)
    ensures (exists x :: x in TrimAll(a) && x != "") && (exists x :: x in TrimAll(b) && x != "") ==>
              NormalizeSegments(a + b) == NormalizeSegments(a) + NormalizeSegments(b)
  {
    TrimAllAppend(a, b);
    DropEmptyAppend(TrimAll(a), TrimAll(b));
  }

  /**
   * `normalizeBlobIds`: split on commas, trim, drop blanks, and fall back to
   * the single default id when nothing is left.
   */
  function NormalizeBlobIds(input: string): seq<string> {
    NormalizeSegments(Split(input, ','))
  }

  /** A list of clean ids survives a round trip through its comma-joined text. */
  lemma NormalizeJoinRoundTrip(ids: seq<string>)
    requires |ids| >= 1
    requires forall i :: 0 <= i < |ids| ==> ids[i] != "" && Unpadded(ids[i], IsJsWhitespace) && ',' !in ids[i]
    ensures NormalizeBlobIds(Join(ids, ',')) == ids
  {
    SplitJoin(ids, ',');
    CleanSegmentsKept(ids);
  }

  /** Segments that are already trimmed and non-blank come through `NormalizeSegments` unchanged. */
  lemma CleanSegmentsKept(ids: seq<string>)
    requires |ids| >= 1
    requires forall i :: 0 <= i < |ids| ==> ids[i] != "" && Unpadded(ids[i], IsJsWhitespace)
    ensures NormalizeSegments(ids) == ids
  {
    TrimAllOfUnpadded(ids);
    DropEmptyOfNonEmpty(ids);
    assert DropEmpty(TrimAll(ids)) == ids;
  }

  lemma TrimAllOfUnpadded(xs: seq<string>)
    requires forall i :: 0 <= i < |xs| ==> Unpadded(xs[i], IsJsWhitespace)
    ensures TrimAll(xs) == xs
  {
    var t := TrimAll(xs);
    forall i | 0 <= i < |xs| ensures t[i] == xs[i] {
      UnpaddedIff(xs[i], IsJsWhitespace);
    }
  }

  lemma {:induction false} DropEmptyOfNonEmpty(xs: seq<string>)
    requires forall i :: 0 <= i < |xs| ==> xs[i] != ""
    ensures DropEmpty(xs) == xs
  {
    if |xs| > 0 {
      DropEmptyOfNonEmpty(xs[1..]);
      assert xs == [xs[0]] + xs[1..];
    }
  }

  /** No normalised id holds a comma: each is a trimmed segment of the split, or the default. */
  lemma NormalizedIdsHaveNoComma(input: string)
    ensures forall i :: 0 <= i < |NormalizeBlobIds(input)| ==> ',' !in NormalizeBlobIds(input)[i]
  {
    var segments := Split(input, ',');
    var t := TrimAll(segments);
    var parsed := DropEmpty(t);
    forall k | 0 <= k < |t| ensures ',' !in t[k] {
      TrimKeepsAbsence(segments[k], IsJsWhitespace, ',');
    }
    if |parsed| > 0 {
      assert NormalizeBlobIds(input) == parsed;
      forall i | 0 <= i < |parsed| ensures ',' !in parsed[i] {
        assert parsed[i] in parsed;
      }
    } else {
      assert NormalizeBlobIds(input) == [DefaultBlobId];
    }
  }

  /** Normalising an already normalised list, written back as text, changes nothing. */
  lemma NormalizeIsStable(input: string)
    ensures NormalizeBlobIds(Join(NormalizeBlobIds(input), ',')) == NormalizeBlobIds(input)
  {
    NormalizedIdsHaveNoComma(input);
    NormalizeJoinRoundTrip(NormalizeBlobIds(input));
  }

  // ---------------------------------------------------------------------------
  // ConfirmDuplicate from the console
  // ---------------------------------------------------------------------------

  /** `a.trim() || fallback`. */
  function TrimmedOr(input: string, fallback: string): string {
    var t := JsTrim(input);
    if t != "" then t else fallback
  }

  datatype DuplicateIds = DuplicateIds(sessionId: string, documentId: string, duplicateOfId: string)

  /**
   * The ids a console ConfirmDuplicate uses: typed ids win, then the last
   * imported documents, then ids derived from the session. `lastSession` and
   * `randomSession` stand for the remembered session and `crypto.randomUUID()`.
   */
  function ResolveDuplicateIds(sessionInput: string, lastSession: string, randomSession: string,
                               documentInput: string, duplicateOfInput: string,
                               lastImported: seq<string>): (r: DuplicateIds)
    ensures JsTrim(sessionInput) != "" ==> r.sessionId == JsTrim(sessionInput)
    ensures JsTrim(sessionInput) == "" && lastSession != "" ==> r.sessionId == lastSession
    ensures JsTrim(sessionInput) == "" && lastSession == "" ==> r.sessionId == "session-" + randomSession
    ensures JsTrim(documentInput) != "" ==> r.documentId == JsTrim(documentInput)
    ensures JsTrim(documentInput) == "" && |lastImported| > 0 ==> r.documentId == lastImported[0]
    ensures JsTrim(documentInput) == "" && |lastImported| == 0 ==> r.documentId == r.sessionId + ":doc-duplicate"
    ensures JsTrim(duplicateOfInput) != "" ==> r.duplicateOfId == JsTrim(duplicateOfInput)
    ensures JsTrim(duplicateOfInput) == "" && |lastImported| > 1 ==> r.duplicateOfId == lastImported[1]
    ensures JsTrim(duplicateOfInput) == "" && |lastImported| == 1 ==> r.duplicateOfId == lastImported[0]
    ensures JsTrim(duplicateOfInput) == "" && |lastImported| == 0 ==>
              r.duplicateOfId == r.sessionId + ":doc-original"
  {
    var session := TrimmedOr(sessionInput, if lastSession != "" then lastSession else "session-" + randomSession);
    var fallbackDocument := if |lastImported| > 0 then lastImported[0] else session + ":doc-duplicate";
    var fallbackOriginal := if |lastImported| > 1 then lastImported[1]
                            else if |lastImported| > 0 then lastImported[0]
                            else session + ":doc-original";
    DuplicateIds(session, TrimmedOr(documentInput, fallbackDocument), TrimmedOr(duplicateOfInput, fallbackOriginal))
  }

  /**
   * With exactly one imported document and no ids typed in, the console
   * confirms that document as a duplicate of itself.
   */
  lemma SingleImportPairsWithItself(sessionInput: string, lastSession: string, randomSession: string,
                                    documentInput: string, duplicateOfInput: string, imported: string)
    requires AllWhitespace(documentInput, IsJsWhitespace) && AllWhitespace(duplicateOfInput, IsJsWhitespace)
    ensures var r := ResolveDuplicateIds(sessionInput, lastSession, randomSession, documentInput,
                                         duplicateOfInput, [imported]);
            r.documentId == imported && r.duplicateOfId == imported
  {
    TrimEmptyIff(documentInput, IsJsWhitespace);
    TrimEmptyIff(duplicateOfInput, IsJsWhitespace);
  }

  datatype DuplicateCorrelation = DuplicateCorrelation(pairKey: string, deterministicKey: string)

  /** The console's correlation keys for a resolved ConfirmDuplicate. */
  function ConsoleDuplicateKeys(ids: DuplicateIds): DuplicateCorrelation {
    DuplicateCorrelation(CorrelationKeys.PairKey(ids.documentId, ids.duplicateOfId),
                         CorrelationKeys.DeterministicKey(ids.sessionId, ids.documentId, ids.duplicateOfId))
  }

  /** Swapping the two document ids gives the same keys. */
  lemma ConsoleKeysIgnoreOrder(ids: DuplicateIds)
    ensures ConsoleDuplicateKeys(ids)
         == ConsoleDuplicateKeys(ids.(documentId := ids.duplicateOfId, duplicateOfId := ids.documentId))
  {
    CorrelationKeys.KeysSymmetric(ids.sessionId, ids.documentId, ids.duplicateOfId);
  }

  // ---------------------------------------------------------------------------
  // Showing a dispatch response
  // ---------------------------------------------------------------------------

  /** `response.ok`. */
  predicate ResponseOk(status: int) {
    200 <= status <= 299
  }

  /** The body's `mutation_applied` as JavaScript truthiness reads it (absent is falsy). */
  function BodyMutationApplied(body: ResponseBody): bool {
    match body
    case Rejected(_, m, _) => m
    case Accepted(_, _, m, _) => m
    case AcceptedBare(_, _) => false
  }

  function BodyEventAppended(body: ResponseBody): bool {
    match body
    case Rejected(_, _, e) => e
    case Accepted(_, _, _, e) => e
    case AcceptedBare(_, _) => false
  }

  /**
   * The shape shared by the mutation and event indicators: the `shown` word
   * whenever the body's flag says so, otherwise `none` for an accepted
   * response or a 400, and the `rejected` word for any other failure.
   */
  function FlagDisplay(status: int, flag: bool, shown: string, rejected: string): (r: string)
    requires shown != "none" && rejected != "none" && shown != rejected
    ensures r in {shown, rejected, "none"}
    ensures r == shown <==> flag
    ensures r == rejected <==> !flag && !ResponseOk(status) && status != 400
  {
    if !ResponseOk(status) then
      if flag then shown else if status == 400 then "none" else rejected
    else if flag then shown else "none"
  }

  /** The mutation indicator. */
  function MutationDisplay(status: int, mutationApplied: bool): string {
    FlagDisplay(status, mutationApplied, "applied", "not-applied")
  }

  /** The event indicator. */
  function EventAppendDisplay(status: int, eventAppended: bool): string {
    FlagDisplay(status, eventAppended, "appended", "not-appended")
  }

  /**
   * How the console shows the two servers' answers: every rejection as
   * `none`/`none`; the local API server's acceptance as `applied`/`appended`;
   * the dev server's acceptance, which omits both flags, as `none`/`none`.
   */
  lemma ConsoleShowsRouteOutcome(read: BodyRead)
    ensures var resp := LocalApiDispatchRoute(read);
            MutationDisplay(resp.statusCode, BodyMutationApplied(resp.body))
              == (if resp.statusCode == 202 then "applied" else "none")
            && EventAppendDisplay(resp.statusCode, BodyEventAppended(resp.body))
              == (if resp.statusCode == 202 then "appended" else "none")
    ensures var resp := DevServerDispatchRoute(read);
            MutationDisplay(resp.statusCode, BodyMutationApplied(resp.body)) == "none"
            && EventAppendDisplay(resp.statusCode, BodyEventAppended(resp.body)) == "none"
  {
    RejectionsApplyNothing(read);
    RoutesAgree(read);
  }

  /** `audit-history-preserved`: more than one audit-log entry. */
  function AuditHistoryPreserved<T>(auditLog: Option<seq<T>>): (r: string)
    ensures r in {"true", "false"}
    ensures r == "true" <==> auditLog.Some? && |auditLog.value| > 1
  {
    if auditLog.Some? && |auditLog.value| > 1 then "true" else "false"
  }
}
